/** The one table of the system, sensor_data, and the fixed list of known parcels. */
module Readings {

  /** Absent-or-present value; the store's "no row" and "no connection" answers. */
  datatype Option<+T> = None | Some(value: T)

  /**
   * One row of sensor_data. `id` is the store's identity column and `timestamp`
   * its insertion-time default, counted here in whole minutes on the store's clock.
   * Moisture and temperature are exact reals: the application only compares them
   * with constants and averages them.
   */
  datatype Reading = Reading(
    id: int,
    parcelId: string,
    timestamp: int,
    soilMoisture: real,
    airTemp: real)

  /** The known parcels, in the order the dashboard lists them. */
  const PARCELS: seq<string> := ["Tarla A (Buğday)", "Tarla B (Mısır)"]

  /** No parcel is listed twice, so each position of PARCELS names a different parcel. */
  lemma ParcelsDistinct()
    ensures |PARCELS| == 2
    ensures forall i, j :: 0 <= i < j < |PARCELS| ==> PARCELS[i] != PARCELS[j]
  {
    assert PARCELS[0][6] == 'A' && PARCELS[1][6] == 'B';
  }
}
