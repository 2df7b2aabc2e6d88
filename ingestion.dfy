/**
 * The store and the periodic ingestion tick: one synthetic reading per known
 * parcel, appended to sensor_data when a connection can be opened.
 */
module Ingestion {
  import opened Readings
  import opened Queries

  /** Bounds of the simulated values (random.uniform(15.0, 50.0) and (18.0, 35.0)). */
  const MOISTURE_MIN: real := 15.0
  const MOISTURE_MAX: real := 50.0
  const TEMP_MIN: real := 18.0
  const TEMP_MAX: real := 35.0

  /** One simulated draw: the values written for one parcel in one tick. */
  datatype Draw = Draw(moisture: real, temp: real)

  predicate DrawInRange(d: Draw)
  {
    MOISTURE_MIN <= d.moisture <= MOISTURE_MAX && TEMP_MIN <= d.temp <= TEMP_MAX
  }

  /**
   * The rows one connected tick appends: position i is PARCELS[i]'s reading,
   * with the identity value firstId + i and the insertion time `now`.
   */
  function TickRows(firstId: int, now: int, draws: seq<Draw>): seq<Reading>
    requires |draws| == |PARCELS|
  {
    seq(|PARCELS|, i requires 0 <= i < |PARCELS| =>
      Reading(firstId + i, PARCELS[i], now, draws[i].moisture, draws[i].temp))
  }

  /** A tick writes one row per parcel, in PARCELS order, each with its own draw. */
  lemma TickRowsPerParcel(firstId: int, now: int, draws: seq<Draw>)
    requires |draws| == |PARCELS|
    ensures |TickRows(firstId, now, draws)| == |PARCELS|
    ensures forall i :: 0 <= i < |PARCELS| ==>
      var r := TickRows(firstId, now, draws)[i];
      r.parcelId == PARCELS[i] && r.timestamp == now
      && r.soilMoisture == draws[i].moisture && r.airTemp == draws[i].temp
  {
  }

  /** Every row a tick writes has its simulated values within the stated bounds. */
  lemma TickRowsInRange(firstId: int, now: int, draws: seq<Draw>)
    requires |draws| == |PARCELS|
    requires forall i :: 0 <= i < |draws| ==> DrawInRange(draws[i])
    ensures forall r :: r in TickRows(firstId, now, draws) ==>
      MOISTURE_MIN <= r.soilMoisture <= MOISTURE_MAX && TEMP_MIN <= r.airTemp <= TEMP_MAX
  {
  }

  /** Identity values strictly increase along the table. */
  ghost predicate IdsIncreasing(rows: seq<Reading>)
  {
    forall i, j :: 0 <= i < j < |rows| ==> rows[i].id < rows[j].id
  }

  /**
   * The store: the sensor_data table, whether a connection can be opened, and the
   * next identity value the table will hand out.
   */
  class Store {
    var rows: seq<Reading>
    var connected: bool
    var nextId: int

    /** Identity values are unique, increasing and below the next one to be handed out. */
    ghost predicate Valid()
      reads this
    {
      && IdsIncreasing(rows)
      && (forall i :: 0 <= i < |rows| ==> rows[i].id < nextId)
    }

    /** A freshly created, empty table (identity values start at 1). */
    constructor (connected: bool)
      ensures Valid()
      ensures rows == [] && this.connected == connected && nextId == 1
    {
      rows := [];
      this.connected := connected;
      nextId := 1;
    }

    /**
     * One INSERT of (parcel_id, soil_moisture, air_temp): the store supplies the
     * identity value and the insertion time.
     */
    method Insert(parcelId: string, moisture: real, temp: real, now: int)
      requires Valid() && connected
      modifies this
      ensures Valid() && connected
      ensures rows == old(rows) + [Reading(old(nextId), parcelId, now, moisture, temp)]
      ensures nextId == old(nextId) + 1
    {
      rows := rows + [Reading(nextId, parcelId, now, moisture, temp)];
      nextId := nextId + 1;
    }

    /**
     * simulate_and_insert_data: without a connection nothing changes; with one,
     * each parcel of PARCELS, in order, gets one new row with its draw, and the
     * rows already stored stay as they were.
     */
    method SimulateAndInsertData(now: int, draws: seq<Draw>)
      requires Valid()
      requires |draws| == |PARCELS|
      requires forall i :: 0 <= i < |draws| ==> DrawInRange(draws[i])
      modifies this
      ensures Valid() && connected == old(connected)
      ensures !connected ==> rows == old(rows) && nextId == old(nextId)
      ensures connected ==> rows == old(rows) + TickRows(old(nextId), now, draws)
      ensures connected ==> nextId == old(nextId) + |PARCELS|
    {
      if !connected {
        return;
      }
      var i := 0;
      while i < |PARCELS|
        invariant 0 <= i <= |PARCELS|
        invariant Valid() && connected
        invariant nextId == old(nextId) + i
        invariant rows == old(rows) + TickRows(old(nextId), now, draws)[..i]
      {
        Insert(PARCELS[i], draws[i].moisture, draws[i].temp, now);
        i := i + 1;
      }
    }
  }

  /**
   * Once a tick has run at a time later than every stored reading, the latest
   * reading of each parcel is exactly the row that tick wrote for it.
   */
  lemma LatestAfterTick(rows: seq<Reading>, firstId: int, now: int, draws: seq<Draw>, k: nat)
    requires |draws| == |PARCELS| && k < |PARCELS|
    requires forall i :: 0 <= i < |rows| ==> rows[i].timestamp < now
    ensures GetLatestData(true, rows + TickRows(firstId, now, draws), PARCELS[k])
         == Some(TickRows(firstId, now, draws)[k])
  {
    var added := TickRows(firstId, now, draws);
    var all := rows + added;
    ParcelsDistinct();
    assert all[|rows| + k] == added[k];
    var r := GetLatestData(true, all, PARCELS[k]);
    var x := r.value;
    assert x.timestamp >= now;
    var n :| 0 <= n < |all| && all[n] == x;
    assert n >= |rows|;
    assert all[n] == added[n - |rows|];
  }
}
