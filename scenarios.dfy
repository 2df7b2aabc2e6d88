/** Worked examples of the queries and the alert rule on small tables. */
module Scenarios {
  import opened Readings
  import opened Alerts
  import opened HourLabels
  import opened Queries

  /** The example table: parcel A read 18.0 at 10:05 and 22.0 at 10:40, parcel B 40.0 at 10:10. */
  function MorningRows(): seq<Reading>
  {
    [Reading(1, PARCELS[0], 605, 18.0, 20.0),
     Reading(2, PARCELS[0], 640, 22.0, 21.0),
     Reading(3, PARCELS[1], 610, 40.0, 22.0)]
  }

  /** At 11:00 the 12-hour window holds A's 18.0 and 22.0 under hour 10, and nothing else. */
  lemma MorningBuckets()
    ensures var rows, a, since := MorningRows(), PARCELS[0], WindowStart(660, 12);
      && Bucket(rows, a, since, 10) == [18.0, 22.0]
      && forall k :: 0 <= k < HOURS_PER_DAY && k != 10 ==> Bucket(rows, a, since, k) == []
  {
    var rows, a, since := MorningRows(), PARCELS[0], WindowStart(660, 12);
    ParcelsDistinct();
    assert Bucket(rows, a, since, 10) == [18.0, 22.0] by {
      var r1, r2 := rows[..1], rows[..2];
      assert r1 == [rows[0]] && r2 == [rows[0], rows[1]];
      assert r1[..0] == [] && r2[..1] == r1 && rows[..2] == r2;
      assert HourOf(605) == 10 && HourOf(640) == 10;
      assert Bucket(r1, a, since, 10) == [18.0];
      assert Bucket(r2, a, since, 10) == [18.0, 22.0];
      assert !InWindow(rows[2], a, since);
    }
    forall k | 0 <= k < HOURS_PER_DAY && k != 10
      ensures Bucket(rows, a, since, k) == []
    {
      BucketEmpty(rows, a, since, k);
    }
  }

  /** At 11:00 the 12-hour series of parcel A is one 10:00 bucket averaging 20.0. */
  lemma MorningSeries()
    ensures GetTimeSeriesData(true, MorningRows(), PARCELS[0], 660, 12) == [HourAvg("10:00", 20.0)]
  {
    var rows, a, since := MorningRows(), PARCELS[0], WindowStart(660, 12);
    var g := GroupByHour(rows, a, since);
    MorningBuckets();
    assert g[10] == Some(20.0) by {
      var m := [18.0, 22.0];
      assert g[10] == GroupAverage(m);
      assert m[..1] == [18.0] && [18.0][..0] == [];
      assert Sum(m) == 40.0;
    }
    forall k | 0 <= k < HOURS_PER_DAY && k != 10
      ensures g[k].None?
    {
      assert g[k] == GroupAverage(Bucket(rows, a, since, k));
    }
    SeriesFromSingle(g, 0, 10);
    KnownLabels();
  }

  /** Parcel A's latest reading is the 22.0 one, whose alert is orange. */
  lemma MorningLatest()
    ensures GetLatestData(true, MorningRows(), PARCELS[0]) == Some(MorningRows()[1])
    ensures CheckForAlerts(MorningRows()[1].soilMoisture) == ADVISED
  {
    var rows := MorningRows();
    ParcelsDistinct();
    assert rows[1].timestamp > rows[0].timestamp;
  }

  /** The labels these examples meet. */
  lemma KnownLabels()
    ensures HourLabel(0) == "00:00" && HourLabel(10) == "10:00" && HourLabel(23) == "23:00"
  {
  }

  lemma MeanSingle(x: real)
    ensures Mean([x]) == x
  {
    assert [x][..0] == [];
    assert Sum([x]) == Sum([]) + x;
    assert |[x]| as real == 1.0;
  }

  /** Reading r0 falls in hour 23, the later r1 in hour 0, and both lie in the window. */
  lemma MidnightBuckets(r0: Reading, r1: Reading, parcelId: string, since: int)
    requires r0.parcelId == parcelId && r1.parcelId == parcelId
    requires HourOf(r0.timestamp) == 23 && HourOf(r1.timestamp) == 0
    requires since <= r0.timestamp < r1.timestamp
    ensures Bucket([r0, r1], parcelId, since, 0) == [r1.soilMoisture]
    ensures Bucket([r0, r1], parcelId, since, 23) == [r0.soilMoisture]
    ensures forall k :: 1 <= k < HOURS_PER_DAY && k != 23 ==> Bucket([r0, r1], parcelId, since, k) == []
  {
    var rows := [r0, r1];
    assert rows[..1] == [r0] && [r0][..0] == [];
    assert InWindow(r0, parcelId, since) && InWindow(r1, parcelId, since);
    assert [r0][..0] == [] && Bucket([], parcelId, since, 0) == [] && Bucket([], parcelId, since, 23) == [];
    assert Bucket([r0], parcelId, since, 0) == Bucket([], parcelId, since, 0) + [];
    assert Bucket([r0], parcelId, since, 23) == Bucket([], parcelId, since, 23) + [r0.soilMoisture];
    forall k | 1 <= k < HOURS_PER_DAY && k != 23
      ensures Bucket(rows, parcelId, since, k) == []
    {
      BucketEmpty(rows, parcelId, since, k);
    }
  }

  /** Grouped: hour 0 averages r1's moisture, hour 23 r0's, and no other hour has a row. */
  lemma MidnightGroups(r0: Reading, r1: Reading, parcelId: string, since: int)
    requires r0.parcelId == parcelId && r1.parcelId == parcelId
    requires HourOf(r0.timestamp) == 23 && HourOf(r1.timestamp) == 0
    requires since <= r0.timestamp < r1.timestamp
    ensures var g := GroupByHour([r0, r1], parcelId, since);
      && g[0] == Some(r1.soilMoisture) && g[23] == Some(r0.soilMoisture)
      && forall k :: 1 <= k < HOURS_PER_DAY && k != 23 ==> g[k].None?
  {
    var g := GroupByHour([r0, r1], parcelId, since);
    MidnightBuckets(r0, r1, parcelId, since);
    MeanSingle(r0.soilMoisture);
    MeanSingle(r1.soilMoisture);
    assert g[0] == GroupAverage([r1.soilMoisture]);
    assert g[23] == GroupAverage([r0.soilMoisture]);
    forall k | 1 <= k < HOURS_PER_DAY && k != 23
      ensures g[k].None?
    {
      assert g[k] == GroupAverage(Bucket([r0, r1], parcelId, since, k));
    }
  }

  /**
   * The chart's order is the order of the labels, not of time: with a reading
   * at 23:xx and a later one at 00:xx in the window, the later one is listed first.
   */
  lemma MidnightScenario(r0: Reading, r1: Reading, parcelId: string, now: int)
    requires r0.parcelId == parcelId && r1.parcelId == parcelId
    requires HourOf(r0.timestamp) == 23 && HourOf(r1.timestamp) == 0
    requires WindowStart(now, 12) <= r0.timestamp < r1.timestamp
    ensures GetTimeSeriesData(true, [r0, r1], parcelId, now, 12)
         == [HourAvg("00:00", r1.soilMoisture), HourAvg("23:00", r0.soilMoisture)]
  {
    var g := GroupByHour([r0, r1], parcelId, WindowStart(now, 12));
    MidnightGroups(r0, r1, parcelId, WindowStart(now, 12));
    SeriesFromSingle(g, 1, 23);
    KnownLabels();
    assert SeriesFrom(g, 0) == HourEntry(g, 0) + SeriesFrom(g, 1);
  }
}
