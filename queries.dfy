/**
 * The two read queries of the dashboard, as functions of a snapshot of the
 * sensor_data table and of whether a connection to the store could be opened.
 */
module Queries {
  import opened Readings
  import opened HourLabels

  // ---------------------------------------------------------------------------
  // Latest reading of a parcel (SELECT TOP 1 ... ORDER BY timestamp DESC)
  // ---------------------------------------------------------------------------

  /** `x` is a row of `parcelId` and no row of that parcel is newer. */
  ghost predicate IsLatest(rows: seq<Reading>, parcelId: string, x: Reading)
  {
    && x in rows
    && x.parcelId == parcelId
    && forall i :: 0 <= i < |rows| && rows[i].parcelId == parcelId ==> rows[i].timestamp <= x.timestamp
  }

  /**
   * Some newest row of the parcel. Among rows with equal timestamps the store may
   * return any; this one keeps the last in table order, and the contract promises
   * only some maximal row.
   */
  function LatestOf(rows: seq<Reading>, parcelId: string): (r: Option<Reading>)
    ensures r.None? <==> forall i :: 0 <= i < |rows| ==> rows[i].parcelId != parcelId
    ensures r.Some? ==> IsLatest(rows, parcelId, r.value)
    decreases |rows|
  {
    if rows == [] then None
    else
      var init, last := rows[..|rows| - 1], rows[|rows| - 1];
      assert rows == init + [last];
      var best := LatestOf(init, parcelId);
      if last.parcelId != parcelId then best
      else if best.Some? && best.value.timestamp > last.timestamp then best
      else Some(last)
  }

  /** get_latest_data: absent without a connection or without a row for the parcel. */
  function GetLatestData(connected: bool, rows: seq<Reading>, parcelId: string): (r: Option<Reading>)
    ensures r.None? <==> !connected || forall i :: 0 <= i < |rows| ==> rows[i].parcelId != parcelId
    ensures r.Some? ==> IsLatest(rows, parcelId, r.value)
  {
    if !connected then None else LatestOf(rows, parcelId)
  }

  // ---------------------------------------------------------------------------
  // Hourly series (GROUP BY FORMAT(timestamp, 'HH:00') ... ORDER BY hour)
  // ---------------------------------------------------------------------------

  /** One output row of the series: an hour label and the mean moisture under it. */
  datatype HourAvg = HourAvg(hour: string, avgMoisture: real)

  /** The WHERE clause: the parcel matches and the row is no older than `since`. */
  predicate InWindow(r: Reading, parcelId: string, since: int)
  {
    r.parcelId == parcelId && r.timestamp >= since
  }

  /** Start of the trailing window of `hours` hours before `now` (DATEADD(hour, -hours, now)). */
  function WindowStart(now: int, hours: int): int
  {
    now - hours * MINUTES_PER_HOUR
  }

  /** The moistures of the window's rows whose hour of day is `h`, in table order. */
  function Bucket(rows: seq<Reading>, parcelId: string, since: int, h: nat): seq<real>
    decreases |rows|
  {
    if rows == [] then []
    else
      var last := rows[|rows| - 1];
      Bucket(rows[..|rows| - 1], parcelId, since, h)
        + (if InWindow(last, parcelId, since) && HourOf(last.timestamp) == h then [last.soilMoisture] else [])
  }

  function Sum(s: seq<real>): real
  {
    if s == [] then 0.0 else Sum(s[..|s| - 1]) + s[|s| - 1]
  }

  /** Arithmetic mean, AVG of a non-empty group. */
  function Mean(s: seq<real>): real
    requires |s| > 0
  {
    Sum(s) / |s| as real
  }

  /** AVG over a group, absent for an hour that has no row. */
  function GroupAverage(b: seq<real>): Option<real>
  {
    if b == [] then None else Some(Mean(b))
  }

  /** GROUP BY hour of day with AVG(soil_moisture): position h holds hour h's average, if any. */
  function GroupByHour(rows: seq<Reading>, parcelId: string, since: int): (g: seq<Option<real>>)
    ensures |g| == HOURS_PER_DAY
  {
    seq(HOURS_PER_DAY, h requires 0 <= h < HOURS_PER_DAY => GroupAverage(Bucket(rows, parcelId, since, h)))
  }

  /** The output row of hour h: its label and average, or nothing when the hour has no row. */
  function HourEntry(g: seq<Option<real>>, h: nat): seq<HourAvg>
    requires |g| == HOURS_PER_DAY && h < HOURS_PER_DAY
  {
    if g[h].None? then [] else [HourAvg(HourLabel(h), g[h].value)]
  }

  /** The output rows for hours h..23, in label order, skipping hours that have no row. */
  function SeriesFrom(g: seq<Option<real>>, h: nat): seq<HourAvg>
    requires |g| == HOURS_PER_DAY && h <= HOURS_PER_DAY
    decreases HOURS_PER_DAY - h
  {
    if h == HOURS_PER_DAY then []
    else HourEntry(g, h) + SeriesFrom(g, h + 1)
  }

  /** get_time_series_data: empty without a connection. */
  function GetTimeSeriesData(connected: bool, rows: seq<Reading>, parcelId: string, now: int, hours: int)
    : (s: seq<HourAvg>)
    ensures !connected ==> s == []
    ensures |s| <= HOURS_PER_DAY
  {
    if !connected then []
    else
      var g := GroupByHour(rows, parcelId, WindowStart(now, hours));
      SeriesFromLength(g, 0);
      SeriesFrom(g, 0)
  }

  // ---------------------------------------------------------------------------
  // Lemmas about the buckets
  // ---------------------------------------------------------------------------

  /** A bucket holds exactly the moistures of the window's rows at that hour. */
  lemma {:induction false} BucketMembers(rows: seq<Reading>, parcelId: string, since: int, h: nat, x: real)
    ensures x in Bucket(rows, parcelId, since, h) <==>
      exists i :: 0 <= i < |rows| && InWindow(rows[i], parcelId, since)
        && HourOf(rows[i].timestamp) == h && rows[i].soilMoisture == x
    decreases |rows|
  {
    if rows != [] {
      var init := rows[..|rows| - 1];
      BucketMembers(init, parcelId, since, h, x);
      assert forall i :: 0 <= i < |init| ==> init[i] == rows[i];
    }
  }

  /** Row `r` lies in the window, at hour `h`, with moisture `x`. */
  predicate Contributes(r: Reading, parcelId: string, since: int, h: nat, x: real)
  {
    InWindow(r, parcelId, since) && HourOf(r.timestamp) == h && r.soilMoisture == x
  }

  /** The positions of the rows that put moisture `x` into the bucket of hour `h`. */
  ghost function Hits(rows: seq<Reading>, parcelId: string, since: int, h: nat, x: real): set<int>
  {
    set i | 0 <= i < |rows| && Contributes(rows[i], parcelId, since, h, x)
  }

  /** Appending a row adds its own position to the hits exactly when it contributes. */
  lemma HitsSnoc(rows: seq<Reading>, r: Reading, parcelId: string, since: int, h: nat, x: real)
    ensures Hits(rows + [r], parcelId, since, h, x)
         == Hits(rows, parcelId, since, h, x) + (if Contributes(r, parcelId, since, h, x) then {|rows|} else {})
  {
    var xs := rows + [r];
    assert forall i :: 0 <= i < |rows| ==> xs[i] == rows[i];
  }

  /**
   * A bucket holds each moisture as many times as the window has rows at that
   * hour with that moisture, so AVG weighs repeated readings by their count.
   */
  lemma {:induction false} BucketCount(rows: seq<Reading>, parcelId: string, since: int, h: nat, x: real)
    ensures multiset(Bucket(rows, parcelId, since, h))[x] == |Hits(rows, parcelId, since, h, x)|
    decreases |rows|
  {
    if rows != [] {
      var n := |rows| - 1;
      var init, last := rows[..n], rows[n];
      BucketCount(init, parcelId, since, h, x);
      assert rows == init + [last];
      HitsSnoc(init, last, parcelId, since, h, x);
      assert n !in Hits(init, parcelId, since, h, x);
    }
  }

  /** A bucket is empty exactly when the window has no row at that hour. */
  lemma BucketEmpty(rows: seq<Reading>, parcelId: string, since: int, h: nat)
    ensures Bucket(rows, parcelId, since, h) == [] <==>
      forall i :: 0 <= i < |rows| && InWindow(rows[i], parcelId, since) ==> HourOf(rows[i].timestamp) != h
  {
    var b := Bucket(rows, parcelId, since, h);
    if b != [] {
      BucketMembers(rows, parcelId, since, h, b[0]);
    } else {
      forall i | 0 <= i < |rows| && InWindow(rows[i], parcelId, since)
        ensures HourOf(rows[i].timestamp) != h
      {
        BucketMembers(rows, parcelId, since, h, rows[i].soilMoisture);
      }
    }
  }

  /** Rows outside the window do not change any bucket. */
  lemma BucketIgnores(rows: seq<Reading>, r: Reading, parcelId: string, since: int, h: nat)
    requires !InWindow(r, parcelId, since)
    ensures Bucket(rows + [r], parcelId, since, h) == Bucket(rows, parcelId, since, h)
  {
    assert (rows + [r])[..|rows|] == rows;
  }

  /** If every value lies in [lo, hi], so does their sum scaled by the count. */
  lemma {:induction false} SumBounds(s: seq<real>, lo: real, hi: real)
    requires forall i :: 0 <= i < |s| ==> lo <= s[i] <= hi
    ensures lo * |s| as real <= Sum(s) <= hi * |s| as real
    decreases |s|
  {
    if s != [] {
      SumBounds(s[..|s| - 1], lo, hi);
    }
  }

  /** If every value lies in [lo, hi], so does their mean. */
  lemma MeanBounds(s: seq<real>, lo: real, hi: real)
    requires |s| > 0
    requires forall i :: 0 <= i < |s| ==> lo <= s[i] <= hi
    ensures lo <= Mean(s) <= hi
  {
    SumBounds(s, lo, hi);
    var n := |s| as real;
    assert lo * n <= Sum(s) <= hi * n;
    assert Mean(s) * n == Sum(s);
  }

  // ---------------------------------------------------------------------------
  // Lemmas about the series built from the hourly averages
  // ---------------------------------------------------------------------------

  lemma {:induction false} SeriesFromLength(g: seq<Option<real>>, h: nat)
    requires |g| == HOURS_PER_DAY && h <= HOURS_PER_DAY
    ensures |SeriesFrom(g, h)| <= HOURS_PER_DAY - h
    decreases HOURS_PER_DAY - h
  {
    if h < HOURS_PER_DAY {
      SeriesFromLength(g, h + 1);
    }
  }

  /** Every entry is the mean of a non-empty group at an hour k >= h, under k's label. */
  lemma {:induction false} SeriesFromEntries(g: seq<Option<real>>, h: nat)
    requires |g| == HOURS_PER_DAY && h <= HOURS_PER_DAY
    ensures forall e :: e in SeriesFrom(g, h) ==>
      exists k :: h <= k < HOURS_PER_DAY && g[k].Some? && e == HourAvg(HourLabel(k), g[k].value)
    decreases HOURS_PER_DAY - h
  {
    if h < HOURS_PER_DAY {
      SeriesFromEntries(g, h + 1);
    }
  }

  /** Every non-empty group at an hour k >= h has its entry. */
  lemma {:induction false} SeriesFromComplete(g: seq<Option<real>>, h: nat, k: nat)
    requires |g| == HOURS_PER_DAY && h <= k < HOURS_PER_DAY && g[k].Some?
    ensures HourAvg(HourLabel(k), g[k].value) in SeriesFrom(g, h)
    decreases k - h
  {
    if h < k {
      SeriesFromComplete(g, h + 1, k);
    }
  }

  /** The hours h..23 whose group is non-empty, in ascending order. */
  function HoursFrom(g: seq<Option<real>>, h: nat): seq<nat>
    requires |g| == HOURS_PER_DAY && h <= HOURS_PER_DAY
    decreases HOURS_PER_DAY - h
  {
    if h == HOURS_PER_DAY then []
    else (if g[h].None? then [] else [h]) + HoursFrom(g, h + 1)
  }

  /** `hs` lists hours of the day from `lo` on, strictly ascending. */
  ghost predicate AscendingFrom(hs: seq<nat>, lo: nat)
  {
    && (forall i :: 0 <= i < |hs| ==> lo <= hs[i] < HOURS_PER_DAY)
    && (forall i, j :: 0 <= i < j < |hs| ==> hs[i] < hs[j])
  }

  /** Putting no hour, or hour h, before a list of later hours keeps it ascending from h. */
  lemma PrefixAscending(pre: seq<nat>, h: nat, hs: seq<nat>)
    requires pre == [] || pre == [h]
    requires h < HOURS_PER_DAY && AscendingFrom(hs, h + 1)
    ensures AscendingFrom(pre + hs, h)
  {
    var xs := pre + hs;
    forall i, j | 0 <= i < j < |xs|
      ensures xs[i] < xs[j]
    {
      assert xs[j] == hs[j - |pre|];
      if i >= |pre| { assert xs[i] == hs[i - |pre|]; }
    }
  }

  /** HoursFrom lists hours from h..23, strictly ascending. */
  lemma {:induction false} HoursFromAscending(g: seq<Option<real>>, h: nat)
    requires |g| == HOURS_PER_DAY && h <= HOURS_PER_DAY
    ensures AscendingFrom(HoursFrom(g, h), h)
    decreases HOURS_PER_DAY - h
  {
    if h < HOURS_PER_DAY {
      HoursFromAscending(g, h + 1);
      PrefixAscending(if g[h].None? then [] else [h], h, HoursFrom(g, h + 1));
    }
  }

  /** SeriesFrom carries, position by position, the labels of the hours HoursFrom lists. */
  lemma {:induction false} SeriesFromHours(g: seq<Option<real>>, h: nat)
    requires |g| == HOURS_PER_DAY && h <= HOURS_PER_DAY
    ensures var s, hs := SeriesFrom(g, h), HoursFrom(g, h);
      && |s| == |hs|
      && (forall i :: 0 <= i < |s| ==> hs[i] < HOURS_PER_DAY && s[i].hour == HourLabel(hs[i]))
    decreases HOURS_PER_DAY - h
  {
    if h < HOURS_PER_DAY {
      HoursFromAscending(g, h);
      SeriesFromHours(g, h + 1);
      var s, hs := SeriesFrom(g, h), HoursFrom(g, h);
      var s', hs' := SeriesFrom(g, h + 1), HoursFrom(g, h + 1);
      if g[h].Some? {
        assert s == [HourAvg(HourLabel(h), g[h].value)] + s' && hs == [h] + hs';
        assert forall i :: 0 < i < |s| ==> s[i] == s'[i - 1] && hs[i] == hs'[i - 1];
      }
    }
  }

  /** Hours with no rows contribute nothing: the series from h is the series from k0. */
  lemma {:induction false} SeriesFromSkip(g: seq<Option<real>>, h: nat, k0: nat)
    requires |g| == HOURS_PER_DAY && h <= k0 <= HOURS_PER_DAY
    requires forall k :: h <= k < k0 ==> g[k].None?
    ensures SeriesFrom(g, h) == SeriesFrom(g, k0)
    decreases k0 - h
  {
    if h < k0 {
      SeriesFromSkip(g, h + 1, k0);
    }
  }

  /** When only hour k0 has rows, the series from h <= k0 is that one entry. */
  lemma SeriesFromSingle(g: seq<Option<real>>, h: nat, k0: nat)
    requires |g| == HOURS_PER_DAY && h <= k0 < HOURS_PER_DAY && g[k0].Some?
    requires forall k :: h <= k < HOURS_PER_DAY && k != k0 ==> g[k].None?
    ensures SeriesFrom(g, h) == [HourAvg(HourLabel(k0), g[k0].value)]
  {
    SeriesFromSkip(g, h, k0);
    SeriesFromSkip(g, k0 + 1, HOURS_PER_DAY);
  }

  /** Labels of strictly ascending hours are strictly ascending as text. */
  lemma LabelsAscending(s: seq<HourAvg>, hs: seq<nat>)
    requires |s| == |hs|
    requires forall i :: 0 <= i < |s| ==> hs[i] < HOURS_PER_DAY && s[i].hour == HourLabel(hs[i])
    requires forall i, j :: 0 <= i < j < |hs| ==> hs[i] < hs[j]
    ensures forall i, j :: 0 <= i < j < |s| ==> LexLess(s[i].hour, s[j].hour) && s[i].hour != s[j].hour
  {
    forall i, j | 0 <= i < j < |s|
      ensures LexLess(s[i].hour, s[j].hour) && s[i].hour != s[j].hour
    {
      LabelOrder(hs[i], hs[j]);
      LabelRoundTrip(hs[i]);
      LabelRoundTrip(hs[j]);
    }
  }

  // ---------------------------------------------------------------------------
  // Lemmas about get_time_series_data
  // ---------------------------------------------------------------------------

  /**
   * Every entry of the series stands for an hour at which the window holds a row
   * of the parcel, carries that hour's label and the mean moisture of its bucket.
   */
  lemma TimeSeriesEntries(connected: bool, rows: seq<Reading>, parcelId: string, now: int, hours: int, e: HourAvg)
    requires e in GetTimeSeriesData(connected, rows, parcelId, now, hours)
    ensures connected
    ensures exists k :: (0 <= k < HOURS_PER_DAY && e.hour == HourLabel(k)
      && Bucket(rows, parcelId, WindowStart(now, hours), k) != []
      && e.avgMoisture == Mean(Bucket(rows, parcelId, WindowStart(now, hours), k)))
    ensures exists i :: (0 <= i < |rows| && rows[i].parcelId == parcelId
      && rows[i].timestamp >= WindowStart(now, hours) && e.hour == HourLabel(HourOf(rows[i].timestamp)))
  {
    var since := WindowStart(now, hours);
    var g := GroupByHour(rows, parcelId, since);
    SeriesFromEntries(g, 0);
    var k :| 0 <= k < HOURS_PER_DAY && g[k].Some? && e == HourAvg(HourLabel(k), g[k].value);
    assert g[k] == GroupAverage(Bucket(rows, parcelId, since, k));
    BucketEmpty(rows, parcelId, since, k);
  }

  /** Every hour at which the window holds a row of the parcel has its entry. */
  lemma TimeSeriesComplete(rows: seq<Reading>, parcelId: string, now: int, hours: int, i: int)
    requires 0 <= i < |rows|
    requires rows[i].parcelId == parcelId && rows[i].timestamp >= WindowStart(now, hours)
    ensures var k := HourOf(rows[i].timestamp);
      var b := Bucket(rows, parcelId, WindowStart(now, hours), k);
      b != [] && HourAvg(HourLabel(k), Mean(b)) in GetTimeSeriesData(true, rows, parcelId, now, hours)
  {
    var since := WindowStart(now, hours);
    var g := GroupByHour(rows, parcelId, since);
    var k := HourOf(rows[i].timestamp);
    BucketEmpty(rows, parcelId, since, k);
    assert g[k] == GroupAverage(Bucket(rows, parcelId, since, k));
    SeriesFromComplete(g, 0, k);
  }

  /** The labels are strictly ascending, so no hour appears twice. */
  lemma TimeSeriesSorted(connected: bool, rows: seq<Reading>, parcelId: string, now: int, hours: int)
    ensures var s := GetTimeSeriesData(connected, rows, parcelId, now, hours);
      forall i, j :: 0 <= i < j < |s| ==> LexLess(s[i].hour, s[j].hour) && s[i].hour != s[j].hour
  {
    if connected {
      var g := GroupByHour(rows, parcelId, WindowStart(now, hours));
      SeriesFromHours(g, 0);
      HoursFromAscending(g, 0);
      LabelsAscending(SeriesFrom(g, 0), HoursFrom(g, 0));
    }
  }

  /** A row of another parcel, or older than the window, does not change the series. */
  lemma TimeSeriesIgnoresOutside(connected: bool, rows: seq<Reading>, r: Reading, parcelId: string, now: int, hours: int)
    requires r.parcelId != parcelId || r.timestamp < WindowStart(now, hours)
    ensures GetTimeSeriesData(connected, rows + [r], parcelId, now, hours)
         == GetTimeSeriesData(connected, rows, parcelId, now, hours)
  {
    var since := WindowStart(now, hours);
    var g, g' := GroupByHour(rows, parcelId, since), GroupByHour(rows + [r], parcelId, since);
    forall h | 0 <= h < HOURS_PER_DAY
      ensures g'[h] == g[h]
    {
      BucketIgnores(rows, r, parcelId, since, h);
      assert g'[h] == GroupAverage(Bucket(rows + [r], parcelId, since, h));
    }
    assert g' == g;
  }

  /** When every stored moisture lies in [lo, hi], so does every hourly average. */
  lemma TimeSeriesWithin(connected: bool, rows: seq<Reading>, parcelId: string, now: int, hours: int, lo: real, hi: real)
    requires forall i :: 0 <= i < |rows| ==> lo <= rows[i].soilMoisture <= hi
    ensures forall e :: e in GetTimeSeriesData(connected, rows, parcelId, now, hours) ==> lo <= e.avgMoisture <= hi
  {
    var since := WindowStart(now, hours);
    forall e | e in GetTimeSeriesData(connected, rows, parcelId, now, hours)
      ensures lo <= e.avgMoisture <= hi
    {
      TimeSeriesEntries(connected, rows, parcelId, now, hours, e);
      var k :| 0 <= k < HOURS_PER_DAY && e.hour == HourLabel(k)
        && Bucket(rows, parcelId, since, k) != []
        && e.avgMoisture == Mean(Bucket(rows, parcelId, since, k));
      var b := Bucket(rows, parcelId, since, k);
      forall j | 0 <= j < |b| ensures lo <= b[j] <= hi {
        BucketMembers(rows, parcelId, since, k, b[j]);
      }
      MeanBounds(b, lo, hi);
    }
  }
}
