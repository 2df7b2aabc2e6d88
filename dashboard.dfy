/**
 * The data half of the dashboard route: the view model handed to the template
 * (the rendering itself is not modelled).
 */
module Dashboard {
  import opened Readings
  import opened Alerts
  import opened HourLabels
  import opened Queries

  /** Width of the chart's trailing window, in hours. */
  const CHART_HOURS: int := 12

  /** What the dashboard shows for one parcel. */
  datatype ParcelView = ParcelView(moisture: real, temp: real, alert: Alert)

  /** The view model: per-parcel cards, the parcel list, and the chart's two parallel lists. */
  datatype DashboardView = DashboardView(
    parcels: map<string, ParcelView>,
    parcelIds: seq<string>,
    chartLabels: seq<string>,
    chartValues: seq<real>)

  /** The chart's label list: the hour of each series entry. */
  function Hours(s: seq<HourAvg>): seq<string>
  {
    seq(|s|, i requires 0 <= i < |s| => s[i].hour)
  }

  /** The chart's value list: the average moisture of each series entry. */
  function Averages(s: seq<HourAvg>): seq<real>
  {
    seq(|s|, i requires 0 <= i < |s| => s[i].avgMoisture)
  }

  /**
   * dashboard: a card for exactly those known parcels that have a latest reading,
   * each with that reading's moisture and temperature and the alert for its
   * moisture; the chart is the first parcel's 12-hour series when that parcel has
   * a reading, and empty otherwise.
   */
  /** The chart lists show `series` entry by entry: its labels, and its averages beside them. */
  predicate ChartShows(view: DashboardView, series: seq<HourAvg>)
  {
    && |view.chartLabels| == |series|
    && |view.chartValues| == |series|
    && forall i :: 0 <= i < |series| ==>
      view.chartLabels[i] == series[i].hour && view.chartValues[i] == series[i].avgMoisture
  }

  /** The chart is empty. */
  predicate ChartEmpty(view: DashboardView)
  {
    view.chartLabels == [] && view.chartValues == []
  }

  method BuildDashboard(connected: bool, rows: seq<Reading>, now: int) returns (view: DashboardView)
    ensures view.parcelIds == PARCELS
    ensures forall p :: p in view.parcels <==> p in PARCELS && GetLatestData(connected, rows, p).Some?
    ensures forall p :: p in view.parcels ==>
      var d := GetLatestData(connected, rows, p).value;
      && IsLatest(rows, p, d)
      && view.parcels[p].moisture == d.soilMoisture
      && view.parcels[p].temp == d.airTemp
      && view.parcels[p].alert == CheckForAlerts(view.parcels[p].moisture)
    ensures |view.chartLabels| == |view.chartValues|
    ensures var series := GetTimeSeriesData(connected, rows, PARCELS[0], now, CHART_HOURS);
      if GetLatestData(connected, rows, PARCELS[0]).Some? then ChartShows(view, series) else ChartEmpty(view)
  {
    ParcelsDistinct();
    var latestData: map<string, ParcelView> := map[];
    var labels: seq<string> := [];
    var moistureValues: seq<real> := [];
    ghost var firstHasData := GetLatestData(connected, rows, PARCELS[0]).Some?;
    ghost var series := GetTimeSeriesData(connected, rows, PARCELS[0], now, CHART_HOURS);
    var i := 0;
    while i < |PARCELS|
      invariant 0 <= i <= |PARCELS|
      invariant forall p :: p in latestData <==> p in PARCELS[..i] && GetLatestData(connected, rows, p).Some?
      invariant forall p :: p in latestData ==>
        var d := GetLatestData(connected, rows, p).value;
        latestData[p] == ParcelView(d.soilMoisture, d.airTemp, CheckForAlerts(d.soilMoisture))
      invariant if 0 < i && firstHasData then labels == Hours(series) && moistureValues == Averages(series)
                else labels == [] && moistureValues == []
    {
      var parcelId := PARCELS[i];
      var data := GetLatestData(connected, rows, parcelId);
      if data.Some? {
        var alert := CheckForAlerts(data.value.soilMoisture);
        if parcelId == PARCELS[0] {
          var chartDataRaw := GetTimeSeriesData(connected, rows, parcelId, now, CHART_HOURS);
          labels := Hours(chartDataRaw);
          moistureValues := Averages(chartDataRaw);
        }
        latestData := latestData[parcelId := ParcelView(data.value.soilMoisture, data.value.airTemp, alert)];
      }
      assert PARCELS[..i + 1] == PARCELS[..i] + [parcelId];
      i := i + 1;
    }
    assert PARCELS[..i] == PARCELS;
    view := DashboardView(latestData, PARCELS, labels, moistureValues);
  }

  /** The chart's labels name distinct hours in ascending order. */
  lemma ChartSorted(connected: bool, rows: seq<Reading>, now: int, view: DashboardView)
    requires ChartEmpty(view) || ChartShows(view, GetTimeSeriesData(connected, rows, PARCELS[0], now, CHART_HOURS))
    ensures forall i, j :: 0 <= i < j < |view.chartLabels| ==> LexLess(view.chartLabels[i], view.chartLabels[j])
  {
    TimeSeriesSorted(connected, rows, PARCELS[0], now, CHART_HOURS);
  }

  /** When every stored moisture lies in [lo, hi], so does every value on the chart. */
  lemma ChartWithin(connected: bool, rows: seq<Reading>, now: int, view: DashboardView, lo: real, hi: real)
    requires forall i :: 0 <= i < |rows| ==> lo <= rows[i].soilMoisture <= hi
    requires ChartEmpty(view) || ChartShows(view, GetTimeSeriesData(connected, rows, PARCELS[0], now, CHART_HOURS))
    ensures forall i :: 0 <= i < |view.chartValues| ==> lo <= view.chartValues[i] <= hi
  {
    var series := GetTimeSeriesData(connected, rows, PARCELS[0], now, CHART_HOURS);
    TimeSeriesWithin(connected, rows, PARCELS[0], now, CHART_HOURS, lo, hi);
    assert forall i :: 0 <= i < |series| ==> series[i] in series;
  }
}
