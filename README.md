# AgriSense core, modelled in Dafny

AgriSense is a small farm dashboard. A background job writes one simulated
sensor reading (soil moisture, air temperature) per known parcel into one
append-only table, `sensor_data`. A web page then shows three things: the
latest reading of each parcel with an irrigation alert, and a chart of
hourly moisture averages over the last 12 hours for the first parcel.

This project models that logic (all of it sits in `AgriSense/app.py`) and
proves what it promises:

- `readings.dfy` (module `Readings`): the row record `Reading` (`id`,
  `parcelId`, `timestamp` in whole minutes, `soilMoisture`, `airTemp` as
  exact reals) and the fixed, ordered parcel list `PARCELS`.
- `alerts.dfy` (`Alerts`): `check_for_alerts`, a classifier with three bands
  that are half-open (closed below, open above). It keeps the source's
  status texts and its colours red, orange and green.
- `hour_labels.dfy` (`HourLabels`): the hour of day of a timestamp, the
  zero-padded `"HH:00"` label, and the text order `ORDER BY` uses on it.
- `queries.dfy` (`Queries`): `get_latest_data` and `get_time_series_data`.
  Both are pure functions of a table snapshot plus a flag that says
  whether a connection could be opened. The series is a filter, then a
  group-by on hour of day with an average per group, then an ordering by
  label.
- `ingestion.dfy` (`Ingestion`): the store as a class. It holds the table
  (`rows`), the connection flag and the next identity value. The class has
  the single `INSERT` and the ingestion tick `simulate_and_insert_data`,
  which is a loop over `PARCELS` that appends to the table in place.
- `dashboard.dfy` (`Dashboard`): the data half of the `dashboard` route. It
  is a loop over `PARCELS` that fills the per-parcel map and sets the
  chart's label and value lists. Rendering is not modelled.
- `scenarios.dfy` (`Scenarios`): worked examples. One is a small morning
  table. The other shows how the chart orders a window that crosses
  midnight.

Conventions:

- Timestamps are integer minutes on the store's clock.
- The hour of day is `(t / 60) % 24`.
- The trailing window of `hours` hours before `now` is `t >= now - 60 * hours`.
- The clock reading `now` is a parameter.
- The random draws of a tick are a parameter `draws`, constrained by
  `requires` to [15, 50] for moisture and [18, 35] for temperature.

Three behaviours of app.py are easy to misread, and the model keeps them:

- The chart's series is fetched only when the first parcel has a latest
  reading, because the fetch sits inside `if data:`.
- The alert carries the source's Turkish status texts and colours, not
  generic tier names.
- When several rows share the newest timestamp, the model promises only
  *some* row with the maximal timestamp. The source's `TOP 1` leaves the
  choice to the store.

## Model

| member | source | states |
|---|---|---|
| `Readings.ParcelsDistinct` | AgriSense/app.py:10 | there are two known parcels and no parcel is listed twice |
| `Alerts.CheckForAlerts` | AgriSense/app.py:114-121 | red iff moisture < 20, orange iff 20 <= moisture < 30, green iff moisture >= 30; the result is always one of the three alerts |
| `Alerts.AlertMonotone` | AgriSense/app.py:116-121 | drier soil never gets a milder alert |
| `Alerts.AlertBoundaries` | AgriSense/app.py:116-121 | just below 20 is red, exactly 20 is orange, up to 10 below 30 is orange, exactly 30 is green |
| `HourLabels.HourOf` | AgriSense/app.py:93 | the hour of day of a timestamp is in 0..23 |
| `HourLabels.SameHourDaysApart` | AgriSense/app.py:93-97 | readings whole days apart get the same hour, so the grouping merges them |
| `HourLabels.HourLabel` | AgriSense/app.py:93 | the label has five characters and ends in ":00" |
| `HourLabels.LabelRoundTrip` | AgriSense/app.py:93 | the hour can be read back from its label, so distinct hours have distinct labels |
| `HourLabels.LabelOrder` | AgriSense/app.py:98 | for hours in 0..23, label(h) sorts before label(k) as text iff h < k |
| `Queries.LatestOf` | AgriSense/app.py:66-72 | none iff no row has the parcel; otherwise a stored row of the parcel whose timestamp is >= that of every row of the parcel |
| `Queries.GetLatestData` | AgriSense/app.py:59-79 | none iff there is no connection or no row for the parcel; otherwise some newest row of the parcel |
| `Queries.GetTimeSeriesData` | AgriSense/app.py:82-109 | empty without a connection (app.py:85); never more than 24 entries |
| `Queries.BucketMembers` | AgriSense/app.py:94-97 | a value is in an hour's group iff some row of the parcel in the window, at that hour, has that moisture |
| `Queries.BucketCount` | AgriSense/app.py:94-97 | an hour's group holds each moisture exactly as many times as the window has rows of the parcel at that hour with that moisture, so the average weighs repeated readings by their count |
| `Queries.BucketEmpty` | AgriSense/app.py:96-97 | an hour's group is empty iff no row of the parcel in the window falls in that hour |
| `Queries.MeanBounds` | AgriSense/app.py:94 | the average of values in [lo, hi] lies in [lo, hi] |
| `Queries.TimeSeriesEntries` | AgriSense/app.py:90-98 | every entry implies a connection, labels an hour at which a row of the parcel lies in the window, and carries the mean moisture of that hour's group |
| `Queries.TimeSeriesComplete` | AgriSense/app.py:90-98 | every row of the parcel in the window gets an entry for its hour, with the mean of that hour's group |
| `Queries.TimeSeriesSorted` | AgriSense/app.py:98 | labels are strictly ascending as text, hence pairwise distinct |
| `Queries.TimeSeriesIgnoresOutside` | AgriSense/app.py:96 | adding a row of another parcel, or one older than the window, leaves the series unchanged |
| `Queries.TimeSeriesWithin` | AgriSense/app.py:94 | when every stored moisture lies in [lo, hi], so does every hourly average |
| `Ingestion.TickRowsPerParcel` | AgriSense/app.py:42-52 | a tick writes exactly one row per entry of PARCELS, in PARCELS order, stamped `now`, each with its own draw |
| `Ingestion.TickRowsInRange` | AgriSense/app.py:44-45 | every row a tick writes has moisture in [15, 50] and temperature in [18, 35] |
| `Ingestion.Store.constructor` | AgriSense/db_setup.py:22-28 | a new table with the script's columns is empty and the identity invariant holds; the first identity value, 1, is an assumption of the model |
| `Ingestion.Store.Insert` | AgriSense/app.py:49-52 | one insert appends exactly one row with the next identity value and the insertion time, and keeps identities increasing |
| `Ingestion.Store.SimulateAndInsertData` | AgriSense/app.py:34-55 | without a connection the table is unchanged; with one, the old rows are kept as a prefix and exactly the tick's rows (one per parcel, in order) follow; identities stay increasing |
| `Ingestion.LatestAfterTick` | AgriSense/app.py:42-72 | after a tick later than every stored reading, each parcel's latest reading is exactly the row that tick wrote for it |
| `Dashboard.BuildDashboard` | AgriSense/app.py:126-155 | cards exist exactly for the known parcels that have a latest reading; each card shows a newest reading's moisture and temperature and the alert for that moisture; chart labels and values have equal length; when the first parcel has a reading they list its 12-hour series entry by entry (the i-th label is the i-th entry's hour, the i-th value its average), and otherwise both are empty |
| `Dashboard.ChartSorted` | AgriSense/app.py:138-139 | the chart's labels are strictly ascending as text |
| `Dashboard.ChartWithin` | AgriSense/app.py:138-140 | when every stored moisture lies in [lo, hi], so does every chart value |
| `Scenarios.MorningSeries` | AgriSense/app.py:82-109 | with A at 10:05 (18.0) and 10:40 (22.0) and B at 10:10 (40.0), A's 12-hour series at 11:00 is exactly [("10:00", 20.0)] |
| `Scenarios.MorningLatest` | AgriSense/app.py:59-79 | on the same table A's latest reading is the 22.0 row, whose alert is orange |
| `Scenarios.MidnightScenario` | AgriSense/app.py:93-98 | a reading at 23:xx and a later one at 00:xx give [("00:00", later), ("23:00", earlier)], so the chart order is label order, not time order |

## Left out

- Store connections: the connection string, `get_db_connection` and the
  driver's errors (app.py:14-32) are reduced to one "connection available"
  flag per table snapshot. The source opens a fresh connection for every
  call, so one page load could succeed on some calls and fail on others.
  The model uses one flag for the whole page.
- Query errors after a successful connect: only `get_db_connection` catches
  `pyodbc.Error` (app.py:25-32). An error raised by `execute` or a fetch in
  `get_latest_data` (app.py:66-72) or `get_time_series_data`
  (app.py:103-104) is uncaught and propagates out of `dashboard()`. Once
  connected, the model's queries always succeed; that failure path is not
  modelled.
- Random values: `random.uniform` and the rounding to two decimals
  (app.py:44-45) are replaced by the `draws` parameter, constrained to the
  same ranges. The generator and the rounding are not modelled.
- Logging: the `print` calls (app.py:30, 56) are left out. The log line at
  app.py:56 uses `datetime`, which app.py never imports, so each tick
  raises an error after `commit()` and `close()`. The model's tick ends at
  the commit; the rows it wrote stay committed either way.
- Insertion time: `GETDATE()` is evaluated once per `INSERT` statement.
  The model stamps every row of a tick with the same `now`.
- Transactions and concurrency: the tick's inserts are modelled as appended
  in order. Not modelled:
  - the transaction boundary at `commit()`;
  - a failure partway through a batch;
  - readers that run concurrently with the scheduler thread.
- Scheduling and serving: APScheduler, `atexit` and `app.run`
  (app.py:157-169) are a timer thread and process lifecycle. Flask routing
  and `render_template` (app.py:125, 151-155) are view glue. The model
  stops at the view model the template receives.
- Ingestion.Store.constructor: the start value 1 of the identity column is
  assumed. The SQL Server table definition that app.py talks to is not in
  the repository, and the model only relies on identities increasing.
- Schema script: `AgriSense/db_setup.py` is a one-shot SQLite
  `CREATE TABLE` script. Only its column list shapes `Reading`.
- NULL moisture: the schema allows a NULL moisture, and SQL's `AVG` skips
  NULLs. The model's moisture is always present, as the only writer always
  supplies it.
- Floating point: moisture and temperature are exact reals. The source
  compares them with constants and averages them; float rounding of the
  average is not modelled.
- Date and time functions: SQL Server's `FORMAT` and `DATEADD` are
  modelled on integer minutes. Time zones and daylight-saving shifts are
  not modelled.
- Text collation: `ORDER BY hour` is modelled as code-point order. That
  agrees with the store's collation on the digits and `:` that labels use.
- Parcel matching: `parcel_id = ?` (app.py:68, 96) is modelled as exact
  string equality. The store's `=` ignores trailing blanks, and under the
  default case-insensitive collation it also ignores letter case. So a row
  written by hand as `"Tarla A (Buğday) "` or `"tarla a (buğday)"` counts
  as parcel A in the store but not in the model. The only writer, the
  tick, uses the exact names from `PARCELS`.
- Result shape: rows are returned as dicts keyed by column name
  (app.py:77-78, 108-109). The model uses datatype fields instead. A
  fetched row always turns into a non-empty dict, so `if data:` holds
  exactly when a row was found; this is modelled as `Some?`.
