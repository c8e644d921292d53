# Santos accidents and operations dashboard — a Dafny model

This project models the data logic beneath a Streamlit dashboard about traffic accidents and street
operations in Santos. It covers three scripts: the accidents page (`pages/1_Acidentes.py`), the operations map
(`pages/3_Mapa.py`) and the test page `app.py`.

- **Loading** (`Records`, `Loading`):
  - Each raw CSV row has a day number `data` and a minute of the day `hora`.
  - `load_data` sorts the rows by `(data, hora)`, here an in-place insertion sort on an `array`.
  - It merges the two columns into the `data_hora` timestamp, counted in minutes since 1970-01-01.
  - It remaps pandas' `dayofweek` (Monday = 0) through the fixed `dias` table to `dia_semana` (Sunday = 1 … Saturday = 7).
- **Filter engine** (`FilterEngine`):
  - `apply_filters` walks a list of `(value, column)` entries, rebinding the table at each one.
  - A falsy value is skipped.
  - The column `data_hora` takes an inclusive timestamp range.
  - A list value becomes `isin`; anything else becomes `==`.
  - Each entry becomes a `Predicate` (`Empty | Scalar | Set | DateRange`).
  - `Where` is the boolean-mask selection.
- **Filter panel** (`FilterPanel`): the page appends one entry per widget and re-applies the whole growing list to the table it has already narrowed.
- **Aggregations** (`Aggregates`):
  - `value_counts` sorts by descending count. pandas does not fix the order of equal counts; the model keeps them in order of first occurrence.
  - On top of it: the top-10 streets, the top-10 crossings keyed `street + " x " + cross street`, and the table of half-hour slots of the day.
  - The severity colour lookup with its `gray` default.
- **Operations map** (`Geometry`, `Operations`):
  - `add_dados` maps 14 form values onto the 16 columns of a new operation and appends it to the CSV file and to the table.
  - The stored geometry string is normalised: strip `"`, then turn `'` into `"`. It is parsed and wrapped in a GeoJSON FeatureCollection (RFC 7946, section 3.3).
  - Each feature is dispatched on its geometry type. A `Point` becomes a marker and a `LineString` a polyline, with every position `[lon, lat]` flipped to `[lat, lon]`. Other types draw nothing.
  - The render loop adds the overlays to the map (`MapCanvas`) row by row. An exception stops the script where it occurs.
- **app.py** (`App`): the year slider filter and the severity multiselect.

Stateful code is modelled as it runs:
- the sort works in place on an array;
- the CSV file and the map are classes whose methods append;
- `apply_filters`, the panel and the render loop are methods with loops.

Each method is proved against a specification function (`FilterSpec`, `RenderAll`, `MapDados`). The properties are lemmas about those functions.

## Model

| member | source | states |
|---|---|---|
| Records.DiaSemana | pages/1_Acidentes.py:20-22 | The `dias` remap gives `(d + 1) % 7 + 1`, always in 1..7, and it is 1 (Sunday) exactly for pandas' Sunday 6 |
| Records.NativeOf | pages/1_Acidentes.py:21 | Every `dia_semana` 1..7 is the remap of some pandas weekday, so the table is onto |
| Records.DiaSemanaBijective | pages/1_Acidentes.py:21 | The remap and `NativeOf` are inverse both ways, so `dias` is a bijection of 0..6 onto 1..7 |
| Records.NativeDayOfWeekSteps | pages/1_Acidentes.py:20 | `dayofweek` counts the week: 1970-01-01 is a Thursday (3), each next day is the next weekday with Sunday (6) followed by Monday (0), period 7 |
| Records.DeriveSplits | pages/1_Acidentes.py:17-23 | `Derive`: the merged `data_hora` splits back into the raw date and time; the row's `dia_semana` is the remapped weekday of that date; every other column is carried over, `lng` as `lon` |
| Records.YearStart | app.py:36 | January 1st of 1970 is day 0 |
| Records.YearStartStep | app.py:36 | The calendar behind `dt.year`: each year after the previous one's January 1st is 365 days long, 366 in a Gregorian leap year |
| Records.YearOfInRange | app.py:36 | `dt.year` agrees with that calendar: every day from January 1st of y up to the next January 1st has year y (years 2001 to 2099) |
| Records.YearOfInstant | app.py:36 | The same for any instant of such a day |
| Records.DeriveAll | pages/1_Acidentes.py:17-23 | The derivation is row by row: same length, row i derived from raw row i |
| Loading.KeyLeIsTimeOrder | pages/1_Acidentes.py:15-18 | Ordering by `(data, hora)` is the same as ordering by the merged timestamp |
| Loading.InsertInPlace | pages/1_Acidentes.py:15 | One pass of the sort: with `a[..i]` ordered by `(data, hora)`, `a[..i+1]` ends ordered, and the array is a permutation of its old contents |
| Loading.SortByDateHour | app.py:18-19 | The in-place sort leaves the array ordered by `(data, hora)` and a permutation of its old contents |
| Loading.DerivePermutation | pages/1_Acidentes.py:15-23 | Deriving permuted raw rows gives a permutation of the derived rows |
| Loading.LoadData | app.py:15-27 | The loaded table has one row per CSV row and is a permutation of the derived rows; it is ascending by `data_hora`, and every `dia_semana` agrees with its date |
| FilterEngine.KnownColumnHasValue | pages/1_Acidentes.py:34-36 | A column lookup succeeds exactly for the ten columns of the loaded table (`lat` and `lon` included) |
| FilterEngine.Where | pages/1_Acidentes.py:32-36 | The mask keeps exactly the rows satisfying every predicate, each with all its copies and none of the others, in order: a subsequence, never longer |
| FilterEngine.ApplyEntry | pages/1_Acidentes.py:29-36 | One loop iteration gives the table narrowed by the entry's predicate, or the exception its classification raises |
| FilterEngine.ApplyFilters | pages/1_Acidentes.py:27-38 | The loop that rebinds `df` per entry returns what `FilterSpec` defines: the kept rows, or the first exception |
| FilterEngine.FilterIsConjunction | pages/1_Acidentes.py:28-38 | Applying the entries one after the other is one mask with all their predicates (logical AND); an entry that raises makes the call raise |
| FilterEngine.WhereWhere | pages/1_Acidentes.py:28-36 | Filtering by `ps` and then by `qs` equals filtering once by `ps + qs` |
| FilterEngine.WhereAbsorbs | pages/1_Acidentes.py:93-151 | Re-applying predicates that already hold on the table changes nothing |
| FilterEngine.HoldsAllAppend | pages/1_Acidentes.py:28-36 | A row satisfies `ps + qs` iff it satisfies both |
| FilterEngine.PredicatesAppend | pages/1_Acidentes.py:28-36 | One more entry either leaves an earlier exception in place, raises its own, or adds its predicate last |
| FilterEngine.AllFalsyIsIdentity | pages/1_Acidentes.py:28-29 | A list of entries that are all falsy returns the table unchanged |
| FilterEngine.FalsyEntryIsNoOp | pages/1_Acidentes.py:29 | An entry with an empty list, None, "" or 0 leaves the table unchanged |
| FilterEngine.FilterIdempotent | pages/1_Acidentes.py:28-38 | `apply_filters(apply_filters(T, F), F) == apply_filters(T, F)` |
| FilterEngine.Refilter | pages/1_Acidentes.py:93-151 | Applying `F + [e]` to the table already filtered by `F` gives what the original table would, and it is never longer than the filtered table |
| FilterEngine.DateRangeEntry | pages/1_Acidentes.py:30-32 | A `data_hora` entry keeps exactly the rows with `start <= data_hora <= finish`, both inclusive, every copy of each, in order |
| FilterEngine.SetEntry | pages/1_Acidentes.py:33-34 | A non-empty list keeps exactly the rows whose column value is in the list, every copy of each, in order |
| FilterEngine.ScalarEntry | pages/1_Acidentes.py:35-36 | A truthy scalar keeps exactly the rows whose column equals it, every copy of each, in order |
| FilterEngine.UnknownColumnRaises | pages/1_Acidentes.py:34-36 | A truthy entry on a column the table lacks raises KeyError for that column |
| FilterPanel.PeriodDropsFinalDay | pages/1_Acidentes.py:91-93 | As written, an accident on the chosen final day after midnight is not kept by the period entry |
| FilterPanel.WholeDaysSpan | pages/1_Acidentes.py:91-93 | A timestamp lies in the whole-day span iff its day lies between the two picked dates |
| FilterPanel.WholeDaysKeepsPeriod | pages/1_Acidentes.py:90-94 | The corrected period entry keeps exactly the accidents dated between the two picked dates, both included, every copy of each, in order |
| FilterPanel.MultiselectEntry | pages/1_Acidentes.py:101-106 | A multiselect entry never raises; it keeps a row iff the selection is empty or holds the row's value |
| FilterPanel.Narrow | pages/1_Acidentes.py:106-107 | One widget step extends the list by its entry; the new table is what the extended list gives on the full table and a subsequence of the previous one |
| FilterPanel.PrefixesRaiseNothing | pages/1_Acidentes.py:93-151 | If the full panel list raises nothing, no intermediate call does |
| FilterPanel.PanelRow | pages/1_Acidentes.py:93-151 | A row passes the seven panel predicates iff `start <= data_hora <= finish` and each non-empty multiselect holds its value |
| FilterPanel.PanelMeaning | pages/1_Acidentes.py:90-151 | The seven panel entries raise nothing and keep, in order and with every copy, exactly the rows with `start <= data_hora <= finish` whose value each non-empty multiselect holds |
| FilterPanel.Panel | pages/1_Acidentes.py:90-151 | As written, the widget-by-widget script applies the list whose first entry is the range from midnight of the start date to midnight of the end date; it ends with the table that list defines: a subsequence of the loaded table holding, with every copy, exactly the rows with `startDay 00:00 <= data_hora <= endDay 00:00` in every non-empty selection |
| FilterPanel.WholeDaysPanel | pages/1_Acidentes.py:90-151 | With the period entry corrected to end at the last minute of the end date, the panel keeps, with every copy and in order, exactly the rows dated between the two picked dates in every non-empty selection |
| Aggregates.Distinct | pages/1_Acidentes.py:278 | The distinct labels: every label once, nothing else |
| Aggregates.Occurrences | pages/1_Acidentes.py:278 | Every label of the input appears, paired with its true count, exactly once; no other label appears |
| Aggregates.SortByCountSorted | pages/1_Acidentes.py:278 | The count sort gives non-increasing counts and is a permutation of its input |
| Aggregates.ValueCountsCorrect | pages/1_Acidentes.py:278 | `ValueCounts`: non-increasing counts, each the true number (> 0) of a label present; every label listed with its count; labels pairwise different, one entry per distinct label |
| Aggregates.TopCountsCorrect | pages/1_Acidentes.py:278 | `TopCounts`, `.head(n)` of the counts: exactly n entries, or one per label when there are fewer; labels pairwise different; non-increasing, true counts; no omitted label outnumbers a listed one |
| Aggregates.Present | pages/1_Acidentes.py:278 | `value_counts` skips NaN: each value is counted as many times as its cell occurs in the column, and the result is no longer than the column |
| Aggregates.StreetLabels | pages/1_Acidentes.py:278 | The counted streets are the non-missing `logradouro` values, each as many times as rows name it |
| Aggregates.TopStreetsCorrect | pages/1_Acidentes.py:278 | `TopStreets`: ten different streets, or one per street when there are fewer,, non-increasing counts, each the number of rows on that street, and no street left out has more rows than one shown |
| Aggregates.CrossingLabels | pages/1_Acidentes.py:298-300 | Rows with a missing `cruzamento` are dropped first; the keys are exactly `street + " x " + cross` of the remaining rows with a street, each as many times as rows give it |
| Aggregates.CrossingKey | pages/1_Acidentes.py:300 | The key is the street, then " x ", then the cross street, with lengths adding up |
| Aggregates.TopCrossingsCorrect | pages/1_Acidentes.py:298-301 | `TopCrossings`: ten different keys, or one per key when there are fewer,, non-increasing counts, each the number of rows giving that key, and no key left out has more rows than one shown |
| Aggregates.CrossingKeyOrderSensitive | pages/1_Acidentes.py:300 | For distinct names where the longer does not begin with the shorter followed by " x", "A x B" differs from "B x A" |
| Aggregates.FloorHalfHour | pages/1_Acidentes.py:322 | `floor('30T')`: the bucket start is a multiple of 30 minutes with `bucket <= t < bucket + 30` |
| Aggregates.FloorHalfHourUnique | pages/1_Acidentes.py:322 | That bucket is the only one containing `t` |
| Aggregates.Slot | pages/1_Acidentes.py:322 | The time-of-day slot is a multiple of 30 in 0..1439 containing the minute of the day |
| Aggregates.Slots | pages/1_Acidentes.py:322 | One slot per row, in row order |
| Aggregates.SlotCountsFromTotal | pages/1_Acidentes.py:323-325 | The slot counts from slot k on add up to the rows in those slots |
| Aggregates.SlotCountsFromShape | pages/1_Acidentes.py:323-325 | The slot table lists slots in ascending order with their true, positive counts, and every occurring slot |
| Aggregates.HourCountsCorrect | pages/1_Acidentes.py:322-325 | The half-hour table sums to the row count, ascends by slot, gives true positive counts, and lists every row's slot |
| Aggregates.ColorOf | pages/1_Acidentes.py:179 | The colour is the table's for the four known severities and `gray` for anything else, NaN included |
| Aggregates.ColorsDistinguishSeverities | pages/1_Acidentes.py:153-158 | The four known severities get four different colours |
| Geometry.RemoveChar | pages/3_Mapa.py:103 | Removing a character: it no longer occurs, the length drops by its count, other counts are kept |
| Geometry.ReplaceChar | pages/3_Mapa.py:104 | Replacing a character maps every position and keeps the length |
| Geometry.ReplaceCharCounts | pages/3_Mapa.py:104 | After replacing c by d, c is gone and d's count grows by c's count |
| Geometry.NormaliseQuotesCounts | pages/3_Mapa.py:102-104 | The normalised string has no `'`; its `"` count equals the input's `'` count; its length is the input's minus the `"` count |
| Geometry.NormaliseQuotesRoundTrip | pages/3_Mapa.py:102-104 | A text without `'`, stored with `'` in place of every `"`, normalises back to itself |
| Geometry.Lookup | pages/3_Mapa.py:108-112 | `d[key]` succeeds iff `d` is an object holding the key, and gives its value |
| Geometry.FeatureCollectionRoundTrip | pages/3_Mapa.py:46-54 | The envelope has type "FeatureCollection" and its feature list is exactly the wrapped value |
| Geometry.Index | pages/3_Mapa.py:116 | `c[i]` succeeds iff `c` is a list longer than i, and gives its i-th item |
| Geometry.Flip | pages/3_Mapa.py:116 | `[c[1], c[0]]` succeeds iff the position has at least two items, and gives (lat, lon) from (lon, lat) |
| Geometry.FlipAll | pages/3_Mapa.py:122 | The comprehension succeeds iff every position flips, giving one location per position, in order |
| Geometry.Unflip | pages/3_Mapa.py:122 | Every map location is the flip of a GeoJSON position |
| Geometry.DispatchAtMostOne | pages/3_Mapa.py:110-127 | A feature adds at most one overlay, carrying the row's popup |
| Geometry.DispatchPoint | pages/3_Mapa.py:114-119 | A Point adds one marker at `[coordinates[1], coordinates[0]]` |
| Geometry.DispatchBadPoint | pages/3_Mapa.py:114-116 | A Point whose coordinates are not a list of two or more raises |
| Geometry.DispatchLineString | pages/3_Mapa.py:120-127 | A LineString adds one polyline with one (lat, lon) location per position, in order |
| Geometry.LineStringRoundTrip | pages/3_Mapa.py:120-122 | Flipping a polyline's locations back recovers the LineString's positions |
| Geometry.DispatchOtherType | pages/3_Mapa.py:111-127 | Any other geometry type adds nothing and raises nothing |
| Geometry.DispatchNeedsCoordinates | pages/3_Mapa.py:111-112 | A geometry without coordinates raises KeyError whatever its type |
| Operations.Columns | pages/3_Mapa.py:20-37 | An operation has the 16 columns of the CSV file |
| Operations.MapDados | pages/3_Mapa.py:19-37 | Mapping the form values raises IndexError exactly when fewer than 14 are given |
| Operations.FormValues | pages/3_Mapa.py:20-36 | An operation's form values are 14 |
| Operations.MapDadosColumns | pages/3_Mapa.py:20-37 | The new row's columns are values 0..11 in order, then two None end fields, then values 12 and 13 |
| Operations.MapDadosRoundTrip | pages/3_Mapa.py:20-37 | The form values of an operation not yet ended map back to that operation |
| Operations.OperationsFile.constructor | pages/3_Mapa.py:17 | The file holds the rows it is opened with |
| Operations.OperationsFile.Append | pages/3_Mapa.py:39-40 | `to_csv(mode='a')` adds exactly the new row at the end of the file |
| Operations.AddDados | pages/3_Mapa.py:19-45 | On short input it raises IndexError and the file is untouched; otherwise the file and the table both gain the mapped row at the end |
| Operations.AddDadosAppends | pages/3_Mapa.py:39-41 | The new table is one row longer, earlier rows are unchanged, and the last row has no end time and the given geometry |
| Operations.Endereco | pages/3_Mapa.py:74 | The popup address is street, number and cross street, each at its place, joined by single spaces (NaN printed "nan") |
| Operations.RowResults | pages/3_Mapa.py:69 | One outcome per table row |
| Operations.RowResultsAt | pages/3_Mapa.py:69-127 | The i-th outcome is the i-th row's overlays or exception |
| Operations.MapCanvas.constructor | pages/3_Mapa.py:67 | A new map holds no overlays |
| Operations.MapCanvas.AddTo | pages/3_Mapa.py:119 | `add_to(m2)` appends exactly one overlay |
| Operations.DrawOverlays | pages/3_Mapa.py:115-127 | Drawing overlays appends them in order |
| Operations.DrawFeatures | pages/3_Mapa.py:110-127 | The feature loop appends the feature list's overlays, or stops at the first exception |
| Operations.DrawRow | pages/3_Mapa.py:102-127 | One loop iteration appends that row's overlays or raises its exception |
| Operations.RenderOperations | pages/3_Mapa.py:69-127 | The render loop appends every row's overlays in table order, or raises the first exception |
| Operations.AfterAfter | pages/3_Mapa.py:69-127 | Drawing `a` then `b` before a result equals drawing `a + b` |
| Operations.ChainOk | pages/3_Mapa.py:69-127 | The chained outcomes succeed iff every row succeeds |
| Operations.ChainShape | pages/3_Mapa.py:69-127 | Rows of at most one overlay chain to at most one overlay per row, each from some row |
| Operations.RenderAllShape | pages/3_Mapa.py:69-127 | A render that raises nothing adds at most one overlay per operation, each with the popup of an operation of the table |
| Operations.RowAtMostOne | pages/3_Mapa.py:102-127 | A row adds at most one overlay, with its own popup |
| Operations.RenderAllOk | pages/3_Mapa.py:69-127 | The whole render raises nothing iff no row raises |
| Operations.RowPoint | pages/3_Mapa.py:102-119 | A row whose geometry parses to a Point adds one marker at the flipped position, with its popup |
| App.YearFilter | app.py:36 | As written, `isin` on the slider pair keeps exactly the rows whose year is one of the two ends, every copy of each, in order |
| App.YearSpanFilter | app.py:31-36 | The intended filter keeps exactly the rows whose year lies between the ends, both included, every copy of each, in order |
| App.YearFilterSkipsInnerYears | app.py:31-36 | A year strictly inside the period is dropped as written and kept by the span |
| App.YearFiltersAgree | app.py:31-36 | With no year strictly between the ends, both filters agree |
| App.DefaultPeriodDrops2020 | app.py:31-36 | With the default (2017, 2024), an accident of 2020-01-01 is dropped as written and kept by the span |
| App.SeverityFilterCorrect | app.py:43-46 | `SeverityFilter`: an empty selection leaves the table unchanged; otherwise exactly the rows with a chosen severity remain, every copy of each, in order |
| App.SubsequenceTransitive | app.py:36-44 | Filtering a filtered table stays a subsequence of the original |
| App.AppViewCorrect | app.py:31-46 | `AppView`: a row is shown iff it is in the period and has a chosen severity (or none is chosen); every copy of it is shown, in order |

## Left out

- File I/O: `pd.read_csv` and `to_csv(mode='a')` are modelled by the row sequences and by `OperationsFile.rows`. The CSV text format, quoting and the header are not modelled.
- Dates and times: `pd.to_datetime` parsing is not modelled. Dates are day numbers, times are minutes, and timestamps are whole minutes; seconds are not modelled.
- Coordinates: `lat`/`lon` of accidents and the GeoJSON coordinates are opaque values. They are never computed on or filtered by, so floating point does not arise.
- JSON text: `json.loads` is a function parameter of the render (None when it raises). `json.dumps(indent=2)` followed by `json.loads` in `convert_to_feature_collection` is taken as the identity on the parsed value.
- Geometry.Index: any `coordinates` value that is not a list is modelled as TypeError. In Python a string that is too short raises IndexError, a longer one gives characters, and a dict raises KeyError(1).
- Cell display: a missing cell prints as "nan". The float formatting of a numeric `numero` (`12.0`) is not modelled, because cells are text.
- Popups: the HTML, CSS and iframe markup of the popup are not modelled. The popup holds its text fields only.
- Widgets: options, defaults, caching (`@st.cache_data`), layout and all plotting are not modelled. Widget outputs (dates, selections, slider ends) are parameters. The options offered by each multiselect (`unique()` of the current table) are not modelled; any selection is allowed.
- Weekly and monthly grouping (pages/1_Acidentes.py:344-364): left out, because it rests on pandas' calendar grouping.
- The chart-selection point filter (pages/1_Acidentes.py:216-234): left out, because it is driven by plotly selection events.
- Per-severity map traces (pages/1_Acidentes.py:163-182): only the colour lookup `ColorOf` is modelled.
- The counts of `gravidade` and `tempo` (pages/1_Acidentes.py:291, 316): not modelled separately. They are the same `ValueCounts` as the street counts.
- `apply_filters` always combines its entries with AND, and `floor('30T')` gives 48 slots a day.
- The panel's date range compares full `data_hora` timestamps; no filter on the derived year is applied there (pages/1_Acidentes.py:96 is commented out).
- Loading.SortByDateHour: sorts by the numeric day and minute. The source sorts the raw `data` and `hora` text, which agrees only while both are zero-padded ISO strings (`YYYY-MM-DD`, `HH:MM`).
- FilterEngine.Classify: a tuple value on a column other than `data_hora` is modelled as an error (`BadScalar`). pandas compares the column with the tuple item by item, which succeeds when the table has as many rows as the tuple has items.
- FilterEngine.ColumnValue: `lat` and `lon` are compared as their text, since coordinates are kept as text.
- Records.YearOfInRange: proved for the years 2001 to 2099 only, which holds every date of the table; `YearOf` itself is defined for every day.
- Loading.SortByDateHour: states ordering and permutation but not stability, which `sort_values` does not promise either; rows with equal `(data, hora)` may come out in any order.
- Aggregates.CrossingKeyOrderSensitive: excludes only the pairs where the longer name begins with the shorter one followed by " x". Such pairs can share a key: ("x", "x x") and ("x x", "x") both give "x x x x".

## Findings

| source | as written | input that shows it | evidently intended | confidence | as-written member | corrected member |
|---|---|---|---|---|---|---|
| app.py:36 | `isin(ano)` on the slider pair keeps only the two end years | default slider (2017, 2024) and an accident dated 2020-01-01: the row is dropped | every year from the first end to the second, both included | not executed | App.DefaultPeriodDrops2020 | App.AppViewCorrect |
| pages/1_Acidentes.py:91-93 | the end date becomes midnight of that day, and the range compares full timestamps | end date D and an accident on D at 08:00: the row is dropped | the whole final day included | not executed | FilterPanel.PeriodDropsFinalDay | FilterPanel.WholeDaysPanel |
