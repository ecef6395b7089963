# Campus energy pipeline — a Dafny model

The model covers the data path of the campus energy script `ce.py`:

- **Merge.** `load_and_merge_data` merges the per-building CSV exports into one table. It tags every row with its building, which is the file's stem. It logs one line for every file it cannot use.
- **Clean.** `main` drops the rows without a timestamp or a kWh reading (`dropna`).
- **Aggregate.** The cleaned table is aggregated three ways:
  - daily totals (`resample("D")`, sum);
  - weekly means (`resample("W")`, mean);
  - a per-building summary (groupby building; mean, min, max and sum, renamed `total`).
- **Executive summary.** `generate_summary` reports three figures: the campus total, the building with the highest total and the peak-load row.
- **Object model.** The script also has an object model for the same data:
  - `MeterReading`;
  - `Building`, a name plus an append-only list of readings;
  - `BuildingManager`, a dictionary from building name to `Building`, filled by get-or-create.

Modelling conventions:

- Timestamps are whole minutes since 1970-01-01 00:00.
- kWh values are exact reals.
- A missing or unparseable cell is `None`.

Files:

- `wrappers.dfy`: `Option` and `Result`.
- `readings.dfy`: rows, sums, minima, maxima and means, and the kWh column of the rows a key selects.
- `ingestion.dfy`: the merge loop, as a method proved against a fold, and the cleaning step.
- `aggregation.dfy`: the calendar (days, W-SUN weeks), the daily and weekly bins and the per-building summary.
- `executive.dfy`: the three figures of the executive summary.
- `entities.dfy`: the `Building` and `BuildingManager` classes, and their agreement with the summary table.

Three behaviours of pandas are modelled explicitly:

- **Full resample range.** `resample` produces one bin for every day or week from the first reading's to the last reading's. An empty day sums to 0.0 and an empty week has no mean (`None`, pandas' NaN).
- **Week bins.** A `"W"` bin is a week ending on Sunday, closed on the right and labelled by that Sunday. A reading therefore lands in the bin of the first Sunday on or after its calendar day.
- **`idxmax` ties.** `idxmax` returns the first maximal label. The summary's index is sorted by `groupby`, so among buildings with equal totals the smallest name wins. Over the cleaned rows, the first row with the largest kWh wins.

On an empty data folder, and whenever no loaded file has a `kwh` column, the merged frame lacks a column that `dropna(subset=["timestamp", "kwh"])` names. pandas then raises `KeyError`, and so the script does not produce an empty cleaned table. The model follows the code: `DropNa` returns a `Failure` carrying the missing column names.

## Model

| member | source | states |
|---|---|---|
| Ingestion.LoadAndMergeData | ce.py:9-37 | the loop over the files ends with exactly the frame and log that the fold `Merge` describes: loaded files append their tagged rows, the others append one log line |
| Ingestion.MergeAppend | ce.py:14-28 | merging two batches of files in turn equals merging them together: rows in file order and then row order, columns united, logs concatenated |
| Ingestion.MergeOne | ce.py:19-31 | a single file yields its rows tagged with its stem and no log line, or no rows and exactly one log line ("Missing timestamp column in …" or "Error loading …: …") |
| Ingestion.FailedFileIsSkipped | ce.py:22-31 | a file without a timestamp column, or one that fails to load, adds one log line at its place and leaves the merged frame exactly as if it were absent |
| Ingestion.MergedRowOrigin | ce.py:14-28 | a row is in the merged table iff it is a row of some loaded file, tagged with that file's stem |
| Ingestion.MergedColumns | ce.py:22-28 | the merged frame has a timestamp column iff some file was loaded, and a kwh column iff some loaded file had one |
| Ingestion.Clean | ce.py:141 | the rows kept after dropna all have a timestamp and a kWh value, and there are no more of them than before |
| Ingestion.CleanAppend | ce.py:141 | cleaning is a filter: cleaning a concatenation is concatenating the cleaned parts |
| Ingestion.CleanAround | ce.py:141 | a row with NaT or NaN disappears and the rows around it close up; a complete row stays in its place, so relative order is kept |
| Ingestion.CleanKeepsExactly | ce.py:141 | a row survives cleaning iff it was in the table and has both a timestamp and a kWh value |
| Ingestion.CleanFixesComplete | ce.py:141 | a table without missing cells is left unchanged |
| Ingestion.CleanIdempotent | ce.py:141 | cleaning twice is cleaning once |
| Ingestion.DropNa | ce.py:141 | dropna succeeds iff the frame has both a timestamp and a kwh column, and then yields complete rows, no more than there were (which ones and in what order: CleanKeepsExactly, CleanAround); otherwise it raises KeyError naming exactly the missing subset columns |
| Ingestion.DropNaOnMerged | ce.py:139-141 | dropna on the merged frame succeeds iff some loaded file had a kwh column (never on an empty folder); when it succeeds it yields the cleaned rows |
| Readings.Min | ce.py:50 | the `min` aggregation is one of the values and no value is smaller |
| Readings.Max | ce.py:50 | the `max` aggregation is one of the values and no value is larger |
| Readings.SumPermutation | ce.py:50 | the `sum` aggregation does not depend on the order of the values |
| Readings.MeanBetweenMinAndMax | ce.py:50 | for a non-empty group, min <= mean <= max |
| Readings.KwhWherePermutation | ce.py:50 | reordering the rows only reorders the kWh values a grouping key selects (same multiset) |
| Aggregation.DayBoundaries | ce.py:43 | a day bin starts at midnight and lasts 1440 minutes, so each timestamp has exactly one calendar day |
| Aggregation.WeekEndingIsNextSunday | ce.py:47 | a day's weekly label is a Sunday, lies 0 to 6 days after the day, and is the first Sunday on or after it |
| Aggregation.WeekMonotone | ce.py:47 | a later day never falls in an earlier week |
| Aggregation.DaySpanBounds | ce.py:42-43 | every reading's day lies between the first and the last day of the resample range |
| Aggregation.DaySpanAttained | ce.py:42-43 | the first and last days of the resample range are the days of actual readings |
| Aggregation.DailyTotals | ce.py:41-43 | `calculate_daily_totals`: no bins iff no rows, otherwise one bin per day from the first reading's day to the last, starting at the first; each bin's total is the sum of that day's kWh (DailyTotalsAscending, DailyBinOfReading, DailyTotalsConserve) |
| Aggregation.DailyTotalsAscending | ce.py:41-43 | there are no daily bins iff there are no rows; the bins run from the first reading's day to the last's, one per consecutive day, ascending |
| Aggregation.DailyDaysDistinct | ce.py:41-43 | no two daily bins are for the same day |
| Aggregation.DailyBinOfReading | ce.py:41-43 | every cleaned reading has a daily bin for its calendar day, whose total is the sum of the kWh of that day's readings |
| Aggregation.DailyTotalsConserve | ce.py:41-43 | the daily totals add up to the sum of kWh over the cleaned table |
| Aggregation.WeeklyMeans | ce.py:45-47 | `calculate_weekly_aggregates`: no bins iff no rows, otherwise one bin per W-SUN week from the first reading's week to the last, the first labelled by the first reading's week-ending Sunday; each bin's mean is the mean of that week's readings, None for an empty week (WeeklyMeansAscending, WeeklyBinOfReading, WeeklyMeanWithinReadings) |
| Aggregation.WeeklyMeansAscending | ce.py:45-47 | there are no weekly bins iff there are no rows; the bins are labelled by Sundays, seven days apart, from the first reading's week-ending Sunday to the last's |
| Aggregation.WeeklyLabelsDistinct | ce.py:45-47 | no two weekly bins carry the same label |
| Aggregation.WeeklyBinOfReading | ce.py:45-47 | every cleaned reading has a weekly bin labelled by the Sunday ending its week; that week has readings and the bin's mean is their mean |
| Aggregation.WeeklyMeanWithinReadings | ce.py:45-47 | a weekly bin has a mean iff it holds readings, and then the mean lies between the least and greatest of them |
| Aggregation.BuildingWiseSummary | ce.py:49-52 | `building_wise_summary`: its keys are exactly the building names occurring in the table; each entry's figures are stated by SummaryEntries and SummaryOrderIndependent |
| Aggregation.Group | ce.py:50 | the kWh column of a groupby key's group is never empty |
| Aggregation.SummaryEntries | ce.py:49-52 | there is an entry iff some row has that building; `total` is the sum of its kWh, `min` and `max` are values of its readings, `mean` is `total` over the number of readings, min <= mean <= max, and each of its readings lies within [min, max] |
| Aggregation.SummaryOrderIndependent | ce.py:49-52 | the summary does not depend on the order of the rows |
| Executive.TotalConsumption | ce.py:118 | `df["kwh"].sum()`: on the cleaned table, the campus total equals the sum of the daily totals (order independence in TotalOrderIndependent) |
| Executive.TotalOrderIndependent | ce.py:118 | the campus total does not depend on the order of the rows |
| Executive.PeakIndex | ce.py:120 | `idxmax` over kWh: a row position whose kWh no row exceeds, and every earlier row's kWh is strictly smaller (the first maximum) |
| Executive.NameLeTotal | ce.py:50 | the order of the groupby index is total |
| Executive.NameLeAntisymmetric | ce.py:50 | the order of the groupby index is antisymmetric |
| Executive.NameLeTransitive | ce.py:50 | the order of the groupby index is transitive |
| Executive.HighestBuilding | ce.py:119 | `idxmax` over the summary's totals: a building whose total is maximal, and the first in index order among equal totals |
| Executive.HighestUnique | ce.py:119 | that building is unique |
| Executive.HighestStep | ce.py:119 | adding one building to a summary: the new highest is the old one or the added one, whichever has the greater total (the earlier name on a tie) |
| Executive.GenerateSummary | ce.py:117-120 | the total equals the sum of the daily totals; the highest building is the summary's `idxmax`; the peak kWh is at least every row's kWh and is the kWh of an actual row at the reported time |
| Executive.PeakKwhOrderIndependent | ce.py:120 | the peak kWh does not depend on the order of the rows |
| Executive.GenerateSummaryOrderIndependent | ce.py:117-120 | reordering the rows changes neither the campus total, nor the highest building, nor the peak kWh |
| Entities.Building.constructor | ce.py:63-65 | a new building has its name and no readings |
| Entities.Building.AddReading | ce.py:67-68 | the reading is appended at the end; every earlier reading stays in place |
| Entities.TotalAfterAdd | ce.py:67-71 | adding a reading raises the building's total consumption by exactly that reading's kWh |
| Entities.Building.GenerateReport | ce.py:73-74 | the report has the length of the f-string's text, with the name and the rendered total at their places in it |
| Entities.RouteFrames | ce.py:80-83 | add_reading creates the building's list on first sight, appends to it, and leaves every other building's list unchanged |
| Entities.BuildingManager.constructor | ce.py:77-78 | a new manager has no buildings |
| Entities.BuildingManager.AddReading | ce.py:80-83 | the readings lists change exactly as `RouteFrames` states; existing buildings keep their objects, a new building gets a fresh one, and every building stays filed under its own name |
| Entities.RegistryKeys | ce.py:80-83 | filling the manager from the cleaned rows files exactly the buildings that occur in the table |
| Entities.RegistryList | ce.py:67-83 | after filling, a building's list holds the kWh of that building's rows, in row order |
| Entities.RegistryMatchesSummary | ce.py:50 | the registry and the summary have the same buildings, and each building's total is the summary's `total` |
| Entities.ManagerMatchesSummary | ce.py:70-71 | a manager filled with add_reading from the cleaned rows holds one building per summary entry, and each building's calculate_total_consumption is the summary's `total` |

## Left out

- Plotting is not modelled. `generate_dashboard` is matplotlib rendering and image saving.
- Reading files is not modelled. Each file arrives already parsed, as its column names and its timestamp and kWh cells, or as the message of the exception `read_csv` raised. This covers `Path.glob`, `read_csv` (including `on_bad_lines="skip"`) and `to_datetime(errors="coerce")`.
- Columns other than `timestamp`, `kwh` and `building` are not carried in the rows.
- Printing the ingestion log, writing `summary.txt` and the CSV outputs, and `os.makedirs` are left out.
- Float64 rounding is left out. kWh values are exact reals, so the conservation and bound properties hold exactly.
- Executive.GenerateSummary: the summary's text is not modelled. This covers the `:.2f` formatting of the total and the printing of the peak timestamp. It also states the peak time and kWh only as those of some row whose kWh is maximal. `Executive.PeakIndex` states which row that is.
- Executive.GenerateSummary: an empty cleaned table is excluded by a precondition. On empty data pandas' `idxmax` raises, and that error is not modelled.
- Executive.HighestBuilding is a ghost function. It picks a building by set choice and then proves the result is the `idxmax` answer. `Executive.HighestUnique` shows that answer is unique.
- Entities.Building.GenerateReport: the rendering of the total as text (Python's `str` of a float) is a parameter, `render`.
- Entities.Building.CalculateTotalConsumption is stated through `Entities.TotalAfterAdd` and `Entities.ManagerMatchesSummary`. It has no contract of its own.
- The daily, weekly and summary functions require a table without missing cells. In the script their only inputs are the output of `dropna`.
- The peak row is identified by its position in the cleaned table, not by pandas' index label. The merge (`ignore_index=True`) makes the labels unique and `dropna` keeps them, so `df.loc[df["kwh"].idxmax()]` is the row at the position `Executive.PeakIndex` returns.
- kWh cells are assumed to be numeric or empty. In pandas a non-numeric kWh token is not coerced to NaN: it gives the column an object dtype, survives `dropna` and makes the sum and mean aggregations fail. That failure is not modelled.
- The filling of a `BuildingManager` from the table is not a loop in the script. `RegistryOf` states the readings lists that `add_reading` yields over the cleaned rows in order. `Entities.ManagerMatchesSummary` relates any manager holding those lists to the summary.
