# Production dashboard reporting logic, in Dafny

This project models the pure reporting logic of a Streamlit production dashboard
for a chip-on-board assembly line. The source is written in Python and pandas.
Records carry a production date, a shift checkpoint ("Time"), a station, a model
type, a batch, a product line, and OK and NG unit counts. The model covers:

- **The hourly line report** (`first_project.py`), module `Pivot`. OK counts are
  pivoted into a time × station table with `pivot_table(aggfunc='sum',
  fill_value=0)`. A per-time total column "Total Production/ station" is appended,
  then a bottom row "Total Product station/Day" that totals every column,
  including the new one.
- **The real-time dashboard** (`dashboard_1.py`), module `Dashboard`:
  - the three header filters: model type ("All" switches it off), an inclusive
    date range, and batch ("All" switches it off);
  - the option lists of the two select boxes;
  - the canonical-order step of `bar_plot`. The colour column becomes a
    `pd.Categorical` over a given order, and the rows are sorted by it, with
    values missing from the order sorted last.
- **The data-entry page** (`app_record.py`), module `AppRecord`. A submission with
  an empty station name or model type is rejected; otherwise exactly one row is
  inserted. The page also shows a KPI block: total OK, total NG, total
  production, and the yield in percent, or "no data" for an empty table.
- **The reference tables** (`data_info.py`), module `DataInfo`: the 18-station
  process order, the 10 shift checkpoints, the sub-category grouping of stations,
  and the module types.

Supporting modules:

- `Common`: `Option`/`Result`, duplicate-free sequences, first occurrence
  (`list.index`), `Series.unique()`, order-preserving subsequences and sums.
- `Strings`: Python's `<` on `str`, lexicographic by code point, and `sorted()`
  of distinct strings.
- `Records`: the record type shared by the report and the dashboard.

Counts are `nat`; the yield is an exact `real`. Python's truthiness of a text
input is emptiness. A date is a day number.

Where one might expect the process order or the shift order, the model follows
the code:

- The pivot's rows and columns come out in ascending string order, because that
  is how pandas orders group keys. Neither the process order nor the shift order
  is applied. `DataInfo.CustomOrderTimeWellFormed` shows that the two orders
  differ: "00:00" sorts before "22:00".
- Station and batch names are compared as they are, with no trimming or case
  folding.
- A category list with a duplicate is an error (`pd.Categorical` raises
  ValueError), not collapsed.
- The sort in `bar_plot` is not promised to be stable, because `sort_values`
  defaults to an unstable quicksort.

## Model

| member | source | states |
|---|---|---|
| `Pivot.PivotTable` | first_project.py:13-20 | The row labels are exactly the distinct Time values and the column labels exactly the distinct Station values, each strictly ascending and so duplicate-free; the grid has one cell per (time, station) pair |
| `Pivot.PivotCell` | first_project.py:13-20 | Every cell is the sum of OK over exactly the records with that Time and that Station (`CellSum`, an independent filter-then-sum definition) |
| `Pivot.TallyCell` | first_project.py:13-20 | The group-by accumulation puts into each cell the OK sum of exactly its records, for any duplicate-free labels covering the records |
| `Pivot.PivotZeroFill` | first_project.py:19 | A (time, station) pair that no record has yields 0, not a missing entry |
| `Pivot.PivotPermutationInvariant` | first_project.py:13-20 | Reordering the input records does not change the pivot: same labels, same cells |
| `Common.SumByPermutation` | first_project.py:18 | A sum over rows, such as the `sum` aggregation or the OK and NG totals, does not depend on the order of the rows |
| `Pivot.WithTotalsLayout` | first_project.py:21-22 | When no label clashes with the total labels, the report extends the pivot by one column and one row. The original cells are kept. Each time row's new entry is that row's sum over the stations. Each entry of the new row is its column's sum over the time rows, the total column included |
| `Pivot.SetColumn` | first_project.py:21 | Assigning a column keeps the row labels. An existing name keeps the column labels, and a new name is appended as the last column. Every column of that name holds the given values, and every other cell is unchanged |
| `Pivot.SetRow` | first_project.py:22 | Assigning a row keeps the column labels. An existing name keeps the row labels, and a new name is appended as the last row. Every row of that name holds the given values, and every other row is unchanged |
| `Pivot.TallyTotal` | first_project.py:13-20 | The cells of the tally add up to the sum of all OK values |
| `Pivot.ColumnTotalsSum` | first_project.py:21-22 | Summing a grid column by column gives the same as summing it row by row |
| `Pivot.TotalsCorner` | first_project.py:21-22 | The corner cell of the totals is the sum of all cells of the frame |
| `Pivot.GrandTotal` | first_project.py:21-22 | The bottom-right cell equals the sum of all OK values, which is also the sum of the per-time totals and the sum of the station totals |
| `Pivot.ReportBounds` | first_project.py:13-22 | With non-negative counts, every cell is at most its time row's total, and every row total is at most the grand total |
| `Dashboard.Mask` | dashboard_1.py:216-217 | A boolean mask keeps exactly the rows that satisfy it |
| `Dashboard.SelectBoxFilter` | dashboard_1.py:216-217 | A select box left at "All" leaves the rows unchanged; any other value keeps exactly the rows with that model type, and likewise for batch (lines 249-250) |
| `Dashboard.DateFilter` | dashboard_1.py:234-239 | The date filter keeps exactly the rows with start ≤ date ≤ end, both ends included |
| `Dashboard.Filtered` | dashboard_1.py:197-250 | A row is shown exactly when it passes all three filters; an empty range (start after end) shows nothing |
| `Dashboard.ApplyAllIsSelect` | dashboard_1.py:197-250 | Applying filters one after the other selects, in input order, the rows that pass all of them |
| `Dashboard.SelectSameCriteria` | dashboard_1.py:197-250 | What is selected depends only on which filters are applied, not on their order or repetition |
| `Dashboard.FilterOrderIndependent` | dashboard_1.py:197-250 | The dashboard's filtered rows equal the rows passing all three filters, and applying the three filters in any order gives the same rows |
| `Dashboard.SelectIsSubsequence` | dashboard_1.py:197-250 | Filtering keeps the relative order of the rows it keeps |
| `Dashboard.FilteredIsSubsequence` | dashboard_1.py:197-250 | The filtered frame is an order-preserving subsequence of the input |
| `Common.Unique` | dashboard_1.py:175 | `unique()` lists every value of the column once and nothing else |
| `Common.UniqueFirstSeenOrder` | dashboard_1.py:175 | `unique()` lists the values in the order of their first appearance |
| `Dashboard.BatchOptions` | dashboard_1.py:175 | The batch options are "All" followed by each batch that occurs in the data, each once |
| `Dashboard.BatchOptionsFirstSeen` | dashboard_1.py:175 | After "All", a batch is listed before another exactly in the order in which they first occur in the data |
| `Strings.SortedDistinct` | dashboard_1.py:208 | `sorted(unique())` is strictly ascending and has exactly the values of its input |
| `Strings.StrictlySortedUnique` | dashboard_1.py:208 | Two strictly ascending lists with the same members are equal, so the sorted list is determined by the set of values |
| `Dashboard.ModelTypeOptions` | dashboard_1.py:208 | The model-type options are "All" followed by the distinct model types in ascending order |
| `Dashboard.Code` | dashboard_1.py:37 | A value's categorical code is present exactly when the value is listed, and then it is the value's position in the order |
| `Dashboard.Rank` | dashboard_1.py:38 | The sort key ranks listed values by their position and puts missing (NaN) codes after every listed value |
| `Dashboard.InsertByRankSorted` | dashboard_1.py:38 | Inserting a row into a list ordered by rank keeps it ordered by rank |
| `Dashboard.SortByRank` | dashboard_1.py:38 | Sorting yields a permutation of the rows that is non-decreasing by rank |
| `Dashboard.OrderForPlot` | dashboard_1.py:35-38 | With no order, an empty order or no colour column, the rows are unchanged. Otherwise a duplicate in the order is an error, and success yields a permutation of the rows, non-decreasing by the colour value's index in the order |
| `Dashboard.UnknownSortLast` | dashboard_1.py:37-38 | After ordering, a row whose station the order does not list comes after every row whose station it lists |
| `AppRecord.Submit` | app_record.py:43-69 | Without a click, nothing happens. A click with an empty station name or model type is rejected, and the table is unchanged. Otherwise exactly one row is appended, carrying the submitted date, station, model, OK, NG, minutes, batch and line, and the existing rows are kept |
| `AppRecord.UnsavedKeepsKpis` | app_record.py:43-45 | An idle or rejected run leaves the KPIs as they were |
| `AppRecord.SaveUpdatesKpis` | app_record.py:43-105 | After a saved submission, the summary is shown, and its OK and NG totals have risen by exactly the submitted counts |
| `AppRecord.Yield` | app_record.py:110-113 | The yield is 0 when nothing was produced, with no division by zero. Otherwise yield × total production = 100 × total OK. The yield always lies in [0, 100], and it is 100 exactly when something was produced and no NG unit was |
| `AppRecord.Kpis` | app_record.py:84-116 | An empty table gives "no data", and only an empty table does. Otherwise the totals are the OK and NG column sums, the total production is their sum, yield × total production = 100 × total OK when something was produced, the yield lies in [0, 100], and the yield is 0 with no NG exactly when nothing was produced |
| `AppRecord.TotalNgZero` | app_record.py:104 | The NG total is zero exactly when no row has an NG unit |
| `AppRecord.FullYield` | app_record.py:103-113 | The exact yield is 100 exactly when something was produced and no row has an NG unit. The value shown after `:.2f` rounding can read 100.00 % with NG units present |
| `AppRecord.KpisPermutationInvariant` | app_record.py:79-116 | The KPI block does not depend on the `ORDER BY production_date DESC` order of the rows |
| `DataInfo.CustomOrderWellFormed` | data_info.py:34-53 | The process order has 18 stations and no duplicate, so a station's canonical index is well defined; it starts with "Incoming Check" and ends with "Packing" |
| `DataInfo.GroupedStations` | data_info.py:1-7 | A station is listed by the sub-categories exactly when some sub-category contains it |
| `DataInfo.SubCategoryCoversStations` | data_info.py:1-7 | Every station of a sub-category is in the process order, and every station of the process order is in some sub-category |
| `DataInfo.SubCategoryStationsDistinct` | data_info.py:1-7 | No station belongs to two sub-categories, nor twice to one; with the line above, the sub-categories partition the process order |
| `DataInfo.SubCategoryNamesDistinct` | data_info.py:1-7 | The five sub-category names are distinct |
| `DataInfo.CustomOrderTimeWellFormed` | data_info.py:55-58 | There are 10 distinct checkpoints, and their shift order is not the ascending string order: "00:00" follows "22:00" in the shift but sorts before it |
| `DataInfo.ModuleTypes` | data_info.py:9-12 | The module types are exactly "TX" and "RX", in that order and distinct |

## Left out

- Streamlit widgets, page layout, HTML cards, auto-refresh, the 60-second data
  cache and navigation are not modelled. They decide what is drawn, not what is
  computed. The widget values enter the model as parameters: a `Selection`, a
  `Form` and the `submitted` flag.
- Plotly rendering is not modelled: the rest of `bar_plot` and all of
  `scatter_plot`, including its floating-point axis scaling. They only draw.
- Database access is not modelled: connections, SQL text and table creation. The
  table is an abstract sequence of rows that a saved submission extends by one.
  A failing connection or INSERT is not modelled.
- The CSV file read by the report and the CSV download are not modelled. They
  are file I/O.
- The `:.2f` formatting of the yield is not modelled; the yield is the exact
  rational value.
- The read order `ORDER BY production_date DESC` is not modelled as a sort.
  `AppRecord.KpisPermutationInvariant` shows that the KPIs do not depend on it.
  The displayed table itself is UI.
- The column renaming before display is not modelled; it changes labels only.
- The operator, supplier, tray and remarks fields are not modelled, because no
  computation reads them. Neither are the column-name mismatches between the
  entry pages and the tables they write to.
- `bar_plot` writes the categorical column back into the caller's frame, which
  turns unlisted stations into NaN there. The model keeps each record's value and
  uses its categorical code (`Dashboard.Code`) for the sort key only.
- A colour column that is not one of the text fields (`Dashboard.OrderForPlot`
  takes a `Field`) is not modelled, and neither is a `color` argument naming a
  column absent from the frame other than as "no colour column".
- Dates with a time of day are not modelled. `pd.to_datetime` of a date input is
  midnight, so a date is a day number. A record stamped later than midnight on
  the end date would be excluded by the source; that case cannot arise in this
  model.
- `astype(str)` on the model type and batch columns is not modelled. A missing
  value there becomes the string "nan", which the model treats like any other
  string; `dropna()` then has nothing to drop.
- `Pivot.WithTotalsLayout` and `Pivot.GrandTotal` require that no time is
  literally the total row's label and no station the total column's. `SetColumn`
  and `SetRow` model what pandas does on such a clash, which is to overwrite, but
  the totals lemmas do not describe that case.
- `AppRecord.Submit` treats a station name or model type made only of spaces as
  present, as the source does, since such a string is truthy.
- Missing values in the report's CSV are not modelled: a `Record` always has a
  time, a station and an OK count. pandas leaves rows with a missing Time or
  Station out of the pivot and its totals, and its `sum` counts a missing OK
  value as 0, so `Pivot.GrandTotal` speaks of the rows that have all three.
- An empty record set for the report is modelled as an empty pivot. pandas
  behaviour on an empty frame is not followed further.
