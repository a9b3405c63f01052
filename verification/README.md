# Automobile sales dashboard — Dafny model

The dashboard loads a table of automobile sales records and shows one of two
reports, chosen by a "statistics" dropdown:

- the **recession report**: four charts over the rows whose `Recession`
  column is 1 (mean sales by year, mean sales by vehicle type, advertising
  expenditure share by vehicle type, mean sales by unemployment rate and
  vehicle type);
- the **yearly report**: mean sales by year and total sales by month over
  the whole table, then mean sales and advertising expenditure by vehicle
  type over the rows of the selected year.

A second callback disables the year dropdown unless the yearly report is
selected. This project models both callbacks as pure functions over an
immutable sequence of records, with the pandas `groupby(...).sum()` /
`.mean()` calls written out as folds with exact arithmetic, and proves what
the code promises about them.

Modules, one per concern:

- `Optional` (`optional.dfy`): the Some/None datatype for Python values that may be `None`.
- `Records` (`records.dfy`): the record type, the row filter, the recession and
  year subsets, and column totals.
- `GroupBy` (`groupby.dfy`): group-by sum, count and mean, each tied to a
  reference definition (`SumWhere`, `CountWhere`, `KeySet`, and `Group` with `Total`); the sum-preservation
  and row-order-independence theorems.
- `Decimal` (`decimal.dfy`): `str(int)` as used in the f-string titles, with a parse round-trip.
- `Years` (`years.dfy`): `year_list` and the year dropdown's default value.
- `Dashboard` (`dashboard.dfy`): the enablement rule, the two reports, the
  mode dispatch and the lemmas about which rows feed which chart.

A chart is modelled as what plotly is handed: a kind (line, bar, bar coloured
by vehicle type, pie), a title, and the aggregated series as a map from key
to value. The dropdown value is an `Option<string>` (a cleared dropdown
gives `None`); the selected year is an `Option<int>`, truthy when it is
present and non-zero, as Python's `if input_year` reads it.

Behaviour of the code worth knowing, all of it modelled as written:

- An unrecognised or cleared statistics value, or a falsy year in the yearly
  mode, makes the report callback return `None` (no children), not an empty
  list of charts.
- A selected year with no rows is not rejected: the two per-year charts are
  computed over an empty subset and come out empty.
- Months are grouped by the `Month` column's value; the code imposes no
  calendar order, so neither does the model.
- The recession test is `Recession == 1` on the raw column, so any value other
  than 1 counts as "not in recession".

## Model

| member | source | states |
|---|---|---|
| Records.Filter | assignment_2.py:88 | a boolean-mask selection keeps exactly the rows satisfying the mask, each as often as it occurs in the table, and never grows the table |
| Records.RecessionRows | assignment_2.py:88 | `recession_data` holds exactly the table rows whose `Recession` column equals 1 |
| Records.YearRows | assignment_2.py:150 | `yearly_data` holds exactly the table rows whose `Year` equals the selected year |
| GroupBy.GroupSum | assignment_2.py:113 | `groupby(key)[col].sum()` has one entry per distinct key present and each entry is the total of the column over exactly the rows with that key |
| GroupBy.GroupCount | assignment_2.py:102 | the row count behind a mean: one entry per distinct key, equal to the size of that key's group and at least 1 |
| GroupBy.GroupMean | assignment_2.py:91 | `groupby(key)[col].mean()` has one entry per distinct key present; each group is non-empty and its entry is the group's total divided by its size |
| GroupBy.KeySetIsKeysPresent | assignment_2.py:124 | the keys of a group-by result are exactly the key values occurring in some input row |
| GroupBy.GroupIsRowsWithKey | assignment_2.py:175 | a group consists of exactly the input rows carrying its key |
| GroupBy.PresentKeyIsNonEmpty | assignment_2.py:102 | every key of a group-by result has at least one row, so no mean divides by zero |
| GroupBy.SumWhereIsGroupTotal | assignment_2.py:164 | the per-key sum and count of a group-by are the column total and the size of the sequence of rows carrying that key |
| GroupBy.EmptyGroupsAreEmpty | assignment_2.py:88-91 | grouping an empty subset gives an empty sum and an empty mean, not a fault |
| GroupBy.GroupSumsAddUpToTotal | assignment_2.py:113-121 | the per-key sums of a pie chart add up to the column total over all input rows, whatever order the keys are added in |
| GroupBy.GroupByOrderIndependent | assignment_2.py:153 | group sums and means depend only on which rows there are and how often, not on their order |
| GroupBy.KeySetMembers | assignment_2.py:124 | a key appears in a group-by result exactly when some input row carries it |
| Decimal.NatToString | assignment_2.py:181 | a non-negative year renders as a non-empty string of decimal digits with no leading zero |
| Decimal.IntToStringRoundTrip | assignment_2.py:192 | `IntToString`, the model of `str(input_year)` inside the f-string titles, is undone by `ParseInt`: reading back the rendering of a year gives the year, so the title text determines the year |
| Years.YearList | assignment_2.py:26 | `year_list` is strictly ascending and holds exactly the years occurring in the table |
| Years.StrictlyIncreasingUnique | assignment_2.py:26 | there is only one strictly ascending list with a given set of elements, so `year_list` is the sorted deduplicated year list |
| Years.DefaultYear | assignment_2.py:49 | the year dropdown's default is a year of the table no later than any other; `None` stands for the IndexError `year_list[0]` raises on an empty table, where the dashboard never starts |
| Dashboard.YearDropdownDisabled | assignment_2.py:66-70 | the year dropdown is disabled exactly when the statistics value is not `'Yearly Statistics'`, including a cleared or unknown value |
| Dashboard.DisabledExactlyWhenYearIgnored | assignment_2.py:62-81 | when the year dropdown is disabled no year changes the output; when it is enabled a missing year shows nothing and a truthy year shows a report |
| Dashboard.RecessionReport | assignment_2.py:86-143 | two rows of two charts, top left to bottom right: a line of mean sales per recession year, bars of mean sales per vehicle type, a pie of expenditure per vehicle type, coloured bars of mean sales per (unemployment rate, vehicle type), all over the recession rows only |
| Dashboard.YearlyReport | assignment_2.py:148-214 | two rows of two charts, top left to bottom right: mean sales per year and total sales per month over the whole table, then mean sales and expenditure per vehicle type over the selected year's rows, with that year in both titles (`YearByTypeTitle` and `YearSpendTitle`, the f-strings of lines 181 and 192) |
| Dashboard.Report | assignment_2.py:81-218 | a report is shown exactly for the recession value (any year) or the yearly value with a truthy year (`Truthy`: present and non-zero, as `if input_year` at line 148 reads it); the recession test wins; otherwise `None` |
| Dashboard.RecessionReportReadsOnlyRecessionRows | assignment_2.py:88-133 | two tables whose recession rows agree as a multiset give the same recession report for any two selected years |
| Dashboard.YearlyChartsReadTheirRows | assignment_2.py:150-186 | the first two yearly charts do not depend on the selected year; the last two depend only on the multiset of that year's rows |
| Dashboard.RecessionYearKeys | assignment_2.py:88-91 | the years grouped from the recession subset are exactly the years of the table rows with `Recession` equal to 1 |
| Dashboard.YearVehicleTypeKeys | assignment_2.py:150-175 | the vehicle types grouped from the selected year's subset are exactly the types of the table rows of that year |
| Dashboard.RecessionTrendYears | assignment_2.py:91-97 | the recession trend chart plots exactly the years that have at least one recession row |
| Dashboard.YearlyVehicleTypes | assignment_2.py:175-181 | the yearly bar chart has one bar per vehicle type occurring in the selected year's rows |
| Dashboard.PieSlicesAddUp | assignment_2.py:113-193 | the slices of the recession pie (lines 113-121) add up to the advertising expenditure of the recession rows, and those of the yearly pie (lines 186-193) to the expenditure of the selected year's rows |
| Dashboard.YearlyTitlesNameTheYear | assignment_2.py:181-192 | two different selected years never produce the same per-year chart title |

## Left out

- Loading the CSV over HTTP (assignment_2.py:12-14): network I/O; the table is a given immutable `seq<Record>`, unvalidated beyond its field types.
- The Dash app, page layout, dropdown option lists, styling and `app.run` (assignment_2.py:17-57, 221-223): UI and server plumbing.
- Plotly figure construction and the `html.Div` wrapping of the charts: rendering; each chart is its kind, title and data map, and the two `html.Div` rows of two charts are one four-position grid.
- Floating-point arithmetic, NaN handling and missing values in pandas: sums and means are exact over `real`.
- pandas' sorted order of group keys (and so the ascending x axis of the line charts): a group-by result is a map with no order.
- The reactive runtime's event ordering and any concurrency between the two callbacks: they belong to the framework.
- A year dropdown value that is not an integer: the dropdown only offers the integers of `year_list`.
- Records.Filter: states which rows are kept and how often, not that they keep their original order (no aggregation depends on the order, as GroupBy.GroupByOrderIndependent shows).
