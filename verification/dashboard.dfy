/**
 The two callbacks of the automobile sales dashboard:

 - `YearDropdownDisabled`: the statistics dropdown's value decides whether
   the year dropdown is disabled;
 - `Report`: the statistics dropdown's value and the selected year decide
   which four charts are shown (the recession report or the yearly report),
   or that nothing is shown.

 A chart is modelled as the data plotly draws: its kind, its title and the
 aggregated series, a map from the x (or slice) key to the plotted value.
 A report is the two rows of two charts the callback returns.
 */
module Dashboard {
  import opened Optional
  import opened Records
  import opened GroupBy
  import opened Decimal

  const YearlyStatistics: string := "Yearly Statistics"
  const RecessionPeriodStatistics: string := "Recession Period Statistics"

  // Chart titles, as the dashboard shows them.
  const RecessionTrendTitle: string := "Average Automobile Sales During Recession"
  const RecessionByTypeTitle: string := "Average Vehicles Sold by Type During Recession"
  const RecessionSpendTitle: string := "Advertising Expenditure Share by Vehicle Type During Recession"
  const UnemploymentTitle: string := "Effect of Unemployment Rate on Vehicle Type and Sales"
  const YearlyTrendTitle: string := "Yearly Automobile Sales (Overall)"
  const MonthlyTitle: string := "Total Monthly Automobile Sales"

  /** The per-year titles embed the selected year as `str` renders it. */
  function YearByTypeTitle(year: int): string {
    "Average Vehicles Sold by Vehicle Type in " + IntToString(year)
  }

  function YearSpendTitle(year: int): string {
    "Advertisement Expenditure by Vehicle Type in " + IntToString(year)
  }

  /** A group-by key: a year, a category label (vehicle type or month), or
      the (unemployment rate, vehicle type) pair of the cross-tab. */
  datatype Key = YearKey(year: int) | LabelKey(text: string) | RateTypeKey(rate: real, vehicleType: string)

  function ByYear(r: Record): Key { YearKey(r.year) }
  function ByVehicleType(r: Record): Key { LabelKey(r.vehicleType) }
  function ByMonth(r: Record): Key { LabelKey(r.month) }
  function ByRateAndType(r: Record): Key { RateTypeKey(r.unemploymentRate, r.vehicleType) }

  function Sales(r: Record): real { r.automobileSales }
  function Expenditure(r: Record): real { r.advertisingExpenditure }

  /** `ColouredBar` is a bar chart with one colour per vehicle type. */
  datatype ChartKind = Line | Bar | ColouredBar | Pie

  datatype Chart = Chart(kind: ChartKind, title: string, series: map<Key, real>)

  /** Two rows of two charts, in the order the callback lists them. */
  datatype Grid = Grid(topLeft: Chart, topRight: Chart, bottomLeft: Chart, bottomRight: Chart)

  /** The `disabled` property of the year dropdown. The statistics value is
      `None` when the dropdown has been cleared. */
  function YearDropdownDisabled(selected: Option<string>): (disabled: bool)
    ensures disabled <==> selected != Some(YearlyStatistics)
  {
    if selected == Some(YearlyStatistics) then false else true
  }

  /** Python truthiness of the year dropdown's value: `None` and `0` are false. */
  predicate Truthy(year: Option<int>) {
    year.Some? && year.value != 0
  }

  /** The four charts of the recession report, computed over the rows whose
      `Recession` column is 1. */
  function RecessionReport(data: Dataset): (g: Grid)
    ensures g.topLeft.kind == Line && g.topLeft.title == RecessionTrendTitle
    ensures IsGroupMean(RecessionRows(data), ByYear, Sales, g.topLeft.series)
    ensures g.topRight.kind == Bar && g.topRight.title == RecessionByTypeTitle
    ensures IsGroupMean(RecessionRows(data), ByVehicleType, Sales, g.topRight.series)
    ensures g.bottomLeft.kind == Pie && g.bottomLeft.title == RecessionSpendTitle
    ensures IsGroupSum(RecessionRows(data), ByVehicleType, Expenditure, g.bottomLeft.series)
    ensures g.bottomRight.kind == ColouredBar && g.bottomRight.title == UnemploymentTitle
    ensures IsGroupMean(RecessionRows(data), ByRateAndType, Sales, g.bottomRight.series)
  {
    var recession := RecessionRows(data);
    Grid(
      Chart(Line, RecessionTrendTitle, GroupMean(recession, ByYear, Sales)),
      Chart(Bar, RecessionByTypeTitle, GroupMean(recession, ByVehicleType, Sales)),
      Chart(Pie, RecessionSpendTitle, GroupSum(recession, ByVehicleType, Expenditure)),
      Chart(ColouredBar, UnemploymentTitle, GroupMean(recession, ByRateAndType, Sales)))
  }

  /** The four charts of the yearly report: the top two over the whole
      table, the bottom two over the rows of `year`, whose titles name it. */
  function YearlyReport(data: Dataset, year: int): (g: Grid)
    ensures g.topLeft.kind == Line && g.topLeft.title == YearlyTrendTitle
    ensures IsGroupMean(data, ByYear, Sales, g.topLeft.series)
    ensures g.topRight.kind == Line && g.topRight.title == MonthlyTitle
    ensures IsGroupSum(data, ByMonth, Sales, g.topRight.series)
    ensures g.bottomLeft.kind == Bar && g.bottomLeft.title == YearByTypeTitle(year)
    ensures IsGroupMean(YearRows(data, year), ByVehicleType, Sales, g.bottomLeft.series)
    ensures g.bottomRight.kind == Pie && g.bottomRight.title == YearSpendTitle(year)
    ensures IsGroupSum(YearRows(data, year), ByVehicleType, Expenditure, g.bottomRight.series)
  {
    var yearly := YearRows(data, year);
    Grid(
      Chart(Line, YearlyTrendTitle, GroupMean(data, ByYear, Sales)),
      Chart(Line, MonthlyTitle, GroupSum(data, ByMonth, Sales)),
      Chart(Bar, YearByTypeTitle(year), GroupMean(yearly, ByVehicleType, Sales)),
      Chart(Pie, YearSpendTitle(year), GroupSum(yearly, ByVehicleType, Expenditure)))
  }

  /** The output container's children: `None` when no report applies.
      The recession test comes first, so the recession report is shown
      whatever the year; the yearly report needs a truthy year. */
  function Report(selected: Option<string>, year: Option<int>, data: Dataset): (report: Option<Grid>)
    ensures report.Some? <==>
              || selected == Some(RecessionPeriodStatistics)
              || (selected == Some(YearlyStatistics) && Truthy(year))
    ensures selected == Some(RecessionPeriodStatistics) ==> report == Some(RecessionReport(data))
    ensures selected == Some(YearlyStatistics) && Truthy(year) ==> report == Some(YearlyReport(data, year.value))
  {
    if selected == Some(RecessionPeriodStatistics) then
      Some(RecessionReport(data))
    else if Truthy(year) && selected == Some(YearlyStatistics) then
      Some(YearlyReport(data, year.value))
    else
      None
  }

  /** The year dropdown is disabled exactly when the selected year cannot
      change what is shown: disabled, every year gives the same output;
      enabled, a missing year shows nothing while a truthy one shows a report. */
  lemma DisabledExactlyWhenYearIgnored(selected: Option<string>, data: Dataset)
    ensures YearDropdownDisabled(selected) ==>
              forall y1, y2 :: Report(selected, y1, data) == Report(selected, y2, data)
    ensures !YearDropdownDisabled(selected) ==>
              Report(selected, None, data).None? && forall y :: Truthy(y) ==> Report(selected, y, data).Some?
  {
  }

  /** The recession report reads nothing but the recession rows, and not
      their order: two tables whose recession rows agree as a multiset give
      the same recession report, whichever years are selected. */
  lemma RecessionReportReadsOnlyRecessionRows(d1: Dataset, d2: Dataset, y1: Option<int>, y2: Option<int>)
    requires multiset(RecessionRows(d1)) == multiset(RecessionRows(d2))
    ensures Report(Some(RecessionPeriodStatistics), y1, d1) == Report(Some(RecessionPeriodStatistics), y2, d2)
  {
    var r1, r2 := RecessionRows(d1), RecessionRows(d2);
    GroupByOrderIndependent(r1, r2, ByYear, Sales);
    GroupByOrderIndependent(r1, r2, ByVehicleType, Sales);
    GroupByOrderIndependent(r1, r2, ByVehicleType, Expenditure);
    GroupByOrderIndependent(r1, r2, ByRateAndType, Sales);
  }

  /** In the yearly report the top two charts ignore the selected year and
      the bottom two read only the rows of that year: changing any other row,
      or the order of the rows, leaves them unchanged. */
  lemma YearlyChartsReadTheirRows(d1: Dataset, d2: Dataset, y1: int, y2: int)
    ensures YearlyReport(d1, y1).topLeft == YearlyReport(d1, y2).topLeft
    ensures YearlyReport(d1, y1).topRight == YearlyReport(d1, y2).topRight
    ensures multiset(YearRows(d1, y1)) == multiset(YearRows(d2, y1)) ==>
              && YearlyReport(d1, y1).bottomLeft == YearlyReport(d2, y1).bottomLeft
              && YearlyReport(d1, y1).bottomRight == YearlyReport(d2, y1).bottomRight
  {
    if multiset(YearRows(d1, y1)) == multiset(YearRows(d2, y1)) {
      GroupByOrderIndependent(YearRows(d1, y1), YearRows(d2, y1), ByVehicleType, Sales);
      GroupByOrderIndependent(YearRows(d1, y1), YearRows(d2, y1), ByVehicleType, Expenditure);
    }
  }

  lemma RecessionYearKeys(data: Dataset, k: Key)
    ensures k in KeySet(RecessionRows(data), ByYear) <==>
              exists r :: r in data && r.recession == 1 && k == YearKey(r.year)
  {
    KeySetMembers(RecessionRows(data), ByYear, k);
  }

  lemma YearVehicleTypeKeys(data: Dataset, year: int, k: Key)
    ensures k in KeySet(YearRows(data, year), ByVehicleType) <==>
              exists r :: r in data && r.year == year && k == LabelKey(r.vehicleType)
  {
    KeySetMembers(YearRows(data, year), ByVehicleType, k);
  }

  /** The recession trend chart plots exactly the years that have a recession row. */
  lemma RecessionTrendYears(data: Dataset, k: Key)
    ensures k in RecessionReport(data).topLeft.series <==>
              exists r :: r in data && r.recession == 1 && k == YearKey(r.year)
  {
    RecessionYearKeys(data, k);
  }

  /** The yearly bar chart has one bar per vehicle type sold in the selected year. */
  lemma YearlyVehicleTypes(data: Dataset, year: int, k: Key)
    ensures k in YearlyReport(data, year).bottomLeft.series <==>
              exists r :: r in data && r.year == year && k == LabelKey(r.vehicleType)
  {
    YearVehicleTypeKeys(data, year, k);
  }

  /** The pie slices of both reports add up to the advertising expenditure
      of the rows the report covers. */
  lemma PieSlicesAddUp(data: Dataset, year: int)
    ensures var pie := RecessionReport(data).bottomLeft.series;
            SetSum(pie, pie.Keys) == Total(RecessionRows(data), Expenditure)
    ensures var pie := YearlyReport(data, year).bottomRight.series;
            SetSum(pie, pie.Keys) == Total(YearRows(data, year), Expenditure)
  {
    GroupSumsAddUpToTotal(RecessionRows(data), ByVehicleType, Expenditure);
    GroupSumsAddUpToTotal(YearRows(data, year), ByVehicleType, Expenditure);
  }

  /** The yearly titles name the selected year: two different years never
      share a title. */
  lemma YearlyTitlesNameTheYear(data: Dataset, y1: int, y2: int)
    requires y1 != y2
    ensures YearlyReport(data, y1).bottomLeft.title != YearlyReport(data, y2).bottomLeft.title
    ensures YearlyReport(data, y1).bottomRight.title != YearlyReport(data, y2).bottomRight.title
  {
    IntToStringInjective(y1, y2);
    PrefixKeepsDifference("Average Vehicles Sold by Vehicle Type in ", IntToString(y1), IntToString(y2));
    PrefixKeepsDifference("Advertisement Expenditure by Vehicle Type in ", IntToString(y1), IntToString(y2));
  }

  lemma PrefixKeepsDifference(p: string, a: string, b: string)
    ensures a != b ==> p + a != p + b
  {
    if p + a == p + b {
      assert (p + a)[|p|..] == a && (p + b)[|p|..] == b;
    }
  }
}
