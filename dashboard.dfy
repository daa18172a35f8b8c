/**
 * The recomputation the dashboard performs whenever a control changes
 * (`update_dashboard`, app.py, lines 127-210): the year filter, the KPI
 * figures of the filtered rows, the transition time of the animation toggle
 * and the data handed to the chart the selector picks. The base table is a
 * value, so no branch can change it.
 */
module Dashboard {
  import opened Wrappers
  import opened Collections
  import opened Orders
  import opened Table
  import opened Dataset
  import opened Kpi

  // ---------------------------------------------------------------------
  // Year filter (app.py, lines 128-130)
  // ---------------------------------------------------------------------

  /**
   * The value of the year drop-down: the "ALL" sentinel, one of the listed
   * years, or nothing once the user clears the drop-down.
   */
  datatype YearSelection = AllYears | SelectedYear(year: int) | Cleared

  function HasYear(y: int): Row -> bool {
    (r: Row) => YearOf(r) == Some(y)
  }

  /**
   * Every selection other than "ALL" applies the mask `Year == selected_year`.
   * A row without a date has a NaN year, which equals no year; a cleared
   * drop-down compares every year with None, which never holds.
   */
  function FilterByYear(data: seq<Row>, sel: YearSelection): (r: seq<Row>)
    ensures IsSubsequence(r, data)
    ensures sel.AllYears? ==> r == data
    ensures sel.SelectedYear? ==>
              forall x :: multiset(r)[x] == if YearOf(x) == Some(sel.year) then multiset(data)[x] else 0
    ensures sel.SelectedYear? ==> forall i :: 0 <= i < |r| ==> YearOf(r[i]) == Some(sel.year)
    ensures sel.Cleared? ==> r == []
  {
    match sel
    case AllYears =>
      SubsequenceOfItself(data);
      data
    case SelectedYear(y) =>
      FilterMultiplicity(data, HasYear(y));
      Filter(data, HasYear(y))
    case Cleared => []
  }

  /** Selecting a year that no row has leaves no rows, hence all-zero KPIs. */
  lemma AbsentYearSelectsNothing(base: seq<Row>, y: int)
    requires y !in Years(base)
    ensures FilterByYear(base, SelectedYear(y)) == []
    ensures KpiValues(FilterByYear(base, SelectedYear(y))) == Kpis(0.0, 0.0, 0.0, 0.0)
  {
    FilterNone(base, HasYear(y));
  }

  /**
   * A year selects some rows exactly when it is one of the drop-down's year
   * options (app.py, line 84), which are the entries of `Years`.
   */
  lemma SelectsRowsIffListed(base: seq<Row>, y: int)
    ensures FilterByYear(base, SelectedYear(y)) != [] <==> y in Years(base)
  {
    var r := FilterByYear(base, SelectedYear(y));
    if y in Years(base) {
      var i :| 0 <= i < |base| && YearOf(base[i]) == Some(y);
      assert base[i] in multiset(base);
      assert multiset(r)[base[i]] > 0;
    } else {
      AbsentYearSelectsNothing(base, y);
    }
  }

  /** The year filter distributes over concatenation: a table in two parts is filtered part by part. */
  lemma FilterByYearConcat(a: seq<Row>, b: seq<Row>, sel: YearSelection)
    ensures FilterByYear(a + b, sel) == FilterByYear(a, sel) + FilterByYear(b, sel)
  {
    if sel.SelectedYear? {
      FilterConcat(a, b, HasYear(sel.year));
    }
  }

  // ---------------------------------------------------------------------
  // Animation toggle (app.py, line 153)
  // ---------------------------------------------------------------------

  /** The transition duration in milliseconds handed to the chart layout. */
  function TransitionTime(animationMode: string): (ms: int)
    ensures ms == 600 <==> animationMode == "on"
    ensures ms == 0 <==> animationMode != "on"
  {
    if animationMode == "on" then 600 else 0
  }

  // ---------------------------------------------------------------------
  // Chart selector (app.py, lines 155-202)
  // ---------------------------------------------------------------------

  datatype ChartKind = Donut | Trend | Box | Heatmap

  /**
   * The branch `update_dashboard` takes for a selector value (`None` once the
   * drop-down is cleared): the three named charts select themselves and every
   * other value, "heatmap" included, reaches the final `else`.
   */
  function SelectChart(chartType: Option<string>): (k: ChartKind)
    ensures k == Donut <==> chartType == Some("donut")
    ensures k == Trend <==> chartType == Some("trend")
    ensures k == Box <==> chartType == Some("box")
    ensures k == Heatmap <==> chartType !in {Some("donut"), Some("trend"), Some("box")}
  {
    if chartType == Some("donut") then Donut
    else if chartType == Some("trend") then Trend
    else if chartType == Some("box") then Box
    else Heatmap
  }

  // ---------------------------------------------------------------------
  // Monthly trend (app.py, lines 164-170)
  // ---------------------------------------------------------------------

  /** One row of `monthly`: a month, its number and the month's total amount. */
  datatype TrendPoint = TrendPoint(month: string, monthNum: MonthNum, amount: real)

  function InMonth(m: MonthNum): Row -> bool {
    InGroup(MonthOf, m)
  }

  function PointsTotal(ps: seq<TrendPoint>): real {
    if ps == [] then 0.0 else ps[0].amount + PointsTotal(ps[1..])
  }

  function ToTrendPoints(gs: seq<Group<MonthNum>>): (ps: seq<TrendPoint>)
    ensures |ps| == |gs|
    ensures forall i :: 0 <= i < |gs| ==> ps[i] == TrendPoint(MonthName(gs[i].key), gs[i].key, gs[i].total)
    ensures PointsTotal(ps) == Totals(gs)
  {
    if gs == [] then []
    else [TrendPoint(MonthName(gs[0].key), gs[0].key, gs[0].total)] + ToTrendPoints(gs[1..])
  }

  /**
   * `data.groupby(["Month", "Month_Num"])["Amount"].sum().reset_index()
   * .sort_values("Month_Num")`. The month name is a function of the month
   * number, so grouping by the pair is grouping by the number. Rows
   * without a date have NaN keys and are left out. One point per month
   * present, in strictly ascending month order, each holding that month's
   * sum; the points add up to the total of the dated rows.
   */
  function TrendSeries(data: seq<Row>): (ps: seq<TrendPoint>)
    ensures forall i, j :: 0 <= i < j < |ps| ==> ps[i].monthNum < ps[j].monthNum
    ensures forall i :: 0 <= i < |ps| ==> ps[i].month == MonthName(ps[i].monthNum)
    ensures forall m: MonthNum :: (exists i :: 0 <= i < |ps| && ps[i].monthNum == m) <==> HasKey(data, MonthOf, m)
    ensures forall i :: 0 <= i < |ps| ==> ps[i].amount == SumWhere(data, InMonth(ps[i].monthNum))
    ensures PointsTotal(ps) == SumWhere(data, IsDated)
  {
    MonthLessIsStrictTotalOrder();
    var gs := GroupBySum(data, MonthOf, MonthLess);
    FilterSameMask(data, IsKeyed(MonthOf), IsDated);
    var ps := ToTrendPoints(gs);
    forall m: MonthNum | HasKey(data, MonthOf, m)
      ensures exists i :: 0 <= i < |ps| && ps[i].monthNum == m
    {
      var i :| 0 <= i < |gs| && gs[i].key == m;
      assert ps[i].monthNum == m;
    }
    ps
  }

  // ---------------------------------------------------------------------
  // Heatmap (app.py, lines 189-194)
  // ---------------------------------------------------------------------

  /** One row of `heat`: a month name, a transaction type and their total amount. */
  datatype HeatCell = HeatCell(month: string, txType: string, amount: real)

  /** The (`Month`, `Transaction_Type`) key; NaN month for a row without a date. */
  function CellKey(r: Row): Option<(string, string)> {
    if r.date.Some? then Some((MonthName(r.date.value.month), r.txType)) else None
  }

  function CellsTotal(cs: seq<HeatCell>): real {
    if cs == [] then 0.0 else cs[0].amount + CellsTotal(cs[1..])
  }

  function ToHeatCells(gs: seq<Group<(string, string)>>): (cs: seq<HeatCell>)
    ensures |cs| == |gs|
    ensures forall i :: 0 <= i < |gs| ==> cs[i] == HeatCell(gs[i].key.0, gs[i].key.1, gs[i].total)
    ensures CellsTotal(cs) == Totals(gs)
  {
    if gs == [] then []
    else [HeatCell(gs[0].key.0, gs[0].key.1, gs[0].total)] + ToHeatCells(gs[1..])
  }

  /** Some dated row of `data` has this month name and this type. */
  ghost predicate CellPresent(data: seq<Row>, month: string, txType: string) {
    exists i :: 0 <= i < |data| && data[i].date.Some? && MonthName(data[i].date.value.month) == month && data[i].txType == txType
  }

  /**
   * `data.groupby(["Month", "Transaction_Type"])["Amount"].sum().reset_index()`:
   * one cell per (month name, type) pair among the dated rows, in the
   * ascending order of `groupby`'s sorted keys (month name first, both
   * compared as strings), each holding the pair's sum; the cells add up to
   * the total of the dated rows.
   */
  function HeatmapCells(data: seq<Row>): (cs: seq<HeatCell>)
    ensures forall i, j :: 0 <= i < j < |cs| ==> PairLess((cs[i].month, cs[i].txType), (cs[j].month, cs[j].txType))
    ensures forall m, t :: (exists i :: 0 <= i < |cs| && cs[i].month == m && cs[i].txType == t) <==> CellPresent(data, m, t)
    ensures forall i :: 0 <= i < |cs| ==> cs[i].amount == SumWhere(data, InGroup(CellKey, (cs[i].month, cs[i].txType)))
    ensures CellsTotal(cs) == SumWhere(data, IsDated)
  {
    PairLessIsStrictTotalOrder();
    var gs := GroupBySum(data, CellKey, PairLess);
    IsDatedHasDate();
    FilterSameMask(data, IsKeyed(CellKey), IsDated);
    var cs := ToHeatCells(gs);
    assert forall m, t :: (exists i :: 0 <= i < |cs| && cs[i].month == m && cs[i].txType == t) <==> CellPresent(data, m, t) by {
      forall m, t
        ensures (exists i :: 0 <= i < |cs| && cs[i].month == m && cs[i].txType == t) <==> CellPresent(data, m, t)
      {
        if i :| 0 <= i < |cs| && cs[i].month == m && cs[i].txType == t {
          assert gs[i].key == (m, t);
          assert HasKey(data, CellKey, (m, t));
          var j :| 0 <= j < |data| && CellKey(data[j]) == Some((m, t));
        }
        if CellPresent(data, m, t) {
          var j :| 0 <= j < |data| && data[j].date.Some? && MonthName(data[j].date.value.month) == m && data[j].txType == t;
          assert CellKey(data[j]) == Some((m, t));
          assert HasKey(data, CellKey, (m, t));
          var i :| 0 <= i < |gs| && gs[i].key == (m, t);
          assert cs[i].month == m && cs[i].txType == t;
        }
      }
    }
    cs
  }

  // ---------------------------------------------------------------------
  // The whole recomputation
  // ---------------------------------------------------------------------

  /**
   * The data handed to the charting library: the pie and the box plot get the
   * filtered rows as they are, the line chart and the heatmap get their
   * aggregates and the month order of the whole table as the month axis.
   */
  datatype Figure =
    | DonutFigure(rows: seq<Row>)
    | TrendFigure(points: seq<TrendPoint>, monthAxis: seq<Option<string>>)
    | BoxFigure(rows: seq<Row>)
    | HeatmapFigure(cells: seq<HeatCell>, monthAxis: seq<Option<string>>)

  datatype View = View(kpis: Kpis, figure: Figure, transitionDuration: int)

  /** `update_dashboard(selected_year, chart_type, animation_mode)` over the base table. */
  function UpdateDashboard(base: seq<Row>, selectedYear: YearSelection, chartType: Option<string>, animationMode: string): (v: View)
    ensures v.kpis == KpiValues(FilterByYear(base, selectedYear))
    ensures v.transitionDuration == TransitionTime(animationMode)
    ensures v.figure.DonutFigure? <==> SelectChart(chartType) == Donut
    ensures v.figure.TrendFigure? <==> SelectChart(chartType) == Trend
    ensures v.figure.BoxFigure? <==> SelectChart(chartType) == Box
    ensures v.figure.HeatmapFigure? <==> SelectChart(chartType) == Heatmap
    ensures (v.figure.DonutFigure? || v.figure.BoxFigure?) ==> v.figure.rows == FilterByYear(base, selectedYear)
    ensures v.figure.TrendFigure? ==> v.figure.points == TrendSeries(FilterByYear(base, selectedYear))
    ensures v.figure.HeatmapFigure? ==> v.figure.cells == HeatmapCells(FilterByYear(base, selectedYear))
    ensures (v.figure.TrendFigure? || v.figure.HeatmapFigure?) ==> v.figure.monthAxis == MonthOrder(base)
  {
    var data := FilterByYear(base, selectedYear);
    var figure :=
      match SelectChart(chartType)
      case Donut => DonutFigure(data)
      case Trend => TrendFigure(TrendSeries(data), MonthOrder(base))
      case Box => BoxFigure(data)
      case Heatmap => HeatmapFigure(HeatmapCells(data), MonthOrder(base));
    View(KpiValues(data), figure, TransitionTime(animationMode))
  }

  // ---------------------------------------------------------------------
  // Properties relating the views
  // ---------------------------------------------------------------------

  /**
   * The trend, the heatmap and the KPI total agree: the trend points and the
   * heatmap cells each add up to the dated rows' total, and the KPI total
   * exceeds it by exactly the amounts of the rows without a date.
   */
  lemma ViewsAccountForTotal(data: seq<Row>)
    ensures PointsTotal(TrendSeries(data)) == CellsTotal(HeatmapCells(data))
    ensures KpiValues(data).total == PointsTotal(TrendSeries(data)) + SumWhere(data, IsUndated)
  {
    IsDatedHasDate();
    SumSplit(data, IsDated, IsUndated);
  }

  /** A filter by year only keeps dated rows, so the trend then holds the whole KPI total. */
  lemma TrendOfSelectedYearHoldsTotal(base: seq<Row>, y: int)
    ensures PointsTotal(TrendSeries(FilterByYear(base, SelectedYear(y)))) == KpiValues(FilterByYear(base, SelectedYear(y))).total
  {
    var data := FilterByYear(base, SelectedYear(y));
    IsDatedHasDate();
    FilterAll(data, IsDated);
  }

  /** Three transactions: two in January 2021 (a credit and a debit), a credit in February 2021. */
  function ExampleRows(): seq<Row> {
    [Row(Some(CalendarDate(2021, 1)), 100.0, "Credit"),
     Row(Some(CalendarDate(2021, 1)), 40.0, "Debit"),
     Row(Some(CalendarDate(2021, 2)), 30.0, "Credit")]
  }

  lemma ExampleKpis()
    ensures KpiValues(ExampleRows()) == Kpis(170.0, 130.0, 40.0, 90.0)
  {
    var rows := ExampleRows();
    assert rows[1..][1..][1..] == [];
  }

  lemma ExampleMonthSums()
    ensures SumWhere(ExampleRows(), InMonth(1)) == 140.0
    ensures SumWhere(ExampleRows(), InMonth(2)) == 30.0
  {
    var rows := ExampleRows();
    assert rows[1..] == rows[1..2] + [rows[2]] && rows[1..][1..] == [rows[2]] && [rows[2]][1..] == [];
    var jan, feb := InMonth(1), InMonth(2);
    assert MonthOf(rows[0]) == Some(1) && MonthOf(rows[1]) == Some(1) && MonthOf(rows[2]) == Some(2);
    assert forall r :: jan(r) == (MonthOf(r) == Some(1)) && feb(r) == (MonthOf(r) == Some(2));
    assert jan(rows[0]) && jan(rows[1]) && !jan(rows[2]);
    assert !feb(rows[0]) && !feb(rows[1]) && feb(rows[2]);
    assert Filter([rows[2]], jan) == [];
    assert Filter(rows[1..], jan) == [rows[1]];
    assert Filter(rows, jan) == [rows[0], rows[1]];
    assert Filter([rows[2]], feb) == [rows[2]];
    assert Filter(rows[1..], feb) == [rows[2]];
    assert Filter(rows, feb) == [rows[2]];
    assert [rows[0], rows[1]][1..] == [rows[1]];
  }

  lemma ExampleMonthKeys()
    ensures KeysOf(ExampleRows(), MonthOf) == [1, 1, 2]
  {
    var rows := ExampleRows();
    assert rows[1..][1..] == [rows[2]] && [rows[2]][1..] == [];
  }

  lemma ExampleDistinctMonths()
    ensures StrictTotalOrder(MonthLess) && SortedDistinct<MonthNum>([1, 1, 2], MonthLess) == [1, 2]
  {
    MonthLessIsStrictTotalOrder();
    var one: seq<MonthNum>, two: seq<MonthNum>, three: seq<MonthNum> := [2], [1, 2], [1, 1, 2];
    assert three[1..] == two && two[1..] == one && one[1..] == [];
    assert SortedDistinct(one, MonthLess) == [2];
    assert SortedDistinct(two, MonthLess) == [1, 2];
  }

  lemma ExampleTrend()
    ensures TrendSeries(ExampleRows()) == [TrendPoint("January", 1, 140.0), TrendPoint("February", 2, 30.0)]
  {
    var rows := ExampleRows();
    ExampleMonthKeys();
    ExampleDistinctMonths();
    ExampleMonthSums();
    var gs := Groups([1, 2], rows, MonthOf);
    assert gs == [Group(1, 140.0), Group(2, 30.0)];
    assert GroupBySum(rows, MonthOf, MonthLess) == gs;
  }
}
