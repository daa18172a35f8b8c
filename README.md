# Banking transaction dashboard: the data kernel

This project models the data-transformation kernel of a single-file banking
dashboard (`app.py`). The dashboard loads a table of bank transactions once
and derives calendar fields from each row's date. On every change of its
three controls it recomputes four KPI figures and the data for one chart.
The controls are a year drop-down, a chart drop-down and an animation toggle.

The model works on values. A table is a `seq<Row>`. The base table is never
changed: each recomputation is a function of the base table and the control
values.

- `Table`: a `Row` has an optional calendar date (year, month number 1-12),
  an amount and a transaction type. The date is `None` where the date string
  did not parse. The `Month` label is derived from the month number
  (`MonthName`). This module also holds column sums, masked sums and the
  `groupby(key)["Amount"].sum()` idiom (`GroupBySum`). That idiom uses pandas'
  defaults: sorted keys, and rows with a NaN key dropped.
- `Collections`: the generic building blocks. `Filter` is a boolean-mask
  selection. `SortedDistinct` is the "distinct values, ascending" idiom
  behind `drop_duplicates().sort_values()`, `sorted(unique())` and a
  `groupby` key index. A lemma shows that such a listing is unique.
- `Orders`: the orders pandas sorts by. Numbers sort ascending. Strings use
  Python's code-point lexicographic order. Pairs of strings are compared on
  the first string, then the second. Each is proved to be a strict total
  order.
- `Dataset`: the values derived once at start-up: `month_order`
  (`MonthOrder`) and the year options (`Years`).
- `Kpi`: `kpi_values` (`KpiValues`).
- `Dashboard`: `update_dashboard`. It covers the year filter, the transition
  time, the chart dispatch, the trend and heatmap aggregations and the whole
  recomputation (`UpdateDashboard`). It also holds lemmas that relate the
  views to each other and a worked three-transaction example.

Amounts are `real`, so floating-point rounding is not modelled. The dashboard
has no loops and no in-place updates (its only mutation is the load-time
column assignment). So every operation here is a function, and the
properties are its `ensures` clauses and lemmas.

The trend groups by the month number alone. This gives the same groups as
grouping by (`Month`, `Month_Num`). The number determines the name because
`MonthName` is a function. The name determines the number because
`MonthOrdinal` recovers every month number from its name
(`Table.MonthNameInjective`). The month numbers are distinct, so the final
`sort_values("Month_Num")` fixes the order of the points.

Edge cases of the controls:

- An unrecognised chart selector, and a cleared drop-down (`None`), fall
  through to the heatmap aggregation; there is no separate default view.
- An empty trend is an empty series. There is no separate "no data" result.
- A cleared year drop-down (`None`) is not the `"ALL"` sentinel: the mask
  `Year == None` holds for no row, so it selects zero rows.
- `month_order` keeps one missing label (`None`) at its end when some date
  did not parse. `drop_duplicates` keeps one (NaN, NaN) pair, and
  `sort_values` puts NaN last.

## Model

| member | source | states |
|---|---|---|
| `Table.MonthName` | app.py:13 | defines `dt.month_name()`: the English name of a month number |
| `Table.MonthNameInjective` | app.py:13-14 | the `Month` label determines `Month_Num`: `MonthOrdinal` recovers every month number from its name |
| `Table.YearOf` | app.py:12 | defines the `Year` column: the year of a parsed date, NaN (`None`) for a row without a date |
| `Table.MonthOf` | app.py:14 | defines the `Month_Num` column: the month number of a parsed date, NaN (`None`) for a row without a date |
| `Table.IsDatedHasDate` | app.py:11-14 | a row has a `Month_Num`, and so belongs to the groups of the trend and the heatmap, exactly when its date parsed |
| `Table.Sum` | app.py:35 | defines `["Amount"].sum()`: the sum of the amounts, 0 for no rows |
| `Table.SumWhere` | app.py:36-37 | defines the masked sum `data[mask]["Amount"].sum()` |
| `Table.SumSplit` | app.py:35-37 | a mask and its complement split the `Amount` sum of any rows |
| `Table.TotalsConserved` | app.py:166-167 | for distinct keys that cover every keyed row, the group totals add up to the total of the keyed rows |
| `Table.GroupBySum` | app.py:166-168 | `groupby(key)["Amount"].sum().reset_index()` gives one result row per distinct key among the keyed rows, in strictly ascending key order; each result is its group's sum; the results add up to the keyed rows' total |
| `Collections.Filter` | app.py:130 | a mask selection is an order-preserving subsequence of its input, and every element it keeps satisfies the mask |
| `Collections.FilterMultiplicity` | app.py:130 | a mask selection keeps each matching row with its multiplicity and drops every other row, so nothing is duplicated or invented |
| `Collections.SortedDistinct` | app.py:16-19 | the listing is strictly ascending, has no duplicates and holds exactly the values of the input |
| `Collections.SortedListingUnique` | app.py:29 | two strictly sorted sequences with the same elements are equal, so the ascending distinct listing does not depend on how it is computed |
| `Orders.StrLess` | app.py:191 | defines Python's `<` on `str`: code-point lexicographic order, a proper prefix first |
| `Orders.PairLess` | app.py:191 | defines the order of the two-column `groupby` key: by month name, then by type |
| `Orders.PairLessIsStrictTotalOrder` | app.py:191 | the (month, type) key order of the heatmap `groupby` is a strict total order |
| `Dataset.PresentMonths` | app.py:16-19 | the month numbers present in the table, each once, strictly ascending |
| `Dataset.LabelsOfPresentMonths` | app.py:16-20 | a month name is among the labels of the present months exactly when some dated row falls in that month |
| `Dataset.MonthOrder` | app.py:16-21 | `month_order` lists each month name present in the data exactly once, in strictly ascending calendar order; it ends in one missing label exactly when some row has no date; it has no duplicates |
| `Dataset.Years` | app.py:29 | `years` is strictly increasing and holds exactly the years of the dated rows |
| `Dataset.YearsIsTheAscendingListing` | app.py:29 | any strictly increasing list of exactly the present years equals `Years` |
| `Dataset.YearsIgnoreRowOrder` | app.py:29 | reordering the rows of the table does not change the year options |
| `Kpi.OfType` | app.py:36-37 | defines the mask `Transaction_Type == t` |
| `Kpi.KpiValues` | app.py:34-39 | net equals credit minus debit; total equals credit plus debit plus the sum of rows of any other type; credit and debit are the sums of the "Credit" and "Debit" rows; no rows give four zeros |
| `Kpi.TotalByType` | app.py:35-37 | the total splits into the credit sum, the debit sum and the sum of all other types |
| `Kpi.KpiValuesAdditive` | app.py:34-39 | the KPIs of a table in two parts are the component-wise sums of the parts' KPIs |
| `Dashboard.FilterByYear` | app.py:128-130 | "ALL" returns the rows unchanged and in order; a year returns an order-preserving subsequence holding exactly the rows of that year, with their multiplicities, and no undated row; a cleared drop-down returns no rows |
| `Dashboard.HasYear` | app.py:130 | defines the mask `Year == selected_year`; a row without a date matches no year |
| `Dashboard.AbsentYearSelectsNothing` | app.py:128-132 | a year that no row has selects zero rows, and the KPIs are then all zero |
| `Dashboard.SelectsRowsIffListed` | app.py:84 | a year selects at least one row exactly when it is one of the drop-down's year options |
| `Dashboard.FilterByYearConcat` | app.py:129-130 | the year filter of a table in two parts is the concatenation of the parts' filters |
| `Dashboard.TransitionTime` | app.py:153 | the transition time is 600 exactly when the mode is "on", and 0 exactly when it is anything else |
| `Dashboard.SelectChart` | app.py:155-189 | "donut", "trend" and "box" each select their own branch; every other selector value, including "heatmap" and a cleared drop-down, selects the heatmap |
| `Dashboard.TrendSeries` | app.py:164-170 | one point per month present among the dated rows, in strictly ascending month order, labelled with its month name; each point holds the sum of its month's rows; the points add up to the total of the dated rows |
| `Dashboard.CellKey` | app.py:191 | defines the (`Month`, `Transaction_Type`) group key; NaN (`None`) for a row without a date |
| `Dashboard.HeatmapCells` | app.py:189-194 | one cell per (month name, type) pair present among the dated rows, in `groupby`'s ascending key order; each cell holds the sum of its pair's rows; the cells add up to the total of the dated rows |
| `Dashboard.UpdateDashboard` | app.py:127-210 | the KPIs are those of the year-filtered rows; the transition time follows the toggle; the figure kind follows `SelectChart` in both directions; the pie and box charts get the filtered rows unchanged; the trend and heatmap get their aggregates of the filtered rows, with the whole table's `month_order` as the month axis |
| `Dashboard.ViewsAccountForTotal` | app.py:132-194 | the trend points and the heatmap cells have the same total; the KPI total exceeds it by exactly the amounts of the undated rows |
| `Dashboard.TrendOfSelectedYearHoldsTotal` | app.py:128-132 | after selecting a year, the trend points add up to the KPI total |
| `Dashboard.ExampleKpis` | app.py:34-39 | for the three-transaction example, the KPIs are 170, 130, 40 and 90 |
| `Dashboard.ExampleTrend` | app.py:164-170 | for the same example, the trend is January 140, then February 30 |

## Left out

- Loading the CSV and the initial `dropna` (app.py:8-9) are file I/O. Parsing
  the date strings (app.py:11) is pandas parsing. The model starts from rows
  whose date fields are already derived: `None` stands for a date that did
  not parse.
- The Dash application: its construction, layout, widgets, callback
  registration and `app.run` (app.py:26-27, 44-126, 215-216) are UI and
  server plumbing. The drop-down's year option list (app.py:84) is covered
  by `Years`. A cleared drop-down is modelled as `Cleared` / `None`.
- Plotly figure construction and styling (`px.pie`, `px.line`, `px.box`,
  `px.density_heatmap`, `update_layout`, app.py:156-208) are calls into a
  charting library. The model covers only the data handed to those calls
  (`Figure`) and the transition duration.
- Currency formatting of the KPI cards (app.py:134-151) is presentation only.
- Floating-point sums are not modelled: amounts are exact `real`s, so
  rounding and the order of summation have no effect.
