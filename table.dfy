/**
 * The transaction table after the load-time derivation of calendar fields
 * (app.py, lines 11-14): one `Row` per transaction, an optional calendar
 * date (absent where the date string did not parse), the amount and the
 * transaction type. The `Month` column is the English name of the month
 * number, so it is computed from the date rather than stored.
 *
 * Also here: the column sum and the `groupby(...)["Amount"].sum()` idiom,
 * which the dashboard uses for its KPIs and its aggregated charts.
 */
module Table {
  import opened Wrappers
  import opened Collections
  import opened Orders

  type MonthNum = m: int | 1 <= m <= 12 witness 1

  /** Month numbers in calendar order, as `sort_values("Month_Num")` arranges them. */
  predicate MonthLess(a: MonthNum, b: MonthNum) {
    IntLess(a, b)
  }

  lemma MonthLessIsStrictTotalOrder()
    ensures StrictTotalOrder(MonthLess)
  {
  }

  /** The calendar fields derived from a parsed date: `Year` and `Month_Num`. */
  datatype CalendarDate = CalendarDate(year: int, month: MonthNum)

  datatype Row = Row(date: Option<CalendarDate>, amount: real, txType: string)

  /** `dt.month_name()`: the English name of a month number. */
  function MonthName(m: MonthNum): string {
    ["January", "February", "March", "April", "May", "June", "July",
     "August", "September", "October", "November", "December"][m - 1]
  }

  /** The calendar position of a month name, 0 for any other string. */
  function MonthOrdinal(name: string): (n: int)
    ensures 0 <= n <= 12
    ensures n != 0 ==> MonthName(n) == name
  {
    if name == "January" then 1
    else if name == "February" then 2
    else if name == "March" then 3
    else if name == "April" then 4
    else if name == "May" then 5
    else if name == "June" then 6
    else if name == "July" then 7
    else if name == "August" then 8
    else if name == "September" then 9
    else if name == "October" then 10
    else if name == "November" then 11
    else if name == "December" then 12
    else 0
  }

  /** Every month number has its own name: the `Month` column determines `Month_Num`. */
  lemma MonthNameInjective()
    ensures forall m: MonthNum :: MonthOrdinal(MonthName(m)) == m
  {
  }

  /** The `Year` column; NaN (here `None`) for a row without a date. */
  function YearOf(r: Row): Option<int> {
    if r.date.Some? then Some(r.date.value.year) else None
  }

  /** The `Month_Num` column; NaN (here `None`) for a row without a date. */
  function MonthOf(r: Row): Option<MonthNum> {
    if r.date.Some? then Some(r.date.value.month) else None
  }

  /** The rows every group key of the dashboard keeps: those with a `Month_Num`. */
  predicate IsDated(r: Row) {
    IsKeyed(MonthOf)(r)
  }

  /** A row has a `Month_Num` exactly when its date parsed. */
  lemma IsDatedHasDate()
    ensures forall r :: IsDated(r) <==> r.date.Some?
  {
    forall r
      ensures IsDated(r) <==> r.date.Some?
    {
      assert IsKeyed(MonthOf)(r) == MonthOf(r).Some?;
    }
  }

  predicate IsUndated(r: Row) {
    r.date.None?
  }

  /** `rows["Amount"].sum()`; 0 for no rows, as pandas gives. */
  function Sum(rows: seq<Row>): real {
    if rows == [] then 0.0 else rows[0].amount + Sum(rows[1..])
  }

  /** `rows[mask]["Amount"].sum()`. */
  function SumWhere(rows: seq<Row>, p: Row -> bool): real {
    Sum(Filter(rows, p))
  }

  lemma {:induction false} SumConcat(a: seq<Row>, b: seq<Row>)
    ensures Sum(a + b) == Sum(a) + Sum(b)
  {
    if a == [] {
      assert a + b == b;
    } else {
      assert (a + b)[1..] == a[1..] + b;
      SumConcat(a[1..], b);
    }
  }

  /** Peeling off the first row of a masked sum. */
  lemma SumWhereCons(r: Row, rest: seq<Row>, p: Row -> bool)
    ensures SumWhere([r] + rest, p) == (if p(r) then r.amount else 0.0) + SumWhere(rest, p)
  {
    assert ([r] + rest)[1..] == rest;
  }

  /** A mask and its complement split the sum of a column. */
  lemma {:induction false} SumSplit(rows: seq<Row>, p: Row -> bool, q: Row -> bool)
    requires forall r :: q(r) == !p(r)
    ensures Sum(rows) == SumWhere(rows, p) + SumWhere(rows, q)
  {
    if rows != [] {
      assert rows == [rows[0]] + rows[1..];
      SumWhereCons(rows[0], rows[1..], p);
      SumWhereCons(rows[0], rows[1..], q);
      SumSplit(rows[1..], p, q);
    }
  }

  /** A masked sum over a concatenation is the sum of the masked sums. */
  lemma SumWhereConcat(a: seq<Row>, b: seq<Row>, p: Row -> bool)
    ensures SumWhere(a + b, p) == SumWhere(a, p) + SumWhere(b, p)
  {
    FilterConcat(a, b, p);
    SumConcat(Filter(a, p), Filter(b, p));
  }

  // ---------------------------------------------------------------------
  // groupby(key)["Amount"].sum().reset_index()
  // ---------------------------------------------------------------------

  /**
   * A group key extracted from a row; `None` when one of its columns is NaN,
   * in which case `groupby` leaves the row out (its default `dropna=True`).
   */
  type KeyOf<K> = Row -> Option<K>

  /** One row of a `groupby().sum().reset_index()` result. */
  datatype Group<K> = Group(key: K, total: real)

  function InGroup<K(==)>(key: KeyOf<K>, k: K): Row -> bool {
    r => key(r) == Some(k)
  }

  function IsKeyed<K>(key: KeyOf<K>): Row -> bool {
    r => key(r).Some?
  }

  ghost predicate HasKey<K>(rows: seq<Row>, key: KeyOf<K>, k: K) {
    exists i :: 0 <= i < |rows| && key(rows[i]) == Some(k)
  }

  /** The amount summed over the rows of one group. */
  function GroupSum<K(==)>(rows: seq<Row>, key: KeyOf<K>, k: K): real {
    SumWhere(rows, InGroup(key, k))
  }

  /** The amount summed over all rows that belong to some group. */
  function KeyedSum<K>(rows: seq<Row>, key: KeyOf<K>): real {
    SumWhere(rows, IsKeyed(key))
  }

  /** The group keys of the rows, in row order, with repetitions. */
  function KeysOf<K(!new)>(rows: seq<Row>, key: KeyOf<K>): (ks: seq<K>)
    ensures forall k :: k in ks <==> HasKey(rows, key, k)
  {
    if rows == [] then []
    else
      var head := if key(rows[0]).Some? then [key(rows[0]).value] else [];
      var tail := KeysOf(rows[1..], key);
      assert forall k :: HasKey(rows, key, k) <==> key(rows[0]) == Some(k) || HasKey(rows[1..], key, k) by {
        forall k
          ensures HasKey(rows, key, k) ==> key(rows[0]) == Some(k) || HasKey(rows[1..], key, k)
        {
          if HasKey(rows, key, k) && key(rows[0]) != Some(k) {
            var i :| 0 <= i < |rows| && key(rows[i]) == Some(k);
            assert rows[1..][i - 1] == rows[i];
          }
        }
        forall k | HasKey(rows[1..], key, k)
          ensures HasKey(rows, key, k)
        {
          var i :| 0 <= i < |rows[1..]| && key(rows[1..][i]) == Some(k);
          assert rows[i + 1] == rows[1..][i];
        }
      }
      head + tail
  }

  /** The result rows for the keys `ks`, in that order. */
  function Groups<K(==)>(ks: seq<K>, rows: seq<Row>, key: KeyOf<K>): (gs: seq<Group<K>>)
    ensures |gs| == |ks|
    ensures forall i :: 0 <= i < |ks| ==> gs[i] == Group(ks[i], GroupSum(rows, key, ks[i]))
  {
    if ks == [] then [] else [Group(ks[0], GroupSum(rows, key, ks[0]))] + Groups(ks[1..], rows, key)
  }

  /** The sum of the `Amount` column of a grouped result. */
  function Totals<K>(gs: seq<Group<K>>): real {
    if gs == [] then 0.0 else gs[0].total + Totals(gs[1..])
  }

  lemma {:induction false} TotalsOfNoRows<K>(ks: seq<K>, key: KeyOf<K>)
    ensures Totals(Groups(ks, [], key)) == 0.0
  {
    if ks != [] {
      TotalsOfNoRows(ks[1..], key);
    }
  }

  /** Adding one row in front adds its amount to exactly one group, or to none. */
  lemma {:induction false} TotalsCons<K>(ks: seq<K>, r: Row, rest: seq<Row>, key: KeyOf<K>)
    requires NoDuplicates(ks)
    ensures Totals(Groups(ks, [r] + rest, key))
         == (if key(r).Some? && key(r).value in ks then r.amount else 0.0) + Totals(Groups(ks, rest, key))
  {
    if ks != [] {
      SumWhereCons(r, rest, InGroup(key, ks[0]));
      assert NoDuplicates(ks[1..]);
      TotalsCons(ks[1..], r, rest, key);
      if key(r) == Some(ks[0]) {
        assert ks[0] !in ks[1..];
      }
    }
  }

  /**
   * Group totals are conserved: when the keys are distinct and cover every
   * keyed row, the group totals add up to the total of the keyed rows.
   */
  lemma {:induction false} TotalsConserved<K>(ks: seq<K>, rows: seq<Row>, key: KeyOf<K>)
    requires NoDuplicates(ks)
    requires forall k :: HasKey(rows, key, k) ==> k in ks
    ensures Totals(Groups(ks, rows, key)) == KeyedSum(rows, key)
  {
    if rows == [] {
      TotalsOfNoRows(ks, key);
    } else {
      assert rows == [rows[0]] + rows[1..];
      forall k | HasKey(rows[1..], key, k)
        ensures k in ks
      {
        var i :| 0 <= i < |rows[1..]| && key(rows[1..][i]) == Some(k);
        assert key(rows[i + 1]) == Some(k);
      }
      if key(rows[0]).Some? {
        assert HasKey(rows, key, key(rows[0]).value);
      }
      TotalsCons(ks, rows[0], rows[1..], key);
      TotalsConserved(ks, rows[1..], key);
      SumWhereCons(rows[0], rows[1..], IsKeyed(key));
    }
  }

  /**
   * `groupby(key)["Amount"].sum().reset_index()` with pandas' default
   * `sort=True` and `dropna=True`: one result row per distinct key among the
   * keyed rows, in strictly ascending key order, each holding the sum of its
   * group, the results adding up to the keyed rows' total.
   */
  function GroupBySum<K(==,!new)>(rows: seq<Row>, key: KeyOf<K>, lt: (K, K) -> bool): (gs: seq<Group<K>>)
    requires StrictTotalOrder(lt)
    ensures forall i, j :: 0 <= i < j < |gs| ==> lt(gs[i].key, gs[j].key)
    ensures forall k :: (exists i :: 0 <= i < |gs| && gs[i].key == k) <==> HasKey(rows, key, k)
    ensures forall i :: 0 <= i < |gs| ==> gs[i].total == SumWhere(rows, InGroup(key, gs[i].key))
    ensures Totals(gs) == KeyedSum(rows, key)
  {
    var ks := SortedDistinct(KeysOf(rows, key), lt);
    TotalsConserved(ks, rows, key);
    var gs := Groups(ks, rows, key);
    assert forall k :: (exists i :: 0 <= i < |gs| && gs[i].key == k) <==> k in ks by {
      forall k | k in ks
        ensures exists i :: 0 <= i < |gs| && gs[i].key == k
      {
        var i :| 0 <= i < |ks| && ks[i] == k;
        assert gs[i].key == k;
      }
    }
    gs
  }
}
