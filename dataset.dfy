/**
 * The two values derived once from the whole table when the dashboard
 * starts: the canonical month order used as the month axis of every chart
 * (app.py, lines 16-21) and the options of the year drop-down
 * (app.py, line 29).
 */
module Dataset {
  import opened Wrappers
  import opened Collections
  import opened Orders
  import opened Table

  /** Some row of `base` falls in the month with this name. */
  ghost predicate MonthPresent(base: seq<Row>, name: string) {
    exists i :: 0 <= i < |base| && base[i].date.Some? && MonthName(base[i].date.value.month) == name
  }

  /** The month numbers present in the table, ascending. */
  function PresentMonths(base: seq<Row>): (ms: seq<MonthNum>)
    ensures forall i, j :: 0 <= i < j < |ms| ==> ms[i] < ms[j]
    ensures forall m: MonthNum :: m in ms <==> HasKey(base, MonthOf, m)
  {
    MonthLessIsStrictTotalOrder();
    SortedDistinct(KeysOf(base, MonthOf), MonthLess)
  }

  /** The label of each present month, in the order of `ms`. */
  function Labels(ms: seq<MonthNum>): (order: seq<Option<string>>)
    ensures |order| == |ms|
    ensures forall i :: 0 <= i < |ms| ==> order[i] == Some(MonthName(ms[i]))
  {
    if ms == [] then [] else [Some(MonthName(ms[0]))] + Labels(ms[1..])
  }

  lemma LabelsOfPresentMonths(base: seq<Row>)
    ensures forall name :: Some(name) in Labels(PresentMonths(base)) <==> MonthPresent(base, name)
  {
    var ms := PresentMonths(base);
    var named := Labels(ms);
    forall name | MonthPresent(base, name)
      ensures Some(name) in named
    {
      var i :| 0 <= i < |base| && base[i].date.Some? && MonthName(base[i].date.value.month) == name;
      var m := base[i].date.value.month;
      assert MonthOf(base[i]) == Some(m);
      assert m in ms;
      var k :| 0 <= k < |ms| && ms[k] == m;
      assert named[k] == Some(name);
    }
    forall name | Some(name) in named
      ensures MonthPresent(base, name)
    {
      var k :| 0 <= k < |named| && named[k] == Some(name);
      assert HasKey(base, MonthOf, ms[k]);
      var i :| 0 <= i < |base| && MonthOf(base[i]) == Some(ms[k]);
      assert base[i].date.Some? && MonthName(base[i].date.value.month) == name;
    }
  }

  /**
   * `month_order`: the distinct (`Month`, `Month_Num`) pairs sorted by
   * `Month_Num`, keeping the `Month` labels. `drop_duplicates` keeps one
   * (NaN, NaN) pair when some date did not parse and `sort_values` puts it
   * last, so the list then ends in a missing label (`None`).
   */
  function MonthOrder(base: seq<Row>): (order: seq<Option<string>>)
    ensures forall i, j :: 0 <= i < j < |order| && order[i].Some? && order[j].Some? ==>
              MonthOrdinal(order[i].value) < MonthOrdinal(order[j].value)
    ensures forall i :: 0 <= i < |order| && order[i].Some? ==> MonthOrdinal(order[i].value) != 0
    ensures forall name :: Some(name) in order <==> MonthPresent(base, name)
    ensures None in order <==> exists i :: 0 <= i < |base| && IsUndated(base[i])
    ensures forall i :: 0 <= i < |order| - 1 ==> order[i].Some?
    ensures NoDuplicates(order)
  {
    MonthNameInjective();
    LabelsOfPresentMonths(base);
    var named := Labels(PresentMonths(base));
    named + if exists i :: 0 <= i < |base| && IsUndated(base[i]) then [None] else []
  }

  /** `years`: the distinct years present in the table, ascending. */
  function Years(base: seq<Row>): (ys: seq<int>)
    ensures forall i, j :: 0 <= i < j < |ys| ==> ys[i] < ys[j]
    ensures forall y :: y in ys <==> exists i :: 0 <= i < |base| && YearOf(base[i]) == Some(y)
  {
    IntLessIsStrictTotalOrder();
    SortedDistinct(KeysOf(base, YearOf), IntLess)
  }

  /**
   * `Years` is the only strictly increasing list of exactly the years
   * present, so the option list does not depend on the order of the rows.
   */
  lemma YearsIsTheAscendingListing(base: seq<Row>, ys: seq<int>)
    requires forall i, j :: 0 <= i < j < |ys| ==> ys[i] < ys[j]
    requires forall y :: y in ys <==> exists i :: 0 <= i < |base| && YearOf(base[i]) == Some(y)
    ensures ys == Years(base)
  {
    IntLessIsStrictTotalOrder();
    var listing := Years(base);
    assert forall y :: y in ys <==> y in listing;
    SortedListingUnique(ys, listing, IntLess);
  }

  /** Reordering the rows does not change the year options. */
  lemma YearsIgnoreRowOrder(a: seq<Row>, b: seq<Row>)
    requires multiset(a) == multiset(b)
    ensures Years(a) == Years(b)
  {
    forall y
      ensures (exists i :: 0 <= i < |a| && YearOf(a[i]) == Some(y)) <==> (exists i :: 0 <= i < |b| && YearOf(b[i]) == Some(y))
    {
      if i :| 0 <= i < |a| && YearOf(a[i]) == Some(y) {
        assert a[i] in multiset(b);
        var j :| 0 <= j < |b| && b[j] == a[i];
      }
      if j :| 0 <= j < |b| && YearOf(b[j]) == Some(y) {
        assert b[j] in multiset(a);
        var i :| 0 <= i < |a| && a[i] == b[j];
      }
    }
    YearsIsTheAscendingListing(a, Years(b));
  }
}
