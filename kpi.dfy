/**
 * The four summary figures shown on the KPI cards (`kpi_values`,
 * app.py, lines 34-39).
 */
module Kpi {
  import opened Table

  datatype Kpis = Kpis(total: real, credit: real, debit: real, net: real)

  function OfType(t: string): Row -> bool {
    (r: Row) => r.txType == t
  }

  /** A transaction whose type is neither "Credit" nor "Debit". */
  predicate IsOtherType(r: Row) {
    r.txType != "Credit" && r.txType != "Debit"
  }

  /**
   * `kpi_values(data)`. The net balance is credit minus debit; a row of any
   * other type counts toward the total only; no rows give all zeros.
   */
  function KpiValues(data: seq<Row>): (k: Kpis)
    ensures k.net == k.credit - k.debit
    ensures k.total == k.credit + k.debit + SumWhere(data, IsOtherType)
    ensures k.credit == SumWhere(data, OfType("Credit")) && k.debit == SumWhere(data, OfType("Debit"))
    ensures data == [] ==> k == Kpis(0.0, 0.0, 0.0, 0.0)
  {
    TotalByType(data);
    var total := Sum(data);
    var credit := SumWhere(data, OfType("Credit"));
    var debit := SumWhere(data, OfType("Debit"));
    Kpis(total, credit, debit, credit - debit)
  }

  /** The total splits into the credit sum, the debit sum and the sum of all other types. */
  lemma {:induction false} TotalByType(data: seq<Row>)
    ensures Sum(data) == SumWhere(data, OfType("Credit")) + SumWhere(data, OfType("Debit")) + SumWhere(data, IsOtherType)
  {
    if data != [] {
      assert data == [data[0]] + data[1..];
      SumWhereCons(data[0], data[1..], OfType("Credit"));
      SumWhereCons(data[0], data[1..], OfType("Debit"));
      SumWhereCons(data[0], data[1..], IsOtherType);
      TotalByType(data[1..]);
    }
  }

  function Add(a: Kpis, b: Kpis): Kpis {
    Kpis(a.total + b.total, a.credit + b.credit, a.debit + b.debit, a.net + b.net)
  }

  /** The KPIs of a table split into a prefix and a suffix add up to the KPIs of the whole. */
  lemma KpiValuesAdditive(a: seq<Row>, b: seq<Row>)
    ensures KpiValues(a + b) == Add(KpiValues(a), KpiValues(b))
  {
    SumConcat(a, b);
    SumWhereConcat(a, b, OfType("Credit"));
    SumWhereConcat(a, b, OfType("Debit"));
  }
}
