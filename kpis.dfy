/** The five headline figures computed from the filtered view. */
module Kpis {
  import opened Records
  import opened Grouping

  const Completed := "Completed"
  const Pending := "Pending"
  const Cancelled := "Cancelled"

  datatype KpiSet = KpiSet(totalOrders: nat, fulfilled: nat, pending: nat, cancelled: nat, fulfillmentRate: real)

  /** A status tally (app.py:168-181): with a `Status` column, the number of rows whose
      status is exactly `s` (case-sensitive); without one, 0. */
  function StatusTally(v: Table, s: string): (n: nat)
    ensures n <= |v.rows|
    ensures !HasColumn(v, StatusColumn) ==> n == 0
    ensures HasColumn(v, StatusColumn) ==> n == |Group(v.rows, StatusOf, s)|
  {
    if HasColumn(v, StatusColumn) then |Group(v.rows, StatusOf, s)| else 0
  }

  /** `fulfilled / total * 100`, or 0 when there are no orders (no division by zero). */
  function FulfillmentRate(fulfilled: nat, total: nat): (rate: real)
    ensures total == 0 ==> rate == 0.0
    ensures total > 0 ==> rate * total as real == fulfilled as real * 100.0
    ensures 0.0 <= rate
    ensures fulfilled <= total ==> rate <= 100.0
    ensures fulfilled <= total ==> (rate == 100.0 <==> total > 0 && fulfilled == total)
  {
    if total > 0 then
      var q := fulfilled as real / total as real;
      assert q * total as real == fulfilled as real;
      assert fulfilled <= total ==> q <= 1.0;
      assert fulfilled <= total && q == 1.0 ==> fulfilled == total;
      q * 100.0
    else 0.0
  }

  /** The KPI block. The three named statuses never account for more orders than there
      are, and the rate is a percentage. */
  function ComputeKpis(v: Table): (k: KpiSet)
    ensures k.totalOrders == |v.rows|
    ensures k.fulfilled == StatusTally(v, Completed)
    ensures k.pending == StatusTally(v, Pending)
    ensures k.cancelled == StatusTally(v, Cancelled)
    ensures k.fulfillmentRate == FulfillmentRate(k.fulfilled, k.totalOrders)
    ensures k.fulfilled + k.pending + k.cancelled <= k.totalOrders
    ensures k.totalOrders == 0 ==> k.fulfillmentRate == 0.0
    ensures 0.0 <= k.fulfillmentRate <= 100.0
  {
    var total := |v.rows|;
    var f, p, c := StatusTally(v, Completed), StatusTally(v, Pending), StatusTally(v, Cancelled);
    NamedStatusesBounded(v);
    KpiSet(total, f, p, c, FulfillmentRate(f, total))
  }

  lemma NamedStatusesBounded(v: Table)
    ensures StatusTally(v, Completed) + StatusTally(v, Pending) + StatusTally(v, Cancelled) <= |v.rows|
  {
    if HasColumn(v, StatusColumn) {
      var ks: seq<string> := [Completed, Pending, Cancelled];
      var ps: seq<(string, nat)> := CountsFor(ks, v.rows, StatusOf);
      SumCountsCovered(ks, v.rows, StatusOf);
      var two: seq<(string, nat)> := ps[1..];
      var one: seq<(string, nat)> := two[1..];
      assert one[1..] == [];
      assert SumCounts(one) == ps[2].1;
      assert SumCounts(two) == ps[1].1 + ps[2].1;
      assert SumCounts(ps) == ps[0].1 + ps[1].1 + ps[2].1;
    }
  }
}
