/** The grouped tables behind the charts: status distribution, monthly order trend and
    revenue by region, each computed only when its columns exist. */
module Aggregates {
  import opened Wrappers
  import opened Order
  import opened Strings
  import opened Dates
  import opened Records
  import opened Grouping
  import opened Filters
  import opened Kpis

  /** The status distribution (app.py:211-216): one `(status, count)` pair per distinct
      status, largest count first. */
  function StatusCounts(v: Table): (r: Option<seq<(string, nat)>>)
    ensures r.Some? <==> HasColumn(v, StatusColumn)
    ensures r.Some? ==> CountsDescending(r.value)
  {
    if HasColumn(v, StatusColumn) then Some(SortByCount(GroupCounts(v.rows, StatusOf, StrLt))) else None
  }

  /** The monthly trend (app.py:229-235), rows without a date dropped: one `(month, count)`
      pair per month with orders, in chronological order. */
  function MonthlyTrend(v: Table): (r: Option<seq<(Month, nat)>>)
    ensures r.Some? <==> HasColumn(v, DateColumn)
    ensures r.Some? ==> forall i :: 0 <= i < |r.value| ==> r.value[i].1 >= 1
  {
    if HasColumn(v, DateColumn) then Some(GroupCounts(v.rows, MonthKey, MonthLt)) else None
  }

  /** Revenue by region (app.py:272-279), summed per region and computed only when both
      columns exist: one `(region, total)` pair per region, regions ascending. */
  function RevenueByRegion(v: Table): (r: Option<seq<(string, real)>>)
    ensures r.Some? <==> HasColumn(v, RegionColumn) && HasColumn(v, RevenueColumn)
  {
    if HasColumn(v, RegionColumn) && HasColumn(v, RevenueColumn) then
      Some(GroupTotals(v.rows, RegionOf, StrLt, RevenueOf))
    else None
  }

  // ---------------------------------------------------------------- status distribution

  lemma DistinctAtMostOnce<T>(s: seq<T>, x: T)
    requires Distinct(s)
    ensures multiset(s)[x] <= 1
  {
    if s != [] {
      assert s == [s[0]] + s[1..];
      DistinctAtMostOnce(s[1..], x);
      if x == s[0] {
        assert x !in s[1..];
      }
    }
  }

  lemma TwiceCountsTwice<T>(s: seq<T>, i: nat, j: nat)
    requires i < j < |s| && s[i] == s[j]
    ensures multiset(s)[s[i]] >= 2
  {
    assert s == s[..j] + s[j..];
    assert s[i] in s[..j];
    assert s[j] in s[j..];
  }

  /** A reordering of distinct pairs, each key naming one pair, repeats no key. */
  lemma ReorderedKeysDistinct<K>(g: seq<(K, nat)>, r: seq<(K, nat)>)
    requires multiset(r) == multiset(g)
    requires Distinct(g)
    requires forall p, q :: p in g && q in g && p.0 == q.0 ==> p == q
    ensures forall i, j :: 0 <= i < j < |r| ==> r[i].0 != r[j].0
  {
    forall i, j | 0 <= i < j < |r| ensures r[i].0 != r[j].0 {
      if r[i].0 == r[j].0 {
        assert r[i] in multiset(g) && r[j] in multiset(g);
        TwiceCountsTwice(r, i, j);
        DistinctAtMostOnce(g, r[i]);
        assert false;
      }
    }
  }

  /** The status distribution: counts descend, each status appears once, a pair is there
      exactly when it names a status of the view and its number of rows, and the counts
      add up to the rows that have a status. */
  lemma StatusCountsSpec(v: Table)
    requires HasColumn(v, StatusColumn)
    ensures var r := StatusCounts(v).value;
      && CountsDescending(r)
      && (forall i, j :: 0 <= i < j < |r| ==> r[i].0 != r[j].0)
      && (forall p :: p in r <==> Group(v.rows, StatusOf, p.0) != [] && p.1 == |Group(v.rows, StatusOf, p.0)|)
      && SumCounts(r) == |WithKey(v.rows, StatusOf)|
  {
    var g := GroupCounts(v.rows, StatusOf, StrLt);
    var r := StatusCounts(v).value;
    StrLtIsStrictTotalOrder();
    GroupCountsSpec(v.rows, StatusOf, StrLt);
    assert forall p :: p in r <==> p in multiset(g);
    assert Distinct(g) by {
      forall a, b | 0 <= a < b < |g| ensures g[a] != g[b] {
        StrLtIrreflexive(g[a].0);
      }
    }
    ReorderedKeysDistinct(g, r);
  }

  /** On a loaded view every row has a status, so the distribution covers all orders. */
  lemma StatusCountsSumToTotal(v: Table)
    requires HasColumn(v, StatusColumn)
    requires forall r :: r in v.rows ==> r.status.Some?
    ensures SumCounts(StatusCounts(v).value) == ComputeKpis(v).totalOrders
  {
    StatusCountsSpec(v);
    WithKeyAll(v.rows, StatusOf);
  }

  /** The distribution and the KPI block agree on every status they both name. */
  lemma StatusCountsAgreeWithKpis(v: Table, p: (string, nat))
    requires HasColumn(v, StatusColumn)
    requires p in StatusCounts(v).value
    ensures p.0 == Completed ==> p.1 == ComputeKpis(v).fulfilled
    ensures p.0 == Pending ==> p.1 == ComputeKpis(v).pending
    ensures p.0 == Cancelled ==> p.1 == ComputeKpis(v).cancelled
  {
    StatusCountsSpec(v);
  }

  // ---------------------------------------------------------------- monthly trend

  /** The trend: months strictly ascending, no empty month, a pair is there exactly when
      it names a month with orders and their number, and the counts add up to the rows
      that have a date. */
  lemma MonthlyTrendSpec(v: Table)
    requires HasColumn(v, DateColumn)
    ensures var r := MonthlyTrend(v).value;
      && (forall i, j :: 0 <= i < j < |r| ==> MonthLt(r[i].0, r[j].0))
      && (forall i :: 0 <= i < |r| ==> r[i].1 >= 1)
      && (forall p :: p in r <==> Group(v.rows, MonthKey, p.0) != [] && p.1 == |Group(v.rows, MonthKey, p.0)|)
      && SumCounts(r) == |WithKey(v.rows, MonthKey)|
  {
    MonthLtIsStrictTotalOrder();
    GroupCountsSpec(v.rows, MonthKey, MonthLt);
  }

  /** A row falls in a month's bucket exactly when it has a date in that month. */
  lemma MonthBucket(v: Table, m: Month, r: Record)
    ensures r in Group(v.rows, MonthKey, m) <==> r in v.rows && r.date.Some? && MonthOf(r.date.value) == m
  {
  }

  // ---------------------------------------------------------------- revenue by region

  /** Revenue by region: regions strictly ascending, a pair is there exactly when it names
      a region of the view and its revenue, and the totals add up to the revenue of the
      rows that have a region. */
  lemma RevenueByRegionSpec(v: Table)
    requires HasColumn(v, RegionColumn) && HasColumn(v, RevenueColumn)
    ensures var r := RevenueByRegion(v).value;
      && (forall i, j :: 0 <= i < j < |r| ==> StrLt(r[i].0, r[j].0))
      && (forall p :: p in r <==> Group(v.rows, RegionOf, p.0) != [] && p.1 == Total(Group(v.rows, RegionOf, p.0), RevenueOf))
      && SumTotals(r) == Total(WithKey(v.rows, RegionOf), RevenueOf)
  {
    StrLtIsStrictTotalOrder();
    GroupTotalsSpec(v.rows, RegionOf, StrLt, RevenueOf);
  }

  /** On a loaded view every row has a region, so the totals add up to all revenue. */
  lemma RevenueByRegionSumsToTotal(v: Table)
    requires HasColumn(v, RegionColumn) && HasColumn(v, RevenueColumn)
    requires forall r :: r in v.rows ==> r.region.Some?
    ensures SumTotals(RevenueByRegion(v).value) == Total(v.rows, RevenueOf)
  {
    RevenueByRegionSpec(v);
    WithKeyAll(v.rows, RegionOf);
  }

  /** A region's group is the view filtered to that single region. */
  lemma {:induction false} RegionGroupIsRegionFilter(rows: seq<Record>, k: string)
    ensures Group(rows, RegionOf, k) == Keep(rows, RegionIn({k}))
  {
    SingleTest(RegionIn({k}));
    if rows != [] {
      RegionGroupIsRegionFilter(rows[1..], k);
    }
  }

  /** Each region's total is the revenue of the view filtered to that region alone. */
  lemma RevenueMatchesSingleRegionFilter(v: Table, p: (string, real))
    requires HasColumn(v, RegionColumn) && HasColumn(v, RevenueColumn)
    requires p in RevenueByRegion(v).value
    ensures p.1 == Total(Keep(v.rows, RegionIn({p.0})), RevenueOf)
    ensures Keep(v.rows, RegionIn({p.0})) != []
  {
    RegionGroupIsRegionFilter(v.rows, p.0);
  }
}
