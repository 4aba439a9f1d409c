/** A three-order data set run through the dashboard. */
module Scenarios {
  import opened Wrappers
  import opened Strings
  import opened Dates
  import opened Records
  import opened Grouping
  import opened Loader
  import opened Filters
  import opened Kpis
  import Aggregates

  const R0: Record := Record(Some(Date(2024, 1, 15)), Some(Completed), Some("West"), None, Some(100.0))
  const R1: Record := Record(Some(Date(2024, 1, 20)), Some(Pending), Some("East"), None, Some(50.0))
  const R2: Record := Record(Some(Date(2024, 2, 1)), Some(Cancelled), Some("West"), None, Some(75.0))

  const SampleColumns: seq<string> := [DateColumn, StatusColumn, RegionColumn, RevenueColumn]

  const Sample: Table := Table(SampleColumns, [R0, R1, R2])

  lemma StatusNamesDiffer()
    ensures Completed != Pending && Completed != Cancelled && Pending != Cancelled
  {
    assert |Completed| != |Pending|;
    assert Completed[1] != Cancelled[1];
    assert |Pending| != |Cancelled|;
  }

  lemma SampleRowsClean()
    ensures RowsClean(Sample)
  {
    assert IsValid(R0.date.value) && IsValid(R1.date.value) && IsValid(R2.date.value);
  }

  /** Exactly one order of each named status. */
  lemma SampleStatusGroups()
    ensures Group([R0, R1, R2], StatusOf, Completed) == [R0]
    ensures Group([R0, R1, R2], StatusOf, Pending) == [R1]
    ensures Group([R0, R1, R2], StatusOf, Cancelled) == [R2]
  {
    StatusNamesDiffer();
    assert [R0, R1, R2][1..] == [R1, R2];
    assert [R1, R2][1..] == [R2];
    assert [R2][1..] == [];
    assert Group([R2], StatusOf, Completed) == [];
    assert Group([R1, R2], StatusOf, Completed) == [];
    assert Group([R2], StatusOf, Pending) == [];
    assert Group([R1, R2], StatusOf, Pending) == [R1];
    assert Group([R2], StatusOf, Cancelled) == [R2];
    assert Group([R1, R2], StatusOf, Cancelled) == [R2];
  }

  /** With the sidebar as it starts, every order of the sample stays in view. */
  lemma SampleDefaultView()
    ensures Filtered(Sample, DefaultSelection(Sample)) == Sample
  {
    SampleRowsClean();
    DefaultSelectionKeepsDatedTable(Sample);
  }

  /** Three orders, one of each status, a third fulfilled: with `SampleDefaultView`, the
      figures the dashboard opens with. */
  lemma SampleKpis()
    ensures ComputeKpis(Sample) == KpiSet(3, 1, 1, 1, 100.0 / 3.0)
  {
    SampleStatusGroups();
    assert HasColumn(Sample, StatusColumn);
  }

  /** Only "Completed" ticked, no date range, both regions. */
  const CompletedOnly: Selection := Selection({Completed}, NoValue, {"East", "West"})

  /** Under `CompletedOnly` the one completed order is left. */
  lemma SampleCompletedOnlyView()
    ensures Filtered(Sample, CompletedOnly) == Table(SampleColumns, [R0])
  {
    var ts := ActiveTests(Sample, CompletedOnly);
    StatusNamesDiffer();
    assert HasColumn(Sample, StatusColumn) && HasColumn(Sample, RegionColumn);
    assert ts == [StatusIn({Completed}), RegionIn({"East", "West"})];
    assert HoldsAll(ts, R0);
    assert !Holds(ts[0], R1) && !Holds(ts[0], R2);
    assert [R0, R1, R2][1..] == [R1, R2];
    assert [R1, R2][1..] == [R2];
    assert [R2][1..] == [];
    assert KeepAll([R2], ts) == [];
    assert KeepAll([R1, R2], ts) == [];
  }

  /** Every order left under `CompletedOnly` is fulfilled. */
  lemma SampleCompletedOnlyKpis()
    ensures ComputeKpis(Filtered(Sample, CompletedOnly)) == KpiSet(1, 1, 0, 0, 100.0)
  {
    SampleCompletedOnlyView();
    StatusNamesDiffer();
    var v := Table(SampleColumns, [R0]);
    assert HasColumn(v, StatusColumn);
    assert [R0][1..] == [];
    assert Group([R0], StatusOf, Completed) == [R0];
    assert Group([R0], StatusOf, Pending) == [];
    assert Group([R0], StatusOf, Cancelled) == [];
  }

  // ---------------------------------------------------------------- charts

  /** The months of the sample, January first. */
  lemma SampleMonthKeys()
    ensures Keys([R0, R1, R2], MonthKey, MonthLt) == [Month(2024, 1), Month(2024, 2)]
  {
    assert [R0, R1, R2][1..] == [R1, R2];
    assert [R1, R2][1..] == [R2];
    assert [R2][1..] == [];
    assert Keys([R2], MonthKey, MonthLt) == [Month(2024, 2)];
    assert Keys([R1, R2], MonthKey, MonthLt) == [Month(2024, 1), Month(2024, 2)];
  }

  lemma SampleMonthGroups()
    ensures |Group([R0, R1, R2], MonthKey, Month(2024, 1))| == 2
    ensures |Group([R0, R1, R2], MonthKey, Month(2024, 2))| == 1
  {
    assert [R0, R1, R2][1..] == [R1, R2];
    assert [R1, R2][1..] == [R2];
    assert [R2][1..] == [];
    assert Group([R2], MonthKey, Month(2024, 1)) == [];
    assert Group([R1, R2], MonthKey, Month(2024, 1)) == [R1];
    assert Group([R2], MonthKey, Month(2024, 2)) == [R2];
    assert Group([R1, R2], MonthKey, Month(2024, 2)) == [R2];
  }

  /** Two orders in January 2024, one in February. */
  lemma SampleMonthlyTrend()
    ensures Aggregates.MonthlyTrend(Sample) == Some([(Month(2024, 1), 2), (Month(2024, 2), 1)])
  {
    assert HasColumn(Sample, DateColumn);
    SampleMonthKeys();
    SampleMonthGroups();
    var ks := [Month(2024, 1), Month(2024, 2)];
    var ps := CountsFor(ks, [R0, R1, R2], MonthKey);
    assert ps[0] == (Month(2024, 1), 2) && ps[1] == (Month(2024, 2), 1);
    assert ps == [(Month(2024, 1), 2), (Month(2024, 2), 1)];
    assert GroupCounts(Sample.rows, MonthKey, MonthLt) == ps;
  }

  /** The regions of the sample, ascending. */
  lemma SampleRegionKeys()
    ensures Keys([R0, R1, R2], RegionOf, StrLt) == ["East", "West"]
  {
    assert [R0, R1, R2][1..] == [R1, R2];
    assert [R1, R2][1..] == [R2];
    assert [R2][1..] == [];
    assert StrLt("East", "West");
    assert !StrLt("West", "East");
    assert Keys([R2], RegionOf, StrLt) == ["West"];
    assert Keys([R1, R2], RegionOf, StrLt) == ["East", "West"];
    assert ["East", "West"][1..] == ["West"];
  }

  lemma SampleRegionGroups()
    ensures Group([R0, R1, R2], RegionOf, "East") == [R1]
    ensures Group([R0, R1, R2], RegionOf, "West") == [R0, R2]
  {
    assert "West" != "East";
    assert [R0, R1, R2][1..] == [R1, R2];
    assert [R1, R2][1..] == [R2];
    assert [R2][1..] == [];
    assert Group([R2], RegionOf, "East") == [];
    assert Group([R1, R2], RegionOf, "East") == [R1];
    assert Group([R2], RegionOf, "West") == [R2];
    assert Group([R1, R2], RegionOf, "West") == [R2];
  }

  lemma SampleRegionTotals()
    ensures Total(Group([R0, R1, R2], RegionOf, "East"), RevenueOf) == 50.0
    ensures Total(Group([R0, R1, R2], RegionOf, "West"), RevenueOf) == 175.0
  {
    SampleRegionGroups();
    assert [R1][1..] == [] && [R0, R2][1..] == [R2] && [R2][1..] == [];
  }

  /** East sold 50 dollars, West 100 + 75. */
  lemma SampleRevenueByRegion()
    ensures Aggregates.RevenueByRegion(Sample) == Some([("East", 50.0), ("West", 175.0)])
  {
    assert HasColumn(Sample, RegionColumn) && HasColumn(Sample, RevenueColumn);
    SampleRegionKeys();
    SampleRegionTotals();
    var ps := TotalsFor(["East", "West"], [R0, R1, R2], RegionOf, RevenueOf);
    assert ps[0] == ("East", 50.0) && ps[1] == ("West", 175.0);
    assert ps == [("East", 50.0), ("West", 175.0)];
    assert GroupTotals(Sample.rows, RegionOf, StrLt, RevenueOf) == ps;
  }
}
