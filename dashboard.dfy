/** The script from top to bottom: load, filter, then the KPI block and the grouped
    tables, all recomputed from the filtered view. */
module Dashboard {
  import opened Wrappers
  import opened Strings
  import opened Dates
  import opened Records
  import opened Grouping
  import opened Loader
  import opened Filters
  import opened Kpis
  import opened Aggregates

  datatype Report = Report(
    view: Table,
    kpis: KpiSet,
    statusCounts: Option<seq<(string, nat)>>,
    trend: Option<seq<(Month, nat)>>,
    revenue: Option<seq<(string, real)>>)

  /** Filtering a loaded data set keeps it loaded: same columns, a subset of its rows. */
  lemma FilteredIsClean(df: Table, sel: Selection)
    requires IsClean(df)
    ensures IsClean(Filtered(df, sel))
  {
    assert Filtered(df, sel).columns == df.columns;
  }

  /** Everything the dashboard shows for a view: the KPIs always, and each chart's table
      only when the columns it reads exist. */
  function ReportOf(v: Table): (report: Report)
    ensures report.view == v
    ensures report.kpis.totalOrders == |v.rows|
    ensures report.statusCounts.Some? <==> HasColumn(v, StatusColumn)
    ensures report.trend.Some? <==> HasColumn(v, DateColumn)
    ensures report.revenue.Some? <==> HasColumn(v, RegionColumn) && HasColumn(v, RevenueColumn)
  {
    Report(v, ComputeKpis(v), StatusCounts(v), MonthlyTrend(v), RevenueByRegion(v))
  }

  /** On a loaded view the status counts cover every order, the revenue totals cover all
      revenue, and the trend covers every row with a date. */
  lemma ReportAddsUp(v: Table)
    requires RowsClean(v)
    ensures var report := ReportOf(v);
      && (report.statusCounts.Some? ==> SumCounts(report.statusCounts.value) == report.kpis.totalOrders)
      && (report.revenue.Some? ==> SumTotals(report.revenue.value) == Total(v.rows, RevenueOf))
      && (report.trend.Some? ==> SumCounts(report.trend.value) == |WithKey(v.rows, MonthKey)|)
  {
    var report := ReportOf(v);
    assert report.kpis == ComputeKpis(v) && report.statusCounts == StatusCounts(v);
    assert report.trend == MonthlyTrend(v) && report.revenue == RevenueByRegion(v);
    StatusPartAddsUp(v);
    RevenuePartAddsUp(v);
    TrendPartAddsUp(v);
  }

  lemma TrendPartAddsUp(v: Table)
    ensures HasColumn(v, DateColumn) ==> SumCounts(MonthlyTrend(v).value) == |WithKey(v.rows, MonthKey)|
  {
    if HasColumn(v, DateColumn) {
      MonthlyTrendSpec(v);
    }
  }

  lemma StatusPartAddsUp(v: Table)
    requires RowsClean(v)
    ensures HasColumn(v, StatusColumn) ==> SumCounts(StatusCounts(v).value) == ComputeKpis(v).totalOrders
  {
    if HasColumn(v, StatusColumn) {
      forall r | r in v.rows ensures r.status.Some? {
        assert RowIsClean(v.columns, r);
      }
      StatusCountsSumToTotal(v);
    }
  }

  lemma RevenuePartAddsUp(v: Table)
    requires RowsClean(v)
    ensures HasColumn(v, RegionColumn) && HasColumn(v, RevenueColumn) ==>
      SumTotals(RevenueByRegion(v).value) == Total(v.rows, RevenueOf)
  {
    if HasColumn(v, RegionColumn) && HasColumn(v, RevenueColumn) {
      forall r | r in v.rows ensures r.region.Some? {
        assert RowIsClean(v.columns, r);
      }
      RevenueByRegionSumsToTotal(v);
    }
  }

  /** One run of the dashboard on a sheet that was read and a sidebar selection. */
  method RunDashboard(raw: RawTable, sel: Selection) returns (report: Report)
    requires StatusColumn in TrimAll(raw.columns) ==> DateColumn in TrimAll(raw.columns)
    ensures report == ReportOf(Filtered(Cleaned(raw), sel))
    ensures IsClean(report.view)
    ensures report.statusCounts.Some? ==> SumCounts(report.statusCounts.value) == report.kpis.totalOrders
    ensures report.revenue.Some? ==> SumTotals(report.revenue.value) == Total(report.view.rows, RevenueOf)
    ensures report.trend.Some? ==> SumCounts(report.trend.value) == |WithKey(report.view.rows, MonthKey)|
  {
    var df := LoadData(raw);
    var view := ApplyFilters(df, sel);
    FilteredIsClean(df, sel);
    ReportAddsUp(view);
    report := Report(view, ComputeKpis(view), StatusCounts(view), MonthlyTrend(view), RevenueByRegion(view));
  }
}
