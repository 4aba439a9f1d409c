/** The sidebar filters: status membership, then (inside the status block) an inclusive
    date range applied three times over, then region membership. */
module Filters {
  import opened Wrappers
  import opened Order
  import opened Strings
  import opened Dates
  import opened Records
  import opened Grouping
  import opened Loader

  /** What the date widget returns: nothing, one day, or a list/tuple of days. */
  datatype DateInput = NoValue | OneDate(day: Date) | Days(days: seq<Date>)

  /** The date widget returned a list or tuple of exactly two days (app.py:127). */
  predicate IsPair(x: DateInput) {
    x.Days? && |x.days| == 2
  }

  /** The user's choices in the sidebar. */
  datatype Selection = Selection(statuses: set<string>, dateRange: DateInput, regions: set<string>)

  /** One boolean mask the filter stage applies to `filtered_df`. A missing cell fails
      every test (`isin` and comparisons with NaN/NaT are false). */
  datatype Test = StatusIn(allowed: set<string>) | DateWithin(start: Date, end: Date) | RegionIn(allowed: set<string>)

  predicate Holds(t: Test, r: Record)
    ensures t.StatusIn? && r.status.None? ==> !Holds(t, r)
    ensures t.DateWithin? && r.date.None? ==> !Holds(t, r)
    ensures t.RegionIn? && r.region.None? ==> !Holds(t, r)
    ensures t.DateWithin? && !DateLe(t.start, t.end) ==> !Holds(t, r)
  {
    DateLeIsTotalOrder();
    match t
    case StatusIn(allowed) => r.status.Some? && r.status.value in allowed
    case DateWithin(start, end) => r.date.Some? && DateLe(start, r.date.value) && DateLe(r.date.value, end)
    case RegionIn(allowed) => r.region.Some? && r.region.value in allowed
  }

  predicate HoldsAll(ts: seq<Test>, r: Record) {
    forall i :: 0 <= i < |ts| ==> Holds(ts[i], r)
  }

  /** The rows that pass every test, in their original order. */
  function KeepAll(rows: seq<Record>, ts: seq<Test>): (kept: seq<Record>)
    ensures |kept| <= |rows|
    ensures forall r :: r in kept <==> r in rows && HoldsAll(ts, r)
  {
    if rows == [] then []
    else (if HoldsAll(ts, rows[0]) then [rows[0]] else []) + KeepAll(rows[1..], ts)
  }

  /** Boolean indexing by one test. */
  function Keep(rows: seq<Record>, t: Test): (kept: seq<Record>)
    ensures |kept| <= |rows|
    ensures forall r :: r in kept <==> r in rows && Holds(t, r)
  {
    SingleTest(t);
    KeepAll(rows, [t])
  }

  lemma SingleTest(t: Test)
    ensures forall r :: HoldsAll([t], r) <==> Holds(t, r)
  {
    forall r ensures HoldsAll([t], r) <==> Holds(t, r) {
      assert [t][0] == t;
    }
  }

  // ---------------------------------------------------------------- subsequences

  /** The elements of `b` at the positions `mask` marks, in order. */
  function Select<T>(b: seq<T>, mask: seq<bool>): (a: seq<T>)
    requires |mask| == |b|
    ensures |a| <= |b|
  {
    if b == [] then [] else (if mask[0] then [b[0]] else []) + Select(b[1..], mask[1..])
  }

  /** `a` is obtained from `b` by dropping elements, without reordering the rest. */
  ghost predicate IsSubsequence<T>(a: seq<T>, b: seq<T>) {
    exists mask: seq<bool> :: |mask| == |b| && Select(b, mask) == a
  }

  function PassMask(rows: seq<Record>, ts: seq<Test>): (mask: seq<bool>)
    ensures |mask| == |rows|
  {
    if rows == [] then [] else [HoldsAll(ts, rows[0])] + PassMask(rows[1..], ts)
  }

  lemma {:induction false} KeepAllSelects(rows: seq<Record>, ts: seq<Test>)
    ensures KeepAll(rows, ts) == Select(rows, PassMask(rows, ts))
  {
    if rows != [] {
      KeepAllSelects(rows[1..], ts);
      assert PassMask(rows, ts)[1..] == PassMask(rows[1..], ts);
    }
  }

  lemma KeepAllIsSubsequence(rows: seq<Record>, ts: seq<Test>)
    ensures IsSubsequence(KeepAll(rows, ts), rows)
  {
    KeepAllSelects(rows, ts);
  }

  // ---------------------------------------------------------------- algebra of filters

  /** Filtering by `a` and then by `b` is filtering once by both. */
  lemma {:induction false} KeepAllCompose(rows: seq<Record>, a: seq<Test>, b: seq<Test>)
    ensures KeepAll(KeepAll(rows, a), b) == KeepAll(rows, a + b)
  {
    if rows != [] {
      var r := rows[0];
      KeepAllCompose(rows[1..], a, b);
      assert HoldsAll(a + b, r) <==> HoldsAll(a, r) && HoldsAll(b, r) by {
        if HoldsAll(a, r) && HoldsAll(b, r) {
          forall i | 0 <= i < |a + b| ensures Holds((a + b)[i], r) {
            if i >= |a| { assert (a + b)[i] == b[i - |a|]; }
          }
        }
        if HoldsAll(a + b, r) {
          forall i | 0 <= i < |b| ensures Holds(b[i], r) {
            assert (a + b)[|a| + i] == b[i];
          }
          forall i | 0 <= i < |a| ensures Holds(a[i], r) {
            assert (a + b)[i] == a[i];
          }
        }
      }
      if HoldsAll(a, r) {
        assert KeepAll(rows, a) == [r] + KeepAll(rows[1..], a);
        assert KeepAll(rows, a)[1..] == KeepAll(rows[1..], a);
      } else {
        assert KeepAll(rows, a) == KeepAll(rows[1..], a);
      }
    }
  }

  /** Two lists of tests that pass the same rows filter alike. */
  lemma {:induction false} KeepAllSameTests(rows: seq<Record>, a: seq<Test>, b: seq<Test>)
    requires forall t :: t in a <==> t in b
    ensures KeepAll(rows, a) == KeepAll(rows, b)
  {
    if rows != [] {
      var r := rows[0];
      KeepAllSameTests(rows[1..], a, b);
      if HoldsAll(a, r) {
        forall i | 0 <= i < |b| ensures Holds(b[i], r) {
          assert b[i] in a;
        }
      } else if HoldsAll(b, r) {
        forall i | 0 <= i < |a| ensures Holds(a[i], r) {
          assert a[i] in b;
        }
      }
    }
  }

  /** Every membership or date mask is idempotent. */
  lemma KeepIdempotent(rows: seq<Record>, t: Test)
    ensures Keep(Keep(rows, t), t) == Keep(rows, t)
  {
    KeepAllCompose(rows, [t], [t]);
    KeepAllSameTests(rows, [t] + [t], [t]);
  }

  /** The date block of the source applied three times equals one application. */
  lemma KeepThriceIsOnce(rows: seq<Record>, t: Test)
    ensures Keep(Keep(Keep(rows, t), t), t) == Keep(rows, t)
  {
    KeepIdempotent(rows, t);
    KeepIdempotent(Keep(rows, t), t);
  }

  /** A filter that every row passes keeps the table as it is. */
  lemma {:induction false} KeepAllKeepsAll(rows: seq<Record>, ts: seq<Test>)
    requires forall i :: 0 <= i < |rows| ==> HoldsAll(ts, rows[i])
    ensures KeepAll(rows, ts) == rows
  {
    if rows != [] {
      KeepAllKeepsAll(rows[1..], ts);
    }
  }

  // ---------------------------------------------------------------- the filter stage

  /** The tests the filter stage applies, each counted once. The date test lives inside
      the status block, so it is active only when a `Status` column exists. */
  function ActiveTests(df: Table, sel: Selection): (ts: seq<Test>)
    ensures |ts| <= 3
    ensures forall t :: t in ts <==>
      || (HasColumn(df, StatusColumn) && t == StatusIn(sel.statuses))
      || (HasColumn(df, StatusColumn) && IsPair(sel.dateRange) &&
          t == DateWithin(sel.dateRange.days[0], sel.dateRange.days[1]))
      || (HasColumn(df, RegionColumn) && t == RegionIn(sel.regions))
  {
    var x := sel.dateRange;
    var status := if HasColumn(df, StatusColumn) then [StatusIn(sel.statuses)] else [];
    var date := if HasColumn(df, StatusColumn) && IsPair(x) then [DateWithin(x.days[0], x.days[1])] else [];
    var region := if HasColumn(df, RegionColumn) then [RegionIn(sel.regions)] else [];
    status + date + region
  }

  /** The reference filtered view: one pass that keeps the rows passing every active
      test. The view keeps the columns of the data set; a row is in it exactly when it
      is in the data set, has a selected status (with a `Status` column), a date inside
      an active two-day range, and a selected region (with a `Region` column). A row
      without a date fails an active date range. */
  function Filtered(df: Table, sel: Selection): (v: Table)
    ensures v.columns == df.columns
    ensures forall r :: r in v.rows <==>
      && r in df.rows
      && (HasColumn(df, StatusColumn) ==> r.status.Some? && r.status.value in sel.statuses)
      && (HasColumn(df, StatusColumn) && IsPair(sel.dateRange) ==>
            r.date.Some? && DateLe(sel.dateRange.days[0], r.date.value) && DateLe(r.date.value, sel.dateRange.days[1]))
      && (HasColumn(df, RegionColumn) ==> r.region.Some? && r.region.value in sel.regions)
  {
    ActiveTestsPass(df, sel);
    Table(df.columns, KeepAll(df.rows, ActiveTests(df, sel)))
  }

  /** A row passes all active tests exactly when it meets each active condition. */
  lemma ActiveTestsPass(df: Table, sel: Selection)
    ensures forall r :: HoldsAll(ActiveTests(df, sel), r) <==>
      && (HasColumn(df, StatusColumn) ==> r.status.Some? && r.status.value in sel.statuses)
      && (HasColumn(df, StatusColumn) && IsPair(sel.dateRange) ==>
            r.date.Some? && DateLe(sel.dateRange.days[0], r.date.value) && DateLe(r.date.value, sel.dateRange.days[1]))
      && (HasColumn(df, RegionColumn) ==> r.region.Some? && r.region.value in sel.regions)
  {
    var ts := ActiveTests(df, sel);
    if HasColumn(df, StatusColumn) {
      assert ts[0] == StatusIn(sel.statuses);
    }
    if HasColumn(df, StatusColumn) && IsPair(sel.dateRange) {
      assert ts[1] == DateWithin(sel.dateRange.days[0], sel.dateRange.days[1]);
    }
    if HasColumn(df, RegionColumn) {
      assert ts[|ts| - 1] == RegionIn(sel.regions);
    }
  }

  /** The filter stage as the source runs it: `filtered_df` rebound once per block. */
  method ApplyFilters(df: Table, sel: Selection) returns (view: Table)
    requires HasColumn(df, StatusColumn) ==> HasColumn(df, DateColumn)
    ensures view == Filtered(df, sel)
  {
    var rows := df.rows;
    ghost var applied: seq<Test> := [];
    KeepAllKeepsAll(df.rows, applied);
    if HasColumn(df, StatusColumn) {
      var pass := StatusIn(sel.statuses);
      KeepAllCompose(df.rows, applied, [pass]);
      rows, applied := Keep(rows, pass), applied + [pass];
      if IsPair(sel.dateRange) {
        var within := DateWithin(sel.dateRange.days[0], sel.dateRange.days[1]);
        KeepAllCompose(df.rows, applied, [within]);
        rows, applied := Keep(rows, within), applied + [within];
      }
      if IsPair(sel.dateRange) {
        var within := DateWithin(sel.dateRange.days[0], sel.dateRange.days[1]);
        KeepAllCompose(df.rows, applied, [within]);
        rows, applied := Keep(rows, within), applied + [within];
      }
      if IsPair(sel.dateRange) {
        var within := DateWithin(sel.dateRange.days[0], sel.dateRange.days[1]);
        KeepAllCompose(df.rows, applied, [within]);
        rows, applied := Keep(rows, within), applied + [within];
      }
    }
    if HasColumn(df, RegionColumn) {
      var pass := RegionIn(sel.regions);
      KeepAllCompose(df.rows, applied, [pass]);
      rows, applied := Keep(rows, pass), applied + [pass];
    }
    assert rows == KeepAll(df.rows, applied);
    KeepAllSameTests(df.rows, applied, ActiveTests(df, sel));
    view := Table(df.columns, rows);
  }

  /** The view is an order-preserving subsequence of the data set, with its columns. */
  lemma FilteredIsSubsequence(df: Table, sel: Selection)
    ensures Filtered(df, sel).columns == df.columns
    ensures IsSubsequence(Filtered(df, sel).rows, df.rows)
  {
    KeepAllIsSubsequence(df.rows, ActiveTests(df, sel));
  }

  /** Filtering the view again with the same selection changes nothing. */
  lemma FilteredIdempotent(df: Table, sel: Selection)
    ensures Filtered(Filtered(df, sel), sel) == Filtered(df, sel)
  {
    var ts := ActiveTests(df, sel);
    KeepAllCompose(df.rows, ts, ts);
    KeepAllSameTests(df.rows, ts + ts, ts);
  }

  /** A range whose end is before its start is still applied, and then nothing passes. */
  lemma ReversedRangeKeepsNothing(df: Table, sel: Selection)
    requires HasColumn(df, StatusColumn)
    requires IsPair(sel.dateRange)
    requires !DateLe(sel.dateRange.days[0], sel.dateRange.days[1])
    ensures Filtered(df, sel).rows == []
  {
    var v := Filtered(df, sel).rows;
    if v != [] {
      assert v[0] in v;
      DateLeIsTotalOrder();
      assert false;
    }
  }

  /** Any date input that is not a two-element list or tuple leaves the date test out. */
  lemma MalformedRangeIsSkipped(df: Table, sel: Selection)
    requires !IsPair(sel.dateRange)
    ensures Filtered(df, sel) == Filtered(df, sel.(dateRange := NoValue))
  {
  }

  /** Without a `Status` column the date range has no effect, whatever it is. */
  lemma DateRangeNeedsStatusColumn(df: Table, sel: Selection, other: DateInput)
    requires !HasColumn(df, StatusColumn)
    ensures Filtered(df, sel) == Filtered(df, sel.(dateRange := other))
  {
  }

  // ---------------------------------------------------------------- the widget defaults

  /** The Status options (app.py:104): the distinct present statuses, ascending. */
  function StatusOptions(df: Table): (options: seq<string>)
    ensures Ascending(options, StrLt)
    ensures forall s :: s in options <==> exists r :: r in df.rows && r.status == Some(s)
  {
    StrLtIsStrictTotalOrder();
    KeysAscending(df.rows, StatusOf, StrLt);
    KeysAreValues(df.rows, StatusOf, StrLt);
    Keys(df.rows, StatusOf, StrLt)
  }

  /** The Region options (app.py:155): the distinct present regions, ascending. */
  function RegionOptions(df: Table): (options: seq<string>)
    ensures Ascending(options, StrLt)
    ensures forall s :: s in options <==> exists r :: r in df.rows && r.region == Some(s)
  {
    StrLtIsStrictTotalOrder();
    KeysAscending(df.rows, RegionOf, StrLt);
    KeysAreValues(df.rows, RegionOf, StrLt);
    Keys(df.rows, RegionOf, StrLt)
  }

  /** The dates present in the rows, in row order (`df["Date"]` without NaT). */
  function PresentDates(rows: seq<Record>): (ds: seq<Date>)
    ensures forall d :: d in ds <==> exists i :: 0 <= i < |rows| && rows[i].date == Some(d)
  {
    if rows == [] then []
    else
      var rest := PresentDates(rows[1..]);
      assert forall i :: 1 <= i < |rows| ==> rows[i] == rows[1..][i - 1];
      match rows[0].date
      case Some(d) => [d] + rest
      case None => rest
  }

  /** The earliest date of the data set (app.py:114). */
  function EarliestDate(ds: seq<Date>): (m: Date)
    requires ds != []
    ensures m in ds
    ensures forall d :: d in ds ==> DateLe(m, d)
  {
    if |ds| == 1 then ds[0]
    else
      var rest := EarliestDate(ds[1..]);
      DateLeIsTotalOrder();
      if DateLe(ds[0], rest) then ds[0] else rest
  }

  /** The latest date of the data set (app.py:115). */
  function LatestDate(ds: seq<Date>): (m: Date)
    requires ds != []
    ensures m in ds
    ensures forall d :: d in ds ==> DateLe(d, m)
  {
    if |ds| == 1 then ds[0]
    else
      var rest := LatestDate(ds[1..]);
      DateLeIsTotalOrder();
      if DateLe(rest, ds[0]) then ds[0] else rest
  }

  /** The widget's initial value: the full date range, or nothing when no row has a date. */
  function DefaultDateRange(df: Table): (x: DateInput)
    ensures IsPair(x) <==> PresentDates(df.rows) != []
    ensures !IsPair(x) ==> x == NoValue
    ensures IsPair(x) ==>
      && x.days[0] in PresentDates(df.rows) && x.days[1] in PresentDates(df.rows)
      && forall d :: d in PresentDates(df.rows) ==> DateLe(x.days[0], d) && DateLe(d, x.days[1])
  {
    var ds := PresentDates(df.rows);
    if ds == [] then NoValue else Days([EarliestDate(ds), LatestDate(ds)])
  }

  /** The sidebar as it first appears: every option selected, the full date range. */
  function DefaultSelection(df: Table): (sel: Selection)
    ensures forall s :: s in sel.statuses <==> exists r :: r in df.rows && r.status == Some(s)
    ensures forall s :: s in sel.regions <==> exists r :: r in df.rows && r.region == Some(s)
    ensures sel.dateRange == DefaultDateRange(df)
  {
    var statuses := set s | s in StatusOptions(df);
    var regions := set s | s in RegionOptions(df);
    Selection(statuses, DefaultDateRange(df), regions)
  }

  /** Each active default predicate passes every loaded row, the date range every loaded
      row that has a date. */
  lemma DefaultSelectionPasses(df: Table, r: Record)
    requires RowsClean(df)
    requires r in df.rows
    ensures var sel := DefaultSelection(df);
      && (HasColumn(df, StatusColumn) ==> r.status.Some? && r.status.value in sel.statuses)
      && (HasColumn(df, RegionColumn) ==> r.region.Some? && r.region.value in sel.regions)
      && (IsPair(sel.dateRange) && r.date.Some? ==>
            DateLe(sel.dateRange.days[0], r.date.value) && DateLe(r.date.value, sel.dateRange.days[1]))
  {
    assert RowIsClean(df.columns, r);
    if r.date.Some? {
      assert r.date.value in PresentDates(df.rows);
    }
  }

  /** With the default selection a loaded data set loses only the rows without a date,
      and only when the date range is active. */
  lemma DefaultSelectionKeeps(df: Table, r: Record)
    requires RowsClean(df)
    ensures r in Filtered(df, DefaultSelection(df)).rows <==>
      r in df.rows && (HasColumn(df, StatusColumn) && PresentDates(df.rows) != [] ==> r.date.Some?)
  {
    if r in df.rows {
      DefaultSelectionPasses(df, r);
    }
  }

  /** A loaded data set whose rows all have a date comes through the default selection
      whole. */
  lemma DefaultSelectionKeepsDatedTable(df: Table)
    requires RowsClean(df)
    requires forall r :: r in df.rows ==> r.date.Some?
    ensures Filtered(df, DefaultSelection(df)) == df
  {
    var sel := DefaultSelection(df);
    var ts := ActiveTests(df, sel);
    forall i | 0 <= i < |df.rows| ensures HoldsAll(ts, df.rows[i]) {
      var r := df.rows[i];
      DefaultSelectionPasses(df, r);
      ActiveTestsPass(df, sel);
    }
    KeepAllKeepsAll(df.rows, ts);
  }

  /** With the default status selection alone, the status mask keeps every loaded row. */
  lemma DefaultStatusKeepsAll(df: Table)
    requires RowsClean(df)
    requires HasColumn(df, StatusColumn)
    ensures Keep(df.rows, StatusIn(DefaultSelection(df).statuses)) == df.rows
  {
    var t := StatusIn(DefaultSelection(df).statuses);
    SingleTest(t);
    forall i | 0 <= i < |df.rows| ensures HoldsAll([t], df.rows[i]) {
      assert df.rows[i] in df.rows;
    }
    KeepAllKeepsAll(df.rows, [t]);
  }
}
