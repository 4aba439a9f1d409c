/** `load_data`, after the sheet has been read: column names are trimmed, the `Date`
    column is coerced to dates, and the missing values of the three categorical columns
    are replaced by the sentinel `"Unknown"`. */
module Loader {
  import opened Wrappers
  import opened Strings
  import opened Dates
  import opened Records

  /** The columns whose missing values are filled, in the order the loader visits them. */
  const CategoricalColumns: seq<string> := [StatusColumn, RegionColumn, SegmentColumn]

  /** Filling one cell: a missing value becomes the sentinel, a present
      value stays as it is. */
  function FillMissing(v: Option<string>): (r: Option<string>)
    ensures r.Some?
    ensures v.Some? ==> r == v
    ensures v.None? ==> r == Some(Unknown)
  {
    Some(v.GetOr(Unknown))
  }

  /** The reference definition of one loaded row, field by field. A field of a column the
      sheet does not have is carried over (dates: dropped), since no step touches it. */
  function CleanRecord(r: RawRecord, columns: seq<string>): (c: Record)
    ensures RowIsClean(columns, c)
    ensures StatusColumn in columns && r.status.Some? ==> c.status == r.status
    ensures RegionColumn in columns && r.region.Some? ==> c.region == r.region
    ensures SegmentColumn in columns && r.segment.Some? ==> c.segment == r.segment
    ensures StatusColumn in columns && r.status.None? ==> c.status == Some(Unknown)
    ensures RegionColumn in columns && r.region.None? ==> c.region == Some(Unknown)
    ensures SegmentColumn in columns && r.segment.None? ==> c.segment == Some(Unknown)
    ensures DateColumn in columns ==> c.date == CoerceDate(r.date)
    ensures DateColumn !in columns ==> c.date == None
    ensures c.revenue == r.revenue
  {
    Record(
      date := if DateColumn in columns then CoerceDate(r.date) else None,
      status := if StatusColumn in columns then FillMissing(r.status) else r.status,
      region := if RegionColumn in columns then FillMissing(r.region) else r.region,
      segment := if SegmentColumn in columns then FillMissing(r.segment) else r.segment,
      revenue := r.revenue)
  }

  /** The loaded data set: trimmed names, and every row cleaned against them. */
  function Cleaned(raw: RawTable): (t: Table)
    ensures t.columns == TrimAll(raw.columns)
    ensures |t.rows| == |raw.rows|
    ensures forall i :: 0 <= i < |raw.rows| ==> t.rows[i] == CleanRecord(raw.rows[i], t.columns)
  {
    var columns := TrimAll(raw.columns);
    Table(columns, seq(|raw.rows|, i requires 0 <= i < |raw.rows| => CleanRecord(raw.rows[i], columns)))
  }

  /** What every loaded data set satisfies: trimmed names, no missing categorical value in
      a column that exists, and only existing calendar days as dates. */
  predicate IsClean(t: Table) {
    && (forall c :: c in t.columns ==> Trim(c) == c)
    && RowsClean(t)
  }

  /** The row half of `IsClean`, which is all the filters and the aggregates rely on. */
  predicate RowsClean(t: Table) {
    forall r :: r in t.rows ==> RowIsClean(t.columns, r)
  }

  predicate RowIsClean(columns: seq<string>, r: Record) {
    && (StatusColumn in columns ==> r.status.Some?)
    && (RegionColumn in columns ==> r.region.Some?)
    && (SegmentColumn in columns ==> r.segment.Some?)
    && (r.date.Some? ==> IsValid(r.date.value))
  }

  lemma CleanedIsClean(raw: RawTable)
    ensures IsClean(Cleaned(raw))
  {
    var t := Cleaned(raw);
    forall c | c in t.columns ensures Trim(c) == c {
      var i :| 0 <= i < |t.columns| && t.columns[i] == c;
      TrimIdempotent(raw.columns[i]);
    }
    forall r | r in t.rows ensures RowIsClean(t.columns, r) {
      var i :| 0 <= i < |t.rows| && t.rows[i] == r;
      assert r == CleanRecord(raw.rows[i], t.columns);
    }
  }

  /** A present categorical value survives loading unchanged; a missing one becomes
      `"Unknown"`, in every column the sheet has. */
  lemma CleanedFillsOnlyMissing(raw: RawTable, i: nat)
    requires i < |raw.rows|
    ensures var t := Cleaned(raw);
      var (before, after) := (raw.rows[i], t.rows[i]);
      && (HasColumn(t, StatusColumn) ==> after.status == Some(before.status.GetOr(Unknown)))
      && (HasColumn(t, RegionColumn) ==> after.region == Some(before.region.GetOr(Unknown)))
      && (HasColumn(t, SegmentColumn) ==> after.segment == Some(before.segment.GetOr(Unknown)))
      && after.revenue == before.revenue
      && (HasColumn(t, DateColumn) ==> after.date == CoerceDate(before.date))
  {
  }

  /** A column is found whatever whitespace surrounds its name in the sheet. */
  lemma PaddedColumnIsFound(raw: RawTable, i: nat, name: string)
    requires i < |raw.columns|
    requires Trim(raw.columns[i]) == name
    ensures HasColumn(Cleaned(raw), name)
  {
    assert Cleaned(raw).columns[i] == name;
  }

  // ---------------------------------------------------------------- the loader's steps

  /** The row after the `Date` column is parsed (app.py:63-64). */
  function WithParsedDate(r: RawRecord, hasDate: bool): Record {
    Record(if hasDate then CoerceDate(r.date) else None, r.status, r.region, r.segment, r.revenue)
  }

  /** The row after the missing values of column `col` are filled (app.py:69). */
  function FillColumn(r: Record, col: string): Record {
    if col == StatusColumn then r.(status := FillMissing(r.status))
    else if col == RegionColumn then r.(region := FillMissing(r.region))
    else if col == SegmentColumn then r.(segment := FillMissing(r.segment))
    else r
  }

  /** The row after the first `k` rounds of the loader's column loop (app.py:67-69). */
  function FilledUpTo(r: Record, k: nat, columns: seq<string>): Record
    requires k <= |CategoricalColumns|
  {
    if k == 0 then r
    else
      var before := FilledUpTo(r, k - 1, columns);
      var col := CategoricalColumns[k - 1];
      if col in columns then FillColumn(before, col) else before
  }

  lemma AllRoundsClean(r: RawRecord, columns: seq<string>)
    ensures FilledUpTo(WithParsedDate(r, DateColumn in columns), 3, columns) == CleanRecord(r, columns)
  {
    var p := WithParsedDate(r, DateColumn in columns);
    var one := FilledUpTo(p, 1, columns);
    var two := FilledUpTo(p, 2, columns);
    assert FilledUpTo(p, 0, columns) == p;
    assert one == if StatusColumn in columns then p.(status := FillMissing(p.status)) else p;
    assert two == if RegionColumn in columns then one.(region := FillMissing(one.region)) else one;
  }

  /** `load_data` on a sheet that was read: trims the names, coerces the `Date` column,
      then fills the categorical columns one after the other. */
  method LoadData(raw: RawTable) returns (data: Table)
    ensures data == Cleaned(raw)
    ensures IsClean(data)
  {
    var columns := TrimAll(raw.columns);
    var hasDate := DateColumn in columns;
    var rows := seq(|raw.rows|, i requires 0 <= i < |raw.rows| => WithParsedDate(raw.rows[i], hasDate));
    for k := 0 to |CategoricalColumns|
      invariant |rows| == |raw.rows|
      invariant forall i :: 0 <= i < |rows| ==> rows[i] == FilledUpTo(WithParsedDate(raw.rows[i], hasDate), k, columns)
    {
      var col := CategoricalColumns[k];
      if col in columns {
        rows := seq(|rows|, i requires 0 <= i < |rows| => FillColumn(rows[i], col));
      }
    }
    forall i | 0 <= i < |rows| ensures rows[i] == CleanRecord(raw.rows[i], columns) {
      AllRoundsClean(raw.rows[i], columns);
    }
    data := Table(columns, rows);
    CleanedIsClean(raw);
  }
}
