/** The tables of the dashboard: the sheet as read and the data set after loading. */
module Records {
  import opened Wrappers
  import opened Dates

  const DateColumn := "Date"
  const StatusColumn := "Status"
  const RegionColumn := "Region"
  const SegmentColumn := "Customer_Segment"
  const RevenueColumn := "Revenue_USD"

  /** The sentinel that replaces a missing categorical value. */
  const Unknown := "Unknown"

  /** One row of the sheet as read: the cells of the columns the core uses. A cell of a
      column the sheet does not have is ignored. */
  datatype RawRecord = RawRecord(
    date: DateCell,
    status: Option<string>,
    region: Option<string>,
    segment: Option<string>,
    revenue: Option<real>)

  /** The sheet as read: its column names (untrimmed) and its rows. */
  datatype RawTable = RawTable(columns: seq<string>, rows: seq<RawRecord>)

  /** One row of the loaded data set. */
  datatype Record = Record(
    date: Option<Date>,
    status: Option<string>,
    region: Option<string>,
    segment: Option<string>,
    revenue: Option<real>)

  /** A data frame: column names and rows. The filtered view keeps the columns. */
  datatype Table = Table(columns: seq<string>, rows: seq<Record>)

  /** `name in df.columns`. */
  predicate HasColumn(t: Table, name: string) {
    name in t.columns
  }

  /** Group keys: the value of a column, `None` where it is missing (pandas drops those). */
  function StatusOf(r: Record): Option<string> { r.status }

  function RegionOf(r: Record): Option<string> { r.region }

  function MonthKey(r: Record): (m: Option<Month>)
    ensures m.Some? <==> r.date.Some?
  {
    match r.date
    case Some(d) => Some(MonthOf(d))
    case None => None
  }

  /** A row's contribution to a `Revenue_USD` sum: pandas skips missing values. */
  function RevenueOf(r: Record): real {
    r.revenue.GetOr(0.0)
  }
}
