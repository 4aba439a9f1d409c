# Oando PLC dashboard: the data core in Dafny

The dashboard is a Streamlit script, `app.py`. It reads one spreadsheet of oil and
gas orders and cleans it once. On every rerun it narrows the data with the sidebar
Status, Date Range and Region filters. From the narrowed view it computes five KPIs
and three grouped tables:

- the status distribution;
- the monthly order trend;
- revenue by region.

This project models that core on values and proves what it computes.

- `Records`: a data frame becomes a `Table`, its column names plus one `Record` per
  row, for the five columns the core reads. The sheet as read is a `RawTable`, whose
  `Date` cells are still unparsed (`DateCell`).
- `Strings`: Python's `str.strip()` (the whitespace set of `str.isspace()`) and
  Python's ordering of strings.
- `Dates`: Gregorian dates and months, `errors="coerce"` date parsing, and the
  chronological orders.
- `Loader`: `load_data` after the file has been read.
  - `Cleaned` is the reference definition.
  - `LoadData` is the step-by-step version: the column loop over
    `Status`, `Region`, `Customer_Segment`.
- `Filters`: the filter chain.
  - `Filtered` keeps, in one pass, the rows that pass every active test.
  - `ApplyFilters` rebinds the view once per block, as the script does, including
    the date block written out three times. It is proved equal to `Filtered`.
  - Also here: the widgets' default values (sorted option lists and the
    minimum/maximum date) and the algebra of the filters.
- `Grouping`: generic `groupby`/`value_counts` machinery. It covers keys in
  ascending order, group counts and sums, and sorting by count.
- `Kpis`: total orders, the three status tallies and the fulfillment rate.
- `Aggregates`: the three grouped tables and how they relate to the KPIs and to the
  filters.
- `Dashboard`: one pass of the script from the read sheet to everything it shows.
- `Scenarios`: a three-order data set run through the model.

A date range whose start is after its end is still applied (`app.py:127-151`) and keeps
no row; see `Filters.ReversedRangeKeepsNothing`.

The date block at `app.py:112-151` is indented inside `if "Status" in df.columns:`.
So the date filter runs only when a `Status` column exists. Its `df["Date"]` lookup
would fail on a sheet that has `Status` but no `Date` column. `ApplyFilters` and
`RunDashboard` therefore require a `Date` column whenever there is a `Status` column.

## Model

| member | source | states |
|---|---|---|
| Strings.SkipSpaces | app.py:60 | the scan stops at the first position from which on the name does not start with whitespace, having passed only whitespace |
| Strings.SkipTrailingSpaces | app.py:60 | the backward scan stops just after the last non-whitespace character, having passed only whitespace |
| Strings.Trim | app.py:60 | a stripped name neither starts nor ends with whitespace and is no longer than the original |
| Strings.TrimIsSlice | app.py:60 | a stripped name is a slice of the original with only whitespace cut off on either side |
| Strings.TrimKeeps | app.py:60 | a name without leading or trailing whitespace is left unchanged |
| Strings.TrimIdempotent | app.py:60 | stripping twice is stripping once |
| Strings.TrimAll | app.py:60 | every column name is stripped in place, and the number of columns is kept |
| Strings.TrimAllIdempotent | app.py:60 | stripping the header twice is stripping it once |
| Strings.StrLtIsStrictTotalOrder | app.py:104 | the order `sorted` uses on statuses and regions is irreflexive, transitive and total |
| Dates.DaysInMonth | app.py:64 | months have 28 to 31 days, and 29 exactly in February of a leap year |
| Dates.DateLeIsTotalOrder | app.py:114-115 | chronological order of days is a total order, which makes the minimum and maximum dates well defined |
| Dates.MonthLtIsStrictTotalOrder | app.py:232 | chronological order of months is a strict total order |
| Dates.CoerceDate | app.py:64 | a cell parses to a date exactly when it names an existing calendar day, and it parses to that day; every other cell becomes missing instead of raising |
| Loader.FillMissing | app.py:69 | a missing value becomes "Unknown" and a present value is kept |
| Loader.CleanRecord | app.py:63-69 | a cleaned row has no missing categorical value in a present column, keeps every present one, fills the missing ones with "Unknown", coerces the date (missing without a Date column) and keeps revenue |
| Loader.Cleaned | app.py:59-71 | the loaded table has the stripped header and one cleaned row per row of the sheet, in order |
| Loader.CleanedIsClean | app.py:59-71 | after loading, the names are stripped, no present categorical column has a missing value, and every date is a real calendar day |
| Loader.CleanedFillsOnlyMissing | app.py:63-69 | loading changes no present categorical value, fills every missing one with "Unknown", leaves revenue alone and coerces the date |
| Loader.PaddedColumnIsFound | app.py:60-68 | a column whose sheet name is padded with whitespace is still found by its bare name |
| Loader.AllRoundsClean | app.py:67-69 | three rounds of the column loop produce exactly the reference cleaned row |
| Loader.LoadData | app.py:59-71 | the loop-by-loop loader yields the reference table, and that table is clean |
| Filters.Holds | app.py:110-151 | a row without a status, a date or a region fails the test on that column, and a range whose start is after its end passes no row |
| Filters.ActiveTests | app.py:103-161 | the status test is active exactly when there is a Status column, the date test exactly when there is also a two-day range, the region test exactly when there is a Region column |
| Filters.ActiveTestsPass | app.py:103-161 | a row passes the active tests exactly when it has a selected status (with a Status column), a date inside the range (with a Status column and a two-day range) and a selected region (with a Region column) |
| Filters.KeepAll | app.py:110 | a row is kept exactly when it is in the input and passes every test |
| Filters.Keep | app.py:110 | a row is kept exactly when it is in the input and passes the test |
| Filters.KeepAllSelects | app.py:110 | boolean indexing keeps the passing rows in their original order |
| Filters.KeepAllIsSubsequence | app.py:110 | the filtered rows are a subsequence of the input rows |
| Filters.KeepAllCompose | app.py:110-161 | filtering by some tests and then by others is filtering once by all of them |
| Filters.KeepAllSameTests | app.py:110-161 | only which tests are applied matters, not their order or how often each is applied |
| Filters.KeepIdempotent | app.py:131-143 | applying the same mask twice is applying it once |
| Filters.KeepThriceIsOnce | app.py:127-151 | the date block written out three times filters as it would once |
| Filters.KeepAllKeepsAll | app.py:110 | a mask that every row passes keeps the whole table |
| Filters.ApplyFilters | app.py:100-161 | running the blocks in order yields exactly the one-pass filtered view |
| Filters.Filtered | app.py:100-161 | the view keeps every column, and a row survives exactly when it has a selected status (if the column exists), a date inside the chosen range (if a two-day range is active and the Status column exists) and a selected region (if the column exists) |
| Filters.FilteredIsSubsequence | app.py:100 | the view keeps every column and a subsequence of the rows |
| Filters.FilteredIdempotent | app.py:100-161 | filtering the view again with the same selection changes nothing |
| Filters.ReversedRangeKeepsNothing | app.py:127-151 | a range whose start is after its end keeps no row |
| Filters.MalformedRangeIsSkipped | app.py:127 | a date input that is not a pair of days applies no date predicate |
| Filters.DateRangeNeedsStatusColumn | app.py:103-151 | without a Status column the date input has no effect |
| Filters.StatusOptions | app.py:104 | the status options are strictly ascending and are exactly the statuses present in the table |
| Filters.RegionOptions | app.py:155 | the region options are strictly ascending and are exactly the regions present in the table |
| Filters.PresentDates | app.py:114-115 | the dates considered are exactly those of rows that have a date |
| Filters.EarliestDate | app.py:114 | the minimum is one of the dates and no date is before it |
| Filters.LatestDate | app.py:115 | the maximum is one of the dates and no date is after it |
| Filters.DefaultDateRange | app.py:114-125 | the default range is a pair exactly when some row has a date, and then runs from the earliest date present to the latest |
| Filters.DefaultSelection | app.py:104-159 | every status and every region present is selected, and nothing else; the date input is the default range |
| Filters.DefaultSelectionPasses | app.py:104-161 | with the defaults, every loaded row passes the status and region tests, and every dated row passes the date test |
| Filters.DefaultSelectionKeeps | app.py:100-161 | with the defaults, a loaded table loses exactly the undated rows, and only when the date range is active |
| Filters.DefaultSelectionKeepsDatedTable | app.py:100-161 | with the defaults, a loaded table whose rows all have dates comes through whole |
| Filters.DefaultStatusKeepsAll | app.py:104-110 | the default status selection keeps every loaded row |
| Grouping.Group | app.py:277 | a group holds only rows with that key, and every row with that key |
| Grouping.GroupMultiplicity | app.py:211-279 | a group holds each row with that key as often as the input does, and no other row |
| Grouping.WithKey | app.py:231 | `dropna` on the key keeps exactly the rows that have a key |
| Grouping.WithKeyMultiplicity | app.py:231 | `dropna` keeps each row with a key as often as the input holds it, and drops every other row |
| Grouping.Keys | app.py:275-279 | the keys are exactly those with a non-empty group |
| Grouping.KeysAreValues | app.py:275-279 | a key is listed exactly when some row carries it |
| Grouping.KeysAscending | app.py:275-279 | groupby keys come out strictly ascending |
| Grouping.GroupCounts | app.py:211-235 | a (key, count) pair is listed exactly when the key's group is non-empty and the count is its size |
| Grouping.GroupCountsSpec | app.py:211-235 | group counts have strictly ascending keys and add up to the number of rows with a key |
| Grouping.GroupTotals | app.py:277-278 | a (key, total) pair is listed exactly when the key's group is non-empty and the total is its summed value |
| Grouping.GroupTotalsSpec | app.py:277-278 | group totals have strictly ascending keys and add up to the total over the rows with a key |
| Grouping.SortByCount | app.py:213 | sorting by count permutes the pairs, keeps their sum and puts the largest count first |
| Kpis.StatusTally | app.py:168-181 | a tally is the size of that status's group, or 0 without a Status column |
| Kpis.FulfillmentRate | app.py:183-186 | the rate is 0 with no orders and fulfilled/total*100 otherwise; it lies in [0, 100] and is 100 exactly when every order is fulfilled |
| Kpis.ComputeKpis | app.py:166-186 | the total is the number of rows, each status field is that status's tally, the rate is the fulfillment rate of those two; the three named statuses never exceed the total and the rate is a percentage |
| Kpis.NamedStatusesBounded | app.py:168-181 | Completed, Pending and Cancelled together never outnumber the orders |
| Aggregates.StatusCounts | app.py:210-216 | the distribution exists exactly when there is a Status column, and is sorted by count, largest first |
| Aggregates.StatusCountsSpec | app.py:211-216 | each status appears once, with the size of its group, exactly when it occurs; the counts add up to the rows with a status |
| Aggregates.StatusCountsSumToTotal | app.py:211-216 | on a loaded view the distribution accounts for every order |
| Aggregates.StatusCountsAgreeWithKpis | app.py:168-181 | the distribution's counts for Completed, Pending and Cancelled are the KPI tallies |
| Aggregates.MonthlyTrend | app.py:228-235 | the trend exists exactly when there is a Date column, and has no empty month |
| Aggregates.MonthlyTrendSpec | app.py:229-235 | months strictly ascending, each with the number of its orders, adding up to the rows that have a date |
| Aggregates.MonthBucket | app.py:231-232 | a row is in a month's bucket exactly when it has a date in that month |
| Aggregates.RevenueByRegion | app.py:272-279 | the table exists exactly when both Region and Revenue_USD are columns |
| Aggregates.RevenueByRegionSpec | app.py:275-279 | regions strictly ascending, each with the sum of its revenue, adding up to the revenue of the rows with a region |
| Aggregates.RevenueByRegionSumsToTotal | app.py:275-279 | on a loaded view the regional totals add up to all the revenue |
| Aggregates.RegionGroupIsRegionFilter | app.py:275-279 | a region's group is the view filtered to that one region |
| Aggregates.RevenueMatchesSingleRegionFilter | app.py:275-279 | each regional total is the revenue of the view filtered to that region alone |
| Dashboard.FilteredIsClean | app.py:100-161 | filtering a loaded table leaves it loaded |
| Dashboard.ReportOf | app.py:166-279 | the report shows the view, its order count is the number of rows, and each grouped table is computed exactly when its columns exist |
| Dashboard.ReportAddsUp | app.py:166-279 | on a loaded view the status counts cover every order, the regional totals cover all revenue, and the trend covers every dated row |
| Dashboard.RunDashboard | app.py:59-279 | one run shows the report of the filtered, loaded sheet, and its figures add up as above |
| Scenarios.SampleRowsClean | app.py:59-71 | the three sample orders are loaded rows |
| Scenarios.SampleStatusGroups | app.py:168-181 | the sample has one order of each named status |
| Scenarios.SampleDefaultView | app.py:100-161 | under the default sidebar the sample comes through whole |
| Scenarios.SampleKpis | app.py:166-186 | the sample gives 3 orders, 1 of each status and a rate of 100/3 |
| Scenarios.SampleCompletedOnlyView | app.py:100-161 | with only "Completed" ticked and no date range, just the completed order is left |
| Scenarios.SampleCompletedOnlyKpis | app.py:166-186 | that view gives 1 order, 1 fulfilled and a rate of 100 |
| Scenarios.SampleMonthKeys | app.py:231-232 | the sample's months are January and February 2024, in that order |
| Scenarios.SampleMonthGroups | app.py:231-232 | January 2024 has two orders and February one |
| Scenarios.SampleMonthlyTrend | app.py:228-235 | the sample's trend is two orders in January 2024 and one in February |
| Scenarios.SampleRegionKeys | app.py:275-279 | the sample's regions are East and West, in that order |
| Scenarios.SampleRegionGroups | app.py:275-279 | East holds the pending order, West the other two in sheet order |
| Scenarios.SampleRegionTotals | app.py:275-279 | East's revenue is 50 and West's 175 |
| Scenarios.SampleRevenueByRegion | app.py:272-279 | the sample's revenue by region is East 50 and West 175 |

## Left out

- Reading the file is not modelled: the path check, `read_excel` and its error messages (`app.py:47-57`). The model starts from the sheet as read, a `RawTable`.
- Caching (`@st.cache_data`) is left out. It changes when the loader runs, not what it returns.
- The early stop on an empty data frame (`app.py:77-78`) is left out. It only ends the page.
- Page setup, the theme, the logo, headings, the KPI widgets' text formatting, all Plotly charts, the dataset viewer and the CSV download (`app.py:14-39`, `83-93`, `191-199`, `218-270`, `281-327`) are presentation, and are left out.
- The Volume_Barrels histogram (`app.py:262-269`) draws its data unchanged, so there is nothing to compute.
- Sidebar widgets are modelled as parameters. What the user picks is a `Selection`, and the widgets' default values are `DefaultSelection`.
- `pd.to_datetime` is modelled on an abstract cell: a day that exists, a day that does not, a blank and an unreadable value. String formats, time of day and the Timestamp range limits are not modelled.
- Dates carry no time of day, so the `>= start` / `<= end` comparisons against midnight timestamps become comparisons of days.
- Filters.DefaultSelectionPasses, Filters.DefaultSelectionKeeps and Filters.DefaultSelectionKeepsDatedTable hold only for day-only dates (the sample of `Scenarios.SampleDefaultView` has only midnight dates). The script takes the latest timestamp's date and turns it back into midnight for the `<= end` comparison (`app.py:115-133`), so rows of the last day stamped after midnight are dropped by the default range; the model's dates carry no time, so it keeps them.
- Dashboard.ReportOf: the trend chart is drawn only when the trend table is non-empty (`app.py:237`); the model computes the table, possibly empty, and draws nothing.
- Loader.LoadData and Dashboard.RunDashboard: a sheet with two headers that strip to the same core column name (`Status` and `Status `, say) is not modelled, because a `RawRecord` holds one cell per core column. The script raises on such a sheet: `pd.to_datetime` on a doubled `Date` at `app.py:64`, `.unique()` on a doubled `Status` or `Region` at `app.py:104` and `app.py:155`. The model instead returns an ordinary report.
- Floating point is left out. Revenue and the fulfillment rate are exact reals, with no rounding or NaN.
- A missing `Revenue_USD` cell is `None` and adds 0 to a sum, as pandas' `sum` skips NaN by default; NaN arithmetic itself is not modelled.
- Aggregates.StatusCounts: the order of statuses with equal counts inside `value_counts()` is not stated. The model fixes one order, but its contract promises only descending counts.
- Strings.IsSpace: whitespace is Python's `str.isspace()` set on code points. Other Unicode handling (normalisation, surrogates) is not modelled.
- Columns other than Date, Status, Region, Customer_Segment and Revenue_USD are carried by name only. Their cells are not modelled because no step of the core reads them.
