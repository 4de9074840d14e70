/** The view state of mis-react-web/src/components/MonthlyCollectionSheet.tsx:
    the expanded row, the date filter and the way the two selectors gate the
    table. The monthly-data request is split into its start (the selector
    effect) and its completion, which arrives as a separate event. Dates are
    abstract day keys: `new Date(...).toISOString().slice(0, 10)` of a row
    date is its `Some(day)`. */
module MonthlySheet {
  import opened Wrappers
  import opened Seqs

  /** A table row: its day, `None` when `row.date` is falsy, and the cells. */
  datatype Row = Row(date: Option<int>, cells: seq<string>)

  datatype Sheet = Sheet(
    expandedRow: Option<nat>,
    selectedSourceType: string,
    selectedBranch: string,
    selectedDate: Option<int>,
    tableData: seq<Row>,
    loading: bool)

  const Init: Sheet := Sheet(None, "", "", None, [], false)

  /** `handleRowClick`: the expanded row collapses, any other row expands. */
  function HandleRowClick(expanded: Option<nat>, idx: nat): (r: Option<nat>)
    ensures expanded == Some(idx) ==> r.None?
    ensures expanded != Some(idx) ==> r == Some(idx)
  {
    if expanded == Some(idx) then None else Some(idx)
  }

  /** Clicking a row twice collapses everything, unless that row was the
      expanded one, which comes back. */
  lemma ClickTwice(expanded: Option<nat>, idx: nat)
    ensures HandleRowClick(HandleRowClick(expanded, idx), idx) == if expanded == Some(idx) then Some(idx) else None
  {
  }

  /** The test of the date filter. */
  function OnDay(day: int): Row -> bool {
    (row: Row) => row.date == Some(day)
  }

  /** `filteredData`. */
  function FilteredData(rows: seq<Row>, selected: Option<int>): (r: seq<Row>)
    ensures selected.None? ==> r == rows
    ensures selected.Some? ==> IsSubsequence(r, rows)
    ensures selected.Some? ==> forall row: Row :: row in r <==> row in rows && row.date == selected
    ensures selected.Some? ==> forall row: Row :: row.date == selected ==> multiset(r)[row] == multiset(rows)[row]
  {
    if selected.None? then rows
    else
      FilterIsSubsequence(rows, OnDay(selected.value));
      FilterMembers(rows, OnDay(selected.value));
      FilterMultiset(rows, OnDay(selected.value));
      Filter(rows, OnDay(selected.value))
  }

  /** With a date selected, rows without a date never show. */
  lemma UndatedRowsDropped(rows: seq<Row>, day: int, row: Row)
    requires row.date.None?
    ensures row !in FilteredData(rows, Some(day))
  {
  }

  /** The effect on the selectors: with both set a request starts, otherwise
      the table empties and `loading` stays as it was. */
  function SelectorEffect(s: Sheet): (r: Sheet)
    ensures s.selectedSourceType != "" && s.selectedBranch != "" ==> r == s.(loading := true)
    ensures s.selectedSourceType == "" || s.selectedBranch == "" ==> r == s.(tableData := [])
  {
    if s.selectedSourceType != "" && s.selectedBranch != "" then s.(loading := true)
    else s.(tableData := [])
  }

  datatype Event =
    | RowClicked(idx: nat)
    | DatePicked(date: Option<int>)
    | SourceTypeChosen(value: string)
    | BranchChosen(value: string)
    | DataArrived(rows: seq<Row>)
    | RequestFailed

  /** One event. A selector change runs the effect only when the value
      differs, as React does for an unchanged dependency. */
  function Step(s: Sheet, e: Event): (r: Sheet)
    ensures e.RowClicked? ==> r == s.(expandedRow := HandleRowClick(s.expandedRow, e.idx))
    ensures e.DataArrived? ==> r.tableData == e.rows && !r.loading
    ensures e.RequestFailed? ==> r.tableData == s.tableData && !r.loading
    ensures e.SourceTypeChosen? || e.BranchChosen? ==> r.expandedRow == s.expandedRow && r.selectedDate == s.selectedDate
  {
    match e
    case RowClicked(idx) => s.(expandedRow := HandleRowClick(s.expandedRow, idx))
    case DatePicked(date) => s.(selectedDate := date)
    case SourceTypeChosen(v) =>
      if v == s.selectedSourceType then s else SelectorEffect(s.(selectedSourceType := v))
    case BranchChosen(v) =>
      if v == s.selectedBranch then s else SelectorEffect(s.(selectedBranch := v))
    case DataArrived(rows) => s.(tableData := rows, loading := false)
    case RequestFailed => s.(loading := false)
  }

  /** Clearing either selector empties the table. */
  lemma ClearingSelectorEmptiesTable(s: Sheet, e: Event)
    requires e == SourceTypeChosen("") || e == BranchChosen("")
    ensures Step(s, e).tableData == [] || Step(s, e) == s
    ensures s.selectedSourceType != "" && s.selectedBranch != "" ==> Step(s, e).tableData == []
  {
  }

  /** Choosing the second selector starts a request; its rows then replace the
      table and the loading row goes away. */
  lemma RequestThenData(s: Sheet, branch: string, rows: seq<Row>)
    requires s.selectedSourceType != "" && branch != "" && branch != s.selectedBranch
    ensures Step(s, BranchChosen(branch)).loading
    ensures var r := Step(Step(s, BranchChosen(branch)), DataArrived(rows));
            r.tableData == rows && !r.loading && r.selectedBranch == branch
  {
  }

  /** The "Loading data..." row. */
  predicate ShowsLoading(s: Sheet) {
    s.loading
  }

  /** The "No data available." row. */
  predicate ShowsNoData(s: Sheet) {
    !s.loading && |FilteredData(s.tableData, s.selectedDate)| == 0
  }

  /** The rows drawn in the table body. */
  function ShownRows(s: Sheet): (r: seq<Row>)
    ensures s.loading ==> r == []
    ensures !s.loading ==> r == FilteredData(s.tableData, s.selectedDate)
  {
    if s.loading then [] else FilteredData(s.tableData, s.selectedDate)
  }

  /** Exactly one of: the loading row, the no-data row, or at least one data row. */
  lemma BodyAlternatives(s: Sheet)
    ensures ShowsLoading(s) ==> !ShowsNoData(s) && ShownRows(s) == []
    ensures ShowsNoData(s) <==> !ShowsLoading(s) && ShownRows(s) == []
  {
  }

  /** The extension row under row `idx` shows when that row is drawn and expanded;
      at most one such row exists because `expandedRow` holds one index. */
  predicate ShowsExtension(s: Sheet, idx: nat) {
    idx < |ShownRows(s)| && s.expandedRow == Some(idx)
  }

  lemma OneExtensionAtMost(s: Sheet, i: nat, j: nat)
    requires ShowsExtension(s, i) && ShowsExtension(s, j)
    ensures i == j
  {
  }
}
