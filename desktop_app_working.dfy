/** The data tab of the lighter desktop client (`desktop/app_working.py`):
    the table is filled from the server's records, which are also kept for
    filtering; a search box, a column chooser and a filter value hide rows
    in place, and a label reports how many are shown. The `is_processing`
    guard is class `Desktop.Processing`. */
module DesktopAppWorking {
  import opened Wrappers
  import opened Seqs
  import opened Text
  import opened Desktop

  /** The first entry of the column chooser, meaning "no column filter". */
  const AllColumns: string := "All Columns"

  /** What the table label says. */
  datatype TableInfo = NoDataLoaded | Dimensions(rows: nat, columns: nat) | ShownOf(visible: nat, total: nat)

  predicate HasKey(r: Record, key: string)
  {
    exists j :: 0 <= j < |r| && r[j].0 == key
  }

  /** `row[key]`: the value stored under the key. */
  function Lookup(r: Record, key: string): (v: string)
    requires HasKey(r, key)
    ensures exists j :: 0 <= j < |r| && r[j].0 == key && r[j].1 == v
  {
    if r[0].0 == key then r[0].1
    else
      assert HasKey(r[1..], key) by {
        var j :| 0 <= j < |r| && r[j].0 == key;
        assert r[1..][j - 1] == r[j];
      }
      var v := Lookup(r[1..], key);
      assert exists j :: 0 <= j < |r| && r[j].0 == key && r[j].1 == v by {
        var j :| 0 <= j < |r[1..]| && r[1..][j].0 == key && r[1..][j].1 == v;
        assert r[j + 1] == r[1..][j];
      }
      v
  }

  /** Some value of the row, lower-cased, contains the (lower-cased) search text. */
  predicate AnyValueContains(r: Record, search: string)
  {
    exists j :: 0 <= j < |r| && Contains(Lower(r[j].1), search)
  }

  /** `should_show` for one record, with the search text and the filter
      value already lower-cased: the search (when not empty) must hit some
      value, and the column filter (when a value and a column are given)
      rejects only a record that has the column without the value in it. */
  predicate ShouldShow(r: Record, search: string, column: string, value: string)
  {
    && (search == "" || AnyValueContains(r, search))
    && !(value != "" && column != AllColumns && HasKey(r, column) && !Contains(Lower(Lookup(r, column)), value))
  }

  function ShownBy(search: string, column: string, value: string): Record -> bool
  {
    r => ShouldShow(r, search, column, value)
  }

  /** With no search text and no filter value every record is shown, and
      with "All Columns" the filter value is ignored. */
  lemma FilterDefaults(r: Record, search: string, column: string, value: string)
    ensures ShouldShow(r, "", column, "")
    ensures ShouldShow(r, search, AllColumns, value) <==> ShouldShow(r, search, AllColumns, "")
    ensures !HasKey(r, column) ==> (ShouldShow(r, search, column, value) <==> ShouldShow(r, search, column, ""))
  {
  }

  /** A search hit on the filtered column's value passes both tests when the
      search text contains the filter value. */
  lemma SearchHitOnFilteredColumn(r: Record, search: string, column: string, value: string)
    requires HasKey(r, column) && Contains(Lower(Lookup(r, column)), search)
    requires search != "" && Contains(search, value)
    ensures ShouldShow(r, search, column, value)
  {
    var j :| 0 <= j < |r| && r[j].0 == column && r[j].1 == Lookup(r, column);
    ContainsTransitive(Lower(Lookup(r, column)), search, value);
  }

  /** The body of the `apply_filters` loop for one record. */
  method ShouldShowRow(row: Record, search: string, column: string, value: string) returns (shouldShow: bool)
    ensures shouldShow == ShouldShow(row, search, column, value)
  {
    shouldShow := true;
    if search != "" {
      if !AnyValueContains(row, search) {
        shouldShow := false;
      }
    }
    if value != "" && column != AllColumns {
      if HasKey(row, column) {
        if !Contains(Lower(Lookup(row, column)), value) {
          shouldShow := false;
        }
      }
    }
  }

  /** The hidden flags after filtering the first `n` records: record `k`'s
      row is hidden exactly when it is not shown; rows past the records,
      and rows past `n`, keep their flags. */
  function Flagged(hidden: seq<bool>, rows: seq<Record>, p: Record -> bool, n: nat): (r: seq<bool>)
    ensures |r| == |hidden|
    ensures forall k :: 0 <= k < |hidden| ==> r[k] == if k < n && k < |rows| then !p(rows[k]) else hidden[k]
  {
    seq(|hidden|, k requires 0 <= k < |hidden| => if k < n && k < |rows| then !p(rows[k]) else hidden[k])
  }

  /** Flagging one more record changes that record's row only. */
  lemma FlaggedStep(hidden: seq<bool>, rows: seq<Record>, p: Record -> bool, i: nat)
    requires i < |rows|
    ensures Flagged(hidden, rows, p, i + 1)
         == if i < |hidden| then Flagged(hidden, rows, p, i)[i := !p(rows[i])] else Flagged(hidden, rows, p, i)
  {
  }

  /** A second filter pass over the same records decides every flag the
      first one set. */
  lemma FlaggedOverwrite(hidden: seq<bool>, rows: seq<Record>, p: Record -> bool, q: Record -> bool)
    ensures Flagged(Flagged(hidden, rows, p, |rows|), rows, q, |rows|) == Flagged(hidden, rows, q, |rows|)
  {
    var a := Flagged(Flagged(hidden, rows, p, |rows|), rows, q, |rows|);
    var b := Flagged(hidden, rows, q, |rows|);
    assert |a| == |b|;
    forall k | 0 <= k < |a| ensures a[k] == b[k] {
    }
  }

  /** When the table holds at least the kept records, the count on the label
      is the number of rows the filter left shown. */
  lemma {:induction false} LabelCountsShownRows(hidden: seq<bool>, rows: seq<Record>, p: Record -> bool, n: nat)
    requires n <= |rows| <= |hidden|
    ensures ShownCount(Flagged(hidden, rows, p, |rows|), n) == |Filter(rows[..n], p)|
  {
    if n > 0 {
      var flags := Flagged(hidden, rows, p, |rows|);
      LabelCountsShownRows(hidden, rows, p, n - 1);
      assert flags[n - 1] == !p(rows[n - 1]);
      FilterLengthLast(rows[..n], p);
      assert rows[..n][..n - 1] == rows[..n - 1];
      if p(rows[n - 1]) {
        assert ShownCount(flags, n) == ShownCount(flags, n - 1) + 1;
      } else {
        assert ShownCount(flags, n) == ShownCount(flags, n - 1);
      }
    }
  }

  /** The data tab: its table, the records kept for filtering (`None` until
      the first load), the two text boxes, the column chooser and the label. */
  class DataTab {
    const table: Table
    var originalRows: Option<seq<Record>>
    var searchText: string
    var filterValue: string
    var options: seq<string>
    var selected: nat
    var info: TableInfo

    ghost predicate Valid()
      reads this, table
    {
      table.Valid() && selected < |options| && options[0] == AllColumns
    }

    constructor ()
      ensures Valid() && fresh(table)
      ensures table.headers == [] && table.cells == [] && table.hidden == []
      ensures originalRows == None && searchText == "" && filterValue == ""
      ensures options == [AllColumns] && selected == 0 && info == NoDataLoaded
    {
      table := new Table();
      originalRows := None;
      searchText, filterValue := "", "";
      options, selected := [AllColumns], 0;
      info := NoDataLoaded;
    }

    /** The text of the column chooser. */
    function FilterColumn(): string
      reads this
      requires selected < |options|
    {
      options[selected]
    }

    /** `populate_table`: an empty list empties the table and keeps everything
        else, including the records of the previous load. Otherwise the table
        is filled and the label set to its dimensions; then the chooser is
        emptied and refilled with "All Columns" and the columns, and only then
        are the new records kept. Emptying the chooser moves its current entry
        to none (text "") and refilling it to "All Columns"; each move emits
        `currentTextChanged`, whose handler runs `apply_filters`, so when a
        previous load left records, two filter passes walk those old records
        (the second one decides), and the label ends up counting them. */
    method PopulateTable(rows: seq<Record>)
      requires Valid()
      modifies this, table
      ensures Valid()
      ensures searchText == old(searchText) && filterValue == old(filterValue)
      ensures rows == [] ==>
        && table.headers == [] && table.cells == [] && table.hidden == []
        && info == NoDataLoaded
        && originalRows == old(originalRows) && options == old(options) && selected == old(selected)
      ensures rows != [] ==>
        && table.headers == Keys(rows[0])
        && table.cells == Filled(Resized(old(table.cells), |rows|, |rows[0]|), rows)
        && options == [AllColumns] + Keys(rows[0]) && selected == 0
        && originalRows == Some(rows)
      ensures rows != [] && (old(originalRows).None? || old(originalRows).value == []) ==>
        && table.hidden == ResizedFlags(old(table.hidden), |rows|)
        && info == Dimensions(|rows|, |rows[0]|)
      ensures rows != [] && old(originalRows).Some? && old(originalRows).value != [] ==>
        var previous := old(originalRows).value;
        var p := ShownBy(Lower(searchText), AllColumns, Lower(filterValue));
        && table.hidden == Flagged(ResizedFlags(old(table.hidden), |rows|), previous, p, |previous|)
        && info == ShownOf(|Filter(previous, p)|, |previous|)
    {
      table.Populate(rows);
      if rows == [] {
        info := NoDataLoaded;
        return;
      }
      info := Dimensions(|rows|, |table.headers|);
      ghost var resized := table.hidden;
      // `clear()`: the chooser's text becomes "".
      FilterPass("");
      ghost var p1 := ShownBy(Lower(searchText), "", Lower(filterValue));
      // `addItems(...)`: the chooser's text becomes "All Columns".
      options := [AllColumns] + table.headers;
      selected := 0;
      FilterPass(AllColumns);
      if originalRows.Some? && originalRows.value != [] {
        FlaggedOverwrite(resized, originalRows.value, p1, ShownBy(Lower(searchText), AllColumns, Lower(filterValue)));
      }
      originalRows := Some(rows);
    }

    /** One run of `apply_filters` with `column` as the chooser's text: nothing
        happens before a load or with no records; otherwise each record's row
        is hidden or shown by `ShouldShow`, and the label reports the shown
        count against the number of records. */
    method FilterPass(column: string)
      requires table.Valid()
      modifies this, table
      ensures table.Valid()
      ensures searchText == old(searchText) && filterValue == old(filterValue)
      ensures originalRows == old(originalRows) && options == old(options) && selected == old(selected)
      ensures table.headers == old(table.headers) && table.cells == old(table.cells)
      ensures originalRows.None? || originalRows.value == [] ==>
        table.hidden == old(table.hidden) && info == old(info)
      ensures originalRows.Some? && originalRows.value != [] ==>
        var p := ShownBy(Lower(searchText), column, Lower(filterValue));
        && table.hidden == Flagged(old(table.hidden), originalRows.value, p, |originalRows.value|)
        && info == ShownOf(|Filter(originalRows.value, p)|, |originalRows.value|)
    {
      if originalRows.None? || originalRows.value == [] {
        return;
      }
      var rows := originalRows.value;
      var search := Lower(searchText);
      var value := Lower(filterValue);
      ghost var p := ShownBy(search, column, value);
      var visible := 0;
      ghost var hidden0 := table.hidden;
      for i := 0 to |rows|
        modifies table
        invariant table.Valid()
        invariant table.headers == old(table.headers) && table.cells == old(table.cells)
        invariant table.hidden == Flagged(hidden0, rows, p, i)
        invariant visible == |Filter(rows[..i], p)|
      {
        var row := rows[i];
        var shouldShow := ShouldShowRow(row, search, column, value);
        table.SetRowHidden(i, !shouldShow);
        FlaggedStep(hidden0, rows, p, i);
        FilterLengthLast(rows[..i + 1], p);
        assert rows[..i + 1][..i] == rows[..i];
        if shouldShow {
          visible := visible + 1;
        }
      }
      assert rows[..|rows|] == rows;
      info := ShownOf(visible, |rows|);
    }

    /** `apply_filters` with the chooser's own text. */
    method ApplyFilters()
      requires Valid()
      modifies this, table
      ensures Valid()
      ensures searchText == old(searchText) && filterValue == old(filterValue)
      ensures originalRows == old(originalRows) && options == old(options) && selected == old(selected)
      ensures table.headers == old(table.headers) && table.cells == old(table.cells)
      ensures originalRows.None? || originalRows.value == [] ==>
        table.hidden == old(table.hidden) && info == old(info)
      ensures originalRows.Some? && originalRows.value != [] ==>
        var p := ShownBy(Lower(searchText), FilterColumn(), Lower(filterValue));
        && table.hidden == Flagged(old(table.hidden), originalRows.value, p, |originalRows.value|)
        && info == ShownOf(|Filter(originalRows.value, p)|, |originalRows.value|)
    {
      FilterPass(options[selected]);
    }

    /** `clear_filters`: both boxes emptied, the chooser back on "All
        Columns", every record's row shown and the label back to the
        dimensions; before the first load only the inputs are reset. */
    method ClearFilters()
      requires Valid()
      modifies this, table
      ensures Valid()
      ensures searchText == "" && filterValue == "" && selected == 0 && FilterColumn() == AllColumns
      ensures originalRows == old(originalRows) && options == old(options)
      ensures table.headers == old(table.headers) && table.cells == old(table.cells)
      ensures originalRows.None? ==> table.hidden == old(table.hidden) && info == old(info)
      ensures originalRows.Some? ==>
        && table.hidden == Flagged(old(table.hidden), originalRows.value, r => true, |originalRows.value|)
        && info == Dimensions(|originalRows.value|, |table.headers|)
    {
      searchText := "";
      filterValue := "";
      selected := 0;
      if originalRows.Some? {
        var rows := originalRows.value;
        for i := 0 to |rows|
          modifies table
          invariant table.Valid()
          invariant table.headers == old(table.headers) && table.cells == old(table.cells)
          invariant table.hidden == Flagged(old(table.hidden), rows, r => true, i)
        {
          table.SetRowHidden(i, false);
        }
        info := Dimensions(|rows|, |table.headers|);
      }
    }

    /** `export_table`: an empty table has nothing to export; otherwise, once
        a file name is chosen, the header row and the shown rows are written. */
    method ExportTable(chosen: bool) returns (r: ExportOutcome)
      requires Valid()
      ensures |table.cells| == 0 ==> r == NoDataToExport
      ensures |table.cells| > 0 && !chosen ==> r == Cancelled
      ensures |table.cells| > 0 && chosen ==>
        r == Written([table.headers] + VisibleRows(table.cells, table.hidden, |table.cells|))
    {
      if |table.cells| == 0 {
        return NoDataToExport;
      }
      r := table.ExportTable(chosen);
    }
  }

  /** After clearing, when the table holds exactly the kept records, every
      row is shown and an export writes every row. */
  lemma ClearedTableExportsAll(cells: seq<seq<Option<string>>>, hidden: seq<bool>, rows: seq<Record>)
    requires |cells| == |hidden| == |rows|
    ensures var cleared := Flagged(hidden, rows, r => true, |rows|);
      && (forall k :: 0 <= k < |cleared| ==> !cleared[k])
      && VisibleRows(cells, cleared, |cells|) == seq(|cells|, k requires 0 <= k < |cells| => RowText(cells[k]))
  {
    var cleared := Flagged(hidden, rows, r => true, |rows|);
    VisibleRowsFacts(cells, cleared, |cells|);
  }
}
