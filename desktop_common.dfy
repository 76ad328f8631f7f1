/** What the two Qt desktop clients (`desktop/app.py`, `desktop/app_working.py`)
    share: the data table widget as far as the clients use it (header labels,
    cell items, hidden rows), the search over it, the CSV export of its
    visible rows, and the `is_processing` guard on the network requests. */
module Desktop {
  import opened Wrappers
  import opened Text

  /** A row as the server sends it: column name and cell text, in key order. */
  type Record = seq<(string, string)>

  /** The column names of a record, in key order. */
  function Keys(r: Record): (keys: seq<string>)
    ensures |keys| == |r| && forall j :: 0 <= j < |r| ==> keys[j] == r[j].0
  {
    seq(|r|, j requires 0 <= j < |r| => r[j].0)
  }

  /** The grid after `setColumnCount(cols)` and `setRowCount(rows)`: cells
      inside both the old and the new bounds keep their items, new cells are empty. */
  function Resized(cells: seq<seq<Option<string>>>, rows: nat, cols: nat): (r: seq<seq<Option<string>>>)
    ensures |r| == rows && forall i :: 0 <= i < rows ==> |r[i]| == cols
    ensures forall i, j :: 0 <= i < rows && 0 <= j < cols ==>
      r[i][j] == if i < |cells| && j < |cells[i]| then cells[i][j] else None
  {
    seq(rows, i requires 0 <= i < rows =>
      seq(cols, j requires 0 <= j < cols => if i < |cells| && j < |cells[i]| then cells[i][j] else None))
  }

  /** The hidden flags after `setRowCount(rows)`: surviving rows keep theirs, new rows are shown. */
  function ResizedFlags(hidden: seq<bool>, rows: nat): (r: seq<bool>)
    ensures |r| == rows && forall i :: 0 <= i < rows ==> r[i] == (i < |hidden| && hidden[i])
  {
    seq(rows, i requires 0 <= i < rows => i < |hidden| && hidden[i])
  }

  /** Cell `(i, j)` after `setItem` for every key of every record: the
      record's `j`-th value when it has one, the resized grid's item otherwise. */
  function FillCell(base: seq<seq<Option<string>>>, rows: seq<Record>, i: nat, j: nat): Option<string>
    requires i < |base| && i < |rows| && j < |base[i]|
  {
    if j < |rows[i]| then Some(rows[i][j].1) else base[i][j]
  }

  function Filled(base: seq<seq<Option<string>>>, rows: seq<Record>): (r: seq<seq<Option<string>>>)
    requires |base| == |rows|
    ensures |r| == |base| && forall i :: 0 <= i < |base| ==> |r[i]| == |base[i]|
    ensures forall i, j :: 0 <= i < |base| && 0 <= j < |base[i]| ==> r[i][j] == FillCell(base, rows, i, j)
  {
    seq(|base|, i requires 0 <= i < |base| =>
      seq(|base[i]|, j requires 0 <= j < |base[i]| => FillCell(base, rows, i, j)))
  }

  /** The text a cell is exported and searched by; a missing item is `''`. */
  function CellText(c: Option<string>): string
  {
    match c
    case None => ""
    case Some(t) => t
  }

  function RowText(row: seq<Option<string>>): (r: seq<string>)
    ensures |r| == |row| && forall c :: 0 <= c < |row| ==> r[c] == CellText(row[c])
  {
    seq(|row|, c requires 0 <= c < |row| => CellText(row[c]))
  }

  /** Column `c` of the row has an item whose lower-cased text contains `term`. */
  predicate Hit(row: seq<Option<string>>, c: nat, term: string)
    requires c < |row|
  {
    row[c].Some? && Contains(Lower(row[c].value), term)
  }

  predicate RowMatches(row: seq<Option<string>>, term: string)
  {
    exists c :: 0 <= c < |row| && Hit(row, c, term)
  }

  /** An empty search matches exactly the rows that hold at least one item. */
  lemma EmptySearchMatchesItems(row: seq<Option<string>>)
    ensures RowMatches(row, Lower("")) <==> exists c :: 0 <= c < |row| && row[c].Some?
  {
    assert Lower("") == "";
    forall c | 0 <= c < |row| && row[c].Some? ensures Hit(row, c, "") {
      EmptyContained(Lower(row[c].value));
    }
  }

  /** The exported lines for the first `n` rows: the texts of those not hidden, in table order. */
  function VisibleRows(cells: seq<seq<Option<string>>>, hidden: seq<bool>, n: nat): seq<seq<string>>
    requires n <= |cells| == |hidden|
  {
    if n == 0 then []
    else VisibleRows(cells, hidden, n - 1) + if hidden[n - 1] then [] else [RowText(cells[n - 1])]
  }

  /** The number of rows among the first `n` that are shown. */
  function ShownCount(hidden: seq<bool>, n: nat): nat
    requires n <= |hidden|
  {
    if n == 0 then 0 else ShownCount(hidden, n - 1) + if hidden[n - 1] then 0 else 1
  }

  /** One exported line per shown row, each as wide as its row; with nothing
      hidden every row is exported, in order. */
  lemma {:induction false} VisibleRowsFacts(cells: seq<seq<Option<string>>>, hidden: seq<bool>, n: nat)
    requires n <= |cells| == |hidden|
    ensures |VisibleRows(cells, hidden, n)| == ShownCount(hidden, n)
    ensures forall k :: 0 <= k < |VisibleRows(cells, hidden, n)| ==>
      exists r :: 0 <= r < n && !hidden[r] && VisibleRows(cells, hidden, n)[k] == RowText(cells[r])
    ensures (forall r :: 0 <= r < n ==> !hidden[r]) ==>
      VisibleRows(cells, hidden, n) == seq(n, r requires 0 <= r < n => RowText(cells[r]))
  {
    if n > 0 {
      VisibleRowsFacts(cells, hidden, n - 1);
      var prev := VisibleRows(cells, hidden, n - 1);
      var rows := VisibleRows(cells, hidden, n);
      forall k | 0 <= k < |rows|
        ensures exists r :: 0 <= r < n && !hidden[r] && rows[k] == RowText(cells[r])
      {
        if k < |prev| {
          assert rows[k] == prev[k];
        } else {
          assert rows[k] == RowText(cells[n - 1]);
        }
      }
    }
  }

  /** What an export produced: nothing to export, the file dialog cancelled, or the lines written. */
  datatype ExportOutcome = NoDataToExport | Cancelled | Written(lines: seq<seq<string>>)

  /** `QTableWidget` as the clients use it: header labels, a grid of optional
      items (`None` where no item was set) and a hidden flag per row. */
  class Table {
    var headers: seq<string>
    var cells: seq<seq<Option<string>>>
    var hidden: seq<bool>

    ghost predicate Valid()
      reads this
    {
      |hidden| == |cells| && forall i :: 0 <= i < |cells| ==> |cells[i]| == |headers|
    }

    constructor ()
      ensures Valid() && headers == [] && cells == [] && hidden == []
    {
      headers, cells, hidden := [], [], [];
    }

    /** `setRowHidden`: a row past the end is ignored. */
    method SetRowHidden(row: nat, h: bool)
      requires Valid()
      modifies this
      ensures Valid() && headers == old(headers) && cells == old(cells)
      ensures hidden == if row < |old(hidden)| then old(hidden)[row := h] else old(hidden)
    {
      if row < |hidden| {
        hidden := hidden[row := h];
      }
    }

    /** `populate_table`: an empty list empties the table; otherwise the
        first record's keys become the columns and each record's values are
        set into its row, values past the last column being dropped. */
    method Populate(rows: seq<Record>)
      requires Valid()
      modifies this
      ensures Valid()
      ensures rows == [] ==> headers == [] && cells == [] && hidden == []
      ensures rows != [] ==>
        && headers == Keys(rows[0])
        && hidden == ResizedFlags(old(hidden), |rows|)
        && cells == Filled(Resized(old(cells), |rows|, |rows[0]|), rows)
    {
      if rows == [] {
        headers, cells, hidden := [], [], [];
        return;
      }
      headers := Keys(rows[0]);
      var cols := |headers|;
      cells := Resized(cells, |rows|, cols);
      hidden := ResizedFlags(hidden, |rows|);
      ghost var base := cells;
      for i := 0 to |rows|
        invariant |cells| == |rows| && |hidden| == |rows| && headers == Keys(rows[0])
        invariant forall r :: 0 <= r < |rows| ==> |cells[r]| == cols
        invariant hidden == ResizedFlags(old(hidden), |rows|)
        invariant forall r, c :: 0 <= r < |rows| && 0 <= c < cols ==>
          cells[r][c] == if r < i then FillCell(base, rows, r, c) else base[r][c]
      {
        var j := 0;
        while j < |rows[i]|
          invariant 0 <= j <= |rows[i]|
          invariant |cells| == |rows| && |hidden| == |rows| && headers == Keys(rows[0])
          invariant forall r :: 0 <= r < |rows| ==> |cells[r]| == cols
          invariant hidden == ResizedFlags(old(hidden), |rows|)
          invariant forall r, c :: 0 <= r < |rows| && 0 <= c < cols ==>
            cells[r][c] == if r < i || (r == i && c < j) then FillCell(base, rows, r, c) else base[r][c]
        {
          if j < cols {
            cells := cells[i := cells[i][j := Some(rows[i][j].1)]];
          }
          j := j + 1;
        }
      }
      assert forall r :: 0 <= r < |rows| ==> cells[r] == Filled(base, rows)[r];
    }

    /** `search_table` in `desktop/app.py`: each row is hidden exactly when no
        item's lower-cased text contains the lower-cased search text. */
    method Search(searchText: string)
      requires Valid()
      modifies this
      ensures Valid() && headers == old(headers) && cells == old(cells) && |hidden| == |cells|
      ensures forall r :: 0 <= r < |cells| ==> (hidden[r] <==> !RowMatches(cells[r], Lower(searchText)))
    {
      var term := Lower(searchText);
      for r := 0 to |cells|
        invariant Valid() && headers == old(headers) && cells == old(cells)
        invariant forall k :: 0 <= k < r ==> (hidden[k] <==> !RowMatches(cells[k], term))
      {
        var found := false;
        var c := 0;
        while c < |headers| && !found
          invariant 0 <= c <= |headers|
          invariant found ==> RowMatches(cells[r], term)
          invariant !found ==> forall k :: 0 <= k < c ==> !Hit(cells[r], k, term)
        {
          if cells[r][c].Some? && Contains(Lower(cells[r][c].value), term) {
            assert Hit(cells[r], c, term);
            found := true;
          }
          c := c + 1;
        }
        SetRowHidden(r, !found);
      }
    }

    /** The lines `export_table` writes: the header row, then each shown row
        in table order, missing items as `''`. */
    method Export() returns (lines: seq<seq<string>>)
      requires Valid()
      ensures lines == [headers] + VisibleRows(cells, hidden, |cells|)
    {
      lines := [headers];
      for row := 0 to |cells|
        invariant lines == [headers] + VisibleRows(cells, hidden, row)
      {
        if !hidden[row] {
          lines := lines + [RowText(cells[row])];
        }
      }
    }

    /** `export_table` in `desktop/app.py`: once a file name is chosen, the
        header row and the shown rows are written; otherwise nothing is. */
    method ExportTable(chosen: bool) returns (r: ExportOutcome)
      requires Valid()
      ensures !chosen ==> r == Cancelled
      ensures chosen ==> r == Written([headers] + VisibleRows(cells, hidden, |cells|))
    {
      if !chosen {
        return Cancelled;
      }
      var lines := Export();
      r := Written(lines);
    }
  }

  /** How `upload` answers. */
  datatype UploadStart = NoFileSelected | Busy | Started

  /** The `is_processing` flag that keeps a second request from starting
      while one is under way. */
  class Processing {
    var busy: bool

    constructor ()
      ensures !busy
    {
      busy := false;
    }

    /** `upload`: refuses without a file, then while busy; otherwise starts. */
    method Upload(fileSelected: bool) returns (r: UploadStart)
      modifies this
      ensures r == if !fileSelected then NoFileSelected else if old(busy) then Busy else Started
      ensures busy == (old(busy) || r == Started)
    {
      if !fileSelected {
        return NoFileSelected;
      }
      if busy {
        return Busy;
      }
      busy := true;
      r := Started;
    }

    /** `load_history`: does nothing while busy; otherwise starts. */
    method LoadHistory() returns (started: bool)
      modifies this
      ensures started == !old(busy) && busy
    {
      if busy {
        return false;
      }
      busy := true;
      started := true;
    }

    /** `on_upload_success`: clears the flag, and when the answer carries no
        error goes on to `load_history`, which sets it again. */
    method OnUploadSuccess(failed: bool) returns (historyStarted: bool)
      modifies this
      ensures historyStarted == !failed && busy == !failed
    {
      busy := false;
      historyStarted := false;
      if !failed {
        historyStarted := LoadHistory();
      }
    }

    /** `on_upload_error`, `on_history_loaded` and `on_history_error` all clear the flag. */
    method Finish()
      modifies this
      ensures !busy
    {
      busy := false;
    }
  }
}
