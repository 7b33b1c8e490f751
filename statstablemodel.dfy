/** libpepeye/statstablemodel.py, class StatsTableModel: the table adapter
    between a pstats statistics object and a table view. It keeps a master list
    of rows and a visible list, which every change of the sort column, the sort
    order or the filter text rebuilds by filtering the master list and sorting
    the result in place. */
module TableModel {
  import opened PyBase
  import opened PyStr
  import opened PyOrder
  import opened ListSort
  import opened StatRows
  import opened Utils

  const COL_PATH_LINE := 0
  const COL_FILE_LINE := 1
  const COL_FUNCTION := 2
  const COL_NUM_CALLS := 3
  const COL_TIME := 4
  const COL_TIME_PER_CALL := 5
  const COL_NUM_PRIM_CALLS := 6
  const COL_CUM_TIME := 7
  const COL_CUM_TIME_PER_CALL := 8

  /** The column headers, indexed by the COL_* constants. */
  const HEADER_LABELS: seq<string> := [
    "path:line", "file:line", "function", "calls", "time", "time per call",
    "primitive calls", "\U{03A3} time", "\U{03A3} time per call"
  ]

  /** The header tool tips, indexed by the COL_* constants. */
  const TOOL_TIPS: seq<string> := [
    "Path to file plus line number",
    "Base file name plus line number",
    "Function name",
    "Number of calls of this function",
    "The total time spent in the given function (excluding time made in calls to sub-functions)",
    "Time divided by the number of calls",
    "Number of non-recursive calls of this function.",
    "The cumulative time spent in this and all subfunctions (from invocation till exit). This figure is accurate even for recursive functions.",
    "Cumulative (\U{03A3}) time divided by the number of primitive calls"
  ]

  /** The number of columns, _nCols. */
  const N_COLS := |HEADER_LABELS|

  /** The class name setStats accepts. */
  const STATS_CLASS := "pstats.Stats"

  /** Qt's alignment flags. */
  const ALIGN_LEFT: bv32 := 0x1
  const ALIGN_RIGHT: bv32 := 0x2
  const ALIGN_VCENTER: bv32 := 0x80

  /** Qt's sort orders; bool(order) is false for ascending. */
  datatype SortOrder = AscendingOrder | DescendingOrder

  /** The `reverse` argument that `order` gives list.sort. */
  predicate Reversed(order: SortOrder) {
    order == DescendingOrder
  }

  datatype Orientation = Horizontal | Vertical

  /** The item data roles the model answers; every other role is OtherRole. */
  datatype ItemRole = DisplayRole | ToolTipRole | TextAlignmentRole | OtherRole

  /** A QModelIndex: invalid, or a (row, column) position. */
  datatype ModelIndex = InvalidIndex | Index(row: int, column: int)

  /** What `data` returns for a cell: a text, a number formatted with a fixed
      count of decimals (the formatting itself is not modelled), or alignment
      flags. */
  datatype CellValue = Text(s: string) | Fixed(value: real, decimals: nat) | Alignment(flags: bv32)

  /** One item of statsObject.stats.items(). */
  datatype StatEntry = StatEntry(key: StatsKey, value: StatsValue)

  /** A statistics object as setStats receives it: None, or an object whose
      attribute data is its list of entries. */
  type StatsObject = PyObject<seq<StatEntry>>

  /** Python's `xs[i]` on a list of length `n`: the position it selects, where a
      negative index counts from the end, or None where it raises IndexError. */
  function PyIndex(n: nat, i: int): (r: Option<nat>)
    ensures r.Some? <==> -(n as int) <= i < n
    ensures r.Some? ==> r.value < n && r.value == if i < 0 then n + i else i
  {
    if 0 <= i < n then Some(i) else if -(n as int) <= i < 0 then Some(i + n) else None
  }

  /** SORT_KEY_METHODS[col] for a column in [0, 9). */
  function ColumnKey(col: nat): StatRow -> Key
    requires col < 9
  {
    (r: StatRow) => KeyFor(col, r)
  }

  /** The filter condition: the lower-cased filter text occurs in the row's
      lower-cased path or function name. */
  predicate Matches(r: StatRow, text: string) {
    Contains(r.lcFilePath, text) || Contains(r.lcFunctionName, text)
  }

  /** The list comprehension that keeps the rows matching `text`, in order. */
  function MatchingRows(rows: seq<StatRow>, text: string): (r: seq<StatRow>)
    ensures multiset(r) <= multiset(rows)
  {
    if rows == [] then
      []
    else
      assert rows == [rows[0]] + rows[1..];
      (if Matches(rows[0], text) then [rows[0]] else []) + MatchingRows(rows[1..], text)
  }

  /** The filter keeps every occurrence of a matching row and drops every
      other row. */
  lemma {:induction false} MatchingRowsCount(rows: seq<StatRow>, text: string, x: StatRow)
    ensures multiset(MatchingRows(rows, text))[x] == if Matches(x, text) then multiset(rows)[x] else 0
  {
    if rows != [] {
      assert rows == [rows[0]] + rows[1..];
      MatchingRowsCount(rows[1..], text, x);
    }
  }

  /** Every row the filter keeps matches. */
  lemma MatchingRowsMatch(rows: seq<StatRow>, text: string, x: StatRow)
    requires x in MatchingRows(rows, text)
    ensures Matches(x, text) && x in rows
  {
    MatchingRowsCount(rows, text, x);
    assert x in multiset(MatchingRows(rows, text));
  }

  /** Every row matches the empty text, so filtering by it keeps every row. */
  lemma {:induction false} MatchingEmpty(rows: seq<StatRow>)
    ensures MatchingRows(rows, "") == rows
  {
    if rows != [] {
      ContainsEmpty(rows[0].lcFilePath);
      MatchingEmpty(rows[1..]);
    }
  }

  /** The list _sortAndFilter sorts: the master list itself when the filter
      text is empty, else the master rows matching the lower-cased text. */
  function VisibleRows(master: seq<StatRow>, filterText: string): seq<StatRow> {
    if filterText == [] then master else MatchingRows(master, Lower(filterText))
  }

  /** The rows a non-empty filter text keeps are exactly the master rows
      matching its lower-cased form; the empty text keeps every master row. */
  lemma VisibleRowsCount(master: seq<StatRow>, filterText: string, x: StatRow)
    ensures multiset(VisibleRows(master, filterText))[x] ==
            if filterText == [] || Matches(x, Lower(filterText)) then multiset(master)[x] else 0
    ensures filterText == [] ==> VisibleRows(master, filterText) == MatchingRows(master, Lower(filterText))
  {
    MatchingRowsCount(master, Lower(filterText), x);
    if filterText == [] {
      MatchingEmpty(master);
    }
  }

  /** No row occurs twice in the list. */
  ghost predicate NoDuplicates(s: seq<StatRow>) {
    forall x | x in s :: multiset(s)[x] == 1
  }

  /** Appending a row the list does not hold keeps it free of duplicates. */
  lemma AppendNew(s: seq<StatRow>, x: StatRow)
    requires NoDuplicates(s) && x !in s
    ensures NoDuplicates(s + [x])
  {
    forall y | y in s + [x]
      ensures multiset(s + [x])[y] == 1
    {
      assert multiset(s + [x]) == multiset(s) + multiset{x};
    }
  }

  /** The outcome of _sortAndFilter and the master and visible lists it leaves. */
  datatype Rebuilt = Rebuilt(outcome: Outcome<()>, master: seq<StatRow>, visible: seq<StatRow>)

  /** _sortAndFilter on the master list `master` with the given parameters. The
      visible list is filtered and then sorted in place by SORT_KEY_METHODS[col];
      when the filter text is empty it is the master list itself, so the master
      list is sorted too. A column outside [-9, 9) raises IndexError after the
      filtering and before the sort. */
  function Rebuild(master: seq<StatRow>, filterText: string, col: int, order: SortOrder): Rebuilt {
    var visible := VisibleRows(master, filterText);
    match PyIndex(9, col)
    case None => Rebuilt(Raise(IndexError), master, visible)
    case Some(c) =>
      var sorted := SortBy(visible, ColumnKey(c), Reversed(order));
      Rebuilt(Ok(()), if filterText == [] then sorted else master, sorted)
  }

  /** A rebuild keeps the master rows and shows exactly those of them that the
      filter keeps, whether or not the sort happens; with an empty filter text
      the two lists are the same list. */
  lemma RebuildRows(master: seq<StatRow>, filterText: string, col: int, order: SortOrder)
    ensures var rb := Rebuild(master, filterText, col, order);
      multiset(rb.master) == multiset(master) &&
      multiset(rb.visible) == multiset(VisibleRows(master, filterText)) &&
      (filterText == [] ==> rb.visible == rb.master)
  {
  }

  /** Without a filter every master row is visible, so the table has one row
      per master row. */
  lemma RebuildUnfilteredCount(master: seq<StatRow>, col: int, order: SortOrder)
    ensures |Rebuild(master, "", col, order).visible| == |master|
  {
    var rb := Rebuild(master, "", col, order);
    assert |multiset(rb.visible)| == |multiset(master)|;
  }

  /** Rebuilding an empty master list leaves both lists empty. */
  lemma RebuildEmpty(filterText: string, col: int, order: SortOrder)
    ensures Rebuild([], filterText, col, order) ==
            Rebuilt(if -9 <= col < 9 then Ok(()) else Raise(IndexError), [], [])
  {
    assert VisibleRows([], filterText) == [];
  }

  /** The sort fails exactly for a column outside [-9, 9), with IndexError, and
      then leaves the master list as it was and the filtered list unsorted. */
  lemma RebuildOutcome(master: seq<StatRow>, filterText: string, col: int, order: SortOrder)
    ensures var rb := Rebuild(master, filterText, col, order);
      (rb.outcome.Ok? <==> -9 <= col < 9) &&
      (rb.outcome.Raise? ==> rb.outcome.exc == IndexError && rb.master == master &&
                             rb.visible == VisibleRows(master, filterText))
  {
  }

  /** A successful rebuild leaves the visible list ordered by the key of the
      column the index selects (a negative index counts from the end),
      descending when the order is descending. */
  lemma RebuildOrdered(master: seq<StatRow>, filterText: string, col: int, order: SortOrder)
    requires -9 <= col < 9
    ensures Ordered(Rebuild(master, filterText, col, order).visible,
                    ColumnKey(PyIndex(9, col).value), Reversed(order))
  {
    SortByOrdered(VisibleRows(master, filterText), ColumnKey(PyIndex(9, col).value), Reversed(order));
  }

  /** The sort is stable: rows with equal keys keep the order the filtered
      master list gave them, in either sort order. */
  lemma RebuildStable(master: seq<StatRow>, filterText: string, col: int, order: SortOrder, k: Key)
    requires -9 <= col < 9
    ensures var key := ColumnKey(PyIndex(9, col).value);
      WithKey(Rebuild(master, filterText, col, order).visible, key, k) ==
      WithKey(VisibleRows(master, filterText), key, k)
  {
    SortByStable(VisibleRows(master, filterText), ColumnKey(PyIndex(9, col).value), Reversed(order), k);
  }

  /** Rebuilding again with the same parameters changes nothing: sort() with the
      current column and order leaves both lists as they are. */
  lemma RebuildIdempotent(master: seq<StatRow>, filterText: string, col: int, order: SortOrder)
    ensures var rb := Rebuild(master, filterText, col, order);
      Rebuild(rb.master, filterText, col, order) == rb
  {
    var rb := Rebuild(master, filterText, col, order);
    if -9 <= col < 9 {
      var c := PyIndex(9, col).value;
      var visible := VisibleRows(master, filterText);
      SortByIdempotent(visible, ColumnKey(c), Reversed(order));
    }
  }

  /** A numeric column shows its values ascending, or descending for the
      descending order; rows with equal values are ordered by (lower-cased
      path, line, lower-cased function name), reversed too when descending. */
  lemma NumericColumnOrder(master: seq<StatRow>, filterText: string, col: int, order: SortOrder, i: int, j: int)
    requires -9 <= col < 9 && 3 <= PyIndex(9, col).value
    requires var vis := Rebuild(master, filterText, col, order).visible; 0 <= i < j < |vis|
    ensures var vis := Rebuild(master, filterText, col, order).visible;
      var c := PyIndex(9, col).value;
      var a, b := NumericValue(c, vis[i]), NumericValue(c, vis[j]);
      if order == AscendingOrder then
        a <= b && (a == b ==> !KeyLess(KeyPathAndLine(vis[j]), KeyPathAndLine(vis[i])))
      else
        a >= b && (a == b ==> !KeyLess(KeyPathAndLine(vis[i]), KeyPathAndLine(vis[j])))
  {
    var vis := Rebuild(master, filterText, col, order).visible;
    var c := PyIndex(9, col).value;
    RebuildOrdered(master, filterText, col, order);
    assert !Before(vis[j], vis[i], ColumnKey(c), Reversed(order));
    NumericOrder(c, vis[i], vis[j]);
    NumericOrder(c, vis[j], vis[i]);
  }

  /** The table model. The master list _orgRows holds one row per entry of the
      loaded statistics; _statRows is the visible list. */
  class StatsTableModel {
    var sortColumn: int
    var sortOrder: SortOrder
    var filterText: string
    var statsObject: StatsObject
    var orgRows: seq<StatRow>
    var statRows: seq<StatRow>

    /** The master list holds each row once, and the visible list holds exactly
        the master rows the filter keeps. */
    ghost predicate Valid()
      reads this`orgRows, this`statRows, this`filterText
    {
      NoDuplicates(orgRows) &&
      multiset(statRows) == multiset(VisibleRows(orgRows, filterText))
    }

    /** StatsTableModel(): no statistics, sorted ascending on the first column,
        no filter. */
    constructor ()
      ensures sortColumn == COL_PATH_LINE && sortOrder == AscendingOrder && filterText == ""
      ensures statsObject == PyNone && orgRows == [] && statRows == []
      ensures Valid()
    {
      sortColumn := COL_PATH_LINE;
      sortOrder := AscendingOrder;
      filterText := "";
      statsObject := PyNone;
      orgRows := [];
      statRows := [];
    }

    /** _sortAndFilter: rebuilds the visible list from the master list and the
        current parameters. */
    method SortAndFilter() returns (res: Outcome<()>)
      requires NoDuplicates(orgRows)
      modifies this
      ensures sortColumn == old(sortColumn) && sortOrder == old(sortOrder)
      ensures filterText == old(filterText) && statsObject == old(statsObject)
      ensures Rebuilt(res, orgRows, statRows) == Rebuild(old(orgRows), filterText, sortColumn, sortOrder)
      ensures multiset(orgRows) == multiset(old(orgRows))
      ensures Valid()
    {
      if filterText != [] {
        var text := Lower(filterText);
        statRows := MatchingRows(orgRows, text);
      } else {
        statRows := orgRows;
      }
      var col := PyIndex(9, sortColumn);
      if col.None? {
        return Raise(IndexError);
      }
      var sorted := SortBy(statRows, ColumnKey(col.value), Reversed(sortOrder));
      if filterText == [] {
        // the visible list is the master list, sorted in place
        orgRows := sorted;
      }
      statRows := sorted;
      return Ok(());
    }

    /** The rows for a list of entries, built in order; the first entry with a
        zero count raises ZeroDivisionError and no row is kept. */
    static method BuildRows(entries: seq<StatEntry>) returns (r: Outcome<seq<StatRow>>)
      ensures r.Ok? <==> forall i :: 0 <= i < |entries| ==> CountsNonZero(entries[i])
      ensures r.Raise? ==> r.exc == ZeroDivisionError
      ensures r.Ok? ==> RowsBuiltFrom(r.value, entries) && NoDuplicates(r.value)
      ensures r.Ok? ==> forall x :: x in r.value ==> fresh(x)
    {
      var rows: seq<StatRow> := [];
      var i := 0;
      while i < |entries|
        invariant 0 <= i <= |entries| && |rows| == i
        invariant forall k :: 0 <= k < i ==> rows[k].BuiltFrom(entries[k].key, entries[k].value)
        invariant NoDuplicates(rows)
        invariant forall x :: x in rows ==> fresh(x)
        invariant forall k :: 0 <= k < i ==> CountsNonZero(entries[k])
      {
        var row := NewStatRow(entries[i].key, entries[i].value);
        if row.Raise? {
          assert !CountsNonZero(entries[i]);
          return Raise(row.exc);
        }
        var x := row.value;
        assert x !in rows;
        AppendNew(rows, x);
        rows := rows + [x];
        i := i + 1;
      }
      return Ok(rows);
    }

    /** setStats: loads a statistics object, or clears the table for None. An
        object that is neither raises TypeError and changes nothing; a zero
        count raises ZeroDivisionError once the object is stored and before any
        row is replaced. */
    method SetStats(obj: StatsObject) returns (res: Outcome<()>, ghost built: seq<StatRow>)
      requires Valid()
      modifies this
      ensures sortColumn == old(sortColumn) && sortOrder == old(sortOrder) && filterText == old(filterText)
      ensures Valid()
      ensures !IsInstance(obj, STATS_CLASS) && !obj.PyNone? ==>
        res == Raise(TypeError) && statsObject == old(statsObject) &&
        orgRows == old(orgRows) && statRows == old(statRows)
      ensures obj.PyNone? ==>
        statsObject == PyNone && orgRows == [] && statRows == [] && (res.Ok? <==> -9 <= sortColumn < 9)
      ensures obj.Instance? && IsInstance(obj, STATS_CLASS) ==> statsObject == obj
      ensures obj.Instance? && IsInstance(obj, STATS_CLASS) && !AllCountsNonZero(obj.attrs) ==>
        res == Raise(ZeroDivisionError) && orgRows == old(orgRows) && statRows == old(statRows)
      ensures obj.Instance? && IsInstance(obj, STATS_CLASS) && AllCountsNonZero(obj.attrs) ==>
        RowsBuiltFrom(built, obj.attrs) && (forall x | x in built :: fresh(x)) &&
        Rebuilt(res, orgRows, statRows) == Rebuild(built, filterText, sortColumn, sortOrder)
    {
      built := [];
      var check := CheckClass(obj, STATS_CLASS, true);
      if check.Raise? {
        return Raise(check.exc), built;
      }
      if obj.PyNone? {
        res := Clear();
      } else {
        res, built := Load(obj);
      }
    }

    /** The None branch of setStats. */
    method Clear() returns (res: Outcome<()>)
      modifies this
      ensures sortColumn == old(sortColumn) && sortOrder == old(sortOrder) && filterText == old(filterText)
      ensures Valid()
      ensures statsObject == PyNone && orgRows == [] && statRows == [] && (res.Ok? <==> -9 <= sortColumn < 9)
    {
      statsObject := PyNone;
      orgRows := [];
      statRows := [];
      res := SortAndFilter();
      RebuildEmpty(filterText, sortColumn, sortOrder);
    }

    /** The branch of setStats for a statistics object. */
    method Load(obj: StatsObject) returns (res: Outcome<()>, ghost built: seq<StatRow>)
      requires obj.Instance? && Valid()
      modifies this
      ensures sortColumn == old(sortColumn) && sortOrder == old(sortOrder) && filterText == old(filterText)
      ensures Valid()
      ensures statsObject == obj
      ensures !AllCountsNonZero(obj.attrs) ==>
        res == Raise(ZeroDivisionError) && orgRows == old(orgRows) && statRows == old(statRows)
      ensures AllCountsNonZero(obj.attrs) ==>
        RowsBuiltFrom(built, obj.attrs) && (forall x | x in built :: fresh(x)) &&
        Rebuilt(res, orgRows, statRows) == Rebuild(built, filterText, sortColumn, sortOrder)
    {
      built := [];
      statsObject := obj;
      var rows := BuildRows(obj.attrs);
      if rows.Raise? {
        return Raise(rows.exc), built;
      }
      built := rows.value;
      orgRows := rows.value;
      statRows := orgRows;
      res := SortAndFilter();
    }

    /** rowCount: the number of visible rows, which is the number of master rows
        the filter keeps. */
    function RowCount(): (n: nat)
      requires Valid()
      reads this
      ensures n == |VisibleRows(orgRows, filterText)|
    {
      assert |multiset(statRows)| == |multiset(VisibleRows(orgRows, filterText))|;
      |statRows|
    }

    /** columnCount: always the nine columns. */
    function ColumnCount(): (n: nat)
      ensures n == |HEADER_LABELS| == |TOOL_TIPS| == 9
    {
      N_COLS
    }

    /** data: the cell value for a role, or None for an invalid index, a column
        outside [0, 9), a row outside [0, rowCount) and any role other than the
        display and alignment roles. */
    function Data(index: ModelIndex, role: ItemRole): (r: Option<CellValue>)
      reads this
      ensures r.Some? <==>
        index.Index? && 0 <= index.column < N_COLS && 0 <= index.row < |statRows| &&
        (role == DisplayRole || role == TextAlignmentRole)
      ensures r.Some? && role == TextAlignmentRole ==>
        r.value == Alignment(ColumnAlignment(index.column))
      ensures r.Some? && role == DisplayRole ==>
        r.value == DisplayValue(statRows[index.row], index.column)
    {
      if !index.Index? then None
      else if !(0 <= index.column < N_COLS) then None
      else if !(0 <= index.row < |statRows|) then None
      else if role == TextAlignmentRole then Some(Alignment(ColumnAlignment(index.column)))
      else if role == DisplayRole then Some(DisplayValue(statRows[index.row], index.column))
      else None
    }

    /** headerData: the label of a horizontal section (with Python's list
        indexing, so -1 is the last column and anything outside [-9, 9) raises
        IndexError), its tool tip (the empty text for an unknown section), or
        the 1-based number of a vertical section; None for other roles. */
    function HeaderData(section: int, orientation: Orientation, role: ItemRole): (r: Outcome<Option<string>>)
      ensures orientation == Horizontal && role == DisplayRole ==>
        (r.Ok? <==> -9 <= section < 9) && (r.Raise? ==> r.exc == IndexError) &&
        (r.Ok? ==> r.value.Some? && r.value.value == HEADER_LABELS[if section < 0 then section + 9 else section])
      ensures orientation == Horizontal && role == ToolTipRole ==>
        r == Ok(Some(if 0 <= section < 9 then TOOL_TIPS[section] else ""))
      ensures orientation == Vertical && role == DisplayRole ==>
        r.Ok? && r.value.Some? && RowNumberText(r.value.value, section)
      ensures role != DisplayRole && (orientation == Vertical || role != ToolTipRole) ==> r == Ok(None)
    {
      if orientation == Horizontal then
        if role == DisplayRole then
          match PyIndex(N_COLS, section)
          case None => Raise(IndexError)
          case Some(i) => Ok(Some(HEADER_LABELS[i]))
        else if role == ToolTipRole then
          Ok(Some(if 0 <= section < N_COLS then TOOL_TIPS[section] else ""))
        else
          Ok(None)
      else if role == DisplayRole then
        RowNumberRoundTrip(section);
        Ok(Some(IntToStr(section + 1)))
      else
        Ok(None)
    }

    /** sort: records the column and order and rebuilds the visible list. */
    method Sort(column: int, order: SortOrder) returns (res: Outcome<()>)
      requires Valid()
      modifies this
      ensures sortColumn == column && sortOrder == order
      ensures filterText == old(filterText) && statsObject == old(statsObject)
      ensures multiset(orgRows) == multiset(old(orgRows))
      ensures Rebuilt(res, orgRows, statRows) == Rebuild(old(orgRows), filterText, column, order)
      ensures Valid()
    {
      sortColumn := column;
      sortOrder := order;
      res := SortAndFilter();
    }

    /** filterRows: records the filter text and rebuilds the visible list. */
    method FilterRows(text: string) returns (res: Outcome<()>)
      requires Valid()
      modifies this
      ensures filterText == text
      ensures sortColumn == old(sortColumn) && sortOrder == old(sortOrder) && statsObject == old(statsObject)
      ensures multiset(orgRows) == multiset(old(orgRows))
      ensures Rebuilt(res, orgRows, statRows) == Rebuild(old(orgRows), text, sortColumn, sortOrder)
      ensures Valid()
    {
      filterText := text;
      res := SortAndFilter();
    }

    /** itemAtIndex: the visible row at the index's row, or None for an invalid
        index or a row outside [0, rowCount). */
    function ItemAtIndex(index: ModelIndex): (r: Option<StatRow>)
      reads this
      ensures r.Some? <==> index.Index? && 0 <= index.row < |statRows|
      ensures r.Some? ==> r.value == statRows[index.row]
    {
      if !index.Index? then None
      else if !(0 <= index.row < |statRows|) then None
      else Some(statRows[index.row])
    }

    /** findIndexForItem: a linear search for the row itself (rows compare by
        identity); the index of its first occurrence in column 0, or an
        invalid index when it is not visible or is None. */
    method FindIndexForItem(item: StatRow?) returns (index: ModelIndex)
      ensures index.Index? <==> item in statRows
      ensures item == null ==> index == InvalidIndex
      ensures index.Index? ==>
        index.column == 0 && 0 <= index.row < |statRows| &&
        statRows[index.row] == item && item !in statRows[..index.row]
      ensures index.Index? ==> item != null && ItemAtIndex(index) == Some(item)
    {
      var pos := 0;
      while pos < |statRows|
        invariant 0 <= pos <= |statRows|
        invariant item !in statRows[..pos]
      {
        if statRows[pos] == item {
          return Index(pos, 0);
        }
        pos := pos + 1;
      }
      assert statRows[..pos] == statRows;
      return InvalidIndex;
    }
  }

  /** `text` reads back, through int(), as the 1-based number of `section`. */
  predicate RowNumberText(text: string, section: int) {
    ParseInt(text) == Some(section + 1)
  }

  lemma RowNumberRoundTrip(section: int)
    ensures RowNumberText(IntToStr(section + 1), section)
  {
    IntToStrRoundTrip(section + 1);
  }

  /** Each row of `rows` is built from the entry at the same position. */
  ghost predicate RowsBuiltFrom(rows: seq<StatRow>, entries: seq<StatEntry>) {
    |rows| == |entries| &&
    forall i :: 0 <= i < |rows| ==> rows[i].BuiltFrom(entries[i].key, entries[i].value)
  }

  /** StatRow construction succeeds for the entry. */
  predicate CountsNonZero(e: StatEntry) {
    e.value.numCalls != 0 && e.value.primCalls != 0
  }

  predicate AllCountsNonZero(entries: seq<StatEntry>) {
    forall i :: 0 <= i < |entries| ==> CountsNonZero(entries[i])
  }

  /** The alignment of a column's cells: the three text columns are left
      aligned, the six numeric ones right aligned; all are centred vertically. */
  function ColumnAlignment(col: int): (flags: bv32)
    ensures flags & ALIGN_VCENTER == ALIGN_VCENTER
    ensures col <= COL_FUNCTION <==> flags & ALIGN_LEFT == ALIGN_LEFT
    ensures col <= COL_FUNCTION <==> flags & ALIGN_RIGHT == 0
  {
    if col <= COL_FUNCTION then ALIGN_LEFT | ALIGN_VCENTER else ALIGN_RIGHT | ALIGN_VCENTER
  }

  /** The display text of a row's cell in a column in [0, 9). */
  function DisplayValue(r: StatRow, col: int): CellValue
    requires 0 <= col < 9
  {
    match col
    case 0 => Text(r.filePath + ":" + IntToStr(r.lineNr))
    case 1 => Text(r.fileName + ":" + IntToStr(r.lineNr))
    case 2 => Text(r.functionName)
    case 3 => Text(IntToStr(r.numCalls))
    case 4 => Fixed(r.time, 3)
    case 5 => Fixed(r.timePerCall, 7)
    case 6 => Text(IntToStr(r.numPrimCalls))
    case 7 => Fixed(r.cumTime, 3)
    case 8 => Fixed(r.cumTimePerCall, 7)
  }

  /** "<p>:<n>" splits back at its last ':' into `p` and a text that parses to `n`. */
  lemma LocationParts(p: string, n: int)
    ensures var t := p + ":" + IntToStr(n);
      |p| < |t| && t[..|p|] == p && t[|p|] == ':' &&
      ':' !in t[|p| + 1..] && ParseInt(t[|p| + 1..]) == Some(n)
  {
    var d := IntToStr(n);
    var t := p + ":" + d;
    assert t[|p| + 1..] == d;
    IntToStrChars(n, ':');
    IntToStrRoundTrip(n);
  }

  /** The "path:line" and "file:line" cells split back at their last ':' into
      the path (or file name) and the line number. */
  lemma LocationTextRoundTrip(r: StatRow, col: int)
    requires col == COL_PATH_LINE || col == COL_FILE_LINE
    ensures var t := DisplayValue(r, col).s;
      var p := if col == COL_PATH_LINE then r.filePath else r.fileName;
      |p| < |t| && t[..|p|] == p && t[|p|] == ':' &&
      ':' !in t[|p| + 1..] && ParseInt(t[|p| + 1..]) == Some(r.lineNr)
  {
    if col == COL_PATH_LINE {
      LocationParts(r.filePath, r.lineNr);
    } else {
      LocationParts(r.fileName, r.lineNr);
    }
  }

  /** The two count cells parse back to the counts. */
  lemma CountTextRoundTrip(r: StatRow, col: int)
    requires col == COL_NUM_CALLS || col == COL_NUM_PRIM_CALLS
    ensures ParseInt(DisplayValue(r, col).s) ==
            Some(if col == COL_NUM_CALLS then r.numCalls else r.numPrimCalls)
  {
    if col == COL_NUM_CALLS {
      IntToStrRoundTrip(r.numCalls);
    } else {
      IntToStrRoundTrip(r.numPrimCalls);
    }
  }
}
