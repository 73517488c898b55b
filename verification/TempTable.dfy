/** Temp tables: rows added to slotted pages come back in order (internal/gomdb/worktable.go, data.go). */
module TempTable {
  import opened RowFormat
  import opened Wrappers
  import opened Bytes
  import RowPack

  // --- one slotted page ---

  /** Where row `r` starts: rows fill the page from its end. */
  function StartOf(rows: seq<seq<byte>>, r: int): int
    requires -1 <= r < |rows|
    decreases r + 1
  {
    if r == -1 then PG_SIZE else StartOf(rows, r - 1) - |rows[r]|
  }

  /** A packed row is at least this long. */
  const MIN_ROW: nat := 6

  /** The offset table lists the rows, each row's bytes are in its slot, and no slot reaches the table. */
  predicate PageHolds(page: seq<byte>, rows: seq<seq<byte>>) {
    && |page| == PG_SIZE
    && Int16At(page, ROW_COUNT) == |rows|
    && (forall r :: 0 <= r < |rows| ==> |rows[r]| >= MIN_ROW)
    && ROW_COUNT + 2 + 2 * |rows| <= StartOf(rows, |rows| - 1)
    && forall r :: 0 <= r < |rows| ==> SlotHolds(page, rows, r)
  }

  predicate SlotHolds(page: seq<byte>, rows: seq<seq<byte>>, r: nat)
    requires r < |rows|
  {
    var start := StartOf(rows, r);
    && Int16At(page, ROW_COUNT + 2 + r * 2) == start
    && 0 <= start <= start + |rows[r]| <= |page|
    && page[start..start + |rows[r]|] == rows[r]
  }

  lemma {:induction false} StartsFall(rows: seq<seq<byte>>, i: int, j: int)
    requires -1 <= i <= j < |rows|
    requires forall r :: 0 <= r < |rows| ==> |rows[r]| >= MIN_ROW
    ensures StartOf(rows, j) <= StartOf(rows, i) - MIN_ROW * (j - i)
    decreases j - i
  {
    if i < j { StartsFall(rows, i, j - 1); }
  }

  /** Every row is found where it was put, undeleted; its number is in the range the reader accepts. */
  lemma RowFound(page: seq<byte>, rows: seq<seq<byte>>, r: nat)
    requires PageHolds(page, rows) && r < |rows|
    ensures FindRow(page, r) == Some(Place(StartOf(rows, r), |rows[r]|))
    ensures !Deleted(StartOf(rows, r)) && Masked(StartOf(rows, r)) == StartOf(rows, r)
    ensures 0 <= StartOf(rows, r) && StartOf(rows, r) + |rows[r]| <= PG_SIZE
    ensures page[StartOf(rows, r)..StartOf(rows, r) + |rows[r]|] == rows[r]
  {
    hide Int16At, Masked, Deleted, SlotHolds;
    SlotStart(page, rows, r);
    if r > 0 { SlotStart(page, rows, r - 1); }
  }

  lemma StartBounds(rows: seq<seq<byte>>, r: nat)
    requires r < |rows| && forall k :: 0 <= k < |rows| ==> |rows[k]| >= MIN_ROW
    requires ROW_COUNT + 2 + 2 * |rows| <= StartOf(rows, |rows| - 1)
    ensures r <= 1000 && ROW_COUNT <= StartOf(rows, r) && StartOf(rows, r) + |rows[r]| <= PG_SIZE
  {
    StartsFall(rows, -1, |rows| - 1);
    StartsFall(rows, r, |rows| - 1);
    StartsFall(rows, -1, r - 1);
  }

  lemma PlainOffset(v: nat)
    requires v <= PG_SIZE
    ensures Masked(v) == v && !Deleted(v)
  {
  }

  lemma SlotStart(page: seq<byte>, rows: seq<seq<byte>>, r: nat)
    requires PageHolds(page, rows) && r < |rows|
    ensures var start := StartOf(rows, r);
            && r <= 1000 && 0 <= start && start + |rows[r]| <= PG_SIZE && |rows[r]| > 0
            && Int16At(page, ROW_COUNT + 2 + r * 2) == start && page[start..start + |rows[r]|] == rows[r]
            && Masked(start) == start && !Deleted(start)
  {
    hide Int16At, StartOf, Masked, Deleted;
    StartBounds(rows, r);
    PlainOffset(StartOf(rows, r));
    assert SlotHolds(page, rows, r);
  }

  lemma StartOfAppend(rows: seq<seq<byte>>, row: seq<byte>, r: int)
    requires -1 <= r < |rows|
    ensures StartOf(rows + [row], r) == StartOf(rows, r)
    decreases r + 1
  {
    if r >= 0 { StartOfAppend(rows, row, r - 1); }
  }

  lemma EmptyPage()
    ensures PageHolds(seq(PG_SIZE, _ => 0), [])
  {
  }

  /** Writing the count, the offset and the row keeps every earlier row. */
  lemma RowPlaced(page: seq<byte>, rows: seq<seq<byte>>, row: seq<byte>, next: seq<byte>, start: nat)
    requires PageHolds(page, rows) && |row| >= MIN_ROW && |next| == PG_SIZE
    requires start + |row| == StartOf(rows, |rows| - 1) <= PG_SIZE && ROW_COUNT + 2 + (|rows| + 1) * 2 <= start
    requires Int16At(next, ROW_COUNT) == |rows| + 1 && Int16At(next, ROW_COUNT + 2 + |rows| * 2) == start
    requires next[start..start + |row|] == row
    requires forall k :: ROW_COUNT + 2 <= k < ROW_COUNT + 2 + |rows| * 2 ==> next[k] == page[k]
    requires next[start + |row|..] == page[start + |row|..]
    ensures PageHolds(next, rows + [row])
  {
    hide Int16At, StartOf, SlotHolds;
    var all := rows + [row];
    LastSlot(rows, row);
    forall r | 0 <= r < |all| ensures SlotHolds(next, all, r) {
      if r < |rows| {
        EarlierSlot(page, rows, row, next, start, r);
      } else {
        NewSlot(next, all, start);
      }
    }
  }

  lemma LastSlot(rows: seq<seq<byte>>, row: seq<byte>)
    ensures StartOf(rows + [row], |rows|) == StartOf(rows, |rows| - 1) - |row|
  {
    StartOfAppend(rows, row, |rows| - 1);
  }

  lemma NewSlot(next: seq<byte>, all: seq<seq<byte>>, start: nat)
    requires all != [] && StartOf(all, |all| - 1) == start && start + |all[|all| - 1]| <= |next|
    requires Int16At(next, ROW_COUNT + 2 + (|all| - 1) * 2) == start
    requires next[start..start + |all[|all| - 1]|] == all[|all| - 1]
    ensures SlotHolds(next, all, |all| - 1)
  {
  }

  lemma EarlierSlot(page: seq<byte>, rows: seq<seq<byte>>, row: seq<byte>, next: seq<byte>, start: nat, r: nat)
    requires PageHolds(page, rows) && |next| == PG_SIZE && r < |rows|
    requires start + |row| == StartOf(rows, |rows| - 1) <= PG_SIZE
    requires forall k :: ROW_COUNT + 2 <= k < ROW_COUNT + 2 + |rows| * 2 ==> next[k] == page[k]
    requires next[start + |row|..] == page[start + |row|..]
    ensures SlotHolds(next, rows + [row], r)
  {
    hide Int16At, StartOf, Masked, Deleted;
    StartOfAppend(rows, row, r);
    SlotStart(page, rows, r);
    StartsFall(rows, r, |rows| - 1);
    SameInt16(page, next, ROW_COUNT + 2 + r * 2);
    var a, from := StartOf(rows, r), start + |row|;
    assert next[from..][a - from..a - from + |rows[r]|] == next[a..a + |rows[r]|];
    assert page[from..][a - from..a - from + |rows[r]|] == page[a..a + |rows[r]|];
  }

  lemma SameInt16(a: seq<byte>, b: seq<byte>, off: nat)
    requires off + 1 < |a| == |b| && a[off] == b[off] && a[off + 1] == b[off + 1]
    ensures Int16At(a, off) == Int16At(b, off)
  {
    hide Signed16;
  }

  // --- the table ---

  function Flatten(rows: seq<seq<seq<byte>>>): seq<seq<byte>> {
    if rows == [] then [] else Flatten(rows[..|rows| - 1]) + rows[|rows| - 1]
  }

  class Table {
    var cols: seq<Column>
    var numVarCols: nat
    var pages: seq<array<byte>>
    ghost var layout: seq<RowPack.TempCol>
    ghost var rows: seq<seq<seq<byte>>>

    constructor ()
      ensures Valid() && cols == [] && layout == [] && rows == [] && pages == []
    {
      cols, numVarCols, pages := [], 0, [];
      layout, rows := [], [];
    }

    ghost predicate Valid()
      reads this, pages
    {
      && cols == RowPack.Columns(layout) && numVarCols == RowPack.VarBefore(layout, |layout|)
      && |rows| == |pages|
      && (forall k :: 0 <= k < |pages| ==> PageHolds(pages[k][..], rows[k]) && rows[k] != [])
      && (forall j, k :: 0 <= j < k < |pages| ==> pages[j] != pages[k])
    }

    /** All rows, in the order they were added. */
    ghost function Contents(): seq<seq<byte>>
      reads this
    {
      Flatten(rows)
    }

    method AddColumn(isFixed: bool, size: nat, fixedOffset: nat)
      requires Valid()
      modifies this`cols, this`numVarCols, this`layout
      ensures Valid() && layout == old(layout) + [RowPack.TempCol(isFixed, size, fixedOffset)]
    {
      hide RowPack.BitOf, RowPack.VarBefore, PageHolds;
      var colNum := |cols|;
      ColumnAdded(layout, RowPack.TempCol(isFixed, size, fixedOffset));
      cols := cols + [Column(isFixed, colNum / 8, RowPack.BitOf(colNum), fixedOffset, size, numVarCols)];
      if !isFixed {
        numVarCols := numVarCols + 1;
      }
      layout := layout + [RowPack.TempCol(isFixed, size, fixedOffset)];
    }

    /** Appends a row to the last page, or to a new page when the offset table would run into it. */
    method AddRow(rowData: seq<byte>, rowSize: nat)
      requires Valid() && MIN_ROW <= rowSize <= |rowData| && rowSize <= PG_SIZE - (ROW_COUNT + 4)
      modifies this`pages, this`rows, pages
      ensures Valid() && Contents() == old(Contents()) + [rowData[..rowSize]]
      ensures old(pages) <= pages && forall k :: |old(pages)| <= k < |pages| ==> fresh(pages[k])
    {
      hide PageHolds, StartOf, RowPack.Columns, RowPack.VarBefore, Flatten;
      ghost var all := rows;
      if |pages| == 0 {
        var newPage := NewPage();
        pages := [newPage];
        all := [[]];
      }
      var n := |pages| - 1;
      var curPage := pages[n];
      var currentRows, dataStart := NextSlot(curPage[..], rowSize, all[n]);
      var headerNeeded := ROW_COUNT + 2 + (currentRows + 1) * 2;
      if dataStart < headerNeeded {
        curPage := NewPage();
        pages := pages + [curPage];
        all := all + [[]];
        n := n + 1;
        currentRows := 0;
        dataStart := PG_SIZE - rowSize;
        NoStart();
      }
      PutRow(curPage, currentRows, dataStart, rowData[..rowSize], all[n]);
      RowAppended(rows, all, rowData[..rowSize]);
      rows := all[n := all[n] + [rowData[..rowSize]]];
    }
  }

  /** Where the next row would start: below the last one, or at the end of an empty page. */
  method NextSlot(page: seq<byte>, rowSize: nat, ghost rows: seq<seq<byte>>) returns (currentRows: nat, dataStart: int)
    requires PageHolds(page, rows)
    ensures currentRows == |rows| && dataStart == StartOf(rows, |rows| - 1) - rowSize && StartOf(rows, |rows| - 1) <= PG_SIZE
  {
    hide PageHolds, StartOf, Int16At, Masked;
    LastStart(page, rows);
    currentRows := Int16At(page, ROW_COUNT);
    if currentRows == 0 {
      dataStart := PG_SIZE - rowSize;
    } else {
      dataStart := Masked(Int16At(page, ROW_COUNT + currentRows * 2)) - rowSize;
    }
  }

  method NewPage() returns (page: array<byte>)
    ensures fresh(page) && PageHolds(page[..], [])
  {
    page := new byte[PG_SIZE](_ => 0);
    EmptyPage();
    assert page[..] == seq(PG_SIZE, _ => 0);
  }

  /** A page after the three writes: row count, row offset, and the row's bytes over whatever is there. */
  function AfterPut(page: seq<byte>, currentRows: nat, dataStart: nat, row: seq<byte>): (next: seq<byte>)
    requires |page| == PG_SIZE && ROW_COUNT + 4 + currentRows * 2 <= PG_SIZE && dataStart + |row| <= PG_SIZE
    ensures |next| == PG_SIZE
  {
    var at := ROW_COUNT + 2 + currentRows * 2;
    var counted := page[ROW_COUNT := RowPack.Lo(currentRows + 1)][ROW_COUNT + 1 := RowPack.Hi(currentRows + 1)];
    var listed := counted[at := RowPack.Lo(dataStart)][at + 1 := RowPack.Hi(dataStart)];
    listed[..dataStart] + row + listed[dataStart + |row|..]
  }

  method WriteRow(page: array<byte>, currentRows: nat, dataStart: nat, row: seq<byte>)
    requires page.Length == PG_SIZE && ROW_COUNT + 4 + currentRows * 2 <= PG_SIZE && dataStart + |row| <= PG_SIZE
    modifies page
    ensures page[..] == AfterPut(old(page[..]), currentRows, dataStart, row)
  {
    hide RowPack.Lo, RowPack.Hi;
    page[ROW_COUNT], page[ROW_COUNT + 1] := RowPack.Lo(currentRows + 1), RowPack.Hi(currentRows + 1);
    var rowOffset := ROW_COUNT + 2 + currentRows * 2;
    page[rowOffset], page[rowOffset + 1] := RowPack.Lo(dataStart), RowPack.Hi(dataStart);
    forall k | 0 <= k < |row| {
      page[dataStart + k] := row[k];
    }
  }

  /** Adds a row that stays clear of the offset table. */
  method PutRow(page: array<byte>, currentRows: nat, dataStart: nat, row: seq<byte>, ghost rows: seq<seq<byte>>)
    requires PageHolds(page[..], rows) && currentRows == |rows| && |row| >= MIN_ROW
    requires dataStart + |row| == StartOf(rows, |rows| - 1) <= PG_SIZE && ROW_COUNT + 2 + (currentRows + 1) * 2 <= dataStart
    modifies page
    ensures PageHolds(page[..], rows + [row])
  {
    hide SlotHolds, StartOf, Int16At, AfterPut;
    assert page.Length == PG_SIZE;
    ghost var before := page[..];
    WriteRow(page, currentRows, dataStart, row);
    PutClear(before, currentRows, dataStart, row);
    RowPlaced(before, rows, row, page[..], dataStart);
  }

  lemma PutClear(page: seq<byte>, n: nat, start: nat, row: seq<byte>)
    requires |page| == PG_SIZE && ROW_COUNT + 4 + n * 2 <= start && start + |row| <= PG_SIZE && n <= PG_SIZE
    ensures var next := AfterPut(page, n, start, row);
            && Int16At(next, ROW_COUNT) == n + 1 && Int16At(next, ROW_COUNT + 2 + n * 2) == start
            && next[start..start + |row|] == row && next[start + |row|..] == page[start + |row|..]
            && forall k :: ROW_COUNT + 2 <= k < ROW_COUNT + 2 + n * 2 ==> next[k] == page[k]
  {
    hide RowPack.Lo, RowPack.Hi, Int16At;
    var next := AfterPut(page, n, start, row);
    RowPack.Read16(next, ROW_COUNT, n + 1);
    RowPack.Read16(next, ROW_COUNT + 2 + n * 2, start);
  }

  // --- rows too long for a page of their own ---

  /** What the first row of a page needs at bytes 12 to 15: the count and its own offset. */
  function FirstHeader(start: nat): seq<byte> { [1, 0, RowPack.Lo(start), RowPack.Hi(start)] }

  /** The bytes of an overlong row that land on count and offset happen to equal them. */
  predicate HeaderSame(row: seq<byte>)
    requires |row| <= PG_SIZE
  {
    var start := PG_SIZE - |row|;
    forall k :: 0 <= k < |row| && ROW_COUNT <= start + k < ROW_COUNT + 4 ==> row[k] == FirstHeader(start)[start + k - ROW_COUNT]
  }

  /**
   A row on a fresh page comes back exactly when it leaves the header alone, that is when it has at
   most 4080 bytes, or when the bytes it puts over the header are the header's own.
   */
  lemma FirstRowExact(row: seq<byte>)
    requires MIN_ROW <= |row| <= PG_SIZE
    ensures var start := PG_SIZE - |row|;
            var page := AfterPut(seq(PG_SIZE, _ => 0), 0, start, row);
            (Int16At(page, ROW_COUNT) == 1 && FindRow(page, 0) == Some(Place(start, |row|)))
            <==> |row| <= PG_SIZE - (ROW_COUNT + 4) || HeaderSame(row)
  {
    hide RowPack.Lo, RowPack.Hi, Signed16, FindRow, HeaderSame;
    var start := PG_SIZE - |row|;
    var page := AfterPut(seq(PG_SIZE, _ => 0), 0, start, row);
    Header16(page[12], page[13], 1);
    Header16(page[14], page[15], start);
    FindFirst(page, start);
    OneIs();
    HeaderRead(row, page);
  }

  /** One byte too many still comes back when that byte, the low half of the column count, is zero. */
  lemma OneByteTooLong(row: seq<byte>)
    requires |row| == PG_SIZE - (ROW_COUNT + 4) + 1
    ensures HeaderSame(row) <==> row[0] == 0
  {
    hide RowPack.Lo, RowPack.Hi;
    LoHi(15);
    assert FirstHeader(15)[3] == RowPack.Hi(15);
    SameByte(RowPack.Hi(15), 0);
  }

  lemma HeaderRead(row: seq<byte>, page: seq<byte>)
    requires MIN_ROW <= |row| <= PG_SIZE && page == AfterPut(seq(PG_SIZE, _ => 0), 0, PG_SIZE - |row|, row)
    ensures page[12..16] == FirstHeader(PG_SIZE - |row|) <==> |row| <= PG_SIZE - (ROW_COUNT + 4) || HeaderSame(row)
  {
    hide RowPack.Lo, RowPack.Hi;
    var start := PG_SIZE - |row|;
    var header := FirstHeader(start);
    OneIs();
    var now := page[12..16];
    assert forall j :: 0 <= j < 4 ==> now[j] == if start <= 12 + j then row[12 + j - start] else header[j];
    if now == header {
      forall k | 0 <= k < |row| && 12 <= start + k < 16 ensures row[k] == header[start + k - 12] {
        assert now[start + k - 12] == row[k];
      }
    }
  }

  lemma OneIs()
    ensures RowPack.Lo(1) == 1 && RowPack.Hi(1) == 0
  {
  }

  lemma Header16(lo: byte, hi: byte, v: nat)
    requires v <= PG_SIZE
    ensures Signed16(lo, hi) == v <==> lo == RowPack.Lo(v) && hi == RowPack.Hi(v)
  {
    hide RowPack.Lo, RowPack.Hi;
    LoHi(v);
    SameByte(lo, RowPack.Lo(v));
    SameByte(hi, RowPack.Hi(v));
    Parts(lo as int, hi as int, v);
  }

  lemma LoHi(v: nat)
    requires v <= PG_SIZE
    ensures RowPack.Lo(v) as int == v % 256 && RowPack.Hi(v) as int == v / 256
  {
    ByteValue(v % 256);
    ByteValue(v / 256);
    assert v / 256 % 256 == v / 256;
  }

  lemma SameByte(a: byte, b: byte)
    ensures a == b <==> a as int == b as int
  {
    assert a == (a as int) as bv8 && b == (b as int) as bv8;
  }

  lemma Parts(l: int, h: int, v: nat)
    requires 0 <= l < 256 && 0 <= h < 256
    ensures l + 256 * h == v <==> l == v % 256 && h == v / 256
  {
  }

  lemma FindFirst(page: seq<byte>, start: nat)
    requires |page| == PG_SIZE && start < PG_SIZE
    ensures FindRow(page, 0) == Some(Place(start, PG_SIZE - start)) <==> Int16At(page, ROW_COUNT + 2) == start
  {
    hide Int16At, Masked;
    PlainOffset(start);
  }

  /** The last offset of the table is where the next row must end. */
  lemma LastStart(page: seq<byte>, rows: seq<seq<byte>>)
    requires PageHolds(page, rows)
    ensures Int16At(page, ROW_COUNT) == |rows| && |page| == PG_SIZE && StartOf(rows, |rows| - 1) <= PG_SIZE
    ensures |rows| > 0 ==> Masked(Int16At(page, ROW_COUNT + |rows| * 2)) == StartOf(rows, |rows| - 1)
    ensures |rows| == 0 ==> StartOf(rows, |rows| - 1) == PG_SIZE
  {
    hide Int16At, Masked;
    if |rows| > 0 { SlotStart(page, rows, |rows| - 1); }
  }

  lemma NoStart()
    ensures StartOf([], -1) == PG_SIZE
  {
  }

  lemma ColumnAdded(layout: seq<RowPack.TempCol>, col: RowPack.TempCol)
    ensures RowPack.Columns(layout + [col]) == RowPack.Columns(layout) + [RowPack.ColumnOf(layout + [col], |layout|)]
    ensures RowPack.ColumnOf(layout + [col], |layout|) == Column(col.isFixed, |layout| / 8, RowPack.BitOf(|layout|),
      col.fixedOffset, col.size, RowPack.VarBefore(layout, |layout|))
    ensures RowPack.VarBefore(layout + [col], |layout| + 1) == RowPack.VarBefore(layout, |layout|) + if col.isFixed then 0 else 1
  {
    hide RowPack.ColumnOf, RowPack.Columns, RowPack.VarBefore, RowPack.BitOf;
    VarBeforePrefix(layout, layout + [col], |layout|);
    VarBeforeStep(layout + [col], |layout| + 1);
    LastColumn(layout, col);
    EarlierColumns(layout, col);
  }

  lemma EarlierColumns(layout: seq<RowPack.TempCol>, col: RowPack.TempCol)
    ensures RowPack.Columns(layout + [col]) == RowPack.Columns(layout) + [RowPack.ColumnOf(layout + [col], |layout|)]
  {
    hide RowPack.ColumnOf, RowPack.Columns;
    forall i | 0 <= i < |layout| ensures RowPack.ColumnOf(layout + [col], i) == RowPack.ColumnOf(layout, i) {
      SameColumn(layout, col, i);
    }
  }

  lemma SameColumn(layout: seq<RowPack.TempCol>, col: RowPack.TempCol, i: nat)
    requires i < |layout|
    ensures RowPack.ColumnOf(layout + [col], i) == RowPack.ColumnOf(layout, i)
  {
    hide RowPack.VarBefore, RowPack.BitOf;
    VarBeforePrefix(layout, layout + [col], i);
  }

  lemma LastColumn(layout: seq<RowPack.TempCol>, col: RowPack.TempCol)
    ensures var n := |layout|;
            RowPack.ColumnOf(layout + [col], n)
            == Column(col.isFixed, n / 8, RowPack.BitOf(n), col.fixedOffset, col.size, RowPack.VarBefore(layout, n))
  {
    hide RowPack.VarBefore, RowPack.BitOf;
    VarBeforePrefix(layout, layout + [col], |layout|);
  }

  lemma VarBeforeStep(cols: seq<RowPack.TempCol>, i: nat)
    requires 0 < i <= |cols|
    ensures RowPack.VarBefore(cols, i) == RowPack.VarBefore(cols, i - 1) + if cols[i - 1].isFixed then 0 else 1
  {
  }

  /** `all` is `rows` with at most one new empty page at its end. */
  lemma RowAppended(rows: seq<seq<seq<byte>>>, all: seq<seq<seq<byte>>>, row: seq<byte>)
    requires |all| > 0 && (all == rows || all == rows + [[]])
    ensures var n := |all| - 1; Flatten(all[n := all[n] + [row]]) == Flatten(rows) + [row]
  {
    var n := |all| - 1;
    var next := all[n := all[n] + [row]];
    assert next[..n] == all[..n];
    if all == rows + [[]] { assert all[..n] == rows; }
  }

  lemma VarBeforePrefix(a: seq<RowPack.TempCol>, b: seq<RowPack.TempCol>, i: nat)
    requires a <= b && i <= |a|
    ensures RowPack.VarBefore(a, i) == RowPack.VarBefore(b, i)
  {
    if i > 0 { VarBeforePrefix(a, b, i - 1); }
  }

  // --- reading back ---

  datatype Fetched = End | Failed | Got

  /** Rows on the first `n` pages. */
  ghost function Before(rows: seq<seq<seq<byte>>>, n: nat): nat
    requires n <= |rows|
  {
    |Flatten(rows[..n])|
  }

  lemma {:induction false} RowOfPage(rows: seq<seq<seq<byte>>>, n: nat, r: nat)
    requires n < |rows| && r < |rows[n]|
    ensures Before(rows, n) + r < |Flatten(rows)| && Flatten(rows)[Before(rows, n) + r] == rows[n][r]
    decreases |rows| - n
  {
    var m := |rows| - 1;
    if n == m {
    } else {
      RowOfPage(rows[..m], n, r);
      assert rows[..m][..n] == rows[..n];
    }
  }

  lemma PageEnd(rows: seq<seq<seq<byte>>>, n: nat)
    requires n < |rows|
    ensures Before(rows, n + 1) == Before(rows, n) + |rows[n]|
    ensures Before(rows, |rows|) == |Flatten(rows)|
  {
    assert rows[..n + 1][..n] == rows[..n];
    assert rows[..|rows|] == rows;
  }

  class Reader {
    const table: Table
    const fields: array<Field>
    var curPgNum: nat
    var curRow: nat

    constructor (table: Table)
      requires table.Valid()
      ensures this.table == table && Valid() && Position() == 0 && fresh(fields)
    {
      this.table, curPgNum, curRow := table, 0, 0;
      fields := new Field[|table.cols|](_ => Field(0, 0, true, None));
    }

    /** The scan has not run off the last page. */
    ghost predicate Valid()
      reads this, table, table.pages
    {
      && table.Valid() && fields.Length == |table.cols|
      && (forall k :: 0 <= k < |table.pages| ==> table.pages[k] as object != fields)
      && curPgNum <= |table.pages| && (curPgNum > 0 ==> curRow <= |table.rows[curPgNum - 1]|)
    }

    /** How many rows have been read. */
    ghost function Position(): nat
      requires Valid()
      reads this, table, table.pages
    {
      if curPgNum == 0 then 0 else Before(table.rows, curPgNum - 1) + curRow
    }

    /** The page with the next row, and its number there. */
    method Advance() returns (more: bool)
      requires Valid()
      modifies this
      ensures more <==> old(Position()) < |table.Contents()|
      ensures more ==> Valid() && curPgNum > 0 && Position() == old(Position()) && curRow < |table.rows[curPgNum - 1]|
    {
      hide PageHolds, RowPack.Columns, RowPack.VarBefore, Flatten;
      NoRows();
      if curPgNum == 0 {
        curPgNum := 1;
        curRow := 0;
      }
      if |table.pages| == 0 {
        return false;
      }
      var n := curPgNum - 1;
      LastStart(table.pages[n][..], table.rows[n]);
      PageEnd(table.rows, n);
      var rows := Int16At(table.pages[n][..], ROW_COUNT);
      if curRow >= rows {
        curRow := 0;
        curPgNum := curPgNum + 1;
        if curPgNum > |table.pages| {
          return false;
        }
      }
      RowOfPage(table.rows, curPgNum - 1, curRow);
      return true;
    }

    /** Finds and cracks the next row; a row of a temp table is never skipped. */
    method FetchRow() returns (f: Fetched, ghost page: seq<byte>, ghost start: nat)
      requires Valid()
      modifies this, fields
      ensures f.End? <==> old(Position()) >= |table.Contents()|
      ensures !f.End? ==>
        var row := table.Contents()[old(Position())];
        && Valid() && Position() == old(Position()) + 1
        && start + |row| <= |page| == PG_SIZE && page[start..start + |row|] == row
        && var header := CrackHeader(page, start, |row|, table.numVarCols > 0);
           if header.None? then f.Failed?
           else f.Got? && forall i :: 0 <= i < |table.cols| ==>
             fields[i] == FieldAt(table.cols, i, header.value, page, start, |row|)
    {
      hide PageHolds, RowPack.Columns, RowPack.VarBefore, CrackHeader, FieldAt, Flatten;
      page, start := [], 0;
      var more := Advance();
      if !more {
        return End, page, start;
      }
      var pgBuf := table.pages[curPgNum - 1];
      page := pgBuf[..];
      RowOfPage(table.rows, curPgNum - 1, curRow);
      var ok;
      label BeforeRead:
      ok, start := ReadRow(pgBuf[..], curRow, table.rows[curPgNum - 1]);
      assert forall k :: 0 <= k < |table.pages| ==> table.pages[k][..] == old@BeforeRead(table.pages[k][..]);
      curRow := curRow + 1;
      f := if ok then Got else Failed;
    }

    /** Finds a row on its page and cracks it. */
    method ReadRow(page: seq<byte>, row: nat, ghost rows: seq<seq<byte>>) returns (ok: bool, start: nat)
      requires PageHolds(page, rows) && row < |rows| && fields.Length == |table.cols|
      modifies fields
      ensures |page| == PG_SIZE && start + |rows[row]| <= PG_SIZE && page[start..start + |rows[row]|] == rows[row]
      ensures ok <==> CrackHeader(page, start, |rows[row]|, table.numVarCols > 0).Some?
      ensures ok ==> forall i :: 0 <= i < |table.cols| ==>
        fields[i] == FieldAt(table.cols, i, CrackHeader(page, start, |rows[row]|, table.numVarCols > 0).value, page, start, |rows[row]|)
    {
      hide PageHolds, FindRow, CrackHeader, FieldAt, StartOf, Masked;
      RowFound(page, rows, row);
      LastStart(page, rows);
      var place := FindRow(page, row).value;
      start := Masked(place.start);
      ok := CrackRow(table.cols, table.numVarCols > 0, page, start, place.size, fields);
    }
  }

  lemma NoRows()
    ensures Flatten([]) == [] && forall rows: seq<seq<seq<byte>>> :: Flatten(rows[..0]) == []
  {
  }

  // --- a listing: make the table, fill it, read it ---

  /** `inputs[k]` fits a fresh page and has full-size fixed values. */
  predicate Fits(layout: seq<RowPack.TempCol>, input: seq<RowPack.InField>) {
    |RowPack.Packed(layout, input)| <= PG_SIZE - (ROW_COUNT + 4) && RowPack.FullSize(layout, input)
  }

  method MakeTable(layout: seq<RowPack.TempCol>) returns (t: Table)
    ensures fresh(t) && t.Valid() && t.layout == layout && t.Contents() == [] && t.pages == []
  {
    hide PageHolds, RowPack.Columns, RowPack.VarBefore;
    t := new Table();
    for i := 0 to |layout|
      invariant fresh(t) && t.Valid() && t.layout == layout[..i] && t.rows == [] && t.pages == []
    {
      t.AddColumn(layout[i].isFixed, layout[i].size, layout[i].fixedOffset);
    }
    assert layout[..|layout|] == layout;
  }

  method FillTable(t: Table, layout: seq<RowPack.TempCol>, inputs: seq<seq<RowPack.InField>>)
    requires t.Valid() && t.layout == layout && t.Contents() == [] && t.pages == []
    requires forall k :: 0 <= k < |inputs| ==> Fits(layout, inputs[k])
    modifies t`pages, t`rows
    ensures t.Valid() && |t.Contents()| == |inputs|
    ensures forall k :: 0 <= k < |inputs| ==> t.Contents()[k] == RowPack.Packed(layout, inputs[k])
    ensures forall k :: 0 <= k < |t.pages| ==> fresh(t.pages[k])
  {
    hide PageHolds, RowPack.Columns, RowPack.VarBefore, RowPack.Packed, RowPack.FullSize, Flatten;
    var rowBuf := new byte[PG_SIZE];
    for k := 0 to |inputs|
      invariant t.Valid() && |t.Contents()| == k
      invariant forall j :: 0 <= j < k ==> t.Contents()[j] == RowPack.Packed(layout, inputs[j])
      invariant forall j :: 0 <= j < |t.pages| ==> fresh(t.pages[j]) && t.pages[j] != rowBuf
    {
      PackedMin(layout, inputs[k]);
      assert Fits(layout, inputs[k]);
      var rowSize := RowPack.PackRow(layout, rowBuf, inputs[k]);
      t.AddRow(rowBuf[..], rowSize);
      assert rowBuf[..][..rowSize] == rowBuf[..rowSize];
    }
  }

  lemma PackedMin(layout: seq<RowPack.TempCol>, input: seq<RowPack.InField>)
    ensures |RowPack.Packed(layout, input)| >= MIN_ROW
  {
    hide RowPack.Packed;
    RowPack.PackedLength(layout, input);
  }

  /** Rows come back in the order they went in, each field with its bytes and null flag, across page breaks. */
  method StoreAndRead(layout: seq<RowPack.TempCol>, inputs: seq<seq<RowPack.InField>>) returns (out: seq<seq<Field>>)
    requires RowPack.Cumulative(layout) && forall k :: 0 <= k < |inputs| ==> Fits(layout, inputs[k])
    ensures |out| == |inputs|
    ensures forall k :: 0 <= k < |inputs| ==> GivenBack(layout, inputs[k], out[k])
  {
    hide PageHolds, RowPack.Columns, RowPack.VarBefore, RowPack.Packed, RowPack.FullSize, RowPack.Cumulative, CrackHeader, FieldAt,
      GivenBack, Flatten;
    var t := MakeTable(layout);
    FillTable(t, layout, inputs);
    var reader := new Reader(t);
    out := [];
    for k := 0 to |inputs|
      invariant reader.Valid() && reader.Position() == k && |out| == k
      invariant t.layout == layout && |t.Contents()| == |inputs|
      invariant forall j :: 0 <= j < |inputs| ==> t.Contents()[j] == RowPack.Packed(layout, inputs[j])
      invariant forall j :: 0 <= j < k ==> GivenBack(layout, inputs[j], out[j])
    {
      assert Fits(layout, inputs[k]);
      var f, page, start := reader.FetchRow();
      CrackedBack(layout, inputs[k], page, start, reader.fields[..], f);
      out := out + [reader.fields[..]];
    }
  }

  predicate GivenBack(layout: seq<RowPack.TempCol>, input: seq<RowPack.InField>, fields: seq<Field>) {
    |fields| == |layout| && forall i :: 0 <= i < |layout| ==>
      RowPack.Back(fields[i], RowPack.Find(input, i), if layout[i].isFixed then layout[i].size else 0)
  }

  lemma CrackedBack(layout: seq<RowPack.TempCol>, input: seq<RowPack.InField>, page: seq<byte>, start: nat, fields: seq<Field>, f: Fetched)
    requires RowPack.Cumulative(layout) && Fits(layout, input) && |fields| == |layout|
    requires var row := RowPack.Packed(layout, input);
      && start + |row| <= |page| == PG_SIZE && page[start..start + |row|] == row
      && var header := CrackHeader(page, start, |row|, RowPack.VarBefore(layout, |layout|) > 0);
         if header.None? then f.Failed?
         else f.Got? && forall i :: 0 <= i < |layout| ==>
           fields[i] == FieldAt(RowPack.Columns(layout), i, header.value, page, start, |row|)
    ensures GivenBack(layout, input, fields) && f.Got?
  {
    hide RowPack.Columns, RowPack.VarBefore, RowPack.Packed, RowPack.FullSize, RowPack.Cumulative, CrackHeader, FieldAt;
    RowPack.CrackPacked(layout, input, page, start);
  }
}
