/** What the delete bit of a row's slot does to both scans: internal/gomdb/data.go, fastscan.go and file.go. */
module DeletedRows {
  import opened Bytes
  import opened RowFormat
  import opened ScanModel
  import opened SyncScan
  import opened ScanRefinement
  import opened Wrappers

  // --- the slot of a row ---

  /** The high byte of a row's slot in the offset table. */
  function HighSlot(row: nat): nat { ROW_COUNT + 2 + 2 * row + 1 }

  /** The page with the delete bit of one row set. */
  function Mark(page: seq<byte>, row: nat): (marked: seq<byte>)
    requires HighSlot(row) < |page|
    ensures |marked| == |page|
  {
    page[HighSlot(row) := page[HighSlot(row)] | 0x40]
  }

  lemma SetBit(hi: byte)
    ensures (hi | 0x40) & 0x1F == hi & 0x1F && (hi | 0x40) & 0x40 != 0
  {
  }

  lemma MarkedSlot(page: seq<byte>, row: nat)
    requires HighSlot(row) < |page|
    ensures var off := ROW_COUNT + 2 + 2 * row;
      && Masked(Int16At(Mark(page, row), off)) == Masked(Int16At(page, off))
      && Deleted(Int16At(Mark(page, row), off))
  {
    hide Signed16, Masked, Deleted;
    var off := ROW_COUNT + 2 + 2 * row;
    SetBit(page[off + 1]);
    SlotBits(page[off], page[off + 1]);
    SlotBits(page[off], page[off + 1] | 0x40);
  }

  lemma OtherPlace(page: seq<byte>, row: nat, off: int)
    requires HighSlot(row) < |page| && off != HighSlot(row) && off + 1 != HighSlot(row)
    ensures Int16At(Mark(page, row), off) == Int16At(page, off)
  {
  }

  /** The place of every row stays what it was, but for the flag of the marked one. */
  lemma MarkedPlace(page: seq<byte>, row: nat, k: nat)
    requires HighSlot(row) < |page|
    ensures k != row ==> FindRow(Mark(page, row), k) == FindRow(page, k)
    ensures FindRow(Mark(page, row), row).Some? <==> FindRow(page, row).Some?
    ensures FindRow(page, row).Some? ==>
      var was, now := FindRow(page, row).value, FindRow(Mark(page, row), row).value;
      now.size == was.size && Masked(now.start) == Masked(was.start) && Deleted(now.start)
  {
    hide Int16At, Masked, Deleted;
    MarkedSlot(page, row);
    if k != row { OtherPlace(page, row, ROW_COUNT + 2 + 2 * k); }
    if k > 0 && k - 1 != row { OtherPlace(page, row, ROW_COUNT + 2 * k); }
    if row > 0 { OtherPlace(page, row, ROW_COUNT + 2 * row); }
  }

  // --- rows that lie beyond the offset table ---

  /** Cracking the row looks at nothing up to and including position `at`. */
  predicate Beyond(q: Query, page: seq<byte>, row: nat, at: nat) {
    match FindRow(page, row)
    case None => true
    case Some(place) =>
      var start := Masked(place.start);
      var rowEnd := start + place.size - 1;
      var mask := MaskSize(Int16At(page, start));
      && at < start
      && (q.hasVar && mask < rowEnd - start ==>
            var n := Int16At(page, rowEnd - mask - 1);
            && at < rowEnd - mask - 1
            && (n >= 0 ==> at < rowEnd - mask - 3 - 2 * n)
            && (forall i :: 0 <= i <= n ==> Int16At(page, rowEnd - mask - 3 - i * 2) >= 0))
      && forall i :: 0 <= i < |q.cols| && q.cols[i].isFixed ==> q.cols[i].fixedOffset >= 0
  }

  predicate SameBut(page: seq<byte>, marked: seq<byte>, at: nat) {
    |marked| == |page| && forall i :: 0 <= i < |page| && i != at ==> marked[i] == page[i]
  }

  lemma SameNumbers(page: seq<byte>, marked: seq<byte>, at: nat)
    requires SameBut(page, marked, at)
    ensures forall off: int {:trigger Int16At(marked, off)} :: off > at ==> Int16At(marked, off) == Int16At(page, off)
    ensures forall i: int {:trigger From(marked, i)} :: i > at ==> From(marked, i) == From(page, i)
  {
    hide Signed16;
    forall off: int | off > at ensures Int16At(marked, off) == Int16At(page, off) {}
    forall i: int | i > at ensures From(marked, i) == From(page, i) {}
  }

  lemma SameOffsets(page: seq<byte>, marked: seq<byte>, last: int, n: nat, at: nat)
    requires SameBut(page, marked, at) && at < last - 2 * (n - 1)
    ensures seq(n, i => Int16At(marked, last - i * 2)) == seq(n, i => Int16At(page, last - i * 2))
  {
    hide Int16At;
    SameNumbers(page, marked, at);
    forall i | 0 <= i < n ensures Int16At(marked, last - i * 2) == Int16At(page, last - i * 2) {
      assert last - i * 2 > at;
    }
  }

  lemma SameHeader(q: Query, page: seq<byte>, marked: seq<byte>, row: nat, at: nat)
    requires SameBut(page, marked, at)
    requires FindRow(page, row).Some? && Beyond(q, page, row, at)
    ensures var place := FindRow(page, row).value;
      CrackHeader(marked, Masked(place.start), place.size, q.hasVar) == CrackHeader(page, Masked(place.start), place.size, q.hasVar)
  {
    hide FindRow, Masked, MaskSize, Int16At, From, SameBut;
    var place := FindRow(page, row).value;
    var start := Masked(place.start);
    var rowEnd := start + place.size - 1;
    var mask := MaskSize(Int16At(page, start));
    SameNumbers(page, marked, at);
    if mask < rowEnd - start {
      assert From(marked, rowEnd - mask + 1) == From(page, rowEnd - mask + 1);
      var n := if q.hasVar then Int16At(page, rowEnd - mask - 1) else 0;
      if q.hasVar && n >= 0 { SameOffsets(page, marked, rowEnd - mask - 3, n + 1, at); }
    }
  }

  lemma SameField(col: Column, before: nat, h: Header, page: seq<byte>, marked: seq<byte>, start: int, size: int, at: nat)
    requires SameBut(page, marked, at) && at < start
    requires (col.isFixed ==> col.fixedOffset >= 0) && forall i :: 0 <= i < |h.varOffsets| ==> h.varOffsets[i] >= 0
    ensures FieldOf(col, before, h, marked, start, size) == FieldOf(col, before, h, page, start, size)
  {
    forall from: int, siz: int | from > at ensures ValueAt(marked, from, siz) == ValueAt(page, from, siz) {
      if siz > 0 && 0 <= from && from + siz <= |page| { assert marked[from..from + siz] == page[from..from + siz]; }
    }
  }

  lemma SameFields(q: Query, page: seq<byte>, marked: seq<byte>, row: nat, at: nat)
    requires SameBut(page, marked, at)
    requires FindRow(page, row).Some? && Beyond(q, page, row, at)
    requires var place := FindRow(page, row).value; CrackHeader(page, Masked(place.start), place.size, q.hasVar).Some?
    ensures var place := FindRow(page, row).value;
      var h := CrackHeader(page, Masked(place.start), place.size, q.hasVar).value;
      AllFields(q, h, marked, Masked(place.start), place.size) == AllFields(q, h, page, Masked(place.start), place.size)
  {
    hide FindRow, Masked, MaskSize, FieldOf, Int16At;
    var place := FindRow(page, row).value;
    var h := CrackHeader(page, Masked(place.start), place.size, q.hasVar).value;
    forall i | 0 <= i < |q.cols|
      ensures FieldAt(q.cols, i, h, marked, Masked(place.start), place.size) == FieldAt(q.cols, i, h, page, Masked(place.start), place.size)
    {
      SameField(q.cols[i], FixedBefore(q.cols, i), h, page, marked, Masked(place.start), place.size, at);
    }
  }

  /** The condition and the formatting, which are parameters, do not look at the byte that is changed. */
  ghost predicate SameReading(q: Query, page: seq<byte>, marked: seq<byte>) {
    && (forall fs :: q.accept(marked, fs) == q.accept(page, fs))
    && forall cs :: q.render(marked, cs) == q.render(page, cs)
  }

  /** Rows a scan tries on a page: on later pages the synchronous one tries row 0 whatever the row count. */
  function Tried(page: seq<byte>, later: bool): nat { if later then Max(1, RowCount(page)) else Max(0, RowCount(page)) }

  /** The page may be marked at the row: everything else that is read lies elsewhere. */
  ghost predicate Markable(q: Query, page: seq<byte>, row: nat) {
    && HighSlot(row) < |page|
    && SameReading(q, page, Mark(page, row))
    && forall k :: 0 <= k < Tried(page, true) && (k != row || q.noSkipDel) ==> Beyond(q, page, k, HighSlot(row))
  }

  /** Setting the delete bit of one row turns exactly that row's outcome into a skip, unless deleted rows are wanted. */
  lemma MarkedOutcome(q: Query, page: seq<byte>, row: nat, k: nat)
    requires q.Ok() && Markable(q, page, row) && k < Tried(page, true)
    ensures RowOutcome(q, Mark(page, row), k) == if k == row && !q.noSkipDel then Skip else RowOutcome(q, page, k)
    ensures RowCount(Mark(page, row)) == RowCount(page)
  {
    hide FindRow, CrackHeader, Beyond, AllFields, Masked, Deleted;
    var marked := Mark(page, row);
    var at := HighSlot(row);
    OtherPlace(page, row, ROW_COUNT);
    MarkedPlace(page, row, k);
    if (k != row || q.noSkipDel) && FindRow(page, k).Some? {
      var place := FindRow(page, k).value;
      SameHeader(q, page, marked, k, at);
      if CrackHeader(page, Masked(place.start), place.size, q.hasVar).Some? { SameFields(q, page, marked, k, at); }
    }
  }

  // --- what else makes a scan pass over a slot ---

  /**
   On the bytes of the page: a slot is skipped if its number or its place is invalid, if its row is empty, or if
   its delete bit is set; a row that is tried fails to crack exactly if its null mask leaves no room for data.
   */
  lemma SlotOutcome(q: Query, page: seq<byte>, row: nat)
    requires q.Ok() && HighSlot(row) < |page|
    ensures var at := ROW_COUNT + 2 + 2 * row;
      var start, end := SlotOffset(page, at), if row == 0 then PG_SIZE else SlotOffset(page, at - 2);
      var n := Int16At(page, start) + 7;
      if row > 1000 || start >= end || end > PG_SIZE || (page[at + 1] & 0x40 != 0 && !q.noSkipDel)
      then RowOutcome(q, page, row) == Skip
      else RowOutcome(q, page, row) == Bad <==> if end - start == 1 then n > -8 else n >= 8 * (end - start - 1)
  {
    hide Int16At, Masked, Deleted, FindRow, MaskSize, AllFields;
    var at := ROW_COUNT + 2 + 2 * row;
    FoundExact(page, row);
    var start := SlotOffset(page, at);
    MaskSizeExact(Int16At(page, start), MaskSize(Int16At(page, start)));
  }

  /** Without a WHERE clause every row comes out that some WHERE clause lets through, and as the same values. */
  lemma WhereFilters(q: Query, page: seq<byte>, row: nat)
    requires q.Ok()
    ensures var free := q.(hasSarg := false);
      && free.Ok()
      && (RowOutcome(q, page, row) == RowOutcome(free, page, row) || RowOutcome(q, page, row) == Skip)
      && (!q.hasSarg || !RowOutcome(free, page, row).Row? || (forall fs :: q.accept(page, fs)) ==>
            RowOutcome(q, page, row) == RowOutcome(free, page, row))
      && (q.hasSarg && (forall fs :: !q.accept(page, fs)) ==> !RowOutcome(q, page, row).Row?)
  {
    hide FindRow, Masked, Deleted, CrackHeader, FieldAt;
    if FindRow(page, row).Some? {
      var place := FindRow(page, row).value;
      var h := CrackHeader(page, Masked(place.start), place.size, q.hasVar);
      if h.Some? {
        assert AllFields(q, h.value, page, Masked(place.start), place.size)
            == AllFields(q.(hasSarg := false), h.value, page, Masked(place.start), place.size);
      }
    }
  }

  // --- the rows of both scans ---

  function PageAttempts(q: Query, page: seq<byte>, later: bool): (r: seq<Outcome>)
    requires q.Ok()
    ensures |r| == Tried(page, later) && forall k :: 0 <= k < |r| ==> r[k] == RowOutcome(q, page, k)
  {
    seq(Tried(page, later), k requires 0 <= k => RowOutcome(q, page, k))
  }

  lemma PageRead(q: Query, page: seq<byte>)
    requires q.Ok()
    ensures ReadFrom(q, page, 0) == PageAttempts(q, page, false)
    ensures [RowOutcome(q, page, 0)] + ReadFrom(q, page, 1) == PageAttempts(q, page, true)
  {
    hide RowOutcome;
  }

  lemma {:induction false} LaterSplit(q: Query, pages: seq<seq<byte>>, p: nat)
    requires q.Ok() && p < |pages|
    ensures Later(q, pages) == Later(q, pages[..p]) + (PageAttempts(q, pages[p], true) + Later(q, pages[p + 1..]))
  {
    hide RowOutcome, ReadFrom, PageAttempts;
    PageRead(q, pages[0]);
    var head := PageAttempts(q, pages[0], true);
    if p == 0 {
      assert Later(q, pages[..0]) == [];
    } else {
      LaterSplit(q, pages[1..], p - 1);
      assert pages[1..][..p - 1] == pages[..p][1..] && pages[1..][p..] == pages[p + 1..];
      assert Later(q, pages[..p]) == head + Later(q, pages[..p][1..]);
    }
  }

  lemma AttemptsSplit(q: Query, pages: seq<seq<byte>>, p: nat)
    requires q.Ok() && p < |pages|
    ensures Attempts(q, pages) ==
      Attempts(q, pages[..p]) + (PageAttempts(q, pages[p], p > 0) + Later(q, pages[p + 1..]))
  {
    hide RowOutcome, ReadFrom, PageAttempts, Later;
    PageRead(q, pages[0]);
    if p > 0 {
      LaterSplit(q, pages[1..], p - 1);
      assert pages[1..][..p - 1] == pages[..p][1..] && pages[1..][p..] == pages[p + 1..];
    }
  }

  lemma {:induction false} FlatSplit(q: Query, pages: seq<seq<byte>>, p: nat)
    requires q.Ok() && p < |pages|
    ensures Flat(FastPages(q, pages)) ==
      Flat(FastPages(q, pages[..p])) + (Cells(q, pages[p]) + Flat(FastPages(q, pages[p + 1..])))
  {
    hide Flat, Cells;
    FlatCons(Cells(q, pages[0]), FastPages(q, pages[1..]));
    if p == 0 {
      NoValues();
    } else {
      FlatSplit(q, pages[1..], p - 1);
      assert pages[1..][..p - 1] == pages[..p][1..] && pages[1..][p..] == pages[p + 1..];
      FlatCons(Cells(q, pages[0]), FastPages(q, pages[..p][1..]));
    }
  }

  lemma MarkedAttempts(q: Query, page: seq<byte>, row: nat, later: bool)
    requires q.Ok() && Markable(q, page, row) && row < Tried(page, later)
    ensures var marked := PageAttempts(q, Mark(page, row), later);
      marked == if q.noSkipDel then PageAttempts(q, page, later) else PageAttempts(q, page, later)[row := Skip]
  {
    hide RowOutcome, Mark, Beyond, SameReading;
    forall k: nat | k < Tried(page, true) ensures RowOutcome(q, Mark(page, row), k) == if k == row && !q.noSkipDel then Skip else RowOutcome(q, page, k)
    {
      MarkedOutcome(q, page, row, k);
    }
    MarkedOutcome(q, page, row, 0);
  }

  lemma MarkedCells(q: Query, page: seq<byte>, row: nat)
    requires q.Ok() && Markable(q, page, row) && row < Tried(page, false)
    ensures var marked := Cells(q, Mark(page, row));
      |Cells(q, page)| == Tried(page, false) && marked == if q.noSkipDel then Cells(q, page) else Cells(q, page)[row := Invalid]
  {
    hide RowOutcome, Mark, Beyond, SameReading;
    MarkedAttempts(q, page, row, false);
    PageRead(q, page);
    PageRead(q, Mark(page, row));
  }

  /** Position of a row among everything the synchronous scan tries. */
  function AttemptAt(q: Query, pages: seq<seq<byte>>, p: nat, row: nat): nat
    requires q.Ok() && p < |pages|
  {
    |Attempts(q, pages[..p])| + row
  }

  /** Position of a row among the cells of the parallel scan. */
  function CellAt(q: Query, pages: seq<seq<byte>>, p: nat, row: nat): nat
    requires q.Ok() && p < |pages|
  {
    |Flat(FastPages(q, pages[..p]))| + row
  }

  lemma Replaced<T>(a: seq<T>, b: seq<T>, c: seq<T>, k: nat, x: T)
    requires k < |b|
    ensures |a| + k < |a + (b + c)| && (a + (b + c))[|a| + k] == b[k]
    ensures a + (b[k := x] + c) == (a + (b + c))[|a| + k := x]
  {
  }

  /** The synchronous scan skips exactly the marked row. */
  lemma SyncSkips(q: Query, pages: seq<seq<byte>>, p: nat, row: nat)
    requires q.Ok() && p < |pages| && Markable(q, pages[p], row) && row < Tried(pages[p], p > 0)
    ensures var i := AttemptAt(q, pages, p, row);
      var before, after := Attempts(q, pages), Attempts(q, pages[p := Mark(pages[p], row)]);
      && i < |before| && before[i] == RowOutcome(q, pages[p], row)
      && after == if q.noSkipDel then before else before[i := Skip]
  {
    hide RowOutcome, Attempts, Later, PageAttempts, Mark, Beyond, SameReading;
    var pages' := pages[p := Mark(pages[p], row)];
    AttemptsSplit(q, pages, p);
    AttemptsSplit(q, pages', p);
    assert pages'[..p] == pages[..p] && pages'[p + 1..] == pages[p + 1..];
    MarkedAttempts(q, pages[p], row, p > 0);
    Replaced(Attempts(q, pages[..p]), PageAttempts(q, pages[p], p > 0), Later(q, pages[p + 1..]), row, Skip);
  }

  /** So does the parallel scan. */
  lemma FastSkips(q: Query, pages: seq<seq<byte>>, p: nat, row: nat)
    requires q.Ok() && p < |pages| && Markable(q, pages[p], row) && row < Tried(pages[p], false)
    ensures var i := CellAt(q, pages, p, row);
      var before, after := Flat(FastPages(q, pages)), Flat(FastPages(q, pages[p := Mark(pages[p], row)]));
      && i < |before| && before[i] == CellOf(RowOutcome(q, pages[p], row))
      && after == if q.noSkipDel then before else before[i := Invalid]
  {
    hide RowOutcome, Flat, FastPages, Cells, Mark, Beyond, SameReading;
    var pages' := pages[p := Mark(pages[p], row)];
    FlatSplit(q, pages, p);
    FlatSplit(q, pages', p);
    assert pages'[..p] == pages[..p] && pages'[p + 1..] == pages[p + 1..];
    MarkedCells(q, pages[p], row);
    CellHere(q, pages[p], row);
    Replaced(Flat(FastPages(q, pages[..p])), Cells(q, pages[p]), Flat(FastPages(q, pages[p + 1..])), row, Invalid);
  }

  lemma CellHere(q: Query, page: seq<byte>, row: nat)
    requires q.Ok() && row < Tried(page, false)
    ensures |Cells(q, page)| == Tried(page, false) && Cells(q, page)[row] == CellOf(RowOutcome(q, page, row))
  {
    hide RowOutcome;
    PageRead(q, page);
  }

  lemma ValuesWithout(todo: seq<Outcome>, i: nat)
    requires i < |todo|
    ensures Values(todo) == Values(todo[..i]) + (if todo[i].Row? then [todo[i].values] else []) + Values(todo[i + 1..])
    ensures Values(todo[i := Skip]) == Values(todo[..i]) + Values(todo[i + 1..])
  {
    ValuesAppend(todo[..i], [todo[i]]);
    ValuesAppend(todo[..i] + [todo[i]], todo[i + 1..]);
    assert todo == todo[..i] + [todo[i]] + todo[i + 1..];
    ValuesAppend(todo[..i], [Skip]);
    ValuesAppend(todo[..i] + [Skip], todo[i + 1..]);
    assert todo[i := Skip] == todo[..i] + [Skip] + todo[i + 1..];
  }

  lemma RowsWithout(cells: seq<Cell>, i: nat)
    requires i < |cells|
    ensures Rows(cells) == Rows(cells[..i]) + (if cells[i].Valid? then [cells[i].values] else []) + Rows(cells[i + 1..])
    ensures Rows(cells[i := Invalid]) == Rows(cells[..i]) + Rows(cells[i + 1..])
  {
    RowsAppend(cells[..i], [cells[i]]);
    RowsAppend(cells[..i] + [cells[i]], cells[i + 1..]);
    assert cells == cells[..i] + [cells[i]] + cells[i + 1..];
    RowsAppend(cells[..i], [Invalid]);
    RowsAppend(cells[..i] + [Invalid], cells[i + 1..]);
    assert cells[i := Invalid] == cells[..i] + [Invalid] + cells[i + 1..];
  }

  /** The rows of both scans are the old ones without the marked row. */
  lemma MarkedRowGone(q: Query, pages: seq<seq<byte>>, p: nat, row: nat)
    requires q.Ok() && p < |pages| && Markable(q, pages[p], row) && row < RowCount(pages[p])
    ensures var pages' := pages[p := Mark(pages[p], row)];
      var todo, cells := Attempts(q, pages), Flat(FastPages(q, pages));
      var i, j := AttemptAt(q, pages, p, row), CellAt(q, pages, p, row);
      var here := if RowOutcome(q, pages[p], row).Row? then [RowOutcome(q, pages[p], row).values] else [];
      && i < |todo| && j < |cells|
      && Values(todo) == Values(todo[..i]) + here + Values(todo[i + 1..])
      && Rows(cells) == Rows(cells[..j]) + here + Rows(cells[j + 1..])
      && (if q.noSkipDel then Values(Attempts(q, pages')) == Values(todo) && Rows(Flat(FastPages(q, pages'))) == Rows(cells)
          else && Values(Attempts(q, pages')) == Values(todo[..i]) + Values(todo[i + 1..])
               && Rows(Flat(FastPages(q, pages'))) == Rows(cells[..j]) + Rows(cells[j + 1..]))
  {
    hide RowOutcome, Attempts, Flat, FastPages, Mark, Beyond, SameReading, Values, Rows;
    SyncSkips(q, pages, p, row);
    FastSkips(q, pages, p, row);
    ValuesWithout(Attempts(q, pages), AttemptAt(q, pages, p, row));
    RowsWithout(Flat(FastPages(q, pages)), CellAt(q, pages, p, row));
  }
}
