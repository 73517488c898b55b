/**
 The synchronous scan (internal/gomdb/data.go and the LIMIT of sql.go) against the rows
 the parallel scan hands out.
 */
module SyncScan {
  import opened Bytes
  import opened RowFormat
  import opened ScanModel
  import opened Wrappers
  import PageWalk

  /** What one attempt to read a row comes to. */
  datatype Outcome = Skip | Bad | Row(values: seq<string>)

  datatype Core = Core(start: int, siz: int, isNull: bool)

  /** The WHERE test sees the fields it mentions, the formatting the places of the bound fields. */
  datatype Query = Query(cols: seq<Column>, hasVar: bool, noSkipDel: bool, hasSarg: bool,
                         sargCols: seq<nat>, boundCols: seq<nat>,
                         accept: (seq<byte>, seq<Field>) -> bool, render: (seq<byte>, seq<Core>) -> seq<string>) {
    predicate Ok() {
      && |cols| > 0
      && (forall k :: 0 <= k < |sargCols| ==> sargCols[k] < |cols|)
      && (forall k :: 0 <= k < |boundCols| ==> boundCols[k] < |cols|)
    }
  }

  function CoreOf(f: Field): Core { Core(f.start, f.siz, f.isNull) }

  function Picked(fields: seq<Field>, idx: seq<nat>): (r: seq<Field>)
    requires forall k :: 0 <= k < |idx| ==> idx[k] < |fields|
    ensures |r| == |idx| && forall k :: 0 <= k < |idx| ==> r[k] == fields[idx[k]]
  {
    seq(|idx|, k requires 0 <= k < |idx| => fields[idx[k]])
  }

  function Cores(fields: seq<Field>): (r: seq<Core>)
    ensures |r| == |fields| && forall k :: 0 <= k < |fields| ==> r[k] == CoreOf(fields[k])
  {
    seq(|fields|, k requires 0 <= k < |fields| => CoreOf(fields[k]))
  }

  function AllFields(q: Query, h: Header, page: seq<byte>, start: int, size: int): (r: seq<Field>)
    ensures |r| == |q.cols|
    ensures forall i :: 0 <= i < |r| ==> r[i] == FieldAt(q.cols, i, h, page, start, size)
  {
    seq(|q.cols|, i requires 0 <= i < |q.cols| => FieldAt(q.cols, i, h, page, start, size))
  }

  /** The meaning of reading row `row` of a page. */
  function RowOutcome(q: Query, page: seq<byte>, row: nat): Outcome
    requires q.Ok()
  {
    match FindRow(page, row)
    case None => Skip
    case Some(place) =>
      if place.size == 0 || (Deleted(place.start) && !q.noSkipDel) then Skip
      else
        match CrackHeader(page, Masked(place.start), place.size, q.hasVar)
        case None => Bad
        case Some(h) =>
          var fields := AllFields(q, h, page, Masked(place.start), place.size);
          if q.hasSarg && !q.accept(page, Picked(fields, q.sargCols)) then Skip
          else Row(q.render(page, Cores(Picked(fields, q.boundCols))))
  }

  function CellOf(o: Outcome): Cell { if o.Row? then Valid(o.values) else Invalid }

  // --- the two ways to read a row ---

  /** The synchronous way: crack every column. */
  method ReadRow(q: Query, page: seq<byte>, row: nat, fields: array<Field>) returns (o: Outcome)
    requires q.Ok() && fields.Length == |q.cols|
    modifies fields
    ensures o == RowOutcome(q, page, row)
  {
    var place := FindRow(page, row);
    if place.None? || place.value.size == 0 {
      return Skip;
    }
    var delflag := Deleted(place.value.start);
    var rowStart, rowSize := Masked(place.value.start), place.value.size;
    if !q.noSkipDel && delflag {
      return Skip;
    }
    var ok := CrackRow(q.cols, q.hasVar, page, rowStart, rowSize, fields);
    if !ok {
      return Bad;
    }
    ghost var all := AllFields(q, CrackHeader(page, rowStart, rowSize, q.hasVar).value, page, rowStart, rowSize);
    assert fields[..] == all;
    if q.hasSarg && !q.accept(page, Picked(fields[..], q.sargCols)) {
      return Skip;
    }
    return Row(q.render(page, Cores(Picked(fields[..], q.boundCols))));
  }

  /** What a worker keeps between rows: layouts and the split list of columns to crack. */
  datatype Scratch = Scratch(layouts: seq<Layout>, needValue: seq<bool>, fixedCols: seq<nat>, varCols: seq<nat>)

  predicate ScratchOk(q: Query, s: Scratch)
    requires q.Ok()
  {
    && |s.layouts| == |s.needValue| == |q.cols|
    && (forall i :: 0 <= i < |q.cols| ==> s.layouts[i] == Layout(q.cols[i], FixedBefore(q.cols, i)))
    && (forall j :: 0 <= j < |s.fixedCols| ==> s.fixedCols[j] < |q.cols|)
    && (forall j :: 0 <= j < |s.varCols| ==> s.varCols[j] < |q.cols|)
    && (forall k :: 0 <= k < |q.sargCols| ==>
          (q.sargCols[k] in s.fixedCols || q.sargCols[k] in s.varCols) && s.needValue[q.sargCols[k]])
    && (forall k :: 0 <= k < |q.boundCols| ==> q.boundCols[k] in s.fixedCols || q.boundCols[k] in s.varCols)
  }

  /** A worker's start-up: the layouts, the value mask and the columns to crack, fixed ones apart. */
  method PrepareScratch(q: Query, crackCols: seq<nat>, valueMask: seq<bool>) returns (s: Scratch)
    requires q.Ok() && |valueMask| == |q.cols|
    requires forall j :: 0 <= j < |crackCols| ==> crackCols[j] < |q.cols|
    requires forall k :: 0 <= k < |q.sargCols| ==> q.sargCols[k] in crackCols && valueMask[q.sargCols[k]]
    requires forall k :: 0 <= k < |q.boundCols| ==> q.boundCols[k] in crackCols
    ensures ScratchOk(q, s)
  {
    hide FixedBefore;
    var layouts := BuildCrackLayouts(q.cols);
    var fixedCols: seq<nat>, varCols: seq<nat> := [], [];
    for j := 0 to |crackCols|
      invariant forall k :: 0 <= k < |fixedCols| ==> fixedCols[k] < |q.cols|
      invariant forall k :: 0 <= k < |varCols| ==> varCols[k] < |q.cols|
      invariant forall k :: 0 <= k < j ==> crackCols[k] in fixedCols || crackCols[k] in varCols
    {
      if layouts[crackCols[j]].col.isFixed {
        fixedCols := fixedCols + [crackCols[j]];
      } else {
        varCols := varCols + [crackCols[j]];
      }
    }
    s := Scratch(layouts, valueMask, fixedCols, varCols);
  }

  /** The worker's way: crack only the projected columns; a row that fails to crack is skipped. */
  method ProcessRow(q: Query, s: Scratch, page: seq<byte>, row: nat, fields: array<Field>) returns (cell: Cell)
    requires q.Ok() && ScratchOk(q, s) && fields.Length == |q.cols|
    modifies fields
    ensures cell == CellOf(RowOutcome(q, page, row))
  {
    hide FixedBefore, FindRow, CrackHeader, FieldAt;
    var found := FindRow(page, row);
    if found.None? || found.value.size == 0 {
      return Invalid;
    }
    if Deleted(found.value.start) && !q.noSkipDel {
      return Invalid;
    }
    var rowStart, rowSize := Masked(found.value.start), found.value.size;
    var ok := CrackProjected(q.cols, s.layouts, s.fixedCols, s.varCols, s.needValue, q.hasVar, page, rowStart, rowSize, fields);
    if !ok {
      return Invalid;
    }
    ghost var all := AllFields(q, CrackHeader(page, rowStart, rowSize, q.hasVar).value, page, rowStart, rowSize);
    var inCondition, bound := Picked(fields[..], q.sargCols), Picked(fields[..], q.boundCols);
    assert inCondition == Picked(all, q.sargCols);
    assert Cores(bound) == Cores(Picked(all, q.boundCols));
    if q.hasSarg && !q.accept(page, inCondition) {
      return Invalid;
    }
    return Valid(q.render(page, Cores(bound)));
  }

  // --- what each scan reads ---

  function RowCount(page: seq<byte>): int { Int16At(page, ROW_COUNT) }

  function Max(a: int, b: int): int { if a > b then a else b }

  /** The rows of a page from `from` on. */
  function ReadFrom(q: Query, page: seq<byte>, from: nat): seq<Outcome>
    requires q.Ok()
  {
    seq(Max(0, RowCount(page) - from), (k: int) requires 0 <= k => RowOutcome(q, page, from + k))
  }

  /** On later pages row 0 is read without looking at the row count. */
  function Later(q: Query, pages: seq<seq<byte>>): seq<Outcome>
    requires q.Ok()
  {
    if pages == [] then []
    else [RowOutcome(q, pages[0], 0)] + ReadFrom(q, pages[0], 1) + Later(q, pages[1..])
  }

  /** Every attempt of the synchronous scan, in order. */
  function Attempts(q: Query, pages: seq<seq<byte>>): seq<Outcome>
    requires q.Ok()
  {
    if pages == [] then [] else ReadFrom(q, pages[0], 0) + Later(q, pages[1..])
  }

  /** The rows of one page as the parallel scan sees them. */
  function Cells(q: Query, page: seq<byte>): Page
    requires q.Ok()
  {
    var read := ReadFrom(q, page, 0);
    seq(|read|, k requires 0 <= k < |read| => CellOf(read[k]))
  }

  function FastPages(q: Query, pages: seq<seq<byte>>): seq<Page>
    requires q.Ok()
  {
    if pages == [] then [] else [Cells(q, pages[0])] + FastPages(q, pages[1..])
  }

  /** The rows delivered, and whether the scan ends without an error. */
  function SyncRun(todo: seq<Outcome>, limit: int, count: nat): (seq<seq<string>>, bool) {
    if todo == [] then ([], true)
    else match todo[0]
      case Skip => SyncRun(todo[1..], limit, count)
      case Bad => ([], false)
      case Row(values) =>
        if limit >= 0 && count + 1 > limit then ([], true)
        else
          var (rows, ok) := SyncRun(todo[1..], limit, count + 1);
          ([values] + rows, ok)
  }

  function Values(todo: seq<Outcome>): seq<seq<string>> {
    if todo == [] then [] else (if todo[0].Row? then [todo[0].values] else []) + Values(todo[1..])
  }

  // --- the synchronous loop ---

  function PagesAfter(d: PageWalk.Disk, t: PageWalk.Table, cur: nat): seq<seq<byte>>
    requires d.Ok()
    decreases |d.pages| - cur
  {
    match PageWalk.NextDpg(d, t, cur, false)
    case Page(p) => [d.pages[p]] + PagesAfter(d, t, p)
    case NoMore(_) => []
  }

  /** Position of the first attempt that is not skipped. */
  function Hit(todo: seq<Outcome>): (i: nat)
    ensures i <= |todo| && (i < |todo| ==> !todo[i].Skip?)
  {
    if todo == [] || !todo[0].Skip? then 0 else 1 + Hit(todo[1..])
  }

  /** The rest of a page and all later pages. */
  function Rest(q: Query, page: seq<byte>, row: nat, pages: seq<seq<byte>>): seq<Outcome>
    requires q.Ok()
  {
    ReadFrom(q, page, row) + Later(q, pages)
  }

  lemma ReadStep(q: Query, page: seq<byte>, from: nat)
    requires q.Ok()
    ensures from < RowCount(page) ==> ReadFrom(q, page, from) == [RowOutcome(q, page, from)] + ReadFrom(q, page, from + 1)
    ensures from >= RowCount(page) ==> ReadFrom(q, page, from) == []
  {
    hide RowOutcome;
  }

  lemma SamePage(q: Query, page: seq<byte>, row: nat, pages: seq<seq<byte>>)
    requires q.Ok() && row < RowCount(page)
    ensures Rest(q, page, row, pages) == [RowOutcome(q, page, row)] + Rest(q, page, row + 1, pages)
  {
    hide RowOutcome, ReadFrom, Later;
    ReadStep(q, page, row);
  }

  lemma NextPage(q: Query, page: seq<byte>, row: nat, d: PageWalk.Disk, t: PageWalk.Table, cur: nat)
    requires q.Ok() && d.Ok() && row >= RowCount(page)
    ensures var next := PageWalk.NextDpg(d, t, cur, false);
            Rest(q, page, row, PagesAfter(d, t, cur)) ==
              if next.Page? then
                [RowOutcome(q, d.pages[next.p], 0)] + Rest(q, d.pages[next.p], 1, PagesAfter(d, t, next.p))
              else []
  {
    hide RowOutcome, ReadFrom;
    ReadStep(q, page, row);
    var next := PageWalk.NextDpg(d, t, cur, false);
    if next.Page? {
      assert PagesAfter(d, t, cur)[1..] == PagesAfter(d, t, next.p);
    }
  }

  lemma FirstPage(q: Query, d: PageWalk.Disk, t: PageWalk.Table)
    requires q.Ok() && d.Ok()
    ensures var next := PageWalk.NextDpg(d, t, 0, false);
            Attempts(q, PagesAfter(d, t, 0)) ==
              if next.Page? then Rest(q, d.pages[next.p], 0, PagesAfter(d, t, next.p)) else []
  {
    hide RowOutcome, ReadFrom, Later;
    var next := PageWalk.NextDpg(d, t, 0, false);
    if next.Page? {
      assert PagesAfter(d, t, 0)[1..] == PagesAfter(d, t, next.p);
    }
  }

  lemma HitHere(todo: seq<Outcome>, n: nat)
    requires n < |todo|
    ensures Hit(todo[n..]) == if todo[n].Skip? then 1 + Hit(todo[n + 1..]) else 0
  {
    assert todo[n..][1..] == todo[n + 1..];
  }

  class SyncTable {
    const q: Query
    const cursor: PageWalk.Cursor
    const fields: array<Field>
    var curPgNum: nat
    var curRow: nat

    constructor (q: Query, cursor: PageWalk.Cursor)
      requires q.Ok() && cursor.disk.Ok() && cursor.table.Ok() && cursor.curPhysPg == 0
      ensures this.q == q && this.cursor == cursor && fresh(fields) && curPgNum == 0 && Valid()
    {
      this.q, this.cursor := q, cursor;
      fields := new Field[|q.cols|](_ => Field(0, 0, true, None));
      curPgNum, curRow := 0, 0;
    }

    ghost predicate Valid()
      reads this, cursor
    {
      && q.Ok() && cursor.disk.Ok() && cursor.table.Ok() && fields.Length == |q.cols|
      && (if curPgNum == 0 then cursor.curPhysPg == 0
          else cursor.curPhysPg < |cursor.disk.pages| && cursor.pgBuf == cursor.disk.pages[cursor.curPhysPg])
    }

    /** The attempts still to come. */
    ghost function Todo(): seq<Outcome>
      requires Valid()
      reads this, cursor
    {
      var pages := PagesAfter(cursor.disk, cursor.table, cursor.curPhysPg);
      if curPgNum == 0 then Attempts(q, pages) else Rest(q, cursor.pgBuf, curRow, pages)
    }

    /** Moves to the first page of the table. */
    method Start() returns (ok: bool)
      requires Valid() && curPgNum == 0
      modifies this, cursor
      ensures !ok ==> old(Todo()) == []
      ensures ok ==> Valid() && curPgNum > 0 && Todo() == old(Todo())
    {
      hide Attempts, PagesAfter, PageWalk.NextDpg, Rest;
      FirstPage(q, cursor.disk, cursor.table);
      curPgNum := 1;
      curRow := 0;
      ok := cursor.ReadNextDpg();
    }

    /** One attempt: the next row of the page, or row 0 of the next page. */
    method Attempt() returns (more: bool, o: Outcome)
      requires Valid() && curPgNum > 0
      modifies this, cursor, fields
      ensures !more ==> old(Todo()) == []
      ensures more ==> Valid() && curPgNum > 0 && old(Todo()) == [o] + Todo()
    {
      hide PagesAfter, PageWalk.NextDpg, Rest, RowOutcome;
      var rows := RowCount(cursor.pgBuf);
      if curRow >= rows {
        NextPage(q, cursor.pgBuf, curRow, cursor.disk, cursor.table, cursor.curPhysPg);
        curRow := 0;
        var ok := cursor.ReadNextDpg();
        if !ok {
          return false, Skip;
        }
      } else {
        SamePage(q, cursor.pgBuf, curRow, PagesAfter(cursor.disk, cursor.table, cursor.curPhysPg));
      }
      o := ReadRow(q, cursor.pgBuf, curRow, fields);
      curRow := curRow + 1;
      return true, o;
    }

    /** Reads on to the next matching row. */
    method FetchRow() returns (o: Outcome)
      requires Valid()
      modifies this, cursor, fields
      ensures var todo := old(Todo());
              if Hit(todo) == |todo| then o == Skip
              else o == todo[Hit(todo)] && Valid() && curPgNum > 0 && Todo() == todo[Hit(todo) + 1..]
    {
      hide Valid, Todo, Hit;
      ghost var todo := Todo();
      HitNone();
      if curPgNum == 0 {
        var ok := Start();
        if !ok {
          return Skip;
        }
      }
      ghost var n := 0;
      assert todo[0..] == todo;
      while true
        invariant Valid() && curPgNum > 0 && n <= |todo| && Todo() == todo[n..]
        invariant Hit(todo) == n + Hit(todo[n..])
        decreases |todo| - n
      {
        var more;
        more, o := Attempt();
        if !more {
          return Skip;
        }
        assert todo[n] == todo[n..][0] == o && todo[n..][1..] == todo[n + 1..];
        HitHere(todo, n);
        n := n + 1;
        if !o.Skip? {
          return;
        }
      }
    }

    /** The driver's loop: fetch until the end, an error, or the LIMIT. */
    method ScanAll(limit: int) returns (rows: seq<seq<string>>, ok: bool)
      requires Valid()
      modifies this, cursor, fields
      ensures (rows, ok) == SyncRun(old(Todo()), limit, 0)
    {
      hide Valid, Todo, Hit, SyncRun;
      rows := [];
      ghost var todo, goal := Todo(), SyncRun(Todo(), limit, 0);
      assert [] + goal.0 == goal.0;
      while true
        invariant Valid() && todo == Todo()
        invariant goal == (rows + SyncRun(todo, limit, |rows|).0, SyncRun(todo, limit, |rows|).1)
        decreases |todo|
      {
        RunToHit(todo, limit, |rows|);
        var o := FetchRow();
        assert rows + [] == rows;
        if o.Bad? {
          return rows, false;
        }
        if o.Skip? || (limit >= 0 && |rows| + 1 > limit) {
          return rows, true;
        }
        todo := todo[Hit(todo) + 1..];
        ghost var more := SyncRun(todo, limit, |rows| + 1).0;
        assert rows + ([o.values] + more) == rows + [o.values] + more;
        rows := rows + [o.values];
      }
    }
  }

  lemma HitNone()
    ensures Hit([]) == 0
  {
  }

  /** What a run makes of the first attempt that is not skipped. */
  lemma {:induction false} RunToHit(todo: seq<Outcome>, limit: int, count: nat)
    ensures SyncRun(todo, limit, count) ==
      if Hit(todo) == |todo| then ([], true)
      else if todo[Hit(todo)].Bad? then ([], false)
      else if limit >= 0 && count + 1 > limit then ([], true)
      else
        var (rows, ok) := SyncRun(todo[Hit(todo) + 1..], limit, count + 1);
        ([todo[Hit(todo)].values] + rows, ok)
  {
    if todo != [] && todo[0].Skip? {
      RunToHit(todo[1..], limit, count);
      if Hit(todo) < |todo| { assert todo[1..][Hit(todo[1..]) + 1..] == todo[Hit(todo) + 1..]; }
    }
  }
}
