/** The parallel scan returns what the synchronous scan returns: exactly when. */
module ScanRefinement {
  import opened Bytes
  import opened RowFormat
  import opened ScanModel
  import opened ScanProgress
  import opened ScanRuns
  import opened SyncScan
  import opened Wrappers
  import PageWalk

  // --- rows of concatenations ---

  lemma {:induction false} RowsAppend(a: seq<Cell>, b: seq<Cell>)
    ensures Rows(a + b) == Rows(a) + Rows(b)
    decreases |b|
  {
    if b == [] {
      assert a + b == a;
    } else {
      var n := |b| - 1;
      RowsAppend(a, b[..n]);
      assert (a + b)[..|a + b| - 1] == a + b[..n];
    }
  }

  lemma {:induction false} FlatCons(p: Page, ps: seq<Page>)
    ensures Flat([p] + ps) == p + Flat(ps)
    decreases |ps|
  {
    if ps == [] {
      assert ([p] + ps)[..0] == [];
      assert [] + p == p + [];
    } else {
      var n := |ps| - 1;
      FlatCons(p, ps[..n]);
      assert ([p] + ps)[..n + 1] == [p] + ps[..n];
    }
  }

  lemma {:induction false} ValuesAppend(a: seq<Outcome>, b: seq<Outcome>)
    ensures Values(a + b) == Values(a) + Values(b)
  {
    if a == [] {
      assert a + b == b;
    } else {
      ValuesAppend(a[1..], b);
      assert (a + b)[1..] == a[1..] + b;
    }
  }

  function AsCells(todo: seq<Outcome>): seq<Cell> { seq(|todo|, k requires 0 <= k < |todo| => CellOf(todo[k])) }

  lemma {:induction false} ValuesAreRows(todo: seq<Outcome>)
    ensures Rows(AsCells(todo)) == Values(todo)
  {
    if todo != [] {
      ValuesAreRows(todo[1..]);
      assert AsCells(todo) == [CellOf(todo[0])] + AsCells(todo[1..]);
      RowsAppend([CellOf(todo[0])], AsCells(todo[1..]));
      assert [CellOf(todo[0])][..0] == [];
    }
  }

  // --- what the synchronous scan reads beyond the row counts ---

  /** A later page without rows whose row 0 nevertheless comes out as a row. */
  predicate Phantom(q: Query, page: seq<byte>)
    requires q.Ok()
  {
    RowCount(page) <= 0 && RowOutcome(q, page, 0).Row?
  }

  function Phantoms(q: Query, pages: seq<seq<byte>>): nat
    requires q.Ok()
  {
    if pages == [] then 0 else (if Phantom(q, pages[0]) then 1 else 0) + Phantoms(q, pages[1..])
  }

  lemma PageValues(q: Query, page: seq<byte>)
    requires q.Ok()
    ensures Values(ReadFrom(q, page, 0)) == Rows(Cells(q, page))
  {
    hide RowOutcome;
    ValuesAreRows(ReadFrom(q, page, 0));
    assert AsCells(ReadFrom(q, page, 0)) == Cells(q, page);
  }

  lemma LaterPage(q: Query, page: seq<byte>)
    requires q.Ok()
    ensures var todo := [RowOutcome(q, page, 0)] + ReadFrom(q, page, 1);
            if Phantom(q, page) then |Values(todo)| == |Rows(Cells(q, page))| + 1
            else Values(todo) == Rows(Cells(q, page))
  {
    hide RowOutcome, Cells;
    PageValues(q, page);
    ReadStep(q, page, 0);
    ReadStep(q, page, 1);
    var first := RowOutcome(q, page, 0);
    assert ([first] + ReadFrom(q, page, 1))[1..] == ReadFrom(q, page, 1);
  }

  lemma {:induction false} LaterValues(q: Query, pages: seq<seq<byte>>)
    requires q.Ok()
    ensures |Values(Later(q, pages))| == |Rows(Flat(FastPages(q, pages)))| + Phantoms(q, pages)
    ensures Phantoms(q, pages) == 0 ==> Values(Later(q, pages)) == Rows(Flat(FastPages(q, pages)))
  {
    hide RowOutcome, ReadFrom, Cells, Phantom, Rows, Flat, Values;
    if pages == [] {
      NoValues();
    } else {
      var rest := pages[1..];
      var first := [RowOutcome(q, pages[0], 0)] + ReadFrom(q, pages[0], 1);
      LaterPage(q, pages[0]);
      LaterValues(q, rest);
      ValuesAppend(first, Later(q, rest));
      FlatCons(Cells(q, pages[0]), FastPages(q, rest));
      RowsAppend(Cells(q, pages[0]), Flat(FastPages(q, rest)));
    }
  }

  lemma NoValues()
    ensures Values([]) == [] && Flat([]) == [] && Rows([]) == []
  {
  }

  lemma AttemptsValues(q: Query, pages: seq<seq<byte>>)
    requires q.Ok()
    ensures var phantoms := if pages == [] then 0 else Phantoms(q, pages[1..]);
            |Values(Attempts(q, pages))| == |Rows(Flat(FastPages(q, pages)))| + phantoms
            && (phantoms == 0 ==> Values(Attempts(q, pages)) == Rows(Flat(FastPages(q, pages))))
  {
    hide RowOutcome, ReadFrom, Cells, Rows, Flat, Values, Later, Phantoms;
    NoValues();
    if pages != [] {
      var rest := pages[1..];
      PageValues(q, pages[0]);
      LaterValues(q, rest);
      ValuesAppend(ReadFrom(q, pages[0], 0), Later(q, rest));
      FlatCons(Cells(q, pages[0]), FastPages(q, rest));
      RowsAppend(Cells(q, pages[0]), Flat(FastPages(q, rest)));
    }
  }

  // --- the run and its LIMIT ---

  predicate NoBad(todo: seq<Outcome>) { forall k :: 0 <= k < |todo| ==> !todo[k].Bad? }

  lemma CutCons(v: seq<string>, rows: seq<seq<string>>, limit: int)
    ensures limit != 0 ==> Cut([v] + rows, limit) == [v] + Cut(rows, if limit < 0 then limit else limit - 1)
    ensures limit == 0 ==> Cut([v] + rows, limit) == []
  {
    if 0 < limit <= |rows| { assert ([v] + rows)[..limit] == [v] + rows[..limit - 1]; }
  }

  lemma {:induction false} RunWithoutBad(todo: seq<Outcome>, limit: int, count: nat)
    requires NoBad(todo) && (limit < 0 || count <= limit)
    ensures SyncRun(todo, limit, count) == (Cut(Values(todo), if limit < 0 then limit else limit - count), true)
  {
    hide Cut;
    if todo == [] {
      CutNone(if limit < 0 then limit else limit - count);
    } else {
      var rest := Values(todo[1..]);
      assert Values(todo) == if todo[0].Row? then [todo[0].values] + rest else rest;
      if todo[0].Row? {
        CutCons(todo[0].values, rest, if limit < 0 then limit else limit - count);
        if limit < 0 || count < limit { RunWithoutBad(todo[1..], limit, count + 1); }
      } else {
        RunWithoutBad(todo[1..], limit, count);
      }
    }
  }

  lemma CutNone(limit: int)
    ensures Cut([], limit) == []
  {
  }

  lemma {:induction false} BadStops(todo: seq<Outcome>, count: nat)
    ensures SyncRun(todo, -1, count).1 ==> NoBad(todo)
  {
    if todo != [] && !todo[0].Bad? {
      BadStops(todo[1..], if todo[0].Row? then count + 1 else count);
      assert forall k :: 1 <= k < |todo| ==> todo[k] == todo[1..][k - 1];
    }
  }

  // --- the refinement ---

  /** No row fails to crack, and no page after the first that counts no rows holds one anyway. */
  predicate Clean(q: Query, pages: seq<seq<byte>>)
    requires q.Ok()
  {
    NoBad(Attempts(q, pages)) && forall k :: 1 <= k < |pages| ==> !Phantom(q, pages[k])
  }

  lemma {:induction false} PhantomsZero(q: Query, pages: seq<seq<byte>>)
    requires q.Ok()
    ensures Phantoms(q, pages) == 0 <==> forall k :: 0 <= k < |pages| ==> !Phantom(q, pages[k])
  {
    hide Phantom;
    if pages != [] {
      PhantomsZero(q, pages[1..]);
      assert forall k :: 1 <= k < |pages| ==> pages[k] == pages[1..][k - 1];
    }
  }

  /** The rows of the parallel scan, cut at LIMIT, are those of the synchronous scan for every LIMIT exactly on clean pages. */
  lemma SyncExact(q: Query, pages: seq<seq<byte>>)
    requires q.Ok()
    ensures Clean(q, pages) <==>
      forall limit :: SyncRun(Attempts(q, pages), limit, 0) == (Cut(Rows(Flat(FastPages(q, pages))), limit), true)
  {
    hide RowOutcome, Phantom, Values, Rows, Flat, FastPages, Later, Attempts, NoBad, Phantoms;
    var todo := Attempts(q, pages);
    var rows := Rows(Flat(FastPages(q, pages)));
    AttemptsValues(q, pages);
    if pages != [] {
      PhantomsZero(q, pages[1..]);
      assert forall k :: 1 <= k < |pages| ==> pages[k] == pages[1..][k - 1];
      assert forall k :: 0 <= k < |pages[1..]| ==> pages[1..][k] == pages[k + 1];
    }
    if Clean(q, pages) {
      forall limit ensures SyncRun(todo, limit, 0) == (Cut(rows, limit), true) { RunWithoutBad(todo, limit, 0); }
    } else if SyncRun(todo, -1, 0) == (Cut(rows, -1), true) {
      BadStops(todo, 0);
      RunWithoutBad(todo, -1, 0);
      assert false;
    }
  }

  /**
   Every complete, careful run of the pipeline over the pages of a walk hands out the rows the
   synchronous loop returns for the same table and LIMIT.
   */
  lemma FastEqualsSync(q: Query, d: PageWalk.Disk, t: PageWalk.Table, c: Config, ss: seq<State>, steps: seq<Step>)
    requires q.Ok() && d.Ok() && c.Ok() && Run(c, ss, steps) && Careful(ss, steps)
    requires c.pages == FastPages(q, PagesAfter(d, t, 0)) && !c.failed && Clean(q, PagesAfter(d, t, 0))
    requires var s := ss[|steps|]; !s.cancelled && forall step :: Moves(step) ==> !Enabled(c, s, step)
    ensures ss[|steps|].consumer == Ended(false)
    ensures (ss[|steps|].out, true) == SyncRun(Attempts(q, PagesAfter(d, t, 0)), c.limit, 0)
  {
    hide Clean, SyncRun, Attempts, FastPages;
    CompleteAtTheEnd(c, ss, steps);
    SyncExact(q, PagesAfter(d, t, 0));
  }
}
