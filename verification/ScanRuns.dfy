/** The pipeline's promises, over whole runs and every interleaving. */
module ScanRuns {
  import opened ScanModel
  import opened ScanInvariant
  import opened ScanShape
  import opened ScanLedger
  import opened ScanMeaning
  import opened ScanProgress

  /** Who is where, at every point of every run. */
  lemma {:induction false} RunShape(c: Config, ss: seq<State>, steps: seq<Step>, k: nat)
    requires c.Ok() && Run(c, ss, steps) && k <= |steps|
    ensures Shape(c, ss[k])
  {
    hide Shape, Inv, Do, Enabled;
    if k == 0 {
      InitKeeps(c);
      Parts(c, Init(c));
    } else {
      RunShape(c, ss, steps, k - 1);
      StepShape(c, ss[k - 1], steps[k - 1]);
    }
  }

  /** Which tasks are outstanding, as far as the run is tidy. */
  lemma {:induction false} RunOutstanding(c: Config, ss: seq<State>, steps: seq<Step>, k: nat)
    requires c.Ok() && Run(c, ss, steps) && k <= |steps|
    requires forall j :: 0 <= j < k ==> !Untidy(ss[j], steps[j])
    ensures Outstanding(c, ss[k])
  {
    hide Shape, Outstanding, Inv, Do, Enabled, Untidy;
    if k == 0 {
      InitKeeps(c);
      Parts(c, Init(c));
    } else {
      RunOutstanding(c, ss, steps, k - 1);
      RunShape(c, ss, steps, k - 1);
      StepOutstanding(c, ss[k - 1], steps[k - 1]);
    }
  }

  /** The whole invariant, as far as the run is careful; so far it is tidy too. */
  lemma {:induction false} RunKeeps(c: Config, ss: seq<State>, steps: seq<Step>, k: nat)
    requires c.Ok() && Run(c, ss, steps) && k <= |steps|
    requires forall j :: 0 <= j < k ==> !Premature(ss[j], steps[j])
    ensures Inv(c, ss[k])
    ensures forall j :: 0 <= j < k ==> !Untidy(ss[j], steps[j])
  {
    hide Inv, Do, Enabled, Premature, Untidy;
    if k == 0 {
      InitKeeps(c);
    } else {
      RunKeeps(c, ss, steps, k - 1);
      StepKeeps(c, ss[k - 1], steps[k - 1]);
    }
  }

  lemma {:induction false} RowsPrefix(cells: seq<Cell>, k: nat)
    requires k <= |cells|
    ensures Rows(cells[..k]) <= Rows(cells)
    decreases |cells| - k
  {
    if k < |cells| {
      assert cells[..k + 1][..k] == cells[..k];
      RowsPrefix(cells, k + 1);
    } else {
      assert cells[..k] == cells;
    }
  }

  /** Safety: at every moment the rows handed out are those of a prefix of the table, cut at LIMIT. */
  lemma RowsInOrder(c: Config, ss: seq<State>, steps: seq<Step>, k: nat)
    requires c.Ok() && Run(c, ss, steps) && Careful(ss, steps) && k <= |steps|
    ensures var s := ss[k];
            s.seen <= |Flat(c.pages)| && s.out == Cut(Rows(Flat(c.pages)[..s.seen]), c.limit)
    ensures ss[k].out <= Rows(Flat(c.pages))
  {
    RunKeeps(c, ss, steps, k);
    assert OutputOK(c, ss[k]);
    RowsPrefix(Flat(c.pages), ss[k].seen);
  }

  /** A batch is in the hands of the consumer only when all of its tasks are done and every slot is written. */
  lemma DeliveredComplete(c: Config, ss: seq<State>, steps: seq<Step>, k: nat, b: nat, j: nat)
    requires c.Ok() && Run(c, ss, steps) && Careful(ss, steps) && k <= |steps|
    requires ss[k].consumer.ReadingRows? && b == ss[k].consumer.b
    ensures b < |ss[k].batches| && ss[k].consumer.idx <= ss[k].seen
    ensures var bt := ss[k].batches[b];
            bt.ready && bt.doneSending && bt.remaining == 0
            && (j < bt.n ==> RightAt(c, bt.slots, ss[k].seen - ss[k].consumer.idx, j))
  {
    RunKeeps(c, ss, steps, k);
    var bt := ss[k].batches[b];
    assert BatchOK(c, bt) && BatchRange(bt) && Counted(bt);
    if j < bt.n { DeliveredRight(c, bt, j); }
  }

  /**
   In every run slot tokens are conserved, the pool never overflows and at most `IN_FLIGHT` batches
   ever exist; a consumer about to return a token therefore never blocks.
   */
  lemma TokensConserved(c: Config, ss: seq<State>, steps: seq<Step>, k: nat)
    requires c.Ok() && Run(c, ss, steps) && k <= |steps|
    ensures var s := ss[k];
            s.free + One(s.held) + InFlight(s) + One(s.consumer.ReadingRows? || s.consumer.Returning?) == IN_FLIGHT
            && 0 <= InFlight(s) && |s.batches| <= IN_FLIGHT && |s.pool| <= POOL_BATCHES
    ensures ss[k].consumer.Returning? ==> Enabled(c, ss[k], Consume)
    ensures ss[k].consumer.ReadingRows? ==> |ss[k].pool| < POOL_BATCHES
  {
    hide PlaceOK, RangesOK, RolesOK, ChainInv, ConsumerOK;
    RunShape(c, ss, steps, k);
    assert CountsOK(ss[k]);
  }

  lemma {:induction false} RunLowers(c: Config, ss: seq<State>, steps: seq<Step>, k: nat)
    requires c.Ok() && Run(c, ss, steps) && k <= |steps|
    ensures ss[k].np <= |c.pages| && Potential(c, ss[k]) + k <= Potential(c, Init(c))
  {
    hide Shape, Potential, Do, Enabled;
    if k > 0 {
      RunLowers(c, ss, steps, k - 1);
      RunShape(c, ss, steps, k - 1);
      ShapeReads(c, ss[k - 1]);
      StepLowers(c, ss[k - 1], steps[k - 1]);
    }
  }

  lemma {:induction false} IdleWorkers(n: nat)
    ensures Workers(seq(n, _ => Idle)) == n
  {
    if n > 0 {
      IdleWorkers(n - 1);
      assert seq(n, _ => Idle)[..n - 1] == seq(n - 1, _ => Idle);
    }
  }

  /** Every run, careful or not, ends within a bound linear in the size of the table. */
  lemma RunsAreFinite(c: Config, ss: seq<State>, steps: seq<Step>)
    requires c.Ok() && Run(c, ss, steps)
    ensures |steps| <= 31 * |Flat(c.pages)| + |c.pages| + c.workers + 17
  {
    RunLowers(c, ss, steps, |steps|);
    RunShape(c, ss, steps, |steps|);
    PotentialNonNegative(c, ss[|steps|]);
    IdleWorkers(c.workers);
    InitPotential(c);
  }

  lemma InitPotential(c: Config)
    ensures Potential(c, Init(c)) == 31 * |Flat(c.pages)| + |c.pages| + c.workers + 17
  {
    IdleWorkers(c.workers);
  }

  /** A tidy run that is not cancelled and cannot go on has ended, even if signals came too early. */
  lemma TidyRunsEnd(c: Config, ss: seq<State>, steps: seq<Step>)
    requires c.Ok() && Run(c, ss, steps) && Tidy(ss, steps)
    requires var s := ss[|steps|]; !s.cancelled && forall step :: Moves(step) ==> !Enabled(c, s, step)
    ensures ss[|steps|].consumer == Ended(c.failed)
  {
    var s := ss[|steps|];
    hide PlaceOK, RangesOK, RolesOK, ChainInv, CountsOK, Outstanding, Enabled;
    RunShape(c, ss, steps, |steps|);
    RunOutstanding(c, ss, steps, |steps|);
    if !s.consumer.Ended? { NeverStuck(c, s); }
    assert ConsumerOK(c, s);
  }

  /**
   Liveness: a careful run that is not cancelled and cannot go on has ended, with exactly the rows of
   the table in page-then-row order, cut at LIMIT. With `RunsAreFinite`, every schedule gets there.
   */
  lemma CompleteAtTheEnd(c: Config, ss: seq<State>, steps: seq<Step>)
    requires c.Ok() && Run(c, ss, steps) && Careful(ss, steps)
    requires var s := ss[|steps|]; !s.cancelled && forall step :: Moves(step) ==> !Enabled(c, s, step)
    ensures var s := ss[|steps|];
            s.consumer == Ended(c.failed) && s.out == Cut(Rows(Flat(c.pages)), c.limit)
  {
    var s := ss[|steps|];
    hide PlaceOK, RangesOK, RolesOK, ChainInv, CountsOK, Outstanding, Enabled;
    RunKeeps(c, ss, steps, |steps|);
    TidyRunsEnd(c, ss, steps);
    assert ConsumerOK(c, s) && OutputOK(c, s);
    assert Flat(c.pages)[..s.seen] == Flat(c.pages);
  }

  /**
   `close` returns in every run: after a cancel, when the goroutines it waits for cannot move they are
   all gone. They need nothing from the consumer, and `RunsAreFinite` bounds their moves.
   */
  lemma CloseReturns(c: Config, ss: seq<State>, steps: seq<Step>)
    requires c.Ok() && Run(c, ss, steps)
    requires var s := ss[|steps|]; s.cancelled && forall step :: Background(step) ==> !Enabled(c, s, step)
    ensures AllGone(ss[|steps|])
  {
    hide Shape, Enabled;
    RunShape(c, ss, steps, |steps|);
    if !AllGone(ss[|steps|]) { CloseNeverStuck(c, ss[|steps|]); }
  }

  // --- when a run is careful ---

  /** No batch is signalled ready before all of its tasks are sent and processed. */
  predicate Sound(s: State) {
    forall b :: 0 <= b < |s.batches| && s.batches[b].ready ==> s.batches[b].doneSending && s.batches[b].remaining == 0
  }

  /** Exactly the careful runs never signal an unfinished batch. */
  lemma ReadinessExact(c: Config, ss: seq<State>, steps: seq<Step>)
    requires c.Ok() && Run(c, ss, steps)
    ensures Careful(ss, steps) <==> forall k :: 0 <= k < |ss| ==> Sound(ss[k])
  {
    if Careful(ss, steps) {
      forall k | 0 <= k < |ss| ensures Sound(ss[k]) {
        RunKeeps(c, ss, steps, k);
        forall b | 0 <= b < |ss[k].batches| && ss[k].batches[b].ready
          ensures ss[k].batches[b].doneSending && ss[k].batches[b].remaining == 0
        { assert BatchOK(c, ss[k].batches[b]) && Counted(ss[k].batches[b]); }
      }
    } else {
      var k :| 0 <= k < |steps| && Premature(ss[k], steps[k]);
      var b := ss[k].workers[steps[k].w].b;
      assert Enabled(c, ss[k], steps[k]) && ss[k + 1] == Do(c, ss[k], steps[k]);
      assert DoWork(c, ss[k], steps[k].w) == MarkReady(ss[k], steps[k].w, b);
      assert ss[k + 1].batches[b].ready;
      assert !Sound(ss[k + 1]);
    }
  }

  /** A worker signals too early only if its batch was recycled between its two loads of line 505. */
  lemma PrematureNeedsRecycling(c: Config, s: State, step: Step)
    requires Outstanding(c, s) && Premature(s, step)
    ensures var v := s.workers[step.w]; v.g < s.batches[v.b].log.gen
  {
    var v := s.workers[step.w];
    assert WorkerOK(c, s, step.w);
    assert Counted(s.batches[v.b]);
  }

  /** Single-use batches: every batch is still in its first generation. */
  predicate SingleUse(s: State) { forall b :: 0 <= b < |s.batches| ==> s.batches[b].log.gen == 0 }

  lemma {:induction false} SingleUseIsCareful(c: Config, ss: seq<State>, steps: seq<Step>, k: nat)
    requires c.Ok() && Run(c, ss, steps) && k <= |steps| && forall j :: 0 <= j < k ==> SingleUse(ss[j])
    ensures forall j :: 0 <= j < k ==> !Premature(ss[j], steps[j])
    ensures k == |steps| ==> Careful(ss, steps)
  {
    hide Inv, Outstanding;
    if k > 0 {
      SingleUseIsCareful(c, ss, steps, k - 1);
      RunKeeps(c, ss, steps, k - 1);
      Parts(c, ss[k - 1]);
      assert SingleUse(ss[k - 1]);
      if Premature(ss[k - 1], steps[k - 1]) { PrematureNeedsRecycling(c, ss[k - 1], steps[k - 1]); }
    }
  }

  /** A worker that has loaded `doneSending` but not yet finished its test. */
  predicate Midway(v: Worker) { v.TestRemaining? || v.Signal? }

  /** The decrement-and-test of lines 504-506 is one step: nobody moves while a worker is midway. */
  predicate AtomicTest(s: State, step: Step) {
    forall w :: 0 <= w < |s.workers| && Midway(s.workers[w]) ==> step == Work(w)
  }

  predicate CurrentTests(s: State) {
    forall w :: 0 <= w < |s.workers| && Midway(s.workers[w]) ==>
      s.workers[w].b < |s.batches| && s.workers[w].g == s.batches[s.workers[w].b].log.gen
  }

  lemma OnlyWorkMovesWorkers(c: Config, s: State, step: Step)
    requires Enabled(c, s, step) && !step.Work?
    ensures Do(c, s, step).workers == s.workers
  {
    match step
    case Produce(arena) => assert DoProduce(c, s, arena).workers == s.workers;
    case Consume => assert DoConsume(c, s).workers == s.workers;
    case _ =>
  }

  lemma AtomicWork(c: Config, s: State, w: nat)
    requires CurrentTests(s) && AtomicTest(s, Work(w)) && CanWork(c, s, w)
    ensures CurrentTests(DoWork(c, s, w))
  {
  }

  lemma AtomicStep(c: Config, s: State, step: Step)
    requires CurrentTests(s) && AtomicTest(s, step) && Enabled(c, s, step)
    ensures CurrentTests(Do(c, s, step))
  {
    hide DoProduce, DoWork, DoEnqueue, DoConsume;
    if step.Work? { AtomicWork(c, s, step.w); } else { OnlyWorkMovesWorkers(c, s, step); }
  }

  lemma {:induction false} AtomicIsCareful(c: Config, ss: seq<State>, steps: seq<Step>, k: nat)
    requires c.Ok() && Run(c, ss, steps) && k <= |steps|
    requires forall j :: 0 <= j < |steps| ==> AtomicTest(ss[j], steps[j])
    ensures forall j :: 0 <= j < k ==> !Premature(ss[j], steps[j])
    ensures CurrentTests(ss[k])
    ensures k == |steps| ==> Careful(ss, steps)
  {
    hide Inv, Outstanding, Do, DoWork;
    if k > 0 {
      AtomicIsCareful(c, ss, steps, k - 1);
      RunKeeps(c, ss, steps, k - 1);
      Parts(c, ss[k - 1]);
      if Premature(ss[k - 1], steps[k - 1]) { PrematureNeedsRecycling(c, ss[k - 1], steps[k - 1]); }
      AtomicStep(c, ss[k - 1], steps[k - 1]);
    }
  }
}
