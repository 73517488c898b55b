/**
 When the ready signal can be trusted whatever the scheduler does: exactly when the table fits
 one batch. For every larger table there is a run, at the constants of the code, in which a
 worker paused inside line 505 signals a recycled batch, and tables of that size can then hand
 out a wrong row.
 */
module ScanRace {
  import opened Wrappers
  import opened ScanModel
  import opened ScanInvariant
  import opened ScanShape
  import opened ScanLedger
  import opened ScanMeaning
  import opened ScanRuns

  /** Running a list of careful steps from a state, if each of them is enabled. */
  ghost predicate Exec(c: Config, s: State, steps: seq<Step>, s': State)
    decreases |steps|
  {
    if steps == [] then s' == s
    else Enabled(c, s, steps[0]) && !Premature(s, steps[0]) && Exec(c, Do(c, s, steps[0]), steps[1..], s')
  }

  ghost predicate Reaches(c: Config, s: State, s': State) { exists steps :: Exec(c, s, steps, s') }

  lemma OneStep(c: Config, s: State, step: Step, s': State)
    requires Enabled(c, s, step) && !Premature(s, step) && Do(c, s, step) == s'
    ensures Reaches(c, s, s')
  {
    assert [step][1..] == [];
    assert Exec(c, s, [step], s');
  }

  lemma {:induction false} ExecJoin(c: Config, s: State, xs: seq<Step>, m: State, ys: seq<Step>, s': State)
    requires Exec(c, s, xs, m) && Exec(c, m, ys, s')
    ensures Exec(c, s, xs + ys, s')
    decreases |xs|
  {
    if xs == [] {
      assert xs + ys == ys;
    } else {
      ExecJoin(c, Do(c, s, xs[0]), xs[1..], m, ys, s');
      assert (xs + ys)[1..] == xs[1..] + ys;
    }
  }

  lemma Join(c: Config, s: State, m: State, s': State)
    requires Reaches(c, s, m) && Reaches(c, m, s')
    ensures Reaches(c, s, s')
  {
    var xs :| Exec(c, s, xs, m);
    var ys :| Exec(c, m, ys, s');
    ExecJoin(c, s, xs, m, ys, s');
  }

  lemma Then(c: Config, s: State, m: State, step: Step, s': State)
    requires Reaches(c, s, m) && Enabled(c, m, step) && !Premature(m, step) && Do(c, m, step) == s'
    ensures Reaches(c, s, s')
  {
    OneStep(c, m, step, s');
    Join(c, s, m, s');
  }

  lemma Here(c: Config, s: State)
    ensures Reaches(c, s, s)
  {
    assert Exec(c, s, [], s);
  }

  lemma {:induction false} ExecKeeps(c: Config, s: State, steps: seq<Step>, s': State)
    requires Inv(c, s) && Exec(c, s, steps, s')
    ensures Inv(c, s')
    decreases |steps|
  {
    hide Inv, Do, Enabled, Premature;
    if steps != [] {
      StepKeeps(c, s, steps[0]);
      ExecKeeps(c, Do(c, s, steps[0]), steps[1..], s');
    }
  }

  /** Whatever is reached with care keeps the invariant. */
  lemma ReachedKeeps(c: Config, s: State)
    requires c.Ok() && Reaches(c, Init(c), s)
    ensures Inv(c, s)
  {
    hide Inv;
    InitKeeps(c);
    var steps :| Exec(c, Init(c), steps, s);
    ExecKeeps(c, Init(c), steps, s);
  }

  ghost predicate EndsRun(c: Config, s: State) { exists ss, steps :: Run(c, ss, steps) && ss[|steps|] == s }

  lemma Longer(c: Config, ss: seq<State>, steps: seq<Step>, step: Step)
    requires Run(c, ss, steps) && Enabled(c, ss[|steps|], step)
    ensures Run(c, ss + [Do(c, ss[|steps|], step)], steps + [step])
  {
    hide Do, Enabled;
    var ss1, steps1 := ss + [Do(c, ss[|steps|], step)], steps + [step];
    forall k | 0 <= k < |steps1| ensures Enabled(c, ss1[k], steps1[k]) && ss1[k + 1] == Do(c, ss1[k], steps1[k]) {
      if k < |steps| { assert ss1[k] == ss[k] && ss1[k + 1] == ss[k + 1] && steps1[k] == steps[k]; }
    }
  }

  /** Running on from the end of a run. */
  lemma {:induction false} RunsOn(c: Config, ss: seq<State>, xs: seq<Step>, ys: seq<Step>, s': State)
    requires Run(c, ss, xs) && Exec(c, ss[|xs|], ys, s')
    ensures EndsRun(c, s')
    decreases |ys|
  {
    hide Do, Enabled, Run;
    assert |ss| == |xs| + 1 by { RunLength(c, ss, xs); }
    if ys != [] {
      Longer(c, ss, xs, ys[0]);
      RunsOn(c, ss + [Do(c, ss[|xs|], ys[0])], xs + [ys[0]], ys[1..], s');
    }
  }

  lemma RunLength(c: Config, ss: seq<State>, steps: seq<Step>)
    requires Run(c, ss, steps)
    ensures |ss| == |steps| + 1
  {
  }

  // --- one batch is enough: no run is careless ---

  /** The producer has asked for at most one batch and will not ask for another. */
  predicate OnlyOne(s: State) {
    && (s.pc.NeedSlot? || s.pc.NeedBatch? ==> s.batches == [] && s.chain == [])
    && (s.pc.Renewing? || s.pc.Filling? || s.pc.Sending? || s.pc.Sealing? ==> s.chain == [])
    && (s.pc.Sealing? ==> s.pc.last)
    && SingleUse(s)
  }

  /** Everything dispatched so far still fits the first batch. */
  lemma NoOverflow(c: Config, s: State)
    requires PlaceOK(c, s) && s.pc.Filling? && s.chain == [] && |Flat(c.pages)| <= BATCH_ROWS && s.row < PageLen(c, s)
    ensures s.slot + Min(PageLen(c, s) - s.row, TASK_ROWS) <= BATCH_ROWS
  {
    FlatStep(c.pages, s.np - 1);
    FlatPrefix(c.pages, s.np);
  }

  lemma FillStaysOne(c: Config, s: State)
    requires PlaceOK(c, s) && OnlyOne(s) && s.pc.Filling? && s.cur < |s.batches| && |Flat(c.pages)| <= BATCH_ROWS
    ensures OnlyOne(Fill(c, s))
  {
    if s.row < PageLen(c, s) { NoOverflow(c, s); }
  }

  lemma ProduceStaysOne(c: Config, s: State, arena: seq<Cell>)
    requires PlaceOK(c, s) && RolesOK(s) && OnlyOne(s) && CanProduce(c, s) && |Flat(c.pages)| <= BATCH_ROWS
    ensures OnlyOne(DoProduce(c, s, arena))
  {
    hide Fill, Sent;
    if s.pc.Filling? { FillStaysOne(c, s); }
    if s.pc.NeedBatch? { NoPool(s); }
  }

  lemma NoPool(s: State)
    requires PoolOK(s)
    ensures s.pool != [] ==> s.batches != []
  {
    if s.pool != [] { assert s.pool[0] < |s.batches|; }
  }

  /** The producer and the chain stand still, and no batch is recycled. */
  predicate SameLives(s: State, s': State) {
    && s'.pc == s.pc && s'.chain == s.chain && |s'.batches| == |s.batches|
    && forall b :: 0 <= b < |s.batches| ==> s'.batches[b].log.gen == s.batches[b].log.gen
  }

  lemma WorkSameLives(c: Config, s: State, w: nat)
    requires CanWork(c, s, w)
    ensures SameLives(s, DoWork(c, s, w))
  {
    match s.workers[w]
    case Idle => if s.tasks != [] { assert DoWork(c, s, w) == TakeTask(s, w); }
    case Busy(t, k) =>
      if k < t.n { assert DoWork(c, s, w) == WriteRow(c, s, w, t, k); } else { assert DoWork(c, s, w) == FinishTask(s, w, t); }
    case _ =>
  }

  lemma ConsumeSameLives(c: Config, s: State)
    requires CanConsume(s)
    ensures SameLives(s, DoConsume(c, s))
  {
  }

  lemma StaysOne(c: Config, s: State, step: Step)
    requires Shape(c, s) && OnlyOne(s) && Enabled(c, s, step) && |Flat(c.pages)| <= BATCH_ROWS
    ensures OnlyOne(Do(c, s, step))
  {
    hide RangesOK, ChainInv, ConsumerOK, CountsOK, DoProduce, DoWork, DoConsume, CanProduce, CanWork, CanConsume;
    match step
    case Produce(arena) => ProduceStaysOne(c, s, arena);
    case Work(w) => WorkSameLives(c, s, w);
    case Consume => ConsumeSameLives(c, s);
    case _ =>
  }

  lemma {:induction false} RunStaysOne(c: Config, ss: seq<State>, steps: seq<Step>, k: nat)
    requires c.Ok() && Run(c, ss, steps) && k <= |steps| && |Flat(c.pages)| <= BATCH_ROWS
    ensures forall j :: 0 <= j < k ==> !Premature(ss[j], steps[j])
    ensures OnlyOne(ss[k])
  {
    hide Inv, Shape, Outstanding, Do, Enabled, Premature;
    if k > 0 {
      RunStaysOne(c, ss, steps, k - 1);
      RunKeeps(c, ss, steps, k - 1);
      Parts(c, ss[k - 1]);
      NeverEarly(c, ss[k - 1], steps[k - 1]);
      StaysOne(c, ss[k - 1], steps[k - 1]);
    }
  }

  lemma NeverEarly(c: Config, s: State, step: Step)
    requires Outstanding(c, s) && SingleUse(s)
    ensures !Premature(s, step)
  {
    hide Outstanding;
    if Premature(s, step) { PrematureNeedsRecycling(c, s, step); }
  }

  // --- two batches are too many: worker 0 fills the first, and is paused inside line 505 ---

  /**
   Between tasks: batch `b` is being filled, no task is queued, and worker 0 has nothing left to write.
   */
  predicate Rest(c: Config, s: State, b: nat) {
    && s.pc.Filling? && s.cur == b < |s.batches| && |s.batches[b].slots| == BATCH_ROWS && !s.batches[b].doneSending
    && s.tasks == [] && c.workers >= 2 && |s.workers| == c.workers && (s.workers[0] == Idle || s.workers[0] == TestDone(b))
    && s.np <= |c.pages| && s.row <= PageLen(c, s) && s.slot <= BATCH_ROWS
  }

  /** Only the producer's place, worker 0 and the slots of batch `b` from the producer's on differ. */
  predicate Further(s: State, s': State, b: nat)
    requires b < |s.batches| && s.workers != []
  {
    && b < |s'.batches| && s'.workers != []
    && s' == s.(np := s'.np, row := s'.row, slot := s'.slot, workers := s.workers[0 := s'.workers[0]],
                batches := s.batches[b := s'.batches[b]])
    && var x, y := s.batches[b], s'.batches[b];
    && y == x.(slots := y.slots, log := y.log) && |y.slots| == |x.slots| && s.slot <= s'.slot
    && (forall j :: 0 <= j < |x.slots| && j < s.slot ==> y.slots[j] == x.slots[j])
    && s'.workers[0] == if s'.slot == s.slot then s.workers[0] else TestDone(b)
  }

  /** Writing the rows of a task, one by one. */
  lemma {:induction false} WriteAll(c: Config, s: State, w: nat, t: Task, k: nat) returns (slots: seq<Cell>)
    requires w < |s.workers| && s.workers[w] == Busy(t, k) && k <= t.n
    requires t.b < |s.batches| && |s.batches[t.b].slots| == BATCH_ROWS && t.slot + t.n <= BATCH_ROWS
    requires t.page < |c.pages| && t.firstRow + t.n <= |c.pages[t.page]|
    ensures |slots| == BATCH_ROWS && forall j :: 0 <= j < t.slot ==> slots[j] == s.batches[t.b].slots[j]
    ensures Reaches(c, s, s.(workers := s.workers[w := Busy(t, t.n)], batches := s.batches[t.b := s.batches[t.b].(slots := slots)]))
    decreases t.n - k
  {
    hide Reaches;
    if k == t.n {
      slots := s.batches[t.b].slots;
      assert s.(workers := s.workers[w := Busy(t, t.n)], batches := s.batches[t.b := s.batches[t.b].(slots := slots)]) == s;
      Here(c, s);
    } else {
      var s1 := WriteRow(c, s, w, t, k);
      OneStep(c, s, Work(w), s1);
      slots := WriteAll(c, s1, w, t, k + 1);
      var s2 := s.(workers := s.workers[w := Busy(t, t.n)], batches := s.batches[t.b := s.batches[t.b].(slots := slots)]);
      assert s1.(workers := s1.workers[w := Busy(t, t.n)], batches := s1.batches[t.b := s1.batches[t.b].(slots := slots)]) == s2;
      Join(c, s, s1, s2);
    }
  }

  predicate MoreRows(c: Config, s: State)
    requires s.np <= |c.pages|
  {
    s.row < PageLen(c, s)
  }

  /** The rows of the next task. */
  function NextTask(c: Config, s: State): nat
    requires s.np <= |c.pages| && MoreRows(c, s)
  {
    Min(PageLen(c, s) - s.row, TASK_ROWS)
  }

  /** The producer sends the next task. */
  lemma SendTask(c: Config, s: State, b: nat) returns (s': State)
    requires Rest(c, s, b) && MoreRows(c, s) && s.slot + NextTask(c, s) <= BATCH_ROWS
    ensures var n := NextTask(c, s); var bt := s.batches[b];
            && |s'.batches| == |s.batches|
            && s' == s.(tasks := [Task(b, s.slot, s.np - 1, s.row, n)], slot := s.slot + n, row := s.row + n,
                        batches := s.batches[b := bt.(remaining := bt.remaining + 1, log := s'.batches[b].log)])
    ensures Reaches(c, s, s')
  {
    hide Reaches, Flat, Sent;
    var n := NextTask(c, s);
    var step := Produce(seq(BATCH_ROWS, _ => Invalid));
    var s1 := OpenTask(s, n);
    assert DoProduce(c, s, step.arena) == Fill(c, s) == s1;
    OneStep(c, s, step, s1);
    s' := Send(s1, s1.pc.t);
    Then(c, s, s1, step, s');
  }

  /** A worker takes the only queued task, writes its rows and finishes it. */
  lemma RunTask(c: Config, s: State, w: nat, t: Task) returns (s': State)
    requires w < |s.workers| && s.workers[w] == Idle && s.tasks == [t]
    requires t.b < |s.batches| && |s.batches[t.b].slots| == BATCH_ROWS && t.slot + t.n <= BATCH_ROWS
    requires t.page < |c.pages| && t.firstRow + t.n <= |c.pages[t.page]|
    ensures Reaches(c, s, s')
    ensures |s'.batches| == |s.batches| && |s'.batches[t.b].slots| == BATCH_ROWS
    ensures var bt := s.batches[t.b];
            s' == s.(tasks := [], workers := s.workers[w := TestDone(t.b)], batches := s.batches[t.b :=
              bt.(remaining := bt.remaining - 1, slots := s'.batches[t.b].slots, log := s'.batches[t.b].log)])
    ensures forall j :: 0 <= j < t.slot ==> s'.batches[t.b].slots[j] == s.batches[t.b].slots[j]
  {
    hide Reaches;
    var s1 := TakeTask(s, w);
    OneStep(c, s, Work(w), s1);
    var slots := WriteAll(c, s1, w, t, 0);
    var s2 := s1.(workers := s1.workers[w := Busy(t, t.n)], batches := s1.batches[t.b := s1.batches[t.b].(slots := slots)]);
    Join(c, s, s1, s2);
    s' := FinishTask(s2, w, t);
    Then(c, s, s2, Work(w), s');
  }

  /** Worker 0 finds that the batch is not sealed, if it has not looked yet. */
  lemma LookAgain(c: Config, s: State, b: nat)
    requires Rest(c, s, b)
    ensures Reaches(c, s, s.(workers := s.workers[0 := Idle])) && Rest(c, s.(workers := s.workers[0 := Idle]), b)
  {
    hide Reaches;
    var s' := s.(workers := s.workers[0 := Idle]);
    if s.workers[0].Idle? {
      assert s' == s;
      Here(c, s);
    } else {
      OneStep(c, s, Work(0), s');
    }
  }

  lemma DoTask(c: Config, s: State, b: nat) returns (s': State)
    requires Rest(c, s, b) && MoreRows(c, s) && s.slot + NextTask(c, s) <= BATCH_ROWS
    ensures Reaches(c, s, s') && Rest(c, s', b) && Further(s, s', b)
    ensures s'.np == s.np && s'.row == s.row + NextTask(c, s) && s'.slot == s.slot + NextTask(c, s)
  {
    hide Reaches;
    LookAgain(c, s, b);
    var s0 := s.(workers := s.workers[0 := Idle]);
    var s1 := SendTask(c, s0, b);
    Join(c, s, s0, s1);
    s' := RunTask(c, s1, 0, s1.tasks[0]);
    Join(c, s, s1, s');
  }

  lemma FurtherJoin(s: State, m: State, s': State, b: nat)
    requires b < |s.batches| && s.workers != [] && Further(s, m, b) && Further(m, s', b)
    ensures Further(s, s', b)
  {
  }

  lemma TurnPage(c: Config, s: State, b: nat) returns (s': State)
    requires Rest(c, s, b) && !MoreRows(c, s) && s.np < |c.pages|
    ensures Reaches(c, s, s') && Rest(c, s', b) && Further(s, s', b)
    ensures s'.np == s.np + 1 && s'.row == 0 && s'.slot == s.slot && Sent(c, s') == Sent(c, s)
  {
    hide Reaches, Flat;
    s' := s.(np := s.np + 1, row := 0);
    assert s' == s'.(workers := s.workers[0 := s'.workers[0]], batches := s.batches[b := s'.batches[b]]);
    OneStep(c, s, Produce(seq(BATCH_ROWS, _ => Invalid)), s');
    SentNextPage(c, s);
  }

  /** Nothing more goes into the batch: the next task does not fit, or there is none. */
  predicate Full(c: Config, s: State)
    requires s.np <= |c.pages|
  {
    if MoreRows(c, s) then s.slot + NextTask(c, s) > BATCH_ROWS else s.np == |c.pages|
  }

  /** With worker 0 doing all the work, the batch is filled up. */
  lemma {:induction false} FillUp(c: Config, s: State, b: nat) returns (s': State)
    requires Rest(c, s, b)
    ensures Reaches(c, s, s') && Rest(c, s', b) && Further(s, s', b) && Full(c, s')
    ensures Sent(c, s') - s'.slot == Sent(c, s) - s.slot
    decreases |c.pages| - s.np, BATCH_ROWS - s.slot
  {
    hide Reaches, Flat, Further;
    if Full(c, s) {
      s' := s;
      Here(c, s);
      FurtherNot(s, b);
    } else {
      var m;
      if MoreRows(c, s) { m := DoTask(c, s, b); } else { m := TurnPage(c, s, b); }
      s' := FillUp(c, m, b);
      Join(c, s, m, s');
      FurtherJoin(s, m, s', b);
    }
  }

  lemma FurtherNot(s: State, b: nat)
    requires b < |s.batches| && s.workers != []
    ensures Further(s, s, b)
  {
  }

  /** The enqueue goroutine of a signalled batch posts it. */
  lemma Post(c: Config, s: State, i: nat)
    requires i < |s.chain| && s.chain[i].pc.WaitPrev? && (i == 0 || s.chain[i - 1].pc.Finished?) && s.queue == []
    requires s.chain[i].item.Data? && s.chain[i].item.b < |s.batches| && s.batches[s.chain[i].item.b].ready
    ensures Reaches(c, s, SetEnq(s, i, Finished).(queue := [s.chain[i].item], posted := s.posted + 1))
  {
    hide Reaches;
    var s1 := SetEnq(s, i, WaitReady);
    OneStep(c, s, Enqueue(i), s1);
    var s2 := SetEnq(s, i, Posting);
    assert s1.chain[i := s1.chain[i].(pc := Posting)] == s2.chain;
    Then(c, s, s1, Enqueue(i), s2);
    var s3 := SetEnq(s, i, ClosingNext).(queue := [s.chain[i].item], posted := s.posted + 1);
    assert s2.chain[i := s2.chain[i].(pc := ClosingNext)] == s3.chain;
    Then(c, s, s2, Enqueue(i), s3);
    var s4 := SetEnq(s, i, Finished).(queue := [s.chain[i].item], posted := s.posted + 1);
    assert s3.chain[i := s3.chain[i].(pc := Finished)] == s4.chain;
    Then(c, s, s3, Enqueue(i), s4);
  }

  /** The consumer goes through the rows of its batch. */
  lemma {:induction false} ReadAll(c: Config, s: State, b: nat, idx: nat) returns (s': State)
    requires s.consumer == ReadingRows(b, idx) && b < |s.batches| && idx <= s.batches[b].n <= |s.batches[b].slots|
    ensures Reaches(c, s, s')
    ensures s' == s.(consumer := ReadingRows(b, s.batches[b].n), seen := s'.seen, rowCount := s'.rowCount, out := s'.out)
    ensures s'.seen == s.seen + (s.batches[b].n - idx)
    decreases s.batches[b].n - idx
  {
    hide Reaches;
    if idx == s.batches[b].n {
      s' := s;
      Here(c, s);
    } else {
      var m := TakeRow(c, s, b, idx, s.batches[b].slots[idx]);
      OneStep(c, s, Consume, m);
      s' := ReadAll(c, m, b, idx + 1);
      Join(c, s, m, s');
    }
  }

  /** The first batch is full, nothing else has happened, and worker 0 has yet to look whether it is sealed. */
  predicate Loaded(c: Config, s: State) {
    && Rest(c, s, 0) && MoreRows(c, s) && Full(c, s) && 0 < s.slot == Sent(c, s) && |s.batches| == 1
    && s == Init(c).(free := IN_FLIGHT - 1, held := true, np := s.np, row := s.row, slot := s.slot, pc := Filling,
                     workers := Init(c).workers[0 := TestDone(0)], batches := [s.batches[0]])
    && s.batches[0].remaining == 0 && !s.batches[0].ready
  }

  lemma ToLoaded(c: Config) returns (s: State)
    requires c.Ok() && |Flat(c.pages)| > BATCH_ROWS
    ensures Reaches(c, Init(c), s) && Loaded(c, s)
  {
    hide Reaches, Flat;
    var step := Produce(seq(BATCH_ROWS, _ => Invalid));
    var s0 := Init(c);
    var s1 := s0.(free := IN_FLIGHT - 1, held := true, pc := NeedBatch);
    OneStep(c, s0, step, s1);
    var s2 := s1.(batches := [Fresh(step.arena, 0)], pc := Filling);
    Then(c, s0, s1, step, s2);
    s := FillUp(c, s2, 0);
    Join(c, s0, s2, s);
    if !MoreRows(c, s) { AllSent(c, s); }
  }

  lemma AllSent(c: Config, s: State)
    requires s.np == |c.pages| && s.row == PageLen(c, s)
    ensures Sent(c, s) == |Flat(c.pages)|
  {
    if s.np > 0 {
      FlatStep(c.pages, s.np - 1);
      assert c.pages[..s.np] == c.pages;
    }
  }

  /** The batch is sealed, worker 0 has done both loads, and the producer has signalled the batch itself. */
  lemma ToHandedOver(c: Config, s: State) returns (s': State)
    requires Loaded(c, s)
    ensures Reaches(c, s, s') && |s'.batches| == 1 && |s'.chain| == 1
    ensures s' == s.(pc := NeedSlot, held := false, workers := s.workers[0 := Signal(0, s.batches[0].log.gen)],
                     chain := [Enq(Data(0), WaitPrev, s'.chain[0].base, s.slot)],
                     batches := [s.batches[0].(n := s.slot, doneSending := true, ready := true, log := s'.batches[0].log)])
  {
    hide Reaches, Flat, Sent;
    var step := Produce(seq(BATCH_ROWS, _ => Invalid));
    var g := s.batches[0].log.gen;
    var s1 := Seal(s, false);
    assert DoProduce(c, s, step.arena) == Fill(c, s) == s1;
    OneStep(c, s, step, s1);
    var s2 := s1.(workers := s.workers[0 := TestRemaining(0, g)]);
    Then(c, s, s1, Work(0), s2);
    var s3 := s1.(workers := s.workers[0 := Signal(0, g)]);
    assert s2.workers[0 := Signal(0, g)] == s3.workers;
    Then(c, s, s2, Work(0), s3);
    s' := HandOver(s3, false);
    Then(c, s, s3, step, s');
  }

  predicate OthersIdle(s: State, from: nat) { forall w :: from <= w < |s.workers| ==> s.workers[w] == Idle }

  /** The consumer has read the first batch; its rows are still in the slots. */
  predicate Emptied(c: Config, s: State) {
    && s.consumer.Waiting? && s.pc.NeedSlot? && s.free == IN_FLIGHT && !s.cancelled && s.pool == [0] && |s.batches| == 1 && s.queue == []
    && s.tasks == [] && |s.workers| == c.workers >= 2 && s.workers[0].Signal? && s.workers[0].b == 0 && OthersIdle(s, 1)
    && |s.chain| == 1 == s.posted == s.received && s.chain[0].pc.Finished?
    && s.np <= |c.pages| && MoreRows(c, s) && Sent(c, s) == s.seen
    && |s.batches[0].slots| == BATCH_ROWS && 0 < s.seen < |Flat(c.pages)|
    && s.out == Cut(Rows(Flat(c.pages)[..s.seen]), c.limit) && s.batches[0].slots[0] == Flat(c.pages)[0]
  }

  lemma ToEmptied(c: Config) returns (s: State)
    requires c.Ok() && |Flat(c.pages)| > BATCH_ROWS
    ensures Reaches(c, Init(c), s) && Emptied(c, s)
  {
    hide Reaches, Flat, Rows, Inv;
    var s0 := ToLoaded(c);
    var s1 := ToHandedOver(c, s0);
    Join(c, Init(c), s0, s1);
    var s2 := ToRead(c, s1);
    Join(c, Init(c), s1, s2);
    FirstRead(c, s2);
    var s3 := ReleaseBatch(s2, 0);
    Then(c, Init(c), s2, Consume, s3);
    s := s3.(free := IN_FLIGHT, consumer := Waiting);
    Then(c, Init(c), s3, Consume, s);
    SentBefore(c, s0);
  }

  lemma SentBefore(c: Config, s: State)
    requires s.np <= |c.pages| && MoreRows(c, s)
    ensures Sent(c, s) < |Flat(c.pages)|
  {
    FlatStep(c.pages, s.np - 1);
    FlatPrefix(c.pages, s.np);
  }

  lemma ToRead(c: Config, s: State) returns (s': State)
    requires s.chain != [] && s.chain[0].pc.WaitPrev? && s.chain[0].item == Data(0) && s.queue == [] && s.consumer.Waiting? && s.seen == 0
    requires |s.batches| == 1 && s.batches[0].ready && s.batches[0].n <= |s.batches[0].slots|
    ensures Reaches(c, s, s') && |s'.batches| == 1
    ensures s' == s.(chain := s.chain[0 := s.chain[0].(pc := Finished)], posted := s.posted + 1, received := s.received + 1,
                     consumer := ReadingRows(0, s.batches[0].n), seen := s.batches[0].n, rowCount := s'.rowCount, out := s'.out,
                     batches := [s.batches[0].(log := s'.batches[0].log)])
  {
    hide Reaches;
    Post(c, s, 0);
    var s1 := SetEnq(s, 0, Finished).(queue := [s.chain[0].item], posted := s.posted + 1);
    var s2 := ReceiveData(s1, 0);
    Then(c, s, s1, Consume, s2);
    s' := ReadAll(c, s2, 0, 0);
    Join(c, s, s2, s');
  }

  /** What the consumer has read from the first batch is right, and so are the slots. */
  lemma FirstRead(c: Config, s: State)
    requires c.Ok() && Reaches(c, Init(c), s) && |s.batches| == 1 && s.batches[0].n > 0
    requires s.consumer == ReadingRows(0, s.batches[0].n) && s.seen == s.batches[0].n
    ensures |s.batches[0].slots| == BATCH_ROWS && 0 < s.seen <= |Flat(c.pages)|
    ensures s.out == Cut(Rows(Flat(c.pages)[..s.seen]), c.limit) && s.batches[0].slots[0] == Flat(c.pages)[0]
  {
    hide Reaches;
    ReachedKeeps(c, s);
    assert BatchOK(c, s.batches[0]) && BatchRange(s.batches[0]);
    DeliveredRight(c, s.batches[0], 0);
  }

  /** The first batch is being filled again while worker 0 still holds its signal from before. */
  predicate Poised(c: Config, s: State) {
    && s.pc.Filling? && s.held && s.cur == 0 && s.slot == 0 && |s.batches| == 1 && |s.batches[0].slots| == BATCH_ROWS
    && !s.batches[0].doneSending && !s.batches[0].ready && s.batches[0].remaining == 0
    && s.tasks == [] && s.queue == [] && s.pool == [] && s.free == IN_FLIGHT - 1 && s.consumer.Waiting?
    && |s.workers| == c.workers >= 2 && s.workers[0].Signal? && s.workers[0].b == 0 && OthersIdle(s, 1)
    && |s.chain| == 1 == s.posted == s.received && s.chain[0].pc.Finished? && !s.cancelled && s.np <= |c.pages| && MoreRows(c, s) && 0 < s.seen < |Flat(c.pages)|
    && s.out == Cut(Rows(Flat(c.pages)[..s.seen]), c.limit) && s.batches[0].slots[0] == Flat(c.pages)[0]
  }

  /** The flags of the first batch are reset, its channel is still the closed one, and worker 0 holds its signal. */
  lemma ToRenewing(c: Config) returns (s: State)
    requires c.Ok() && |Flat(c.pages)| > BATCH_ROWS
    ensures Reaches(c, Init(c), s) && s.pc.Renewing? && Poised(c, s.(pc := Filling))
  {
    hide Reaches, Flat, Rows, Sent;
    var step := Produce(seq(BATCH_ROWS, _ => Invalid));
    var s0 := ToEmptied(c);
    var s1 := s0.(free := IN_FLIGHT - 1, held := true, pc := NeedBatch);
    Then(c, Init(c), s0, step, s1);
    s := Reuse(s1, Sent(c, s1));
    Then(c, Init(c), s1, step, s);
  }

  lemma ToPoised(c: Config) returns (s: State)
    requires c.Ok() && |Flat(c.pages)| > BATCH_ROWS
    ensures Reaches(c, Init(c), s) && Poised(c, s)
  {
    hide Reaches, Poised;
    var s1 := ToRenewing(c);
    s := s1.(pc := Filling);
    Then(c, Init(c), s1, Produce(seq(BATCH_ROWS, _ => Invalid)), s);
  }

  lemma PoisedMisfires(c: Config, s: State)
    requires Poised(c, s)
    ensures Enabled(c, s, Work(0)) && Premature(s, Work(0)) && Do(c, s, Work(0)) == MarkReady(s, 0, 0)
  {
    hide Flat, Rows, Sent;
  }

  lemma ReachedByRun(c: Config, s: State)
    requires Reaches(c, Init(c), s)
    ensures EndsRun(c, s)
  {
    var ys :| Exec(c, Init(c), ys, s);
    assert Run(c, [Init(c)], []);
    RunsOn(c, [Init(c)], [], ys, s);
  }

  /** No run of the table signals a batch that is not finished. */
  ghost predicate AlwaysCareful(c: Config) { forall ss: seq<State>, steps: seq<Step> :: Run(c, ss, steps) ==> Careful(ss, steps) }

  /** Every schedule is careful exactly when the table has at most as many row slots as one batch. */
  lemma CarefulExact(c: Config)
    requires c.Ok()
    ensures AlwaysCareful(c) <==> |Flat(c.pages)| <= BATCH_ROWS
  {
    hide Run, Careful, Premature, Flat, Poised;
    if |Flat(c.pages)| <= BATCH_ROWS {
      forall ss: seq<State>, steps: seq<Step> | Run(c, ss, steps) ensures |ss| == |steps| + 1 && Careful(ss, steps) {
        RunLength(c, ss, steps);
        SmallIsCareful(c, ss, steps);
      }
    } else {
      var s := ToPoised(c);
      var ss, steps := CarelessRun(c, s);
    }
  }

  lemma SmallIsCareful(c: Config, ss: seq<State>, steps: seq<Step>)
    requires c.Ok() && Run(c, ss, steps) && |Flat(c.pages)| <= BATCH_ROWS
    ensures Careful(ss, steps)
  {
    hide Premature;
    RunStaysOne(c, ss, steps, |steps|);
  }

  lemma CarelessRun(c: Config, s: State) returns (ss: seq<State>, steps: seq<Step>)
    requires Reaches(c, Init(c), s) && Poised(c, s)
    ensures Run(c, ss, steps) && |ss| == |steps| + 1 && !Careful(ss, steps) && ss[|steps|] == MarkReady(s, 0, 0)
  {
    hide Poised, Premature, Enabled, Do, Reaches;
    ReachedByRun(c, s);
    var ss0, steps0 :| Run(c, ss0, steps0) && ss0[|steps0|] == s;
    PoisedMisfires(c, s);
    Longer(c, ss0, steps0, Work(0));
    ss, steps := ss0 + [Do(c, s, Work(0))], steps0 + [Work(0)];
    assert Premature(ss[|steps0|], steps[|steps0|]);
  }

  // --- and then rows come out wrong ---

  /**
   The second batch is full and signalled, and worker 1 sleeps on its first task; the first slot
   still holds a row of the first batch.
   */
  predicate Asleep(c: Config, s: State) {
    && Rest(c, s, 0) && Full(c, s) && s.slot > 0 && |s.batches| == 1 && s.batches[0].ready && s.batches[0].remaining == 1
    && s.queue == [] && s.pool == [] && s.free == IN_FLIGHT - 1 && s.held && s.consumer.Waiting? && !s.cancelled
    && |s.chain| == 1 == s.posted == s.received && s.chain[0].pc.Finished?
    && s.workers[1].Busy? && s.workers[1].k == 0 && s.workers[1].t.b == 0 && TaskRange(c, 1, s.workers[1].t) && OthersIdle(s, 2)
  }

  lemma ToAsleep(c: Config, s: State) returns (s': State)
    requires Poised(c, s)
    ensures Reaches(c, MarkReady(s, 0, 0), s') && Asleep(c, s')
    ensures s'.out == s.out && s'.batches[0].slots[0] == s.batches[0].slots[0]
  {
    hide Reaches, Flat, Rows, Sent, Further;
    var m := MarkReady(s, 0, 0);
    var s1 := ToHeldBack(c, m);
    s' := FillUp(c, s1, 0);
    Join(c, m, s1, s');
    FurtherKeeps(s1, s');
  }

  lemma FurtherKeeps(s: State, s': State)
    requires |s.batches| == 1 && s.workers != [] && Further(s, s', 0) && |s.batches[0].slots| == BATCH_ROWS
    ensures s'.batches == [s'.batches[0]] && s'.batches[0].ready == s.batches[0].ready && s'.batches[0].remaining == s.batches[0].remaining
    ensures s.slot > 0 ==> s'.batches[0].slots[0] == s.batches[0].slots[0]
    ensures |s'.workers| == |s.workers| && forall w :: 1 <= w < |s.workers| ==> s'.workers[w] == s.workers[w]
    ensures s'.slot > s.slot ==> s'.workers[0] == TestDone(0)
    ensures s' == s.(np := s'.np, row := s'.row, slot := s'.slot, workers := s'.workers, batches := s'.batches) && s'.slot >= s.slot
  {
  }

  /** Worker 1 takes the first task of the second batch and writes nothing yet. */
  lemma ToHeldBack(c: Config, s: State) returns (s': State)
    requires Rest(c, s, 0) && s.workers[0] == Idle && s.workers[1] == Idle && s.slot == 0 && MoreRows(c, s) && |s.batches| == 1
    ensures Reaches(c, s, s') && Rest(c, s', 0) && s'.slot > 0 && |s'.batches| == 1
    ensures var bt := s.batches[0];
            s'.batches[0] == bt.(remaining := bt.remaining + 1, log := s'.batches[0].log)
    ensures s' == s.(row := s'.row, slot := s'.slot, batches := s'.batches, workers := s.workers[1 := s'.workers[1]])
    ensures s'.workers[1].Busy? && s'.workers[1].k == 0 && s'.workers[1].t.b == 0 && TaskRange(c, 1, s'.workers[1].t)
  {
    hide Reaches, Flat, Sent;
    var s1 := SendTask(c, s, 0);
    s' := TakeTask(s1, 1);
    OneStep(c, s1, Work(1), s');
    Join(c, s, s1, s');
  }

  /** A signalled batch is sealed, posted and received, whatever is still unfinished. */
  lemma ToEarly(c: Config, s: State) returns (s': State)
    requires Asleep(c, s)
    ensures Reaches(c, s, s') && |s'.batches| == 1 && |s'.chain| == 2
    ensures var last := !MoreRows(c, s);
            s' == s.(pc := if last then Marking else NeedSlot, held := false, posted := 2, received := 2,
                     chain := [s.chain[0], s'.chain[1]], consumer := ReadingRows(0, 0), batches := s'.batches)
    ensures s'.chain[1].pc.Finished? && s'.batches[0] == s.batches[0].(n := s.slot, doneSending := true, log := s'.batches[0].log)
  {
    hide Reaches, Flat, Sent;
    var step := Produce(seq(BATCH_ROWS, _ => Invalid));
    var last := !MoreRows(c, s);
    var s1 := Seal(s, last);
    assert DoProduce(c, s, step.arena) == Fill(c, s) == s1;
    OneStep(c, s, step, s1);
    var s2 := HandOver(s1, last);
    Then(c, s, s1, step, s2);
    Post(c, s2, 1);
    var s3 := SetEnq(s2, 1, Finished).(queue := [s2.chain[1].item], posted := s2.posted + 1);
    Join(c, s, s2, s3);
    s' := ReceiveData(s3, 0);
    Then(c, s, s3, Consume, s');
  }

  /** After the misfire: the second batch goes out with its first slot unwritten. */
  lemma StaleRow(c: Config, s: State, v: seq<string>) returns (s': State)
    requires Poised(c, s) && c.limit < 0 && Flat(c.pages)[0] == Valid(v)
    ensures Reaches(c, MarkReady(s, 0, 0), s') && s'.out == s.out + [v]
  {
    hide Reaches, Flat, Rows, Sent;
    var m := MarkReady(s, 0, 0);
    var s1 := ToAsleep(c, s);
    var s2 := ToEarly(c, s1);
    Join(c, m, s1, s2);
    s' := TakeRow(c, s2, 0, 0, Valid(v));
    Then(c, m, s2, Consume, s');
  }

  // --- a channel closed twice ---

  ghost predicate ClosesOnce(ss: seq<State>, steps: seq<Step>)
    requires |ss| == |steps| + 1
  {
    forall k :: 0 <= k < |steps| ==> !DoubleClose(ss[k], steps[k])
  }

  ghost predicate AlwaysClosesOnce(c: Config) { forall ss: seq<State>, steps: seq<Step> :: Run(c, ss, steps) ==> ClosesOnce(ss, steps) }

  /** Closing a channel again is one way of signalling too early. */
  lemma CarefulClosesOnce(c: Config, ss: seq<State>, steps: seq<Step>)
    requires c.Ok() && Run(c, ss, steps) && Careful(ss, steps)
    ensures ClosesOnce(ss, steps)
  {
    hide Inv;
    forall k | 0 <= k < |steps| ensures !DoubleClose(ss[k], steps[k]) {
      RunShape(c, ss, steps, k);
      assert PlaceOK(c, ss[k]);
      hide Shape;
      assert !Premature(ss[k], steps[k]);
    }
  }

  /** No schedule closes a channel twice, which would end the process, exactly when the table fits one batch. */
  lemma CloseExact(c: Config)
    requires c.Ok()
    ensures AlwaysClosesOnce(c) <==> |Flat(c.pages)| <= BATCH_ROWS
  {
    hide Run, Careful, Reaches, Flat, ClosesOnce;
    if |Flat(c.pages)| <= BATCH_ROWS {
      forall ss: seq<State>, steps: seq<Step> | Run(c, ss, steps) ensures |ss| == |steps| + 1 && ClosesOnce(ss, steps) {
        RunLength(c, ss, steps);
        SmallIsCareful(c, ss, steps);
        CarefulClosesOnce(c, ss, steps);
      }
    } else {
      var s := ToRenewing(c);
      ClosesAgain(c, s);
    }
  }

  lemma ClosesAgain(c: Config, s: State)
    requires Reaches(c, Init(c), s) && s.pc.Renewing? && Poised(c, s.(pc := Filling))
    ensures !AlwaysClosesOnce(c)
  {
    hide Reaches, Do, Flat, Rows, Sent;
    ReachedByRun(c, s);
    var ss, steps :| Run(c, ss, steps) && ss[|steps|] == s;
    Longer(c, ss, steps, Work(0));
    var ss1, steps1 := ss + [Do(c, s, Work(0))], steps + [Work(0)];
    assert DoubleClose(ss1[|steps|], steps1[|steps|]);
    assert !ClosesOnce(ss1, steps1);
  }

  // --- and then batches are delivered unfinished ---

  /** A batch in the hands of the consumer is sealed and all of its tasks are done. */
  predicate ReadsFinished(s: State) {
    s.consumer.ReadingRows? ==>
      s.consumer.b < |s.batches| && s.batches[s.consumer.b].doneSending && s.batches[s.consumer.b].remaining == 0
  }

  ghost predicate AlwaysFinished(c: Config) {
    forall ss: seq<State>, steps: seq<Step> :: Run(c, ss, steps) ==> ReadsFinished(ss[|steps|])
  }

  /** In every run only finished batches are delivered, exactly when the table fits one batch. */
  lemma DeliveryExact(c: Config)
    requires c.Ok()
    ensures AlwaysFinished(c) <==> |Flat(c.pages)| <= BATCH_ROWS
  {
    hide Run, Careful, Reaches, Flat, Poised, Asleep, Premature;
    if |Flat(c.pages)| <= BATCH_ROWS {
      forall ss: seq<State>, steps: seq<Step> | Run(c, ss, steps) ensures |ss| == |steps| + 1 && ReadsFinished(ss[|steps|]) {
        RunLength(c, ss, steps);
        SmallIsCareful(c, ss, steps);
        if ss[|steps|].consumer.ReadingRows? { DeliveredComplete(c, ss, steps, |steps|, ss[|steps|].consumer.b, 0); }
      }
    } else {
      var s := ToPoised(c);
      var s' := EarlyBatch(c, s);
      var ss, steps := CarelessRun(c, s);
      ReachedAfter(c, ss, steps, s');
    }
  }

  lemma EarlyBatch(c: Config, s: State) returns (s': State)
    requires Poised(c, s)
    ensures Reaches(c, MarkReady(s, 0, 0), s') && !ReadsFinished(s')
  {
    hide Reaches, Flat, Rows, Sent;
    var s1 := ToAsleep(c, s);
    s' := ToEarly(c, s1);
    Join(c, MarkReady(s, 0, 0), s1, s');
  }

  /** In every run the rows handed out are a prefix of the table's rows. */
  ghost predicate InOrder(c: Config) {
    forall ss: seq<State>, steps: seq<Step> :: Run(c, ss, steps) ==> ss[|steps|].out <= Rows(Flat(c.pages))
  }

  /** The first row of the table comes out once more, in place of the first row of the second batch. */
  lemma WrongRow(c: Config)
    requires c.Ok() && |Flat(c.pages)| > BATCH_ROWS && c.limit < 0
    requires forall j :: 0 <= j < |Flat(c.pages)| ==> Flat(c.pages)[j].Valid?
    requires forall j :: 0 < j < |Flat(c.pages)| ==> Flat(c.pages)[j] != Flat(c.pages)[0]
    ensures !InOrder(c)
  {
    hide Reaches, Run, Rows, Flat, Careful;
    var s := ToPoised(c);
    var cells, k := Flat(c.pages), s.seen;
    var s' := StaleRow(c, s, cells[0].values);
    var ss, steps := CarelessRun(c, s);
    ReachedAfter(c, ss, steps, s');
    NotNext(cells, k, s'.out);
  }

  lemma ReachedAfter(c: Config, ss: seq<State>, steps: seq<Step>, s': State)
    requires Run(c, ss, steps) && Reaches(c, ss[|steps|], s')
    ensures EndsRun(c, s')
  {
    var ys :| Exec(c, ss[|steps|], ys, s');
    RunsOn(c, ss, steps, ys, s');
  }

  /** The rows of the first `k` cells and then another row than the next. */
  lemma NotNext(cells: seq<Cell>, k: nat, out: seq<seq<string>>)
    requires k < |cells| && cells[0].Valid? && cells[k].Valid? && cells[k] != cells[0]
    requires out == Rows(cells[..k]) + [cells[0].values]
    ensures !(out <= Rows(cells))
  {
    RowsPrefix(cells, k + 1);
    assert cells[..k + 1][..k] == cells[..k];
    var rows := Rows(cells[..k]);
    assert Rows(cells[..k + 1]) == rows + [cells[k].values];
    assert Rows(cells)[|rows|] == Rows(cells[..k + 1])[|rows|] == cells[k].values;
    assert out[|rows|] == cells[0].values;
  }

  // --- by the number of row slots on the pages ---

  function Total(sizes: seq<nat>): nat { if sizes == [] then 0 else Total(sizes[..|sizes| - 1]) + sizes[|sizes| - 1] }

  predicate Sized(c: Config, sizes: seq<nat>) {
    |c.pages| == |sizes| && forall p :: 0 <= p < |sizes| ==> |c.pages[p]| == sizes[p]
  }

  lemma {:induction false} SizedTotal(pages: seq<Page>, sizes: seq<nat>)
    requires |pages| == |sizes| && forall p :: 0 <= p < |sizes| ==> |pages[p]| == sizes[p]
    ensures |Flat(pages)| == Total(sizes)
  {
    if sizes != [] { SizedTotal(pages[..|pages| - 1], sizes[..|sizes| - 1]); }
  }

  /** A row that tells its place in the table. */
  function RowNumber(j: nat): Cell { Valid([seq(j, _ => 'x')]) }

  function NumberedPage(base: nat, n: nat): Page { seq(n, r requires 0 <= r => RowNumber(base + r)) }

  /** Pages of these sizes on which every row differs from every other. */
  function Numbered(sizes: seq<nat>): seq<Page> {
    if sizes == [] then []
    else
      var front := sizes[..|sizes| - 1];
      Numbered(front) + [NumberedPage(Total(front), sizes[|sizes| - 1])]
  }

  lemma {:induction false} NumberedFlat(sizes: seq<nat>)
    ensures |Numbered(sizes)| == |sizes| && forall p :: 0 <= p < |sizes| ==> |Numbered(sizes)[p]| == sizes[p]
    ensures |Flat(Numbered(sizes))| == Total(sizes)
    ensures forall j :: 0 <= j < Total(sizes) ==> Flat(Numbered(sizes))[j] == RowNumber(j)
  {
    hide RowNumber, NumberedPage, Flat;
    if sizes == [] {
      NoPages();
    } else {
      var front := sizes[..|sizes| - 1];
      NumberedFlat(front);
      var pages, page := Numbered(front), NumberedPage(Total(front), sizes[|sizes| - 1]);
      assert (pages + [page])[..|pages|] == pages;
      FlatStep(pages + [page], |pages|);
      assert (pages + [page])[..|pages| + 1] == pages + [page];
      PageRows(Total(front), sizes[|sizes| - 1]);
    }
  }

  lemma NoPages()
    ensures Flat([]) == []
  {
  }

  lemma PageRows(base: nat, n: nat)
    ensures |NumberedPage(base, n)| == n && forall r :: 0 <= r < n ==> NumberedPage(base, n)[r] == RowNumber(base + r)
  {
    hide RowNumber;
  }

  /**
   For given page sizes the promise holds of every table and every schedule exactly when all rows
   fit one batch.
   */
  lemma InOrderExact(sizes: seq<nat>)
    ensures (forall c: Config :: c.Ok() && Sized(c, sizes) ==> InOrder(c)) <==> Total(sizes) <= BATCH_ROWS
  {
    hide InOrder, Flat, Total, Rows;
    if Total(sizes) <= BATCH_ROWS {
      forall c: Config | c.Ok() && Sized(c, sizes) ensures InOrder(c) {
        SizedTotal(c.pages, sizes);
        SmallInOrder(c);
      }
    } else {
      NumberedFlat(sizes);
      NumberedWrong(sizes);
      var c := Config(Numbered(sizes), 2, -1, false);
      assert c.Ok() && Sized(c, sizes);
    }
  }

  lemma NumberedWrong(sizes: seq<nat>)
    requires Total(sizes) > BATCH_ROWS
    ensures !InOrder(Config(Numbered(sizes), 2, -1, false))
  {
    hide InOrder, Flat, Total, Rows;
    NumberedFlat(sizes);
    var c := Config(Numbered(sizes), 2, -1, false);
    forall j | 0 < j < |Flat(c.pages)| ensures Flat(c.pages)[j] != Flat(c.pages)[0] {
      assert |Flat(c.pages)[j].values[0]| == j && |Flat(c.pages)[0].values[0]| == 0;
    }
    WrongRow(c);
  }

  lemma SmallInOrder(c: Config)
    requires c.Ok() && |Flat(c.pages)| <= BATCH_ROWS
    ensures InOrder(c)
  {
    hide Run, Flat, Rows, Careful;
    forall ss: seq<State>, steps: seq<Step> | Run(c, ss, steps) ensures |ss| == |steps| + 1 && ss[|steps|].out <= Rows(Flat(c.pages)) {
      RunLength(c, ss, steps);
      SmallIsCareful(c, ss, steps);
      RowsInOrder(c, ss, steps, |steps|);
    }
  }

  // --- the tables that take this path ---

  /** The size test of `canFastScan`, on the row count of the table's header. */
  predicate CanFastScan(numRows: int, numColumns: int) { numRows >= 2048 && numRows * numColumns >= 20000 }

  /** Every table that takes the parallel path and has the rows its header counts can be scanned carelessly. */
  lemma FastTablesExposed(c: Config, numRows: int, numColumns: int)
    requires c.Ok() && CanFastScan(numRows, numColumns) && numRows <= |Flat(c.pages)|
    ensures !AlwaysCareful(c)
  {
    hide AlwaysCareful, Flat;
    CarefulExact(c);
  }

  /** A table of 2048 different rows on 16 full pages. */
  function Table2048(): Config { Config(Numbered(seq(16, _ => 128)), 2, -1, false) }

  lemma {:induction false} TotalOf(n: nat, size: nat)
    ensures Total(seq(n, _ => size)) == n * size
  {
    if n > 0 {
      TotalOf(n - 1, size);
      assert seq(n, _ => size)[..n - 1] == seq(n - 1, _ => size);
    }
  }

  /** The smallest table the parallel path takes, with the row count its header gives: a run hands out a wrong row. */
  lemma RaceLosesRow()
    ensures CanFastScan(|Flat(Table2048().pages)|, 10) && |Flat(Table2048().pages)| == 2048
    ensures Table2048().Ok() && !AlwaysCareful(Table2048()) && !InOrder(Table2048())
  {
    hide InOrder, AlwaysCareful, Flat, Total, Rows;
    TotalOf(16, 128);
    NumberedFlat(seq(16, _ => 128));
    NumberedWrong(seq(16, _ => 128));
    FastTablesExposed(Table2048(), 2048, 10);
  }
}
