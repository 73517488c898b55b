/**
 When a scan is sure to end: exactly when the producer cuts the table into at most two batches.
 With two there is a recycled batch at most once, and whatever is signalled too early, no task is
 lost count of. With three, a worker that falls asleep over a batch signalled too early can wake up
 two batches later, count the same batch down below zero, and nobody ever signals it.
 */
module ScanHang {
  import opened Wrappers
  import opened ScanModel
  import opened ScanInvariant
  import opened ScanShape
  import opened ScanLedger
  import opened ScanMeaning
  import opened ScanProgress
  import opened ScanRuns
  import opened ScanRace

  // --- the batches the producer cuts ---

  /** Batches still to be sealed from row `row` of page `p` on, with `slot` slots of one already filled. */
  function Batches(sizes: seq<nat>, p: nat, row: nat, slot: nat): nat
    requires p < |sizes| ==> row <= sizes[p]
    decreases |sizes| - p, if p < |sizes| then sizes[p] - row else 0, slot
  {
    if p >= |sizes| then (if slot > 0 then 1 else 0)
    else if row == sizes[p] then Batches(sizes, p + 1, 0, slot)
    else
      var n := Min(sizes[p] - row, TASK_ROWS);
      if slot + n > BATCH_ROWS then 1 + Batches(sizes, p, row, 0) else Batches(sizes, p, row + n, slot + n)
  }

  function Sizes(pages: seq<Page>): (sizes: seq<nat>)
    ensures |sizes| == |pages| && forall p :: 0 <= p < |pages| ==> sizes[p] == |pages[p]|
  {
    seq(|pages|, p requires 0 <= p < |pages| => |pages[p]|)
  }

  /** The batches of the whole table. */
  function AllBatches(c: Config): nat { Batches(Sizes(c.pages), 0, 0, 0) }

  /** What is still to come from where the producer is. */
  function ToCome(c: Config, s: State, slot: nat): nat
    requires s.np <= |c.pages| && s.row <= PageLen(c, s)
  {
    Batches(Sizes(c.pages), if s.np == 0 then 0 else s.np - 1, s.row, slot)
  }

  lemma {:induction false} SomeToCome(sizes: seq<nat>, p: nat, row: nat, slot: nat)
    requires p < |sizes| ==> row <= sizes[p]
    requires slot > 0 || (p < |sizes| && row < sizes[p])
    ensures Batches(sizes, p, row, slot) >= 1
    decreases |sizes| - p, if p < |sizes| then sizes[p] - row else 0, slot
  {
    if p < |sizes| {
      if row == sizes[p] {
        SomeToCome(sizes, p + 1, 0, slot);
      } else {
        var n := Min(sizes[p] - row, TASK_ROWS);
        if slot + n <= BATCH_ROWS { SomeToCome(sizes, p, row + n, slot + n); }
      }
    }
  }

  /** Batches handed over, being sealed and still to come are always all batches of the table. */
  predicate Course(c: Config, s: State)
    requires s.np <= |c.pages| && s.row <= PageLen(c, s)
  {
    match s.pc
    case NeedSlot => |s.chain| + ToCome(c, s, 0) == AllBatches(c) && (s.np > 0 ==> MoreRows(c, s))
    case NeedBatch => |s.chain| + ToCome(c, s, 0) == AllBatches(c) && (s.np > 0 ==> MoreRows(c, s))
    case Renewing => |s.chain| + ToCome(c, s, s.slot) == AllBatches(c)
    case Filling => |s.chain| + ToCome(c, s, s.slot) == AllBatches(c)
    case Sending(t) => |s.chain| + ToCome(c, s, s.slot) == AllBatches(c) && MoreRows(c, s) && t.n == NextTask(c, s)
    case Sealing(last) =>
      |s.chain| + 1 + (if last then 0 else ToCome(c, s, 0)) == AllBatches(c) && (!last ==> MoreRows(c, s))
    case _ => true
  }

  lemma CutStep(sizes: seq<nat>, p: nat, row: nat, slot: nat)
    requires p < |sizes| && row <= sizes[p]
    ensures row == sizes[p] ==> Batches(sizes, p, row, slot) == Batches(sizes, p + 1, 0, slot)
    ensures row < sizes[p] ==>
      var n := Min(sizes[p] - row, TASK_ROWS);
      Batches(sizes, p, row, slot)
      == if slot + n > BATCH_ROWS then 1 + Batches(sizes, p, row, 0) else Batches(sizes, p, row + n, slot + n)
  {
  }

  lemma CutEnd(sizes: seq<nat>, slot: nat)
    ensures Batches(sizes, |sizes|, 0, slot) == if slot > 0 then 1 else 0
  {
  }

  lemma FillCourse(c: Config, s: State)
    requires PlaceOK(c, s) && Course(c, s) && s.pc.Filling?
    ensures var s' := Fill(c, s); s'.np <= |c.pages| && s'.row <= PageLen(c, s') && Course(c, s')
  {
    hide Flat, Sent, Batches;
    var sizes := Sizes(c.pages);
    if s.np > 0 { CutStep(sizes, s.np - 1, s.row, s.slot); }
    CutEnd(sizes, s.slot);
  }

  lemma ProduceCourse(c: Config, s: State, arena: seq<Cell>)
    requires PlaceOK(c, s) && Course(c, s) && CanProduce(c, s)
    ensures var s' := DoProduce(c, s, arena); s'.np <= |c.pages| && s'.row <= PageLen(c, s') && Course(c, s')
  {
    hide Flat, Sent, Fill, Batches;
    if s.pc.Filling? { FillCourse(c, s); }
    if s.pc.Sending? { CutStep(Sizes(c.pages), s.np - 1, s.row, s.slot); }
  }

  /** The producer stands still, and the chain does not grow. */
  predicate Still(s: State, s': State) {
    s'.pc == s.pc && s'.np == s.np && s'.row == s.row && s'.slot == s.slot && |s'.chain| == |s.chain|
  }

  lemma StillWork(c: Config, s: State, w: nat)
    requires CanWork(c, s, w)
    ensures Still(s, DoWork(c, s, w))
  {
    WorkFramed(c, s, w);
  }

  lemma StillCourse(c: Config, s: State, s': State)
    requires s.np <= |c.pages| && s.row <= PageLen(c, s) && Course(c, s) && Still(s, s')
    ensures s'.row <= PageLen(c, s') && Course(c, s')
  {
    hide Batches;
  }

  lemma StepCourse(c: Config, s: State, step: Step)
    requires PlaceOK(c, s) && Course(c, s) && Enabled(c, s, step)
    ensures var s' := Do(c, s, step); s'.np <= |c.pages| && s'.row <= PageLen(c, s') && Course(c, s')
  {
    PlacedAlways(c, s);
    hide PlaceOK, Course, DoProduce, DoWork, DoConsume, DoEnqueue;
    match step
    case Produce(arena) => ProduceCourse(c, s, arena);
    case ProduceCancel => GivenUp(c, s);
    case Work(w) => StillWork(c, s, w); StillCourse(c, s, DoWork(c, s, w));
    case Consume => StillConsume(c, s); StillCourse(c, s, DoConsume(c, s));
    case Enqueue(i) => StillEnqueue(s, i); StillCourse(c, s, DoEnqueue(s, i));
    case _ => StillCourse(c, s, Do(c, s, step));
  }

  lemma GivenUp(c: Config, s: State)
    requires s.np <= |c.pages| && s.row <= PageLen(c, s) && CanProduceCancel(s)
    ensures var s' := DoProduceCancel(s); s'.row <= PageLen(c, s') && Course(c, s')
  {
  }

  lemma StillConsume(c: Config, s: State)
    requires CanConsume(s)
    ensures Still(s, DoConsume(c, s))
  {
  }

  lemma StillEnqueue(s: State, i: nat)
    requires CanEnqueue(s, i)
    ensures Still(s, DoEnqueue(s, i))
  {
  }

  lemma {:induction false} RunCourse(c: Config, ss: seq<State>, steps: seq<Step>, k: nat)
    requires c.Ok() && Run(c, ss, steps) && k <= |steps|
    ensures ss[k].np <= |c.pages| && ss[k].row <= PageLen(c, ss[k]) && Course(c, ss[k])
  {
    hide Shape, Course, Do, Enabled;
    if k == 0 {
      InitCourse(c);
    } else {
      RunCourse(c, ss, steps, k - 1);
      RunShape(c, ss, steps, k - 1);
      ShapeReads(c, ss[k - 1]);
      StepCourse(c, ss[k - 1], steps[k - 1]);
    }
  }

  lemma InitCourse(c: Config)
    ensures Init(c).row <= PageLen(c, Init(c)) && Course(c, Init(c))
  {
  }

  // --- two batches: at most one recycling, and nothing is lost count of ---

  /** Until the second batch is taken, no batch is in its second life. */
  predicate AtMostTwo(s: State) {
    && (s.chain == [] && (s.pc.NeedSlot? || s.pc.NeedBatch?) ==> s.batches == [])
    && (s.chain == [] || s.pc.NeedSlot? || s.pc.NeedBatch? ==> SingleUse(s))
  }

  lemma FillKeepsTwo(c: Config, s: State)
    requires PlaceOK(c, s) && AtMostTwo(s) && s.pc.Filling?
    ensures AtMostTwo(Fill(c, s))
  {
    hide Flat, Sent;
  }

  lemma HandOverKeepsTwo(c: Config, s: State, last: bool)
    requires PlaceOK(c, s) && Course(c, s) && AllBatches(c) <= 2 && AtMostTwo(s) && s.pc == Sealing(last)
    ensures AtMostTwo(HandOver(s, last))
  {
    hide Flat, Sent, Batches;
    if !last { SomeToCome(Sizes(c.pages), s.np - 1, s.row, 0); }
  }

  lemma ProduceKeepsTwo(c: Config, s: State, arena: seq<Cell>)
    requires PlaceOK(c, s) && RolesOK(s) && Course(c, s) && AllBatches(c) <= 2 && AtMostTwo(s) && CanProduce(c, s)
    ensures AtMostTwo(DoProduce(c, s, arena))
  {
    NoPool(s);
    hide Flat, Sent, Fill, Course, AllBatches, RolesOK;
    match s.pc
    case Filling => FillKeepsTwo(c, s);
    case Sealing(last) => HandOverKeepsTwo(c, s, last);
    case _ =>
  }

  /** The chain stays empty or not, the producer where it is, and no batch is taken. */
  predicate NoneTaken(s: State, s': State) {
    && (s'.pc == s.pc || s'.pc.Closing?) && |s'.chain| == |s.chain| && |s'.batches| == |s.batches|
    && forall b :: 0 <= b < |s.batches| ==> s'.batches[b].log.gen == s.batches[b].log.gen
  }

  lemma OthersTakeNone(c: Config, s: State, step: Step)
    requires Enabled(c, s, step) && !step.Produce?
    ensures NoneTaken(s, Do(c, s, step))
  {
    hide DoWork, DoConsume, DoEnqueue, CanWork, CanConsume, CanEnqueue;
    match step
    case Work(w) => WorkSameLives(c, s, w);
    case Consume => ConsumeSameLives(c, s);
    case Enqueue(i) => EnqueueTakesNone(s, i);
    case _ =>
  }

  lemma EnqueueTakesNone(s: State, i: nat)
    requires CanEnqueue(s, i)
    ensures NoneTaken(s, DoEnqueue(s, i))
  {
  }

  lemma StepKeepsTwo(c: Config, s: State, step: Step)
    requires PlaceOK(c, s) && RolesOK(s) && Course(c, s) && AllBatches(c) <= 2 && AtMostTwo(s) && Enabled(c, s, step)
    ensures AtMostTwo(Do(c, s, step))
  {
    hide RolesOK, PlaceOK, Course, AllBatches;
    if step.Produce? {
      hide DoProduce;
      ProduceKeepsTwo(c, s, step.arena);
    } else {
      OthersTakeNone(c, s, step);
      hide Do;
    }
  }

  lemma {:induction false} RunKeepsTwo(c: Config, ss: seq<State>, steps: seq<Step>, k: nat)
    requires c.Ok() && Run(c, ss, steps) && k <= |steps| && AllBatches(c) <= 2
    ensures AtMostTwo(ss[k])
  {
    hide Shape, Course, Do, Enabled, AllBatches;
    if k > 0 {
      RunKeepsTwo(c, ss, steps, k - 1);
      RunShape(c, ss, steps, k - 1);
      RunCourse(c, ss, steps, k - 1);
      ShapeReads(c, ss[k - 1]);
      StepKeepsTwo(c, ss[k - 1], steps[k - 1]);
    }
  }

  /** A batch in its first life was never in another. */
  lemma StillFirst(c: Config, s: State, step: Step)
    requires Enabled(c, s, step) && SingleUse(Do(c, s, step))
    ensures SingleUse(s)
  {
    hide DoWork, DoConsume, DoEnqueue;
    if step.Produce? { ProducerStillFirst(c, s, step.arena); } else { OthersTakeNone(c, s, step); hide Do; }
  }

  /** Generations only go up. */
  predicate GensGrow(s: State, s': State) {
    |s.batches| <= |s'.batches| && forall b :: 0 <= b < |s.batches| ==> s.batches[b].log.gen <= s'.batches[b].log.gen
  }

  lemma FillGens(c: Config, s: State)
    requires s.np <= |c.pages| && s.cur < |s.batches|
    ensures GensGrow(s, Fill(c, s))
  {
  }

  lemma ProduceGens(c: Config, s: State, arena: seq<Cell>)
    requires CanProduce(c, s)
    ensures GensGrow(s, DoProduce(c, s, arena))
  {
    hide Sent, Fill, PageLen;
    match s.pc
    case Filling => FillGens(c, s);
    case _ =>
  }

  lemma ProducerStillFirst(c: Config, s: State, arena: seq<Cell>)
    requires CanProduce(c, s) && SingleUse(DoProduce(c, s, arena))
    ensures SingleUse(s)
  {
    ProduceGens(c, s, arena);
    hide DoProduce;
  }

  lemma {:induction false} AlwaysFirst(c: Config, ss: seq<State>, steps: seq<Step>, k: nat)
    requires c.Ok() && Run(c, ss, steps) && k <= |steps| && SingleUse(ss[k])
    ensures forall j :: 0 <= j <= k ==> SingleUse(ss[j])
  {
    hide Do, Enabled, SingleUse;
    if k > 0 {
      StillFirst(c, ss[k - 1], steps[k - 1]);
      AlwaysFirst(c, ss, steps, k - 1);
    }
  }

  /** With at most two batches every run is tidy, careful or not. */
  lemma TwoAreTidy(c: Config, ss: seq<State>, steps: seq<Step>)
    requires c.Ok() && Run(c, ss, steps) && AllBatches(c) <= 2
    ensures Tidy(ss, steps)
  {
    hide AllBatches, SingleUse, Inv;
    forall k | 0 <= k < |steps| ensures !Untidy(ss[k], steps[k]) {
      RunKeepsTwo(c, ss, steps, k);
      if ss[k].pc.NeedBatch? {
        AlwaysFirst(c, ss, steps, k);
        SingleUseIsCareful(c, ss, steps, k);
        RunKeeps(c, ss, steps, k);
        Parts(c, ss[k]);
        PooledDone(c, ss[k], steps[k]);
      }
    }
  }

  // --- three batches: worker 1 wakes up in the third life of the batch ---

  lemma EndsCourse(c: Config, s: State)
    requires c.Ok() && EndsRun(c, s)
    ensures Shape(c, s) && s.np <= |c.pages| && s.row <= PageLen(c, s) && Course(c, s)
  {
    hide Shape, Course;
    var ss, steps :| Run(c, ss, steps) && ss[|steps|] == s;
    RunShape(c, ss, steps, |steps|);
    RunCourse(c, ss, steps, |steps|);
  }

  /** A second batch that is full is followed by a third. */
  lemma ThirdToCome(c: Config, s: State)
    requires s.np <= |c.pages| && s.row <= PageLen(c, s) && Course(c, s) && s.pc.Filling? && |s.chain| == 1
    requires Full(c, s) && s.slot > 0 && AllBatches(c) > 2
    ensures MoreRows(c, s)
  {
    hide Batches;
    var sizes := Sizes(c.pages);
    if s.np > 0 { CutStep(sizes, s.np - 1, s.row, s.slot); }
    CutEnd(sizes, s.slot);
  }

  /** The batch is in its third life, and worker 1 still holds a task of its second. */
  predicate Dreaming(c: Config, s: State) {
    && Rest(c, s, 0) && MoreRows(c, s) && s.slot == 0 && s.held && |s.batches| == 1
    && !s.batches[0].ready && s.batches[0].remaining == 0
    && s.queue == [] && s.consumer.Waiting? && !s.cancelled
    && |s.chain| == 2 == s.posted == s.received && s.chain[1].pc.Finished?
    && s.workers[1].Busy? && s.workers[1].k == 0 && s.workers[1].t.b == 0 && TaskRange(c, 1, s.workers[1].t) && OthersIdle(s, 2)
  }

  lemma ToDreaming(c: Config, s: State) returns (s': State)
    requires Asleep(c, s) && MoreRows(c, s)
    ensures Reaches(c, s, s') && Dreaming(c, s')
  {
    hide Reaches, Flat, Sent;
    var step := Produce(seq(BATCH_ROWS, _ => Invalid));
    var s1 := ToEarly(c, s);
    var s2 := ReadAll(c, s1, 0, 0);
    Join(c, s, s1, s2);
    var s3 := ReleaseBatch(s2, 0);
    Then(c, s, s2, Consume, s3);
    var s4 := s3.(free := IN_FLIGHT, consumer := Waiting);
    Then(c, s, s3, Consume, s4);
    var s5 := s4.(free := IN_FLIGHT - 1, held := true, pc := NeedBatch);
    Then(c, s, s4, step, s5);
    var s6 := Reuse(s5, Sent(c, s5));
    Then(c, s, s5, step, s6);
    s' := s6.(pc := Filling);
    Then(c, s, s6, step, s');
  }

  /** It finishes the task, and the count of a batch with nothing outstanding goes below zero. */
  predicate Miscounted(c: Config, s: State) {
    && Rest(c, s, 0) && MoreRows(c, s) && s.slot == 0 && s.held && |s.batches| == 1
    && !s.batches[0].ready && s.batches[0].remaining == -1
    && s.queue == [] && s.consumer.Waiting? && !s.cancelled
    && |s.chain| == 2 == s.posted == s.received && s.chain[1].pc.Finished? && OthersIdle(s, 1)
  }

  lemma ToMiscounted(c: Config, s: State) returns (s': State)
    requires Dreaming(c, s)
    ensures Reaches(c, s, s') && Miscounted(c, s')
  {
    hide Reaches, Flat, Sent;
    var t := s.workers[1].t;
    var slots := WriteAll(c, s, 1, t, 0);
    var s1 := s.(workers := s.workers[1 := Busy(t, t.n)], batches := s.batches[0 := s.batches[0].(slots := slots)]);
    var s2 := FinishTask(s1, 1, t);
    Then(c, s, s1, Work(1), s2);
    s' := s2.(workers := s2.workers[1 := Idle]);
    Then(c, s, s2, Work(1), s');
  }

  predicate Apart(v: Worker, b: nat) {
    match v
    case Busy(t, _) => t.b != b
    case TestDone(b1) => b1 != b
    case TestRemaining(b1, _) => b1 != b
    case Signal(b1, _) => b1 != b
    case _ => true
  }

  /** The third batch waits for a signal nobody will give. */
  predicate Doomed(s: State) {
    && !s.cancelled && s.consumer.Waiting? && s.queue == [] && s.posted == 2 == s.received
    && |s.chain| >= 3 && s.chain[2].item == Data(0) && (s.chain[2].pc.WaitPrev? || s.chain[2].pc.WaitReady?)
    && s.batches != [] && s.batches[0].log.role == Chained(2) && !s.batches[0].ready
    && (s.pc.Sending? ==> s.pc.t.b != 0)
    && (forall i :: 0 <= i < |s.tasks| ==> s.tasks[i].b != 0)
    && (forall w :: 0 <= w < |s.workers| ==> Apart(s.workers[w], 0))
  }

  lemma ToFull(c: Config, s: State) returns (s': State)
    requires Miscounted(c, s)
    ensures Reaches(c, s, s') && Rest(c, s', 0) && Full(c, s') && s'.slot > 0 && s'.workers[0] == TestDone(0) && OthersIdle(s', 1)
    ensures s' == s.(np := s'.np, row := s'.row, slot := s'.slot, workers := s'.workers, batches := s'.batches)
    ensures |s'.batches| == 1 && !s'.batches[0].ready && s'.batches[0].remaining == -1
  {
    hide Reaches, Flat, Further;
    s' := FillUp(c, s, 0);
    FurtherKeeps(s, s');
    if s'.slot == 0 {
      SentBefore(c, s);
      AllSent(c, s');
    }
  }

  lemma ToDoomed(c: Config, s: State) returns (s': State)
    requires Miscounted(c, s)
    ensures Reaches(c, s, s') && Doomed(s')
  {
    hide Reaches, Flat, Sent;
    var step := Produce(seq(BATCH_ROWS, _ => Invalid));
    var s1 := ToFull(c, s);
    var last := !MoreRows(c, s1);
    var s2 := Seal(s1, last);
    assert DoProduce(c, s1, step.arena) == Fill(c, s1) == s2;
    Then(c, s, s1, step, s2);
    var s3 := HandOver(s2, last);
    Then(c, s, s2, step, s3);
    var g := s3.batches[0].log.gen;
    var s4 := s3.(workers := s3.workers[0 := TestRemaining(0, g)]);
    Then(c, s, s3, Work(0), s4);
    s' := s4.(workers := s4.workers[0 := Idle]);
    Then(c, s, s4, Work(0), s');
  }

  // --- and from then on nothing helps ---

  lemma DoomedProduce(c: Config, s: State, arena: seq<Cell>)
    requires PlaceOK(c, s) && RolesOK(s) && Doomed(s) && CanProduce(c, s)
    ensures Doomed(DoProduce(c, s, arena))
  {
    NotPooled(s);
    hide Flat, Sent, RolesOK, Fill;
    match s.pc
    case Filling => DoomedFill(c, s);
    case _ =>
  }

  lemma NotPooled(s: State)
    requires RolesOK(s) && s.batches != [] && !s.batches[0].log.role.Pooled?
    ensures s.pool != [] ==> s.pool[0] != 0
  {
  }

  lemma DoomedFill(c: Config, s: State)
    requires PlaceOK(c, s) && Doomed(s) && s.pc.Filling?
    ensures Doomed(Fill(c, s))
  {
    hide Flat, Sent;
  }

  /** Worker `w` moves, and has nothing to do with the batch before or after. */
  lemma DoomedMove(s: State, s': State, w: nat)
    requires Doomed(s) && w < |s.workers| == |s'.workers| && s'.workers == s.workers[w := s'.workers[w]] && Apart(s'.workers[w], 0)
    requires s' == s.(workers := s'.workers, tasks := s'.tasks, batches := s'.batches)
    requires s'.batches != [] && s'.batches[0] == s.batches[0]
    requires s'.tasks == s.tasks || (s.tasks != [] && s'.tasks == s.tasks[1..])
    ensures Doomed(s')
  {
  }

  lemma DoomedWork(c: Config, s: State, w: nat)
    requires Doomed(s) && CanWork(c, s, w)
    ensures Doomed(DoWork(c, s, w))
  {
    assert Apart(s.workers[w], 0) && s.batches != [];
    assert s.tasks != [] ==> s.tasks[0].b != 0;
    hide Doomed;
    match s.workers[w]
    case Idle => if s.tasks != [] { DoomedMove(s, TakeTask(s, w), w); } else { DoomedMove(s, SetWorker(s, w, Exited), w); }
    case Busy(t, k) =>
      if k < t.n { DoomedMove(s, WriteRow(c, s, w, t, k), w); } else { DoomedMove(s, FinishTask(s, w, t), w); }
    case TestDone(b) => DoomedMove(s, LoadDone(s, w, b), w);
    case TestRemaining(b, g) => DoomedMove(s, LoadRemaining(s, w, b, g), w);
    case Signal(b, _) => DoomedMove(s, MarkReady(s, w, b), w);
  }

  lemma DoomedEnqueue(c: Config, s: State, i: nat)
    requires ChainInv(c, s) && Doomed(s) && CanEnqueue(s, i)
    ensures Doomed(DoEnqueue(s, i))
  {
    hide Flat;
    assert EntryOK(|Flat(c.pages)|, s.chain, s.posted, i, s.cancelled, s.pc.Closing? || s.pc.Stopped?);
    if i > 0 { assert EntryOK(|Flat(c.pages)|, s.chain, s.posted, i - 1, s.cancelled, s.pc.Closing? || s.pc.Stopped?); }
  }

  lemma StaysDoomed(c: Config, s: State, step: Step)
    requires Shape(c, s) && Doomed(s) && Enabled(c, s, step) && Moves(step)
    ensures Doomed(Do(c, s, step))
  {
    ShapeReads(c, s);
    hide Shape, PlaceOK, RolesOK, ChainInv, DoProduce, DoWork, DoEnqueue;
    match step
    case Produce(arena) => DoomedProduce(c, s, arena);
    case Work(w) => DoomedWork(c, s, w);
    case Enqueue(i) => DoomedEnqueue(c, s, i);
    case _ =>
  }

  /** Any run goes on until nothing but a cancel can happen. */
  lemma {:induction false} RunsOut(c: Config, ss: seq<State>, steps: seq<Step>) returns (ss1: seq<State>, steps1: seq<Step>)
    requires c.Ok() && Run(c, ss, steps) && Doomed(ss[|steps|])
    ensures Run(c, ss1, steps1) && |ss1| == |steps1| + 1 && Doomed(ss1[|steps1|])
    ensures forall step :: Moves(step) ==> !Enabled(c, ss1[|steps1|], step)
    decreases 31 * |Flat(c.pages)| + |c.pages| + c.workers + 17 - |steps|
  {
    hide Shape, Doomed, Do, Enabled;
    RunLength(c, ss, steps);
    var s := ss[|steps|];
    if step :| Moves(step) && Enabled(c, s, step) {
      RunShape(c, ss, steps, |steps|);
      StaysDoomed(c, s, step);
      Longer(c, ss, steps, step);
      RunsAreFinite(c, ss + [Do(c, s, step)], steps + [step]);
      ss1, steps1 := RunsOut(c, ss + [Do(c, s, step)], steps + [step]);
    } else {
      ss1, steps1 := ss, steps;
    }
  }

  // --- exactly when scans end ---

  /** Every run that is not cancelled and cannot go on has come to its end. */
  ghost predicate NeverHangs(c: Config) {
    forall ss: seq<State>, steps: seq<Step> :: Run(c, ss, steps) ==> Settled(c, ss[|steps|])
  }

  ghost predicate Settled(c: Config, s: State) {
    !s.cancelled && (forall step :: Moves(step) ==> !Enabled(c, s, step)) ==> s.consumer == Ended(c.failed)
  }

  lemma {:induction false} TotalGrows(sizes: seq<nat>, p: nat)
    requires p <= |sizes|
    ensures Total(sizes[..p]) <= Total(sizes)
    decreases |sizes| - p
  {
    if p < |sizes| {
      TotalGrows(sizes, p + 1);
      assert sizes[..p + 1][..p] == sizes[..p];
    } else {
      assert sizes[..p] == sizes;
    }
  }

  /** What fits one batch is cut into one. */
  lemma {:induction false} OneSuffices(sizes: seq<nat>, p: nat, row: nat, slot: nat)
    requires (p < |sizes| ==> row <= sizes[p]) && (p >= |sizes| ==> row == 0) && p <= |sizes|
    requires Total(sizes) + slot <= Total(sizes[..p]) + row + BATCH_ROWS
    ensures Batches(sizes, p, row, slot) <= 1
    decreases |sizes| - p, if p < |sizes| then sizes[p] - row else 0, slot
  {
    if p < |sizes| {
      TotalGrows(sizes, p + 1);
      assert sizes[..p + 1][..p] == sizes[..p];
      if row == sizes[p] {
        OneSuffices(sizes, p + 1, 0, slot);
      } else {
        var n := Min(sizes[p] - row, TASK_ROWS);
        OneSuffices(sizes, p, row + n, slot + n);
      }
    }
  }

  lemma MoreThanOne(c: Config)
    requires AllBatches(c) > 1
    ensures |Flat(c.pages)| > BATCH_ROWS
  {
    SizedTotal(c.pages, Sizes(c.pages));
    if |Flat(c.pages)| <= BATCH_ROWS {
      assert Sizes(c.pages)[..0] == [];
      OneSuffices(Sizes(c.pages), 0, 0, 0);
    }
  }

  /** A third batch is all it takes. */
  lemma Hangs(c: Config)
    requires c.Ok() && AllBatches(c) > 2
    ensures !NeverHangs(c)
  {
    hide Run, Reaches, Flat, Rows, Sent, Careful, AllBatches, Course, Enabled, Premature, Dreaming, Miscounted, Shape;
    MoreThanOne(c);
    var s := ToPoised(c);
    var s1 := ToAsleep(c, s);
    var ss, steps := CarelessRun(c, s);
    ReachedAfter(c, ss, steps, s1);
    EndsCourse(c, s1);
    ThirdToCome(c, s1);
    var s2 := ToDreaming(c, s1);
    Join(c, MarkReady(s, 0, 0), s1, s2);
    var s3 := ToMiscounted(c, s2);
    Join(c, MarkReady(s, 0, 0), s2, s3);
    var s4 := ToDoomed(c, s3);
    Join(c, MarkReady(s, 0, 0), s3, s4);
    ReachedAfter(c, ss, steps, s4);
    StuckRun(c, s4);
  }

  lemma StuckRun(c: Config, s: State)
    requires c.Ok() && EndsRun(c, s) && Doomed(s)
    ensures !NeverHangs(c)
  {
    hide Enabled, Do;
    var ss, steps :| Run(c, ss, steps) && ss[|steps|] == s;
    var ss1, steps1 := RunsOut(c, ss, steps);
    assert !Settled(c, ss1[|steps1|]);
  }

  /** A batch holds at most 256 rows. */
  lemma {:induction false} BatchesHold(sizes: seq<nat>, p: nat, row: nat, slot: nat)
    requires (p < |sizes| ==> row <= sizes[p]) && slot <= BATCH_ROWS && (p >= |sizes| ==> row == 0) && p <= |sizes|
    ensures BATCH_ROWS * Batches(sizes, p, row, slot) + Total(sizes[..p]) + row >= Total(sizes) + slot
    decreases |sizes| - p, if p < |sizes| then sizes[p] - row else 0, slot
  {
    if p == |sizes| {
      assert sizes[..p] == sizes;
    } else if row == sizes[p] {
      BatchesHold(sizes, p + 1, 0, slot);
      assert sizes[..p + 1][..p] == sizes[..p];
    } else {
      var n := Min(sizes[p] - row, TASK_ROWS);
      if slot + n > BATCH_ROWS { BatchesHold(sizes, p, row, 0); } else { BatchesHold(sizes, p, row + n, slot + n); }
    }
  }

  lemma RowsInBatches(c: Config)
    ensures |Flat(c.pages)| <= BATCH_ROWS * AllBatches(c)
  {
    SizedTotal(c.pages, Sizes(c.pages));
    BatchesHold(Sizes(c.pages), 0, 0, 0);
    assert Sizes(c.pages)[..0] == [];
  }

  /** No schedule leaves a scan hanging exactly when the producer cuts the table into at most two batches. */
  lemma HangExact(c: Config)
    requires c.Ok()
    ensures NeverHangs(c) <==> AllBatches(c) <= 2
  {
    hide Run, Tidy, AllBatches, Settled;
    if AllBatches(c) <= 2 {
      forall ss: seq<State>, steps: seq<Step> | Run(c, ss, steps) ensures |ss| == |steps| + 1 && Settled(c, ss[|steps|]) {
        RunLength(c, ss, steps);
        TwoSettle(c, ss, steps);
      }
    } else {
      Hangs(c);
    }
  }

  lemma TwoSettle(c: Config, ss: seq<State>, steps: seq<Step>)
    requires c.Ok() && Run(c, ss, steps) && AllBatches(c) <= 2
    ensures Settled(c, ss[|steps|])
  {
    hide AllBatches, Tidy, Enabled;
    TwoAreTidy(c, ss, steps);
    var s := ss[|steps|];
    if !s.cancelled && forall step :: Moves(step) ==> !Enabled(c, s, step) { TidyRunsEnd(c, ss, steps); }
  }

  /** Every table that takes the parallel path and has the rows its header counts has a schedule that hangs. */
  lemma FastTablesHang(c: Config, numRows: int, numColumns: int)
    requires c.Ok() && CanFastScan(numRows, numColumns) && numRows <= |Flat(c.pages)|
    ensures !NeverHangs(c)
  {
    hide NeverHangs, Flat, AllBatches;
    RowsInBatches(c);
    HangExact(c);
  }
}
