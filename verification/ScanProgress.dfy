/** While no task goes uncounted some goroutine can always move, and every run is finite. */
module ScanProgress {
  import opened ScanModel
  import opened ScanInvariant
  import opened ScanShape

  // --- some step can be taken ---

  lemma WorkerCanStep(c: Config, s: State, w: nat)
    requires RangesOK(c, s) && w < |s.workers| && !s.workers[w].Exited?
    requires s.workers[w].Idle? ==> s.tasks != [] || s.tasksClosed
    ensures CanWork(c, s, w)
  {
    assert WorkerRange(c, s, w);
    match s.workers[w]
    case Idle => if s.tasks != [] { assert TaskRange(c, |s.batches|, s.tasks[0]); }
    case Busy(t, k) => assert BatchRange(s.batches[t.b]);
    case _ =>
  }

  /** While a task is queued, the first worker has something to do. */
  lemma QueuedCanStep(c: Config, s: State)
    requires c.Ok() && RangesOK(c, s) && s.tasks != []
    ensures CanWork(c, s, 0)
  {
    assert WorkerRange(c, s, 0);
    WorkerCanStep(c, s, 0);
  }

  /** A batch whose enqueue goroutine waits for it is being worked on. */
  lemma UnreadyCanStep(c: Config, s: State, b: nat)
    requires c.Ok() && RangesOK(c, s) && PlaceOK(c, s) && Outstanding(c, s)
    requires b < |s.batches| && s.batches[b].log.role.Chained? && !s.batches[b].ready
    ensures exists w :: CanWork(c, s, w)
  {
    hide CanWork, Flat, Sent;
    var bt := s.batches[b];
    assert BatchRange(bt);
    if bt.log.open == map[] {
      assert !(s.pc.Sealing? && s.cur == b);
      var w :| 0 <= w < |s.workers| && Testing(s.workers[w], b, bt.log.gen);
      WorkerCanStep(c, s, w);
    } else {
      var st :| st in bt.log.open;
      assert Held(s, b, st, bt.log.open[st].loc);
      if bt.log.open[st].loc.Queued? {
        QueuedCanStep(c, s);
      } else {
        WorkerCanStep(c, s, bt.log.open[st].loc.w);
      }
    }
  }

  /** Something is enqueued and not yet posted: its goroutine, or one it waits for, can move. */
  lemma ChainCanStep(c: Config, s: State)
    requires c.Ok() && Shape(c, s) && Outstanding(c, s) && !s.cancelled
    requires s.posted < |s.chain| && s.queue == []
    ensures (exists i :: CanEnqueue(s, i)) || (exists w :: CanWork(c, s, w))
  {
    hide CanWork, Outstanding, PlaceOK, RangesOK, ConsumerOK, CountsOK;
    var i := s.posted;
    assert EntryOK(|Flat(c.pages)|, s.chain, s.posted, i, s.cancelled, s.pc.Closing? || s.pc.Stopped?);
    if i > 0 {
      assert EntryOK(|Flat(c.pages)|, s.chain, s.posted, i - 1, s.cancelled, s.pc.Closing? || s.pc.Stopped?);
    }
    if i > 0 && s.chain[i].pc.WaitPrev? && s.chain[i - 1].pc.ClosingNext? {
      assert CanEnqueue(s, i - 1);
    } else if s.chain[i].pc.WaitReady? && s.chain[i].item.Data? {
      assert LinkOK(s, i);
      if s.batches[s.chain[i].item.b].ready {
        assert CanEnqueue(s, i);
      } else {
        UnreadyCanStep(c, s, s.chain[i].item.b);
      }
    } else {
      assert CanEnqueue(s, i);
    }
  }

  /** Everything enqueued was received: the producer is free to go on. */
  lemma ProducerCanStep(c: Config, s: State)
    requires c.Ok() && Shape(c, s) && !s.cancelled && s.consumer.Waiting? && s.received == |s.chain|
    requires s.received > 0 ==> s.chain[s.received - 1].item.Data?
    ensures CanProduce(c, s) || exists w :: CanWork(c, s, w)
  {
    hide CanWork, Flat, Sent, ChainInv;
    if s.pc.Sending? && |s.tasks| >= 4 * c.workers {
      QueuedCanStep(c, s);
    }
  }

  predicate ConsumerCanStep(s: State) { !s.consumer.Waiting? && !s.consumer.Ended? }

  lemma ReaderCanStep(c: Config, s: State)
    requires RangesOK(c, s) && ConsumerOK(c, s) && CountsOK(s) && ConsumerCanStep(s)
    ensures CanConsume(s)
  {
    if s.consumer.ReadingRows? { assert BatchRange(s.batches[s.consumer.b]); }
  }

  predicate Moves(step: Step) { step != Cancel }

  /**
   Without a cancel, and with a consumer that keeps asking, nothing is stuck before the end as long
   as every task is accounted for.
   */
  lemma NeverStuck(c: Config, s: State)
    requires c.Ok() && Shape(c, s) && Outstanding(c, s) && !s.cancelled && !s.consumer.Ended?
    ensures exists step :: Moves(step) && Enabled(c, s, step)
  {
    hide Outstanding, PlaceOK, RangesOK, RolesOK, CanEnqueue, CanWork, CanProduce;
    if ConsumerCanStep(s) {
      ReaderCanStep(c, s);
      assert Moves(Consume) && Enabled(c, s, Consume);
    } else if s.queue != [] {
      HeadOK(c, s);
      assert Moves(Consume) && Enabled(c, s, Consume);
    } else if s.posted < |s.chain| {
      ChainCanStep(c, s);
      if i :| CanEnqueue(s, i) { assert Moves(Enqueue(i)) && Enabled(c, s, Enqueue(i)); }
      else { var w :| CanWork(c, s, w); assert Moves(Work(w)) && Enabled(c, s, Work(w)); }
    } else {
      ProducerCanStep(c, s);
      if CanProduce(c, s) {
        var step := Produce(seq(BATCH_ROWS, _ => Invalid));
        assert Moves(step) && Enabled(c, s, step);
      } else { var w :| CanWork(c, s, w); assert Moves(Work(w)) && Enabled(c, s, Work(w)); }
    }
  }

  /** What the two waits of `close` wait for. */
  predicate AllGone(s: State) {
    && s.pc.Stopped?
    && (forall w :: 0 <= w < |s.workers| ==> s.workers[w].Exited?)
    && (forall i :: 0 <= i < |s.chain| ==> s.chain[i].pc.Finished? || s.chain[i].pc.Abandoned?)
  }

  /** Steps of the goroutines `close` waits for; the consumer itself stands still. */
  predicate Background(step: Step) {
    step.Produce? || step.ProduceCancel? || step.Work? || step.Enqueue? || step.EnqueueCancel?
  }

  /** After a cancel the producer can stop without the consumer's help. */
  lemma StopsAlone(c: Config, s: State)
    requires Shape(c, s) && s.cancelled && !s.pc.Stopped?
    ensures CanProduceCancel(s) || CanProduce(c, s)
  {
    if s.pc.NeedBatch? && s.pool != [] { assert PoolOK(s); }
  }

  /** After a cancel, in any state at all, the goroutines `close` waits for can move until they are gone. */
  lemma CloseNeverStuck(c: Config, s: State)
    requires Shape(c, s) && s.cancelled && !AllGone(s)
    ensures exists step :: Background(step) && Enabled(c, s, step)
  {
    hide Shape;
    if !s.pc.Stopped? {
      StopsAlone(c, s);
      if CanProduceCancel(s) {
        assert Background(ProduceCancel) && Enabled(c, s, ProduceCancel);
      } else {
        var step := Produce(seq(BATCH_ROWS, _ => Invalid));
        assert Background(step) && Enabled(c, s, step);
      }
    } else if w :| 0 <= w < |s.workers| && !s.workers[w].Exited? {
      StoppedWorkers(c, s, w);
      assert Background(Work(w)) && Enabled(c, s, Work(w));
    } else {
      var i :| 0 <= i < |s.chain| && !s.chain[i].pc.Finished? && !s.chain[i].pc.Abandoned?;
      if CanEnqueueCancel(s, i) {
        assert Background(EnqueueCancel(i)) && Enabled(c, s, EnqueueCancel(i));
      } else {
        assert Background(Enqueue(i)) && Enabled(c, s, Enqueue(i));
      }
    }
  }

  lemma StoppedWorkers(c: Config, s: State, w: nat)
    requires Shape(c, s) && s.pc.Stopped? && w < |s.workers| && !s.workers[w].Exited?
    ensures CanWork(c, s, w)
  {
    hide RangesOK, RolesOK, ChainInv, ConsumerOK, CountsOK, Flat, Sent;
    WorkerCanStep(c, s, w);
  }

  // --- a potential that every step lowers ---

  function WorkerWeight(v: Worker): nat {
    match v
    case Exited => 0
    case Idle => 1
    case Signal(_, _) => 2
    case TestRemaining(_, _) => 3
    case TestDone(_) => 4
    case Busy(t, k) => 5 + if k < t.n then t.n - k else 0
  }

  function EnqWeight(pc: EnqPc): nat {
    match pc
    case WaitPrev => 9
    case WaitReady => 8
    case Posting => 7
    case ClosingNext => 1
    case _ => 0
  }

  function Workers(ws: seq<Worker>): nat {
    if ws == [] then 0 else Workers(ws[..|ws| - 1]) + WorkerWeight(ws[|ws| - 1])
  }

  function Tasks(ts: seq<Task>): nat {
    if ts == [] then 0 else ts[0].n + 5 + Tasks(ts[1..])
  }

  function Chain(es: seq<Enq>): nat {
    if es == [] then 0 else Chain(es[..|es| - 1]) + EnqWeight(es[|es| - 1].pc)
  }

  function ProducerWeight(s: State): nat {
    match s.pc
    case NeedSlot => 15
    case NeedBatch => 14
    case Renewing => if s.slot > 0 then 27 else 13
    case Filling => if s.slot > 0 then 26 else 12
    case Sending(_) => if s.slot > 0 then 25 else 11
    case Sealing(_) => 25
    case Marking => 11
    case Closing => 1
    case Stopped => 0
  }

  function ConsumerWeight(k: Consumer): nat {
    match k
    case Ended(_) => 0
    case Waiting => 1
    case Returning => 2
    case ReadingRows(_, _) => 3
  }

  /** Work left: undispatched rows and pages, unfinished tasks, undelivered batches, unread rows. */
  function Potential(c: Config, s: State): int
    requires s.np <= |c.pages|
  {
    30 * (|Flat(c.pages)| - Sent(c, s)) + (|c.pages| - s.np) + ProducerWeight(s)
    + Workers(s.workers) + Tasks(s.tasks) + Chain(s.chain) + 5 * |s.queue|
    + (|Flat(c.pages)| - s.seen) + ConsumerWeight(s.consumer) + One(!s.cancelled)
  }

  lemma {:induction false} WorkersUpdate(ws: seq<Worker>, w: nat, v: Worker)
    requires w < |ws|
    ensures Workers(ws[w := v]) == Workers(ws) - WorkerWeight(ws[w]) + WorkerWeight(v)
  {
    var front, ws' := ws[..|ws| - 1], ws[w := v];
    if w == |ws| - 1 {
      assert ws'[..|ws| - 1] == front;
    } else {
      WorkersUpdate(front, w, v);
      assert ws'[..|ws| - 1] == front[w := v];
    }
  }

  lemma {:induction false} ChainUpdate(es: seq<Enq>, i: nat, pc: EnqPc)
    requires i < |es|
    ensures Chain(es[i := es[i].(pc := pc)]) == Chain(es) - EnqWeight(es[i].pc) + EnqWeight(pc)
  {
    var front, es' := es[..|es| - 1], es[i := es[i].(pc := pc)];
    if i == |es| - 1 {
      assert es'[..|es| - 1] == front;
    } else {
      ChainUpdate(front, i, pc);
      assert es'[..|es| - 1] == front[i := front[i].(pc := pc)];
    }
  }

  lemma {:induction false} TasksAppend(ts: seq<Task>, t: Task)
    ensures Tasks(ts + [t]) == Tasks(ts) + t.n + 5
  {
    if ts == [] {
      assert ts + [t] == [t];
    } else {
      TasksAppend(ts[1..], t);
      assert (ts + [t])[1..] == ts[1..] + [t];
    }
  }

  lemma ChainAppend(es: seq<Enq>, e: Enq)
    ensures Chain(es + [e]) == Chain(es) + EnqWeight(e.pc)
  {
    assert (es + [e])[..|es|] == es;
  }

  lemma PotentialNonNegative(c: Config, s: State)
    requires Shape(c, s)
    ensures s.np <= |c.pages| && Potential(c, s) >= 0
  {
    hide RangesOK, RolesOK, ChainInv, CountsOK, Flat, Sent, Workers, Tasks, Chain;
    SentBound(c, s);
  }

  /** Where the producer may be in its loops. */
  predicate Placed(c: Config, s: State) { s.np <= |c.pages| && s.row <= PageLen(c, s) }

  lemma PlacedAlways(c: Config, s: State)
    requires PlaceOK(c, s)
    ensures Placed(c, s)
    ensures s.pc.Sending? ==> s.np > 0 && s.pc.t.n > 0
  {
  }

  lemma TasksHead(ts: seq<Task>)
    requires ts != []
    ensures Tasks(ts) == ts[0].n + 5 + Tasks(ts[1..])
  {
  }

  lemma SendLowers(c: Config, s: State)
    requires Placed(c, s) && s.pc.Sending? && s.np > 0 && s.pc.t.n > 0 && s.pc.t.b < |s.batches|
    ensures Potential(c, Send(s, s.pc.t)) < Potential(c, s)
  {
    hide Flat, Workers, Chain, Tasks;
    TasksAppend(s.tasks, s.pc.t);
  }

  lemma HandOverLowers(c: Config, s: State, last: bool)
    requires Placed(c, s) && s.pc == Sealing(last) && s.cur < |s.batches|
    ensures Potential(c, HandOver(s, last)) < Potential(c, s)
  {
    hide Flat, Workers, Chain, Tasks;
    ChainAppend(s.chain, HandOver(s, last).chain[|s.chain|]);
  }

  lemma MarkerLowers(c: Config, s: State)
    requires Placed(c, s) && s.pc.Marking?
    ensures Potential(c, AddMarker(s, Sent(c, s))) < Potential(c, s)
  {
    hide Flat, Workers, Chain, Tasks;
    ChainAppend(s.chain, Enq(Marker, WaitPrev, Sent(c, s), 0));
  }

  lemma TurnPageLowers(c: Config, s: State)
    requires Placed(c, s) && s.pc.Filling? && s.row == PageLen(c, s) && s.np < |c.pages|
    ensures Potential(c, s.(np := s.np + 1, row := 0)) < Potential(c, s)
  {
    SentNextPage(c, s);
    hide Flat, Workers, Chain, Tasks, Sent;
  }

  /** Only the producer's place in its code changes, to a lower one. */
  lemma PcLowers(c: Config, s: State, s': State)
    requires s.np <= |c.pages| && ProducerWeight(s') < ProducerWeight(s)
    requires s'.np == s.np && s'.row == s.row && s'.workers == s.workers && s'.tasks == s.tasks && s'.chain == s.chain
    requires s'.queue == s.queue && s'.seen == s.seen && s'.consumer == s.consumer && s'.cancelled == s.cancelled
    ensures Potential(c, s') < Potential(c, s)
  {
    hide Flat, Workers, Chain, Tasks, ProducerWeight;
  }

  lemma FillLowers(c: Config, s: State)
    requires Placed(c, s) && s.pc.Filling? && s.cur < |s.batches|
    ensures Fill(c, s).np <= |c.pages| && Potential(c, Fill(c, s)) < Potential(c, s)
  {
    hide Potential;
    if s.row < PageLen(c, s) || s.np == |c.pages| { PcLowers(c, s, Fill(c, s)); } else { TurnPageLowers(c, s); }
  }

  lemma ProduceLowers(c: Config, s: State, arena: seq<Cell>)
    requires Placed(c, s) && CanProduce(c, s) && (s.pc.Sending? ==> s.np > 0 && s.pc.t.n > 0)
    ensures DoProduce(c, s, arena).np <= |c.pages| && Potential(c, DoProduce(c, s, arena)) < Potential(c, s)
  {
    hide Potential, Fill;
    match s.pc
    case NeedSlot => PcLowers(c, s, s.(free := s.free - 1, held := true, pc := NeedBatch));
    case NeedBatch =>
      if s.pool != [] { PcLowers(c, s, Reuse(s, Sent(c, s))); } else { PcLowers(c, s, Allocate(s, arena, Sent(c, s))); }
    case Renewing => PcLowers(c, s, s.(pc := Filling));
    case Filling => FillLowers(c, s);
    case Sending(t) => SendLowers(c, s);
    case Sealing(last) => HandOverLowers(c, s, last);
    case Marking => MarkerLowers(c, s);
    case Closing => PcLowers(c, s, s.(tasksClosed := true, pc := Stopped));
  }

  /** Only worker `w` changes, and perhaps a batch. */
  lemma WorkerLowers(c: Config, s: State, s': State, w: nat)
    requires s.np <= |c.pages| && w < |s.workers| == |s'.workers|
    requires s' == s.(workers := s.workers[w := s'.workers[w]], batches := s'.batches)
    requires WorkerWeight(s'.workers[w]) < WorkerWeight(s.workers[w])
    ensures Potential(c, s') < Potential(c, s)
  {
    hide Flat, Workers, Chain, Tasks, WorkerWeight;
    WorkersUpdate(s.workers, w, s'.workers[w]);
  }

  lemma TakeLowers(c: Config, s: State, w: nat)
    requires s.np <= |c.pages| && w < |s.workers| && s.workers[w].Idle? && s.tasks != [] && s.tasks[0].b < |s.batches|
    ensures Potential(c, TakeTask(s, w)) < Potential(c, s)
  {
    hide Flat, Workers, Chain, Tasks;
    WorkersUpdate(s.workers, w, Busy(s.tasks[0], 0));
    TasksHead(s.tasks);
  }

  lemma WorkLowers(c: Config, s: State, w: nat)
    requires s.np <= |c.pages| && CanWork(c, s, w)
    ensures DoWork(c, s, w).np == s.np && Potential(c, DoWork(c, s, w)) < Potential(c, s)
  {
    hide Potential, Workers, Tasks, Chain;
    if s.workers[w].Idle? && s.tasks != [] {
      TakeLowers(c, s, w);
    } else {
      WorkerMoves(c, s, w);
      hide DoWork, CanWork;
      WorkerLowers(c, s, DoWork(c, s, w), w);
    }
  }

  lemma WorkerMoves(c: Config, s: State, w: nat)
    requires CanWork(c, s, w) && !(s.workers[w].Idle? && s.tasks != [])
    ensures var s' := DoWork(c, s, w);
            w < |s.workers| == |s'.workers| && s' == s.(workers := s.workers[w := s'.workers[w]], batches := s'.batches)
            && WorkerWeight(s'.workers[w]) < WorkerWeight(s.workers[w])
  {
  }

  /** One goroutine of the chain moves; at most one item joins the queue. */
  lemma EntryLowers(c: Config, s: State, s': State, i: nat, pc: EnqPc)
    requires s.np <= |c.pages| && i < |s.chain|
    requires s' == s.(chain := s.chain[i := s.chain[i].(pc := pc)], queue := s'.queue, posted := s'.posted)
    requires EnqWeight(pc) + 5 * |s'.queue| < EnqWeight(s.chain[i].pc) + 5 * |s.queue|
    ensures Potential(c, s') < Potential(c, s)
  {
    hide Flat, Workers, Chain, Tasks, EnqWeight;
    ChainUpdate(s.chain, i, pc);
  }

  /** The consumer moves; it may take from the queue or read a row. */
  lemma ReaderLowers(c: Config, s: State, s': State)
    requires s.np <= |c.pages|
    requires s'.np == s.np && s'.row == s.row && s'.pc == s.pc && s'.slot == s.slot && s'.workers == s.workers
    requires s'.tasks == s.tasks && s'.chain == s.chain && s'.cancelled == s.cancelled
    requires 5 * |s'.queue| - s'.seen + ConsumerWeight(s'.consumer) < 5 * |s.queue| - s.seen + ConsumerWeight(s.consumer)
    ensures Potential(c, s') < Potential(c, s)
  {
    hide Flat, Workers, Chain, Tasks, ConsumerWeight;
  }

  lemma CancelLowers(c: Config, s: State)
    requires s.np <= |c.pages| && !s.cancelled
    ensures Potential(c, s.(cancelled := true)) < Potential(c, s)
  {
    hide Flat, Workers, Chain, Tasks;
  }

  lemma EnqueueLowers(c: Config, s: State, i: nat)
    requires s.np <= |c.pages| && CanEnqueue(s, i)
    ensures DoEnqueue(s, i).np == s.np && Potential(c, DoEnqueue(s, i)) < Potential(c, s)
  {
    hide Potential;
    EntryLowers(c, s, DoEnqueue(s, i), i, DoEnqueue(s, i).chain[i].pc);
  }

  lemma ConsumeLowers(c: Config, s: State)
    requires s.np <= |c.pages| && CanConsume(s)
    ensures DoConsume(c, s).np == s.np && Potential(c, DoConsume(c, s)) < Potential(c, s)
  {
    hide Potential;
    ReaderLowers(c, s, DoConsume(c, s));
  }

  /** Every step, careful or not, uses up some of the work left. */
  lemma StepLowers(c: Config, s: State, step: Step)
    requires PlaceOK(c, s) && Enabled(c, s, step)
    ensures s.np <= |c.pages| && Do(c, s, step).np <= |c.pages|
    ensures Potential(c, Do(c, s, step)) < Potential(c, s)
  {
    hide PlaceOK, Potential, DoProduce, DoWork, DoEnqueue, DoConsume;
    PlacedAlways(c, s);
    match step {
      case Produce(arena) => ProduceLowers(c, s, arena);
      case ProduceCancel => PcLowers(c, s, DoProduceCancel(s));
      case Work(w) => WorkLowers(c, s, w);
      case Enqueue(i) => EnqueueLowers(c, s, i);
      case EnqueueCancel(i) => EntryLowers(c, s, SetEnq(s, i, Abandoned), i, Abandoned);
      case Consume => ConsumeLowers(c, s);
      case ConsumeCancel => ReaderLowers(c, s, s.(consumer := Ended(false)));
      case Cancel => CancelLowers(c, s);
    }
  }
}
