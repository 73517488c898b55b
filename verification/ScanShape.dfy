/** Every step of every goroutine, premature signals included, keeps who is where: the first layer. */
module ScanShape {
  import opened Wrappers
  import opened ScanModel
  import opened ScanInvariant

  // --- workers ---

  /** What a worker step leaves of a batch. */
  predicate SameLife(x: Batch, y: Batch) {
    && y == x.(slots := y.slots, remaining := y.remaining, ready := y.ready, log := x.log.(open := y.log.open))
    && |y.slots| == |x.slots|
  }

  ghost predicate WorkFrame(s: State, s': State) {
    && |s'.batches| == |s.batches|
    && (forall b :: 0 <= b < |s.batches| ==> SameLife(s.batches[b], s'.batches[b]))
    && s' == s.(batches := s'.batches, workers := s'.workers, tasks := s'.tasks)
  }

  lemma OneLife(s: State, s': State, b: nat)
    requires b < |s.batches| && |s'.batches| == |s.batches| && s'.batches == s.batches[b := s'.batches[b]]
    requires SameLife(s.batches[b], s'.batches[b])
    requires s' == s.(batches := s'.batches, workers := s'.workers, tasks := s'.tasks)
    ensures WorkFrame(s, s')
  {
    hide SameLife;
    forall b1 | 0 <= b1 < |s.batches| && b1 != b ensures SameLife(s.batches[b1], s'.batches[b1]) { Unchanged(s.batches[b1]); }
  }

  lemma Unchanged(x: Batch)
    ensures SameLife(x, x)
  {
  }

  /** Some batch, if any at all, is the one a worker step changes. */
  lemma WorkFramed(c: Config, s: State, w: nat)
    requires CanWork(c, s, w)
    ensures WorkFrame(s, DoWork(c, s, w)) && |DoWork(c, s, w).workers| == |s.workers|
  {
    hide WorkFrame;
    match s.workers[w]
    case Idle => if s.tasks != [] { OneLife(s, TakeTask(s, w), s.tasks[0].b); } else { NoLife(s, SetWorker(s, w, Exited)); }
    case Busy(t, k) =>
      if k < t.n { OneLife(s, WriteRow(c, s, w, t, k), t.b); } else { OneLife(s, FinishTask(s, w, t), t.b); }
    case TestDone(b) => NoLife(s, LoadDone(s, w, b));
    case TestRemaining(b, g) => NoLife(s, LoadRemaining(s, w, b, g));
    case Signal(b, _) => OneLife(s, MarkReady(s, w, b), b);
  }

  lemma NoLife(s: State, s': State)
    requires s' == s.(workers := s'.workers)
    ensures WorkFrame(s, s')
  {
  }

  /** Worker `w` alone moves, to a state that is in range. */
  predicate OneMoves(c: Config, s: State, s': State, w: nat) {
    && w < |s.workers| == |s'.workers| && s'.workers == s.workers[w := s'.workers[w]]
    && (s'.tasks == s.tasks || (s.tasks != [] && s'.tasks == s.tasks[1..]))
    && WorkerRange(c, s', w)
  }

  lemma WorkMoves(c: Config, s: State, w: nat)
    requires CanWork(c, s, w) && RangesOK(c, s)
    ensures OneMoves(c, s, DoWork(c, s, w), w)
  {
    assert WorkerRange(c, s, w);
  }

  lemma MovedRanges(c: Config, s: State, s': State, w: nat)
    requires WorkFrame(s, s') && OneMoves(c, s, s', w) && RangesOK(c, s)
    ensures RangesOK(c, s')
  {
    forall b | 0 <= b < |s'.batches| ensures BatchRange(s'.batches[b]) {
      assert BatchRange(s.batches[b]) && SameLife(s.batches[b], s'.batches[b]);
    }
    forall v | 0 <= v < |s'.workers| && v != w ensures WorkerRange(c, s', v) { assert WorkerRange(c, s, v); }
    var d := |s.tasks| - |s'.tasks|;
    forall i | 0 <= i < |s'.tasks| ensures TaskRange(c, |s'.batches|, s'.tasks[i]) { assert s'.tasks[i] == s.tasks[i + d]; }
  }

  lemma FramePlace(c: Config, s: State, s': State)
    requires WorkFrame(s, s') && PlaceOK(c, s)
    ensures PlaceOK(c, s')
  {
    hide Flat, Sent;
    SameSent(c, s, s');
    if HasBatch(s) { assert SameLife(s.batches[s.cur], s'.batches[s'.cur]); }
  }

  lemma SameSent(c: Config, s: State, s': State)
    requires s.np == s'.np <= |c.pages| && s.row == s'.row
    ensures Sent(c, s') == Sent(c, s) && PageLen(c, s') == PageLen(c, s)
  {
  }

  lemma FrameRoles(s: State, s': State)
    requires WorkFrame(s, s') && RolesOK(s)
    ensures RolesOK(s')
  {
    forall b | 0 <= b < |s'.batches| ensures RoleOK(s', b) {
      assert RoleOK(s, b) && SameLife(s.batches[b], s'.batches[b]);
    }
    forall i | s'.received <= i < |s'.chain| ensures LinkOK(s', i) {
      assert LinkOK(s, i);
      if s.chain[i].item.Data? { assert SameLife(s.batches[s.chain[i].item.b], s'.batches[s.chain[i].item.b]); }
    }
    forall i | 0 <= i < |s'.pool| ensures s'.pool[i] < |s'.batches| && s'.batches[s'.pool[i]].log.role.Pooled? {
      assert SameLife(s.batches[s.pool[i]], s'.batches[s.pool[i]]);
    }
  }

  lemma FrameConsumer(c: Config, s: State, s': State)
    requires WorkFrame(s, s') && ConsumerOK(c, s)
    ensures ConsumerOK(c, s')
  {
    if s.consumer.ReadingRows? { assert SameLife(s.batches[s.consumer.b], s'.batches[s.consumer.b]); }
  }

  lemma WorkShape(c: Config, s: State, w: nat)
    requires Shape(c, s) && CanWork(c, s, w)
    ensures Shape(c, DoWork(c, s, w))
  {
    hide DoWork, CanWork, PlaceOK, RangesOK, RolesOK, ConsumerOK;
    var s' := DoWork(c, s, w);
    WorkFramed(c, s, w);
    WorkMoves(c, s, w);
    MovedRanges(c, s, s', w);
    FramePlace(c, s, s');
    FrameRoles(s, s');
    FrameConsumer(c, s, s');
  }

  // --- enqueue goroutines and cancel ---

  ghost predicate EnqueueFrame(s: State, s': State) {
    && s' == s.(chain := s'.chain, queue := s'.queue, posted := s'.posted, cancelled := s'.cancelled)
    && (s.cancelled ==> s'.cancelled)
    && |s'.chain| == |s.chain|
    && forall i :: 0 <= i < |s.chain| ==> s'.chain[i] == s.chain[i].(pc := s'.chain[i].pc)
  }

  lemma FrameEnd(s: State, s': State)
    requires EnqueueFrame(s, s')
    ensures forall k :: 0 <= k <= |s.chain| ==> End(s'.chain, k) == End(s.chain, k)
    ensures DataCount(s'.chain) == DataCount(s.chain)
  {
  }

  lemma EnqueuePlace(c: Config, s: State, s': State)
    requires EnqueueFrame(s, s') && PlaceOK(c, s)
    ensures PlaceOK(c, s')
  {
    hide Flat, Sent;
    SameSent(c, s, s');
    FrameEnd(s, s');
  }

  lemma EnqueueRoles(s: State, s': State)
    requires EnqueueFrame(s, s') && RolesOK(s)
    ensures RolesOK(s')
  {
    forall b | 0 <= b < |s'.batches| ensures RoleOK(s', b) { assert RoleOK(s, b); }
    forall i | s'.received <= i < |s'.chain| ensures LinkOK(s', i) { assert LinkOK(s, i); }
  }

  lemma EnqueueConsumer(c: Config, s: State, s': State)
    requires EnqueueFrame(s, s') && ConsumerOK(c, s) && CountsOK(s)
    ensures ConsumerOK(c, s') && CountsOK(s')
  {
    FrameEnd(s, s');
  }

  lemma EnqueueRanges(c: Config, s: State, s': State)
    requires RangesOK(c, s) && s'.batches == s.batches && s'.tasks == s.tasks && s'.workers == s.workers
    requires s'.tasksClosed == s.tasksClosed
    ensures RangesOK(c, s')
  {
    forall w | 0 <= w < |s'.workers| ensures WorkerRange(c, s', w) { assert WorkerRange(c, s, w); }
  }

  lemma EnqueueFrameShape(c: Config, s: State, s': State)
    requires EnqueueFrame(s, s') && Shape(c, s) && ChainInv(c, s')
    ensures Shape(c, s')
  {
    hide PlaceOK, RangesOK, RolesOK, ConsumerOK, CountsOK, ChainInv;
    EnqueuePlace(c, s, s');
    EnqueueRanges(c, s, s');
    EnqueueRoles(s, s');
    EnqueueConsumer(c, s, s');
  }

  /** The moves of one goroutine that keep the posting order. */
  predicate Advance(chain: seq<Enq>, i: nat, pc: EnqPc, cancelled: bool)
    requires i < |chain|
  {
    match chain[i].pc
    case WaitPrev => (pc == WaitReady && (i > 0 ==> chain[i - 1].pc.Finished?)) || (pc == Abandoned && cancelled)
    case WaitReady => pc == Posting || (pc == Abandoned && cancelled)
    case Posting => pc == ClosingNext || (pc == Abandoned && cancelled)
    case ClosingNext => pc == Finished
    case _ => false
  }

  lemma EntryMoves(total: nat, chain: seq<Enq>, posted: nat, i: nat, pc: EnqPc, cancelled: bool, closing: bool)
    requires posted <= |chain| && EntriesOK(total, chain, posted, cancelled, closing)
    requires i < |chain| && Advance(chain, i, pc, cancelled)
    ensures pc == ClosingNext ==> i == posted
    ensures EntriesOK(total, chain[i := chain[i].(pc := pc)], if pc == ClosingNext then posted + 1 else posted,
                      cancelled, closing)
  {
    var chain' := chain[i := chain[i].(pc := pc)];
    var posted' := if pc == ClosingNext then posted + 1 else posted;
    assert EntryOK(total, chain, posted, i, cancelled, closing);
    if posted < |chain| { assert EntryOK(total, chain, posted, posted, cancelled, closing); }
    if i > 0 { assert EntryOK(total, chain, posted, i - 1, cancelled, closing); }
    forall j | 0 <= j < |chain| ensures EntryOK(total, chain', posted', j, cancelled, closing) {
      assert EntryOK(total, chain, posted, j, cancelled, closing);
      assert End(chain', j) == End(chain, j);
      if j > 0 { assert EntryOK(total, chain, posted, j - 1, cancelled, closing); }
    }
  }

  lemma PostMoves(total: nat, chain: seq<Enq>, posted: nat, received: nat, queue: seq<Payload>, i: nat,
                  cancelled: bool, closing: bool)
    requires ChainOK(total, chain, posted, received, queue, cancelled, closing)
    requires i < |chain| && chain[i].pc.Posting? && |queue| < QUEUE_CAP
    ensures ChainOK(total, chain[i := chain[i].(pc := ClosingNext)], posted + 1, received, queue + [chain[i].item],
                    cancelled, closing)
  {
    EntryMoves(total, chain, posted, i, ClosingNext, cancelled, closing);
  }

  lemma OtherMoves(total: nat, chain: seq<Enq>, posted: nat, received: nat, queue: seq<Payload>, i: nat, pc: EnqPc,
                   cancelled: bool, closing: bool)
    requires ChainOK(total, chain, posted, received, queue, cancelled, closing)
    requires i < |chain| && Advance(chain, i, pc, cancelled) && pc != ClosingNext
    ensures ChainOK(total, chain[i := chain[i].(pc := pc)], posted, received, queue, cancelled, closing)
  {
    EntryMoves(total, chain, posted, i, pc, cancelled, closing);
  }

  lemma PostStep(c: Config, s: State, i: nat)
    requires ChainInv(c, s) && CanEnqueue(s, i) && s.chain[i].pc.Posting?
    ensures EnqueueFrame(s, DoEnqueue(s, i)) && ChainInv(c, DoEnqueue(s, i))
  {
    hide ChainOK;
    PostMoves(|Flat(c.pages)|, s.chain, s.posted, s.received, s.queue, i, s.cancelled, s.pc.Closing? || s.pc.Stopped?);
  }

  lemma MoveStep(c: Config, s: State, i: nat)
    requires ChainInv(c, s) && CanEnqueue(s, i) && !s.chain[i].pc.Posting?
    ensures EnqueueFrame(s, DoEnqueue(s, i)) && ChainInv(c, DoEnqueue(s, i))
  {
    hide ChainOK;
    var s' := DoEnqueue(s, i);
    OtherMoves(|Flat(c.pages)|, s.chain, s.posted, s.received, s.queue, i, s'.chain[i].pc, s.cancelled, s.pc.Closing? || s.pc.Stopped?);
  }

  lemma EnqueueShape(c: Config, s: State, i: nat)
    requires Shape(c, s) && CanEnqueue(s, i)
    ensures Shape(c, DoEnqueue(s, i))
  {
    hide PlaceOK, RangesOK, RolesOK, ConsumerOK, CountsOK, ChainInv, DoEnqueue;
    if s.chain[i].pc.Posting? { PostStep(c, s, i); } else { MoveStep(c, s, i); }
    EnqueueFrameShape(c, s, DoEnqueue(s, i));
  }

  lemma EnqueueCancelShape(c: Config, s: State, i: nat)
    requires Shape(c, s) && CanEnqueueCancel(s, i)
    ensures Shape(c, SetEnq(s, i, Abandoned))
  {
    hide PlaceOK, RangesOK, RolesOK, ConsumerOK, CountsOK;
    OtherMoves(|Flat(c.pages)|, s.chain, s.posted, s.received, s.queue, i, Abandoned, s.cancelled, s.pc.Closing? || s.pc.Stopped?);
    EnqueueFrameShape(c, s, SetEnq(s, i, Abandoned));
  }

  lemma CancelShape(c: Config, s: State)
    requires Shape(c, s)
    ensures Shape(c, s.(cancelled := true))
  {
    hide PlaceOK, RangesOK, RolesOK, ConsumerOK, CountsOK;
    var closing := s.pc.Closing? || s.pc.Stopped?;
    forall i | 0 <= i < |s.chain| ensures EntryOK(|Flat(c.pages)|, s.chain, s.posted, i, true, closing) {
      assert EntryOK(|Flat(c.pages)|, s.chain, s.posted, i, s.cancelled, closing);
    }
    EnqueueFrameShape(c, s, s.(cancelled := true));
  }

  // --- the consumer ---

  /** The head of the queue is the next batch of the chain. */
  lemma HeadOK(c: Config, s: State)
    requires ChainInv(c, s) && RolesOK(s) && s.queue != []
    ensures s.received < s.posted && s.chain[s.received].item == s.queue[0]
    ensures s.chain[s.received].pc.ClosingNext? || s.chain[s.received].pc.Finished?
    ensures s.queue[0].Data? ==>
      var b := s.queue[0].b;
      b < |s.batches| && s.batches[b].log.role == Chained(s.received)
      && s.batches[b].log.base == s.chain[s.received].base && s.batches[b].n == s.chain[s.received].n
    ensures s.queue[0].Marker? ==> s.received == |s.chain| - 1 && s.chain[s.received].n == 0
                                   && s.chain[s.received].base == |Flat(c.pages)|
    ensures s.chain[s.received].base == End(s.chain, s.received)
    ensures s.queue[0].Data? && s.chain[|s.chain| - 1].item.Marker? ==> s.received < |s.chain| - 1
  {
    assert EntryOK(|Flat(c.pages)|, s.chain, s.posted, s.received, s.cancelled, s.pc.Closing? || s.pc.Stopped?);
    assert LinkOK(s, s.received);
  }

  lemma PopChain(total: nat, chain: seq<Enq>, posted: nat, received: nat, queue: seq<Payload>,
                 cancelled: bool, closing: bool)
    requires ChainOK(total, chain, posted, received, queue, cancelled, closing) && queue != []
    ensures ChainOK(total, chain, posted, received + 1, queue[1..], cancelled, closing)
  {
  }

  lemma ReceivePlace(c: Config, s: State, b: nat)
    requires PlaceOK(c, s) && s.queue != [] && b < |s.batches| && !s.batches[b].log.role.Current?
    ensures PlaceOK(c, ReceiveData(s, b))
  {
  }

  /** One batch changes its role, to another than the producer's. */
  lemma RoleRanges(c: Config, s: State, s': State, b: nat, role: Role)
    requires RangesOK(c, s) && b < |s.batches| && !s.batches[b].log.role.Current?
    requires s'.batches == s.batches[b := SetRole(s.batches[b], role)]
    requires s'.tasks == s.tasks && s'.workers == s.workers && s'.tasksClosed == s.tasksClosed
    ensures RangesOK(c, s')
  {
    assert BatchRange(s.batches[b]);
    forall w | 0 <= w < |s'.workers| ensures WorkerRange(c, s', w) { assert WorkerRange(c, s, w); }
  }

  lemma ReceiveRoles(s: State, b: nat)
    requires RolesOK(s) && s.queue != [] && s.consumer.Waiting?
    requires s.received < |s.chain| && s.chain[s.received].item == Data(b) && b < |s.batches|
    ensures RolesOK(ReceiveData(s, b))
  {
    var s' := ReceiveData(s, b);
    assert LinkOK(s, s.received);
    forall b1 | 0 <= b1 < |s'.batches| ensures RoleOK(s', b1) { assert RoleOK(s, b1); }
    forall i | s'.received <= i < |s'.chain| ensures LinkOK(s', i) { assert LinkOK(s, i); }
  }

  lemma ReceiveConsumer(c: Config, s: State, b: nat)
    requires ConsumerOK(c, s) && CountsOK(s) && s.queue != [] && s.consumer.Waiting?
    requires s.received < |s.chain| && s.chain[s.received].item == Data(b) && b < |s.batches|
    requires s.batches[b].log.base == s.chain[s.received].base && s.batches[b].n == s.chain[s.received].n
    requires s.chain[s.received].base == End(s.chain, s.received)
    requires s.chain[|s.chain| - 1].item.Marker? ==> s.received < |s.chain| - 1
    ensures ConsumerOK(c, ReceiveData(s, b)) && CountsOK(ReceiveData(s, b))
  {
  }

  lemma ReceiveShape(c: Config, s: State, b: nat)
    requires Shape(c, s) && s.queue != [] && s.queue[0] == Data(b) && s.consumer.Waiting?
    ensures b < |s.batches| && Shape(c, ReceiveData(s, b))
  {
    hide PlaceOK, RangesOK, RolesOK, ConsumerOK, CountsOK;
    HeadOK(c, s);
    ReceivePlace(c, s, b);
    RoleRanges(c, s, ReceiveData(s, b), b, Reading);
    ReceiveRoles(s, b);
    ReceiveConsumer(c, s, b);
    PopChain(|Flat(c.pages)|, s.chain, s.posted, s.received, s.queue, s.cancelled, s.pc.Closing? || s.pc.Stopped?);
  }

  /** The consumer's own fields, the queue and its count change; no batch does. */
  predicate ConsumerFrame(s: State, s': State) {
    && s' == s.(consumer := s'.consumer, seen := s'.seen, rowCount := s'.rowCount, out := s'.out, free := s'.free,
                queue := s'.queue, received := s'.received)
    && (s.consumer.ReadingRows? <==> s'.consumer.ReadingRows?)
    && (s.consumer.ReadingRows? ==> s'.consumer.b == s.consumer.b)
    && (s'.received == s.received || (s'.received == s.received + 1 <= |s.chain| && s.chain[s.received].item.Marker?))
  }

  lemma ConsumerFramed(c: Config, s: State, s': State)
    requires ConsumerFrame(s, s') && PlaceOK(c, s) && RangesOK(c, s) && RolesOK(s)
    ensures PlaceOK(c, s') && RangesOK(c, s') && RolesOK(s')
  {
    hide Flat, Sent;
    SameSent(c, s, s');
    EnqueueRanges(c, s, s');
    forall b | 0 <= b < |s'.batches| ensures RoleOK(s', b) { assert RoleOK(s, b); }
    forall i | s'.received <= i < |s'.chain| ensures LinkOK(s', i) { assert LinkOK(s, i); }
  }

  lemma EndShape(c: Config, s: State)
    requires Shape(c, s) && s.queue != [] && s.queue[0] == Marker && s.consumer.Waiting?
    ensures Shape(c, ReceiveMarker(c, s))
  {
    hide PlaceOK, RangesOK, RolesOK;
    HeadOK(c, s);
    ConsumerFramed(c, s, ReceiveMarker(c, s));
    PopChain(|Flat(c.pages)|, s.chain, s.posted, s.received, s.queue, s.cancelled, s.pc.Closing? || s.pc.Stopped?);
  }

  /** Entries of the chain follow one another in the table. */
  lemma {:induction false} EndGrows(total: nat, chain: seq<Enq>, posted: nat, cancelled: bool, closing: bool, i: nat, k: nat)
    requires EntriesOK(total, chain, posted, cancelled, closing) && i <= k <= |chain|
    ensures End(chain, i) <= End(chain, k)
  {
    if i < k {
      EndGrows(total, chain, posted, cancelled, closing, i, k - 1);
      assert EntryOK(total, chain, posted, k - 1, cancelled, closing);
    }
  }

  /** Nothing is handed over beyond the table. */
  lemma EndBound(c: Config, s: State, k: nat)
    requires PlaceOK(c, s) && ChainInv(c, s) && k <= |s.chain|
    ensures End(s.chain, k) <= |Flat(c.pages)|
  {
    hide Flat, Sent;
    EndGrows(|Flat(c.pages)|, s.chain, s.posted, s.cancelled, s.pc.Closing? || s.pc.Stopped?, k, |s.chain|);
    SentBound(c, s);
  }

  lemma TakeRowShape(c: Config, s: State, b: nat, idx: nat)
    requires Shape(c, s) && s.consumer == ReadingRows(b, idx) && b < |s.batches| && idx < s.batches[b].n
    ensures idx < |s.batches[b].slots| && Shape(c, TakeRow(c, s, b, idx, s.batches[b].slots[idx]))
  {
    hide PlaceOK, RolesOK, Flat, EntriesOK;
    assert BatchRange(s.batches[b]);
    EndBound(c, s, s.received);
    ConsumerFramed(c, s, TakeRow(c, s, b, idx, s.batches[b].slots[idx]));
  }

  lemma ReleaseRoles(c: Config, s: State, b: nat, idx: nat)
    requires PlaceOK(c, s) && RolesOK(s) && s.consumer == ReadingRows(b, idx)
    requires b < |s.batches| && s.batches[b].log.role.Reading?
    ensures PlaceOK(c, ReleaseBatch(s, b)) && RolesOK(ReleaseBatch(s, b))
  {
    var s' := ReleaseBatch(s, b);
    forall b1 | 0 <= b1 < |s'.batches| ensures RoleOK(s', b1) { assert RoleOK(s, b1); }
    forall i | s'.received <= i < |s'.chain| ensures LinkOK(s', i) { assert LinkOK(s, i); }
  }

  lemma ReleaseShape(c: Config, s: State, b: nat, idx: nat)
    requires Shape(c, s) && s.consumer == ReadingRows(b, idx) && b < |s.batches| && idx >= s.batches[b].n
    ensures |s.pool| < POOL_BATCHES && Shape(c, ReleaseBatch(s, b))
  {
    hide PlaceOK, RangesOK, RolesOK;
    RoleRanges(c, s, ReleaseBatch(s, b), b, Pooled);
    ReleaseRoles(c, s, b, idx);
  }

  lemma ReturnShape(c: Config, s: State)
    requires Shape(c, s) && s.consumer.Returning?
    ensures s.free < IN_FLIGHT && Shape(c, s.(free := s.free + 1, consumer := Waiting))
  {
    hide PlaceOK, RangesOK, RolesOK;
    ConsumerFramed(c, s, s.(free := s.free + 1, consumer := Waiting));
  }

  lemma ConsumeShape(c: Config, s: State)
    requires Shape(c, s) && CanConsume(s)
    ensures Shape(c, DoConsume(c, s))
  {
    hide Shape;
    match s.consumer {
      case Waiting => if s.queue[0].Marker? { EndShape(c, s); } else { ReceiveShape(c, s, s.queue[0].b); }
      case ReadingRows(b, idx) => if idx < s.batches[b].n { TakeRowShape(c, s, b, idx); } else { ReleaseShape(c, s, b, idx); }
      case Returning => ReturnShape(c, s);
    }
  }

  lemma ConsumeCancelShape(c: Config, s: State)
    requires Shape(c, s) && s.cancelled && s.consumer.Waiting?
    ensures Shape(c, s.(consumer := Ended(false)))
  {
    hide PlaceOK, RangesOK, RolesOK;
    ConsumerFramed(c, s, s.(consumer := Ended(false)));
  }

  // --- the producer ---

  lemma SentNextPage(c: Config, s: State)
    requires s.np < |c.pages| && s.row == PageLen(c, s)
    ensures Sent(c, s.(np := s.np + 1, row := 0)) == Sent(c, s)
  {
    if s.np > 0 { FlatStep(c.pages, s.np - 1); }
  }

  lemma SentTotal(c: Config, s: State)
    requires s.np == |c.pages| && s.row == PageLen(c, s)
    ensures Sent(c, s) == |Flat(c.pages)|
  {
    if s.np > 0 {
      FlatStep(c.pages, s.np - 1);
      assert c.pages[..s.np] == c.pages;
    }
  }

  lemma SentBound(c: Config, s: State)
    requires s.np <= |c.pages| && s.row <= PageLen(c, s)
    ensures Sent(c, s) <= |Flat(c.pages)|
  {
    if s.np > 0 {
      FlatStep(c.pages, s.np - 1);
      FlatPrefix(c.pages, s.np);
    }
  }

  /** The producer changes its own batch, which nobody else uses. */
  predicate OwnFrame(s: State, s': State) {
    && s.cur < |s.batches| == |s'.batches| && s'.batches == s.batches[s.cur := s'.batches[s.cur]]
    && s' == s.(batches := s'.batches, tasks := s'.tasks, pc := s'.pc, slot := s'.slot, row := s'.row)
    && s.batches[s.cur].log.role.Current? && s'.batches[s.cur].log.role.Current?
    && HasBatch(s) && HasBatch(s') && BatchRange(s'.batches[s.cur])
    && (s.pc.Closing? || s.pc.Stopped? ==> s'.pc.Closing? || s'.pc.Stopped?)
  }

  lemma OwnRoles(s: State, s': State)
    requires OwnFrame(s, s') && RolesOK(s)
    ensures RolesOK(s')
  {
    forall b1 | 0 <= b1 < |s'.batches| ensures RoleOK(s', b1) { assert RoleOK(s, b1); }
    forall i | s'.received <= i < |s'.chain| ensures LinkOK(s', i) { assert LinkOK(s, i); }
  }

  lemma OwnConsumer(c: Config, s: State, s': State)
    requires OwnFrame(s, s') && ConsumerOK(c, s) && CountsOK(s)
    ensures ConsumerOK(c, s') && CountsOK(s')
  {
  }

  lemma OwnRanges(c: Config, s: State, s': State)
    requires OwnFrame(s, s') && RangesOK(c, s)
    requires s'.tasks == s.tasks || (s.pc.Sending? && TaskRange(c, |s.batches|, s.pc.t) && s'.tasks == s.tasks + [s.pc.t] && !s.tasksClosed)
    ensures RangesOK(c, s')
  {
    forall w | 0 <= w < |s'.workers| ensures WorkerRange(c, s', w) { assert WorkerRange(c, s, w); }
  }

  lemma ChainCloses(c: Config, s: State, s': State)
    requires ChainInv(c, s) && s'.chain == s.chain && s'.posted == s.posted && s'.received == s.received && s'.queue == s.queue
    requires s'.cancelled == s.cancelled && (s.pc.Closing? || s.pc.Stopped? ==> s'.pc.Closing? || s'.pc.Stopped?)
    ensures ChainInv(c, s')
  {
    var closing, closing' := s.pc.Closing? || s.pc.Stopped?, s'.pc.Closing? || s'.pc.Stopped?;
    forall i | 0 <= i < |s.chain| ensures EntryOK(|Flat(c.pages)|, s.chain, s.posted, i, s.cancelled, closing') {
      assert EntryOK(|Flat(c.pages)|, s.chain, s.posted, i, s.cancelled, closing);
    }
  }

  lemma OwnShape(c: Config, s: State, s': State)
    requires Shape(c, s) && OwnFrame(s, s') && PlaceOK(c, s')
    requires s'.tasks == s.tasks || (s.pc.Sending? && TaskRange(c, |s.batches|, s.pc.t) && s'.tasks == s.tasks + [s.pc.t] && !s.tasksClosed)
    ensures Shape(c, s')
  {
    hide PlaceOK, RangesOK, RolesOK, ConsumerOK, CountsOK, ChainInv;
    OwnRoles(s, s');
    OwnConsumer(c, s, s');
    OwnRanges(c, s, s');
    ChainCloses(c, s, s');
  }

  lemma SealShape(c: Config, s: State, last: bool)
    requires Shape(c, s) && s.pc.Filling? && s.slot > 0
    requires last ==> s.np == |c.pages| && s.row == PageLen(c, s)
    ensures Shape(c, Seal(s, last))
  {
    hide RolesOK, ChainInv, ConsumerOK, CountsOK, Flat, Sent;
    assert BatchRange(s.batches[s.cur]);
    SameSent(c, s, Seal(s, last));
    OwnShape(c, s, Seal(s, last));
  }

  lemma OpenShape(c: Config, s: State, n: nat)
    requires Shape(c, s) && s.pc.Filling?
    requires 0 < n <= TASK_ROWS && s.row + n <= PageLen(c, s) && s.slot + n <= BATCH_ROWS
    ensures Shape(c, OpenTask(s, n))
  {
    hide RolesOK, ChainInv, ConsumerOK, CountsOK, Flat, Sent;
    assert BatchRange(s.batches[s.cur]);
    SameSent(c, s, OpenTask(s, n));
    OwnShape(c, s, OpenTask(s, n));
  }

  lemma SendShape(c: Config, s: State)
    requires Shape(c, s) && s.pc.Sending?
    ensures s.pc.t.b < |s.batches| && Shape(c, Send(s, s.pc.t))
  {
    hide RolesOK, ChainInv, ConsumerOK, CountsOK, Flat;
    assert BatchRange(s.batches[s.cur]);
    OwnShape(c, s, Send(s, s.pc.t));
  }

  /** The producer moves on without touching a batch. */
  predicate PcFrame(s: State, s': State) {
    && s' == s.(pc := s'.pc, np := s'.np, row := s'.row, free := s'.free, held := s'.held, tasksClosed := s'.tasksClosed)
    && (HasBatch(s) <==> HasBatch(s')) && s.free + One(s.held) == s'.free + One(s'.held)
    && ((s.pc.Closing? || s.pc.Stopped?) ==> (s'.pc.Closing? || s'.pc.Stopped?))
    && (s.tasksClosed ==> s'.tasksClosed)
  }

  lemma PcRoles(c: Config, s: State, s': State)
    requires PcFrame(s, s') && RolesOK(s) && RangesOK(c, s)
    ensures RolesOK(s') && RangesOK(c, s')
  {
    forall b | 0 <= b < |s'.batches| ensures RoleOK(s', b) { assert RoleOK(s, b); }
    forall i | s'.received <= i < |s'.chain| ensures LinkOK(s', i) { assert LinkOK(s, i); }
    forall w | 0 <= w < |s'.workers| ensures WorkerRange(c, s', w) { assert WorkerRange(c, s, w); }
  }

  lemma PcShape(c: Config, s: State, s': State)
    requires Shape(c, s) && PcFrame(s, s') && PlaceOK(c, s')
    ensures Shape(c, s')
  {
    hide PlaceOK, RangesOK, RolesOK, ChainInv;
    PcRoles(c, s, s');
    ChainCloses(c, s, s');
  }

  lemma TurnPageShape(c: Config, s: State)
    requires Shape(c, s) && s.pc.Filling? && s.row == PageLen(c, s) && s.np < |c.pages|
    ensures Shape(c, s.(np := s.np + 1, row := 0))
  {
    hide RangesOK, RolesOK, ChainInv, ConsumerOK, CountsOK, Flat, Sent;
    SentNextPage(c, s);
    PcShape(c, s, s.(np := s.np + 1, row := 0));
  }

  lemma LeaveLoopShape(c: Config, s: State)
    requires Shape(c, s) && s.pc.Filling? && s.row == PageLen(c, s) && s.np == |c.pages| && s.slot == 0
    ensures Shape(c, s.(pc := Marking))
  {
    hide RangesOK, RolesOK, ChainInv, ConsumerOK, CountsOK, Flat, Sent;
    SameSent(c, s, s.(pc := Marking));
    PcShape(c, s, s.(pc := Marking));
  }

  lemma FillShape(c: Config, s: State)
    requires Shape(c, s) && s.pc.Filling?
    ensures s.np <= |c.pages| && s.cur < |s.batches| && Shape(c, Fill(c, s))
  {
    hide RangesOK, RolesOK, ChainInv, ConsumerOK, CountsOK, Flat, Sent;
    FillFacts(c, s);
    hide PlaceOK;
    if s.row < PageLen(c, s) {
      var n := Min(PageLen(c, s) - s.row, TASK_ROWS);
      if s.slot + n > BATCH_ROWS { SealShape(c, s, false); } else { OpenShape(c, s, n); }
    } else if s.np < |c.pages| {
      TurnPageShape(c, s);
    } else if s.slot > 0 {
      SealShape(c, s, true);
    } else {
      LeaveLoopShape(c, s);
    }
  }

  lemma FillFacts(c: Config, s: State)
    requires PlaceOK(c, s) && s.pc.Filling?
    ensures s.np <= |c.pages| && s.cur < |s.batches| && s.row <= PageLen(c, s)
  {
  }

  lemma TakeSlotShape(c: Config, s: State)
    requires Shape(c, s) && s.pc.NeedSlot? && s.free > 0
    ensures Shape(c, s.(free := s.free - 1, held := true, pc := NeedBatch))
  {
    hide RangesOK, RolesOK, ChainInv, ConsumerOK, CountsOK, Flat, Sent;
    SameSent(c, s, s.(free := s.free - 1, held := true, pc := NeedBatch));
    PcShape(c, s, s.(free := s.free - 1, held := true, pc := NeedBatch));
  }

  lemma ReuseRoles(s: State, base: nat)
    requires RolesOK(s) && s.pc.NeedBatch? && s.held && s.pool != []
    ensures s.pool[0] < |s.batches| && s.batches[s.pool[0]].log.role.Pooled?
    ensures RolesOK(Reuse(s, base))
  {
    var s' := Reuse(s, base);
    forall b1 | 0 <= b1 < |s'.batches| ensures RoleOK(s', b1) { assert RoleOK(s, b1); }
    forall i | s'.received <= i < |s'.chain| ensures LinkOK(s', i) { assert LinkOK(s, i); }
    forall i | 0 <= i < |s'.pool| ensures s'.pool[i] < |s'.batches| && s'.batches[s'.pool[i]].log.role.Pooled? {
      assert s'.pool[i] == s.pool[i + 1] && s.pool[i + 1] != s.pool[0];
    }
  }

  lemma ReuseRanges(c: Config, s: State, base: nat)
    requires RangesOK(c, s) && s.pool != [] && s.pool[0] < |s.batches|
    ensures RangesOK(c, Reuse(s, base))
  {
    var s' := Reuse(s, base);
    assert BatchRange(s.batches[s.pool[0]]);
    forall w | 0 <= w < |s'.workers| ensures WorkerRange(c, s', w) { assert WorkerRange(c, s, w); }
  }

  lemma ReuseRest(c: Config, s: State)
    requires PlaceOK(c, s) && ConsumerOK(c, s) && CountsOK(s) && s.pc.NeedBatch? && s.pool != [] && s.pool[0] < |s.batches|
    requires s.batches[s.pool[0]].log.role.Pooled?
    ensures var s' := Reuse(s, Sent(c, s)); PlaceOK(c, s') && ConsumerOK(c, s') && CountsOK(s')
  {
    hide Flat, Sent;
    SameSent(c, s, Reuse(s, Sent(c, s)));
  }

  lemma ReuseShape(c: Config, s: State)
    requires Shape(c, s) && s.pc.NeedBatch? && s.pool != []
    ensures s.pool[0] < |s.batches| && s.np <= |c.pages| && Shape(c, Reuse(s, Sent(c, s)))
  {
    hide RangesOK, RolesOK, ChainInv, ConsumerOK, CountsOK, Sent;
    ReuseRoles(s, Sent(c, s));
    ReuseRanges(c, s, Sent(c, s));
    ReuseRest(c, s);
    ChainCloses(c, s, Reuse(s, Sent(c, s)));
  }

  lemma AllocateRoles(s: State, arena: seq<Cell>, base: nat)
    requires RolesOK(s) && s.pc.NeedBatch? && s.held
    ensures RolesOK(Allocate(s, arena, base))
  {
    var s' := Allocate(s, arena, base);
    forall b | 0 <= b < |s'.batches| ensures RoleOK(s', b) { if b < |s.batches| { assert RoleOK(s, b); } }
    forall i | s'.received <= i < |s'.chain| ensures LinkOK(s', i) { assert LinkOK(s, i); }
  }

  lemma AllocateRanges(c: Config, s: State, arena: seq<Cell>, base: nat)
    requires RangesOK(c, s) && |arena| == BATCH_ROWS
    ensures RangesOK(c, Allocate(s, arena, base))
  {
    var s' := Allocate(s, arena, base);
    forall w | 0 <= w < |s'.workers| ensures WorkerRange(c, s', w) { assert WorkerRange(c, s, w); }
  }

  lemma AllocateRest(c: Config, s: State, arena: seq<Cell>)
    requires PlaceOK(c, s) && ConsumerOK(c, s) && CountsOK(s) && s.pc.NeedBatch? && s.pool == []
    ensures var s' := Allocate(s, arena, Sent(c, s)); PlaceOK(c, s') && ConsumerOK(c, s') && CountsOK(s')
  {
    hide Flat, Sent;
    SameSent(c, s, Allocate(s, arena, Sent(c, s)));
  }

  lemma AllocateShape(c: Config, s: State, arena: seq<Cell>)
    requires Shape(c, s) && s.pc.NeedBatch? && s.pool == [] && |arena| == BATCH_ROWS
    ensures s.np <= |c.pages| && Shape(c, Allocate(s, arena, Sent(c, s)))
  {
    hide RangesOK, RolesOK, ChainInv, ConsumerOK, CountsOK, Sent;
    AllocateRoles(s, arena, Sent(c, s));
    AllocateRanges(c, s, arena, Sent(c, s));
    AllocateRest(c, s, arena);
    ChainCloses(c, s, Allocate(s, arena, Sent(c, s)));
  }

  /** A new enqueue goroutine waits behind all others. */
  lemma ChainGrows(total: nat, chain: seq<Enq>, posted: nat, received: nat, queue: seq<Payload>, e: Enq,
                   cancelled: bool, closing: bool)
    requires ChainOK(total, chain, posted, received, queue, cancelled, false)
    requires e.pc.WaitPrev? && e.base == End(chain, |chain|) && (e.item.Data? ==> 0 < e.n)
    requires e.item.Marker? ==> e.base == total && e.n == 0 && closing
    ensures ChainOK(total, chain + [e], posted, received, queue, cancelled, closing)
  {
    var chain' := chain + [e];
    forall i | 0 <= i < |chain'| ensures EntryOK(total, chain', posted, i, cancelled, closing) {
      assert End(chain', i) == End(chain, i);
      if i < |chain| { assert EntryOK(total, chain, posted, i, cancelled, false); }
    }
  }

  /** Before the marker is added, no entry of the chain is one. */
  lemma NoMarker(c: Config, s: State)
    requires ChainInv(c, s) && !s.pc.Closing? && !s.pc.Stopped?
    ensures forall i :: 0 <= i < |s.chain| ==> s.chain[i].item.Data?
  {
    forall i | 0 <= i < |s.chain| ensures s.chain[i].item.Data? {
      assert EntryOK(|Flat(c.pages)|, s.chain, s.posted, i, s.cancelled, false);
    }
  }

  lemma HandOverRoles(c: Config, s: State, last: bool)
    requires RolesOK(s) && PlaceOK(c, s) && RangesOK(c, s) && s.received <= |s.chain| && s.pc == Sealing(last)
    ensures RolesOK(HandOver(s, last)) && RangesOK(c, HandOver(s, last))
  {
    hide Flat, Sent;
    var s' := HandOver(s, last);
    assert BatchRange(s.batches[s.cur]);
    forall b | 0 <= b < |s'.batches| ensures RoleOK(s', b) { assert RoleOK(s, b); }
    forall i | s'.received <= i < |s'.chain| ensures LinkOK(s', i) { if i < |s.chain| { assert LinkOK(s, i); } }
    forall w | 0 <= w < |s'.workers| ensures WorkerRange(c, s', w) { assert WorkerRange(c, s, w); }
  }

  lemma HandOverChain(c: Config, s: State, last: bool)
    requires PlaceOK(c, s) && RangesOK(c, s) && ChainInv(c, s) && s.pc == Sealing(last)
    ensures ChainInv(c, HandOver(s, last))
  {
    hide Flat, Sent;
    assert BatchRange(s.batches[s.cur]);
    ChainGrows(|Flat(c.pages)|, s.chain, s.posted, s.received, s.queue, HandOver(s, last).chain[|s.chain|], s.cancelled, false);
  }

  lemma HandOverRest(c: Config, s: State, last: bool)
    requires PlaceOK(c, s) && RangesOK(c, s) && ConsumerOK(c, s) && CountsOK(s) && s.pc == Sealing(last)
    requires forall i :: 0 <= i < |s.chain| ==> s.chain[i].item.Data?
    ensures var s' := HandOver(s, last); PlaceOK(c, s') && ConsumerOK(c, s') && CountsOK(s')
  {
    hide Flat, Sent;
    assert BatchRange(s.batches[s.cur]);
    SameSent(c, s, HandOver(s, last));
  }

  lemma HandOverShape(c: Config, s: State, last: bool)
    requires Shape(c, s) && s.pc == Sealing(last)
    ensures s.cur < |s.batches| && Shape(c, HandOver(s, last))
  {
    hide RangesOK, RolesOK, ChainOK, ConsumerOK, CountsOK, Sent;
    NoMarker(c, s);
    ChainBounds(c, s);
    HandOverRoles(c, s, last);
    HandOverChain(c, s, last);
    HandOverRest(c, s, last);
  }

  lemma ChainBounds(c: Config, s: State)
    requires ChainInv(c, s)
    ensures s.received <= s.posted <= |s.chain|
  {
  }

  lemma MarkerRest(c: Config, s: State)
    requires PlaceOK(c, s) && ConsumerOK(c, s) && CountsOK(s) && s.pc.Marking?
    requires forall i :: 0 <= i < |s.chain| ==> s.chain[i].item.Data?
    ensures var s' := AddMarker(s, Sent(c, s)); PlaceOK(c, s') && ConsumerOK(c, s') && CountsOK(s')
  {
    hide Flat, Sent;
    SameSent(c, s, AddMarker(s, Sent(c, s)));
    SentTotal(c, s);
  }

  lemma MarkerRoles(c: Config, s: State, base: nat)
    requires RolesOK(s) && RangesOK(c, s) && s.received <= |s.chain| && s.pc.Marking?
    ensures RolesOK(AddMarker(s, base)) && RangesOK(c, AddMarker(s, base))
  {
    var s' := AddMarker(s, base);
    forall b | 0 <= b < |s'.batches| ensures RoleOK(s', b) { assert RoleOK(s, b); }
    forall i | s'.received <= i < |s'.chain| ensures LinkOK(s', i) { if i < |s.chain| { assert LinkOK(s, i); } }
    EnqueueRanges(c, s, s');
  }

  lemma MarkerChain(c: Config, s: State)
    requires PlaceOK(c, s) && ChainInv(c, s) && s.pc.Marking?
    requires HasBatch(s) ==> s.batches[s.cur].log.base == Sent(c, s)
    ensures ChainInv(c, AddMarker(s, Sent(c, s)))
  {
    hide Flat, Sent;
    SentTotal(c, s);
    ChainGrows(|Flat(c.pages)|, s.chain, s.posted, s.received, s.queue, Enq(Marker, WaitPrev, Sent(c, s), 0), s.cancelled, true);
  }

  lemma MarkerShape(c: Config, s: State)
    requires Shape(c, s) && s.pc.Marking?
    ensures s.np <= |c.pages| && Shape(c, AddMarker(s, Sent(c, s)))
  {
    hide RangesOK, RolesOK, ChainOK, ConsumerOK, CountsOK, Sent;
    NoMarker(c, s);
    ChainBounds(c, s);
    MarkerRoles(c, s, Sent(c, s));
    MarkerChain(c, s);
    MarkerRest(c, s);
  }

  lemma CloseShape(c: Config, s: State)
    requires Shape(c, s) && s.pc.Closing?
    ensures Shape(c, s.(tasksClosed := true, pc := Stopped))
  {
    hide RangesOK, RolesOK, ChainInv, ConsumerOK, CountsOK, Flat, Sent;
    SameSent(c, s, s.(tasksClosed := true, pc := Stopped));
    PcShape(c, s, s.(tasksClosed := true, pc := Stopped));
  }

  lemma RenewShape(c: Config, s: State)
    requires Shape(c, s) && s.pc.Renewing?
    ensures Shape(c, s.(pc := Filling))
  {
    hide RangesOK, RolesOK, ChainInv, ConsumerOK, CountsOK, Flat, Sent;
    SameSent(c, s, s.(pc := Filling));
    PcShape(c, s, s.(pc := Filling));
  }

  lemma ProduceShape(c: Config, s: State, arena: seq<Cell>)
    requires Shape(c, s) && CanProduce(c, s) && |arena| == BATCH_ROWS
    ensures Shape(c, DoProduce(c, s, arena))
  {
    hide Shape, Fill, Sent;
    match s.pc {
      case NeedSlot => TakeSlotShape(c, s);
      case NeedBatch => if s.pool != [] { ReuseShape(c, s); } else { AllocateShape(c, s, arena); }
      case Renewing => RenewShape(c, s);
      case Filling => FillShape(c, s);
      case Sending(_) => SendShape(c, s);
      case Sealing(last) => HandOverShape(c, s, last);
      case Marking => MarkerShape(c, s);
      case Closing => CloseShape(c, s);
    }
  }

  lemma ProduceCancelShape(c: Config, s: State)
    requires Shape(c, s) && CanProduceCancel(s)
    ensures Shape(c, DoProduceCancel(s))
  {
    hide RolesOK, ChainInv, ConsumerOK, CountsOK, Flat, Sent;
    var s' := DoProduceCancel(s);
    SameSent(c, s, s');
    if s.pc.Sending? {
      assert BatchRange(s.batches[s.cur]);
      OwnShape(c, s, s');
    } else {
      PcShape(c, s, s');
    }
  }

  /** Every step of every goroutine, in every state reached at all, keeps who is where. */
  lemma StepShape(c: Config, s: State, step: Step)
    requires Shape(c, s) && Enabled(c, s, step)
    ensures Shape(c, Do(c, s, step))
  {
    hide Shape, DoProduce, DoWork, DoEnqueue, DoConsume, DoProduceCancel;
    match step {
      case Produce(arena) => ProduceShape(c, s, arena);
      case ProduceCancel => ProduceCancelShape(c, s);
      case Work(w) => WorkShape(c, s, w);
      case Enqueue(i) => EnqueueShape(c, s, i);
      case EnqueueCancel(i) => EnqueueCancelShape(c, s, i);
      case Consume => ConsumeShape(c, s);
      case ConsumeCancel => ConsumeCancelShape(c, s);
      case Cancel => CancelShape(c, s);
    }
  }
}
