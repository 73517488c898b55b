/**
 What slots and ready signals mean: the third layer, kept by every careful step. With it, every
 careful step keeps the whole invariant.
 */
module ScanMeaning {
  import opened Wrappers
  import opened ScanModel
  import opened ScanInvariant
  import opened ScanShape
  import opened ScanLedger

  lemma OutputReads(c: Config, s: State, s': State)
    requires OutputOK(c, s) && s'.seen == s.seen && s'.out == s.out && s'.rowCount == s.rowCount
    ensures OutputOK(c, s')
  {
  }

  // --- workers ---

  /** Worker `w` and one batch change; written slots stay right, and a signal stays given. */
  ghost predicate SlotsMove(c: Config, s: State, s': State, w: nat, b0: nat) {
    && w < |s.workers| == |s'.workers| && b0 < |s.batches| == |s'.batches|
    && s' == s.(batches := s.batches[b0 := s'.batches[b0]], workers := s.workers[w := s'.workers[w]], tasks := s'.tasks)
    && var x, y := s.batches[b0], s'.batches[b0];
    && y.log.base == x.log.base && (x.ready ==> y.ready) && BatchOK(c, y)
    && (forall j: nat :: RightAt(c, x.slots, x.log.base, j) ==> RightAt(c, y.slots, y.log.base, j))
    && DoneSoFar(c, s', w)
  }

  lemma SlotsMoved(c: Config, s: State, s': State, w: nat, b0: nat)
    requires SlotsMove(c, s, s', w, b0) && Meaning(c, s)
    ensures Meaning(c, s')
  {
    hide RightAt, BatchOK;
    forall v | 0 <= v < |s'.workers| && v != w ensures DoneSoFar(c, s', v) {
      assert DoneSoFar(c, s, v);
      if s.workers[v].Busy? && s.workers[v].t.b == b0 {
        var t, k := s.workers[v].t, s.workers[v].k;
        assert Written(c, s.batches[b0].slots, s.batches[b0].log.base, t.slot, k);
      }
    }
  }

  lemma CoveredSame(x: map<nat, Open>, y: map<nat, Open>, j: nat)
    requires Covered(x, j) && forall st :: st in x ==> st in y && y[st].n == x[st].n
    ensures Covered(y, j)
  {
    var st :| st in x && st <= j < st + x[st].n;
    assert st in y;
  }

  lemma TakeMeaning(c: Config, s: State, w: nat)
    requires w < |s.workers| && s.tasks != [] && Meaning(c, s)
    requires TaskOK(c, s, s.tasks[0], Queued)
    ensures Meaning(c, TakeTask(s, w))
  {
    var s', t := TakeTask(s, w), s.tasks[0];
    var x, y := s.batches[t.b], s'.batches[t.b];
    assert BatchOK(c, x);
    forall j: nat | Covered(x.log.open, j) ensures Covered(y.log.open, j) { CoveredSame(x.log.open, y.log.open, j); }
    SlotsMoved(c, s, s', w, t.b);
  }

  lemma RowMeaning(c: Config, s: State, w: nat, t: Task, k: nat)
    requires CanWork(c, s, w) && s.workers[w] == Busy(t, k) && k < t.n && Meaning(c, s)
    requires TaskOK(c, s, t, AtWorker(w))
    ensures Meaning(c, WriteRow(c, s, w, t, k))
  {
    hide Flat;
    var s' := WriteRow(c, s, w, t, k);
    var x, y := s.batches[t.b], s'.batches[t.b];
    assert BatchOK(c, x) && DoneSoFar(c, s, w);
    FlatAt(c.pages, t.page, t.firstRow + k);
    assert RightAt(c, y.slots, y.log.base, t.slot + k);
    forall j: nat | RightAt(c, x.slots, x.log.base, j) ensures RightAt(c, y.slots, y.log.base, j) {}
    assert Written(c, y.slots, y.log.base, t.slot, k + 1);
    SlotsMoved(c, s, s', w, t.b);
  }

  lemma DropBatch(c: Config, x: Batch, slot: nat)
    requires BatchOK(c, x) && slot in x.log.open
    requires Written(c, x.slots, x.log.base, slot, x.log.open[slot].n)
    ensures BatchOK(c, DropTask(x, slot))
  {
    var y := DropTask(x, slot);
    forall j: nat | j < y.log.fill ensures Right(c, y, j) || Covered(y.log.open, j) {
      if !RightAt(c, x.slots, x.log.base, j) {
        assert Covered(x.log.open, j);
        var st :| st in x.log.open && st <= j < st + x.log.open[st].n;
        assert st in y.log.open;
      }
    }
  }

  lemma FinishMeaning(c: Config, s: State, w: nat, t: Task)
    requires w < |s.workers| && s.workers[w] == Busy(t, t.n) && Meaning(c, s)
    requires TaskOK(c, s, t, AtWorker(w))
    ensures Meaning(c, FinishTask(s, w, t))
  {
    hide RightAt;
    assert DoneSoFar(c, s, w);
    DropBatch(c, s.batches[t.b], t.slot);
    SlotsMoved(c, s, FinishTask(s, w, t), w, t.b);
  }

  /** A tester moves on; it signals only what is finished. */
  lemma TestMeaning(c: Config, s: State, w: nat, b: nat, v: Worker, signal: bool)
    requires w < |s.workers| && b < |s.batches| && !v.Busy? && Meaning(c, s) && Counted(s.batches[b])
    requires signal ==> s.batches[b].doneSending && s.batches[b].remaining == 0
    ensures Meaning(c, s.(workers := s.workers[w := v],
      batches := s.batches[b := s.batches[b].(ready := s.batches[b].ready || signal)]))
  {
    assert BatchOK(c, s.batches[b]);
    SlotsMoved(c, s, s.(workers := s.workers[w := v],
      batches := s.batches[b := s.batches[b].(ready := s.batches[b].ready || signal)]), w, b);
  }

  lemma IdleMeaning(c: Config, s: State, w: nat, v: Worker)
    requires w < |s.workers| && !v.Busy? && Meaning(c, s)
    ensures Meaning(c, SetWorker(s, w, v))
  {
    var s' := SetWorker(s, w, v);
    forall u | 0 <= u < |s'.workers| ensures DoneSoFar(c, s', u) { assert DoneSoFar(c, s, u); }
  }

  lemma MarkMeaning(c: Config, s: State, w: nat)
    requires CanWork(c, s, w) && s.workers[w].Signal? && Meaning(c, s) && CountedAll(s) && !Premature(s, Work(w))
    ensures Meaning(c, DoWork(c, s, w))
  {
    hide Meaning;
    TestMeaning(c, s, w, s.workers[w].b, Idle, true);
  }

  lemma WorkMeaning(c: Config, s: State, w: nat)
    requires Outstanding(c, s) && RangesOK(c, s) && Meaning(c, s) && CanWork(c, s, w) && !Premature(s, Work(w))
    ensures Meaning(c, DoWork(c, s, w))
  {
    hide Meaning, RangesOK, LedgerOK, SignalOK, OfferOK;
    assert WorkerOK(c, s, w);
    match s.workers[w] {
      case Idle =>
        if s.tasks != [] {
          assert TaskOK(c, s, s.tasks[0], Queued);
          TakeMeaning(c, s, w);
        } else {
          IdleMeaning(c, s, w, Exited);
        }
      case Busy(t, k) =>
        if k < t.n { RowMeaning(c, s, w, t, k); } else { WholeTask(c, s, w); FinishMeaning(c, s, w, t); }
      case TestDone(b) => IdleMeaning(c, s, w, LoadDone(s, w, b).workers[w]);
      case TestRemaining(b, g) => IdleMeaning(c, s, w, LoadRemaining(s, w, b, g).workers[w]);
      case Signal(_, _) => MarkMeaning(c, s, w);
      case Exited =>
    }
  }

  lemma WholeTask(c: Config, s: State, w: nat)
    requires RangesOK(c, s) && w < |s.workers| && s.workers[w].Busy?
    ensures s.workers[w].k <= s.workers[w].t.n
  {
    assert WorkerRange(c, s, w);
  }

  // --- enqueue goroutines ---

  /** `Meaning` reads only these parts of the state. */
  lemma MeaningReads(c: Config, s: State, s': State)
    requires Meaning(c, s) && s'.batches == s.batches && s'.workers == s.workers
    requires s'.chain == s.chain && s'.received >= s.received
    requires s'.seen == s.seen && s'.out == s.out && s'.rowCount == s.rowCount
    ensures Meaning(c, s')
  {
    forall w | 0 <= w < |s'.workers| ensures DoneSoFar(c, s', w) { assert DoneSoFar(c, s, w); }
  }

  /** One goroutine moves; it offers only what is finished. */
  lemma EnqueueMeaning(c: Config, s: State, s': State, i: nat)
    requires EnqueueFrame(s, s') && Meaning(c, s) && i < |s.chain|
    requires s'.chain == s.chain[i := s.chain[i].(pc := s'.chain[i].pc)]
    requires s'.chain[i].pc.Posting? && s.chain[i].item.Data? ==>
      s.chain[i].item.b < |s.batches| && s.batches[s.chain[i].item.b].ready
    requires s'.chain[i].pc.ClosingNext? ==> s.chain[i].pc.Posting?
    requires s'.chain[i].pc.Finished? ==> s.chain[i].pc.ClosingNext?
    ensures Meaning(c, s')
  {
    forall w | 0 <= w < |s'.workers| ensures DoneSoFar(c, s', w) { assert DoneSoFar(c, s, w); }
  }

  // --- the consumer ---

  lemma CutStep(cells: seq<Cell>, k: nat, limit: int)
    requires k < |cells|
    ensures var out, v := Cut(Rows(cells[..k]), limit), cells[k];
            Cut(Rows(cells[..k + 1]), limit) ==
              if v.Invalid? || (limit >= 0 && |out| + 1 > limit) then out else out + [v.values]
  {
    assert cells[..k + 1][..k] == cells[..k];
  }

  /** A delivered batch is finished, so every slot below `n` holds its row. */
  lemma DeliveredRight(c: Config, bt: Batch, idx: nat)
    requires BatchRange(bt) && BatchOK(c, bt) && bt.ready && idx < bt.n
    ensures RightAt(c, bt.slots, bt.log.base, idx)
  {
    assert !Covered(bt.log.open, idx);
  }

  lemma TakeRowOutput(c: Config, s: State, b: nat, idx: nat)
    requires OutputOK(c, s) && b < |s.batches| && s.seen == s.batches[b].log.base + idx
    requires RightAt(c, s.batches[b].slots, s.batches[b].log.base, idx)
    ensures OutputOK(c, TakeRow(c, s, b, idx, s.batches[b].slots[idx]))
  {
    CutStep(Flat(c.pages), s.seen, c.limit);
  }

  lemma TakeRowMeaning(c: Config, s: State, b: nat, idx: nat)
    requires Shape(c, s) && Meaning(c, s) && s.consumer == ReadingRows(b, idx) && b < |s.batches| && idx < s.batches[b].n
    ensures idx < |s.batches[b].slots| && Meaning(c, TakeRow(c, s, b, idx, s.batches[b].slots[idx]))
  {
    hide PlaceOK, RolesOK, ChainInv, CountsOK, RightAt, Right;
    assert BatchOK(c, s.batches[b]) && BatchRange(s.batches[b]);
    DeliveredRight(c, s.batches[b], idx);
    TakeRowOutput(c, s, b, idx);
    var s' := TakeRow(c, s, b, idx, s.batches[b].slots[idx]);
    forall w | 0 <= w < |s'.workers| ensures DoneSoFar(c, s', w) { assert DoneSoFar(c, s, w); }
  }

  /** One finished batch changes its role. */
  lemma RoleSlots(c: Config, s: State, s': State, b: nat, role: Role)
    requires SlotsOK(c, s) && b < |s.batches| && s.batches[b].ready && s'.workers == s.workers
    requires s'.batches == s.batches[b := SetRole(s.batches[b], role)]
    ensures SlotsOK(c, s')
  {
    hide RightAt, Written;
    assert BatchOK(c, s.batches[b]);
    assert forall j: nat :: Right(c, s'.batches[b], j) <==> Right(c, s.batches[b], j);
    assert BatchOK(c, s'.batches[b]);
    forall w | 0 <= w < |s'.workers| ensures DoneSoFar(c, s', w) { assert DoneSoFar(c, s, w); }
  }

  lemma ReceiveMeaning(c: Config, s: State, b: nat)
    requires Shape(c, s) && Meaning(c, s) && s.queue != [] && s.queue[0] == Data(b) && s.consumer.Waiting?
    ensures b < |s.batches| && Meaning(c, ReceiveData(s, b))
  {
    hide PlaceOK, RangesOK, SlotsOK, OutputOK, CountsOK, ConsumerOK;
    HeadOK(c, s);
    OutputReads(c, s, ReceiveData(s, b));
    RoleSlots(c, s, ReceiveData(s, b), b, Reading);
    hide RolesOK, ChainInv;
  }

  lemma ReleaseMeaning(c: Config, s: State, b: nat, idx: nat)
    requires Meaning(c, s) && ConsumerOK(c, s) && s.consumer == ReadingRows(b, idx) && b < |s.batches|
    ensures Meaning(c, ReleaseBatch(s, b))
  {
    assert BatchOK(c, s.batches[b]);
    OutputReads(c, s, ReleaseBatch(s, b));
    RoleSlots(c, s, ReleaseBatch(s, b), b, Pooled);
    hide SlotsOK, OutputOK, BatchOK;
  }

  lemma ConsumeMeaning(c: Config, s: State)
    requires Shape(c, s) && Meaning(c, s) && CanConsume(s)
    ensures Meaning(c, DoConsume(c, s))
  {
    hide Shape, Meaning;
    match s.consumer {
      case Waiting =>
        if s.queue[0].Marker? { MeaningReads(c, s, ReceiveMarker(c, s)); } else { ReceiveMeaning(c, s, s.queue[0].b); }
      case ReadingRows(b, idx) =>
        if idx < s.batches[b].n { TakeRowMeaning(c, s, b, idx); } else { ShapeReads(c, s); ReleaseMeaning(c, s, b, idx); }
      case Returning => MeaningReads(c, s, s.(free := s.free + 1, consumer := Waiting));
    }
  }

  lemma ShapeReads(c: Config, s: State)
    requires Shape(c, s)
    ensures PlaceOK(c, s) && RangesOK(c, s) && RolesOK(s) && ChainInv(c, s) && ConsumerOK(c, s) && CountsOK(s)
  {
  }

  // --- the producer ---

  /** The producer changes its own batch; nobody has been offered it. */
  lemma OwnMeaning(c: Config, s: State, s': State)
    requires Meaning(c, s) && OwnFrame(s, s') && RolesOK(s)
    requires BatchOK(c, s'.batches[s.cur])
    requires s'.batches[s.cur].slots == s.batches[s.cur].slots && s'.batches[s.cur].log.base == s.batches[s.cur].log.base
    ensures Meaning(c, s')
  {
    hide RightAt, BatchOK, OutputOK;
    OutputReads(c, s, s');
    forall w | 0 <= w < |s'.workers| ensures DoneSoFar(c, s', w) { assert DoneSoFar(c, s, w); }
    forall i | s'.received <= i < |s'.chain| && s'.chain[i].item.Data?
               && (s'.chain[i].pc.Posting? || s'.chain[i].pc.ClosingNext? || s'.chain[i].pc.Finished?)
      ensures s'.chain[i].item.b < |s'.batches| && s'.batches[s'.chain[i].item.b].ready
    { assert LinkOK(s, i); }
  }

  lemma SealMeaning(c: Config, s: State, last: bool)
    requires Shape(c, s) && Meaning(c, s) && s.pc.Filling?
    ensures Meaning(c, Seal(s, last))
  {
    hide RolesOK, ChainInv, ConsumerOK, CountsOK, Flat, Sent, RightAt, PostedOK, OutputOK;
    var s' := Seal(s, last);
    assert BatchOK(c, s.batches[s.cur]) && BatchRange(s.batches[s.cur]);
    assert forall j: nat :: Right(c, s'.batches[s.cur], j) <==> Right(c, s.batches[s.cur], j);
    OwnMeaning(c, s, s');
  }

  lemma OpenMeaning(c: Config, s: State, n: nat)
    requires Shape(c, s) && Outstanding(c, s) && Meaning(c, s) && s.pc.Filling?
    ensures Meaning(c, OpenTask(s, n))
  {
    hide RolesOK, ChainInv, ConsumerOK, CountsOK, Flat, Sent, RightAt, PostedOK, OutputOK, TasksOK, WorkersOK, LedgerOK, SignalOK;
    var s' := OpenTask(s, n);
    SlotFree(c, s);
    var x, y := s.batches[s.cur], s'.batches[s.cur];
    assert BatchOK(c, x) && BatchRange(x);
    forall j: nat | Covered(x.log.open, j) ensures Covered(y.log.open, j) { CoveredSame(x.log.open, y.log.open, j); }
    assert forall j: nat :: Right(c, y, j) <==> Right(c, x, j);
    OwnMeaning(c, s, s');
  }

  lemma FillMeaning(c: Config, s: State)
    requires Shape(c, s) && Outstanding(c, s) && Meaning(c, s) && s.pc.Filling?
    ensures s.np <= |c.pages| && s.cur < |s.batches| && Meaning(c, Fill(c, s))
  {
    hide Outstanding, Meaning, RangesOK, RolesOK, ChainInv, ConsumerOK, CountsOK, Flat, Sent;
    if s.row < PageLen(c, s) {
      var n := Min(PageLen(c, s) - s.row, TASK_ROWS);
      if s.slot + n > BATCH_ROWS { SealMeaning(c, s, false); } else { OpenMeaning(c, s, n); }
    } else if s.np < |c.pages| {
      MeaningReads(c, s, s.(np := s.np + 1, row := 0));
    } else if s.slot > 0 {
      SealMeaning(c, s, true);
    } else {
      MeaningReads(c, s, s.(pc := Marking));
    }
  }

  lemma SendBatch(c: Config, x: Batch, t: Task)
    requires BatchOK(c, x) && t.slot in x.log.open && x.log.open[t.slot].n == t.n && x.log.fill == t.slot && !x.doneSending
    ensures var y := MoveOpen(x, t, Queued); BatchOK(c, y.(log := y.log.(fill := t.slot + t.n)))
  {
    hide RightAt;
    var y0 := MoveOpen(x, t, Queued);
    var y := y0.(log := y0.log.(fill := t.slot + t.n));
    forall j: nat | j < y.log.fill ensures Right(c, y, j) || Covered(y.log.open, j) {
      if j < x.log.fill {
        if Covered(x.log.open, j) { CoveredSame(x.log.open, y.log.open, j); }
        assert Right(c, x, j) ==> Right(c, y, j);
      } else {
        assert t.slot in y.log.open && t.slot <= j < t.slot + y.log.open[t.slot].n;
      }
    }
  }

  lemma SendMeaning(c: Config, s: State)
    requires Shape(c, s) && OfferOK(s) && Meaning(c, s) && s.pc.Sending? && s.pc.t.b < |s.batches|
    ensures Meaning(c, Send(s, s.pc.t))
  {
    hide RolesOK, ChainInv, ConsumerOK, CountsOK, Flat, Sent, RightAt, PostedOK, OutputOK;
    var t := s.pc.t;
    assert BatchOK(c, s.batches[t.b]) && BatchRange(s.batches[t.b]);
    SendBatch(c, s.batches[t.b], t);
    hide BatchOK;
    OwnMeaning(c, s, Send(s, t));
  }

  lemma HandOverMeaning(c: Config, s: State, last: bool)
    requires Shape(c, s) && CountedAll(s) && Meaning(c, s) && s.pc == Sealing(last)
    ensures s.cur < |s.batches| && Meaning(c, HandOver(s, last))
  {
    hide ChainInv, ConsumerOK, CountsOK, Flat, Sent, RightAt, OutputOK;
    OutputReads(c, s, HandOver(s, last));
    var s' := HandOver(s, last);
    var x, y := s.batches[s.cur], s'.batches[s.cur];
    assert BatchOK(c, x) && Counted(x);
    assert forall j: nat :: Right(c, y, j) <==> Right(c, x, j);
    assert BatchOK(c, y);
    forall w | 0 <= w < |s'.workers| ensures DoneSoFar(c, s', w) { assert DoneSoFar(c, s, w); }
    HandOverPosted(c, s, last);
  }

  lemma HandOverPosted(c: Config, s: State, last: bool)
    requires PlaceOK(c, s) && RolesOK(s) && PostedOK(s) && s.pc == Sealing(last)
    ensures PostedOK(HandOver(s, last))
  {
    hide Flat, Sent;
    var s' := HandOver(s, last);
    forall i | s'.received <= i < |s'.chain| && s'.chain[i].item.Data?
               && (s'.chain[i].pc.Posting? || s'.chain[i].pc.ClosingNext? || s'.chain[i].pc.Finished?)
      ensures s'.chain[i].item.b < |s'.batches| && s'.batches[s'.chain[i].item.b].ready
    { assert s'.chain[i] == s.chain[i] && LinkOK(s, i); }
  }

  lemma MarkerMeaning(c: Config, s: State, base: nat)
    requires Meaning(c, s)
    ensures Meaning(c, AddMarker(s, base))
  {
    hide BatchOK, OutputOK;
    OutputReads(c, s, AddMarker(s, base));
    var s' := AddMarker(s, base);
    forall w | 0 <= w < |s'.workers| ensures DoneSoFar(c, s', w) { assert DoneSoFar(c, s, w); }
  }

  lemma ReuseMeaning(c: Config, s: State, base: nat)
    requires Outstanding(c, s) && RolesOK(s) && Meaning(c, s) && s.pc.NeedBatch? && s.pool != [] && s.pool[0] < |s.batches|
    requires s.batches[s.pool[0]].remaining == 0 && s.batches[s.pool[0]].log.role.Pooled?
    ensures Meaning(c, Reuse(s, base))
  {
    hide TasksOK, LedgerOK, SignalOK, OutputOK, RightAt;
    OutputReads(c, s, Reuse(s, base));
    var s', b := Reuse(s, base), s.pool[0];
    assert Counted(s.batches[b]);
    assert BatchOK(c, s'.batches[b]);
    forall w | 0 <= w < |s'.workers| ensures DoneSoFar(c, s', w) { assert DoneSoFar(c, s, w) && WorkerOK(c, s, w); }
    forall i | s'.received <= i < |s'.chain| && s'.chain[i].item.Data?
               && (s'.chain[i].pc.Posting? || s'.chain[i].pc.ClosingNext? || s'.chain[i].pc.Finished?)
      ensures s'.chain[i].item.b < |s'.batches| && s'.batches[s'.chain[i].item.b].ready
    { assert LinkOK(s, i); }
  }

  lemma AllocateMeaning(c: Config, s: State, arena: seq<Cell>, base: nat)
    requires Meaning(c, s)
    ensures Meaning(c, Allocate(s, arena, base))
  {
    hide OutputOK, RightAt;
    OutputReads(c, s, Allocate(s, arena, base));
    var s' := Allocate(s, arena, base);
    forall b | 0 <= b < |s'.batches| ensures BatchOK(c, s'.batches[b]) { if b < |s.batches| { assert BatchOK(c, s.batches[b]); } }
    forall w | 0 <= w < |s'.workers| ensures DoneSoFar(c, s', w) { assert DoneSoFar(c, s, w); }
  }

  /** What lies in the pool is finished, so careful runs recycle nothing that is not. */
  lemma PooledDone(c: Config, s: State, step: Step)
    requires RolesOK(s) && CountedAll(s) && SlotsOK(c, s)
    ensures !Untidy(s, step)
    ensures s.pool != [] ==> s.pool[0] < |s.batches| && s.batches[s.pool[0]].log.role.Pooled? && s.batches[s.pool[0]].remaining == 0
  {
    if s.pool != [] {
      assert s.batches[s.pool[0]].log.role.Pooled?;
      assert BatchOK(c, s.batches[s.pool[0]]) && Counted(s.batches[s.pool[0]]);
    }
  }

  lemma ProduceMeaning(c: Config, s: State, arena: seq<Cell>)
    requires Inv(c, s) && CanProduce(c, s)
    ensures Meaning(c, DoProduce(c, s, arena))
  {
    Parts(c, s);
    PooledDone(c, s, Produce(arena));
    hide Inv, Outstanding, Meaning, PlaceOK, RangesOK, RolesOK, ChainInv, ConsumerOK, CountsOK, SlotsOK, CountedAll, OfferOK, Fill, Sent;
    match s.pc {
      case NeedSlot => MeaningReads(c, s, s.(free := s.free - 1, held := true, pc := NeedBatch));
      case NeedBatch => if s.pool != [] { ReuseMeaning(c, s, Sent(c, s)); } else { AllocateMeaning(c, s, arena, Sent(c, s)); }
      case Renewing => MeaningReads(c, s, s.(pc := Filling));
      case Filling => FillMeaning(c, s);
      case Sending(_) => SendMeaning(c, s);
      case Sealing(last) => HandOverMeaning(c, s, last);
      case Marking => MarkerMeaning(c, s, Sent(c, s));
      case Closing => MeaningReads(c, s, s.(tasksClosed := true, pc := Stopped));
    }
  }

  lemma Parts(c: Config, s: State)
    requires Inv(c, s)
    ensures Shape(c, s) && Outstanding(c, s) && Meaning(c, s) && RolesOK(s) && RangesOK(c, s) && CountedAll(s) && SlotsOK(c, s) && OfferOK(s)
  {
  }

  lemma DropMeaning(c: Config, s: State)
    requires Shape(c, s) && Meaning(c, s) && CanProduceCancel(s) && s.pc.Sending?
    ensures Meaning(c, DoProduceCancel(s))
  {
    hide RolesOK, ChainInv, ConsumerOK, CountsOK, Flat, Sent, RightAt, PostedOK, OutputOK;
    var s' := DoProduceCancel(s);
    var t := s.pc.t;
    var x, y := s.batches[t.b], s'.batches[t.b];
    assert BatchOK(c, x) && BatchRange(x);
    forall j: nat | j < y.log.fill && Covered(x.log.open, j) ensures Covered(y.log.open, j) {
      var st :| st in x.log.open && st <= j < st + x.log.open[st].n;
      assert st in y.log.open;
    }
    assert forall j: nat :: Right(c, y, j) <==> Right(c, x, j);
    OwnMeaning(c, s, s');
  }

  lemma EnqueueGuard(c: Config, s: State, i: nat)
    requires Shape(c, s) && Meaning(c, s) && CanEnqueue(s, i)
    ensures Meaning(c, DoEnqueue(s, i))
  {
    hide PlaceOK, RangesOK, RolesOK, ConsumerOK, CountsOK, Meaning;
    if s.chain[i].pc.Posting? { PostStep(c, s, i); } else { MoveStep(c, s, i); }
    EnqueueMeaning(c, s, DoEnqueue(s, i), i);
  }

  lemma StepMeaning(c: Config, s: State, step: Step)
    requires Inv(c, s) && Enabled(c, s, step) && !Premature(s, step)
    ensures Meaning(c, Do(c, s, step))
  {
    Parts(c, s);
    hide Inv, Shape, Outstanding, Meaning, RolesOK, RangesOK, CountedAll, SlotsOK, OfferOK, DoProduce, DoWork, DoConsume, DoEnqueue;
    match step {
      case Produce(arena) => ProduceMeaning(c, s, arena);
      case ProduceCancel =>
        if s.pc.Sending? { DropMeaning(c, s); } else { MeaningReads(c, s, s.(pc := Closing)); }
      case Work(w) => WorkMeaning(c, s, w);
      case Enqueue(i) => EnqueueGuard(c, s, i);
      case EnqueueCancel(i) => EnqueueMeaning(c, s, SetEnq(s, i, Abandoned), i);
      case Consume => ConsumeMeaning(c, s);
      case ConsumeCancel => MeaningReads(c, s, s.(consumer := Ended(false)));
      case Cancel => MeaningReads(c, s, s.(cancelled := true));
    }
  }

  /** Every careful step is tidy and keeps the whole invariant. */
  lemma StepKeeps(c: Config, s: State, step: Step)
    requires Inv(c, s) && Enabled(c, s, step) && !Premature(s, step)
    ensures Inv(c, Do(c, s, step)) && !Untidy(s, step)
  {
    Parts(c, s);
    PooledDone(c, s, step);
    hide Shape, Outstanding, Meaning, RolesOK, RangesOK, CountedAll, SlotsOK, OfferOK;
    StepShape(c, s, step);
    StepOutstanding(c, s, step);
    StepMeaning(c, s, step);
  }
}
