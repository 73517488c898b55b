/**
 Which tasks are outstanding: the second layer, kept by every step but one. Only taking a batch
 from the pool whose tasks are not all done breaks it, because `acquireBatch` sets the count to 0.
 */
module ScanLedger {
  import opened Wrappers
  import opened ScanModel
  import opened ScanInvariant
  import opened ScanShape

  // --- workers ---

  /** Only worker `w` and the ledger entry for `slot` in batch `b0` change. */
  ghost predicate TaskMove(s: State, s': State, w: nat, b0: nat, slot: nat) {
    && WorkFrame(s, s') && w < |s.workers| == |s'.workers| && b0 < |s.batches|
    && s'.workers == s.workers[w := s'.workers[w]]
    && s'.batches == s.batches[b0 := s'.batches[b0]]
    && var x, y := s.batches[b0], s'.batches[b0];
    && (forall st :: st != slot ==> (st in y.log.open <==> st in x.log.open)
                                    && (st in x.log.open ==> y.log.open[st] == x.log.open[st]))
    && (slot in x.log.open && y.log.open != x.log.open ==>
          x.log.open[slot].loc == Queued || x.log.open[slot].loc == AtWorker(w))
    && (slot in y.log.open ==> slot in x.log.open)
    && Counted(y)
  }

  lemma OtherWorkers(c: Config, s: State, s': State, w: nat, b0: nat, slot: nat)
    requires TaskMove(s, s', w, b0, slot) && WorkersOK(c, s)
    requires WorkerOK(c, s', w)
    ensures WorkersOK(c, s')
  {
    forall v | 0 <= v < |s'.workers| && v != w ensures WorkerOK(c, s', v) {
      assert WorkerOK(c, s, v);
      match s.workers[v]
      case Busy(t, k) =>
        assert SameLife(s.batches[t.b], s'.batches[t.b]);
        assert t.slot in s'.batches[t.b].log.open;
      case Signal(b, g) =>
        assert SameLife(s.batches[b], s'.batches[b]);
        if b == b0 && g == s.batches[b].log.gen {
          assert s'.batches[b].log.open == map[];
        }
      case TestRemaining(b, g) => assert SameLife(s.batches[b], s'.batches[b]);
      case _ =>
    }
  }

  /** A queued task other than the one that moves. */
  lemma OtherTask(c: Config, s: State, s': State, w: nat, b0: nat, slot: nat, t: Task)
    requires TaskMove(s, s', w, b0, slot) && TaskOK(c, s, t, Queued)
    requires s'.batches[b0].log.open == s.batches[b0].log.open || t.b != b0 || t.slot != slot
    ensures TaskOK(c, s', t, Queued)
  {
    hide Flat;
    assert SameLife(s.batches[t.b], s'.batches[t.b]);
  }

  lemma OtherTasks(c: Config, s: State, s': State, w: nat, b0: nat, slot: nat)
    requires TaskMove(s, s', w, b0, slot) && TasksOK(c, s)
    requires s'.tasks == s.tasks || (s.tasks != [] && s'.tasks == s.tasks[1..])
    requires s'.batches[b0].log.open == s.batches[b0].log.open
             || forall i :: 0 <= i < |s'.tasks| ==> s'.tasks[i].b != b0 || s'.tasks[i].slot != slot
    ensures TasksOK(c, s')
  {
    hide TaskOK, WorkFrame;
    var d := |s.tasks| - |s'.tasks|;
    forall i | 0 <= i < |s'.tasks| ensures TaskOK(c, s', s'.tasks[i], Queued) {
      assert s'.tasks[i] == s.tasks[i + d];
      OtherTask(c, s, s', w, b0, slot, s.tasks[i + d]);
    }
    forall i, j | 0 <= i < j < |s'.tasks|
      ensures s'.tasks[i].b != s'.tasks[j].b || s'.tasks[i].slot != s'.tasks[j].slot
    {
      assert s'.tasks[i] == s.tasks[i + d] && s'.tasks[j] == s.tasks[j + d];
    }
  }

  lemma OtherHolders(s: State, s': State, w: nat, b0: nat, slot: nat)
    requires TaskMove(s, s', w, b0, slot) && LedgerOK(s)
    requires s'.tasks == s.tasks
             || (s.tasks != [] && s.tasks[0].b == b0 && s.tasks[0].slot == slot && s'.tasks == s.tasks[1..])
    requires s.workers[w].Busy? ==>
      s.workers[w].t.b == b0 && s.workers[w].t.slot == slot
    requires slot in s'.batches[b0].log.open ==> Held(s', b0, slot, s'.batches[b0].log.open[slot].loc)
    ensures LedgerOK(s')
  {
    forall b, st | 0 <= b < |s'.batches| && st in s'.batches[b].log.open && (b != b0 || st != slot)
      ensures Held(s', b, st, s'.batches[b].log.open[st].loc)
    {
      var loc := s.batches[b].log.open[st].loc;
      assert Held(s, b, st, loc);
      if loc.Queued? {
        var i :| 0 <= i < |s.tasks| && s.tasks[i].b == b && s.tasks[i].slot == st;
        assert s'.tasks[if s'.tasks == s.tasks then i else i - 1] == s.tasks[i];
      }
    }
  }

  /** Worker `w` is checking a batch nobody else signals, or somebody has checked it before. */
  lemma OtherTesters(s: State, s': State, w: nat, b0: nat)
    requires SignalOK(s) && WorkFrame(s, s') && w < |s.workers| == |s'.workers| && b0 < |s.batches|
    requires s'.workers == s.workers[w := s'.workers[w]]
    requires s'.batches == s.batches[b0 := s'.batches[b0]]
    requires s.workers[w].TestDone? || s.workers[w].TestRemaining? || s.workers[w].Signal? ==> s.workers[w].b == b0
    requires var y := s'.batches[b0]; y.doneSending && y.log.open == map[] && !y.ready ==>
      (s'.pc.Sealing? && s'.cur == b0)
      || exists v :: 0 <= v < |s'.workers| && Testing(s'.workers[v], b0, y.log.gen)
    ensures SignalOK(s')
  {
    forall b | 0 <= b < |s'.batches| && b != b0 && s'.batches[b].doneSending && s'.batches[b].log.open == map[]
               && !s'.batches[b].ready && !(s'.pc.Sealing? && s'.cur == b)
      ensures exists v :: 0 <= v < |s'.workers| && Testing(s'.workers[v], b, s'.batches[b].log.gen)
    {
      var v :| 0 <= v < |s.workers| && Testing(s.workers[v], b, s.batches[b].log.gen);
      assert Testing(s'.workers[v], b, s'.batches[b].log.gen);
    }
  }

  /** The task on offer is the producer's own. */
  lemma OtherOffer(s: State, s': State, w: nat, b0: nat, slot: nat)
    requires TaskMove(s, s', w, b0, slot) && OfferOK(s) && CountedAll(s)
    ensures OfferOK(s') && CountedAll(s')
  {
    if s.pc.Sending? { assert SameLife(s.batches[s.pc.t.b], s'.batches[s.pc.t.b]); }
  }

  lemma TakeMoves(c: Config, s: State, w: nat)
    requires w < |s.workers| && s.workers[w].Idle? && s.tasks != [] && s.tasks[0].b < |s.batches| && CountedAll(s)
    requires TaskOK(c, s, s.tasks[0], Queued)
    ensures var s', t := TakeTask(s, w), s.tasks[0];
            TaskMove(s, s', w, t.b, t.slot) && TaskOK(c, s', t, AtWorker(w))
  {
    var s' := TakeTask(s, w);
    var t := s.tasks[0];
    OneLife(s, s', t.b);
    var x, y := s.batches[t.b], s'.batches[t.b];
    assert y.log.open.Keys == x.log.open.Keys;
    assert |y.log.open| == |x.log.open| by { assert Counted(x); }
  }

  lemma TakeKeeps(c: Config, s: State, w: nat)
    requires w < |s.workers| && s.workers[w].Idle? && s.tasks != [] && s.tasks[0].b < |s.batches| && Outstanding(c, s)
    ensures Outstanding(c, TakeTask(s, w))
  {
    var s' := TakeTask(s, w);
    var t := s.tasks[0];
    assert TaskOK(c, s, t, Queued);
    TakeMoves(c, s, w);
    OtherWorkers(c, s, s', w, t.b, t.slot);
    OtherTasks(c, s, s', w, t.b, t.slot);
    OtherHolders(s, s', w, t.b, t.slot);
    OtherTesters(s, s', w, t.b);
    OtherOffer(s, s', w, t.b, t.slot);
  }

  /** `Outstanding` reads only these parts of the state. */
  lemma OutstandingReads(c: Config, s: State, s': State)
    requires Outstanding(c, s)
    requires s'.batches == s.batches && s'.tasks == s.tasks && s'.workers == s.workers && s'.cur == s.cur
    requires s'.pc == s.pc || (!s.pc.Sending? && !s.pc.Sealing? && !s'.pc.Sending?)
    ensures Outstanding(c, s')
  {
    forall w | 0 <= w < |s'.workers| ensures WorkerOK(c, s', w) { assert WorkerOK(c, s, w); }
    forall i | 0 <= i < |s'.tasks| ensures TaskOK(c, s', s'.tasks[i], Queued) {
      assert TaskOK(c, s, s.tasks[i], Queued);
    }
    forall b, st | 0 <= b < |s'.batches| && st in s'.batches[b].log.open
      ensures Held(s', b, st, s'.batches[b].log.open[st].loc)
    { assert Held(s, b, st, s.batches[b].log.open[st].loc); }
  }

  lemma ExitKeeps(c: Config, s: State, w: nat)
    requires w < |s.workers| && s.workers[w].Idle? && Outstanding(c, s)
    ensures Outstanding(c, SetWorker(s, w, Exited))
  {
    var s' := SetWorker(s, w, Exited);
    forall v | 0 <= v < |s'.workers| ensures WorkerOK(c, s', v) { assert WorkerOK(c, s, v); }
    forall i | 0 <= i < |s'.tasks| ensures TaskOK(c, s', s'.tasks[i], Queued) { assert TaskOK(c, s, s.tasks[i], Queued); }
    forall b, st | 0 <= b < |s'.batches| && st in s'.batches[b].log.open
      ensures Held(s', b, st, s'.batches[b].log.open[st].loc)
    { assert Held(s, b, st, s.batches[b].log.open[st].loc); }
    forall b | 0 <= b < |s'.batches| && s'.batches[b].doneSending && s'.batches[b].log.open == map[]
               && !s'.batches[b].ready && !(s'.pc.Sealing? && s'.cur == b)
      ensures exists v :: 0 <= v < |s'.workers| && Testing(s'.workers[v], b, s'.batches[b].log.gen)
    {
      var v :| 0 <= v < |s.workers| && Testing(s.workers[v], b, s.batches[b].log.gen);
      assert Testing(s'.workers[v], b, s'.batches[b].log.gen);
    }
  }

  lemma RowKeeps(c: Config, s: State, w: nat, t: Task, k: nat)
    requires CanWork(c, s, w) && s.workers[w] == Busy(t, k) && k < t.n && Outstanding(c, s)
    ensures Outstanding(c, WriteRow(c, s, w, t, k))
  {
    assert WorkerOK(c, s, w);
    var s' := WriteRow(c, s, w, t, k);
    OneLife(s, s', t.b);
    assert Counted(s.batches[t.b]);
    assert TaskMove(s, s', w, t.b, t.slot);
    OtherWorkers(c, s, s', w, t.b, t.slot);
    OtherTasks(c, s, s', w, t.b, t.slot);
    OtherHolders(s, s', w, t.b, t.slot);
    OtherTesters(s, s', w, t.b);
    OtherOffer(s, s', w, t.b, t.slot);
  }

  lemma DropSize(m: map<nat, Open>, k: nat)
    requires k in m
    ensures |m - {k}| == |m| - 1
  {
    assert (m - {k})[k := m[k]] == m;
  }

  lemma FinishKeeps(c: Config, s: State, w: nat, t: Task)
    requires w < |s.workers| && s.workers[w] == Busy(t, t.n) && t.b < |s.batches| && Outstanding(c, s)
    ensures Outstanding(c, FinishTask(s, w, t))
  {
    assert WorkerOK(c, s, w);
    var s' := FinishTask(s, w, t);
    OneLife(s, s', t.b);
    DropSize(s.batches[t.b].log.open, t.slot);
    assert Counted(s.batches[t.b]);
    assert TaskMove(s, s', w, t.b, t.slot);
    assert Testing(s'.workers[w], t.b, s'.batches[t.b].log.gen);
    OtherWorkers(c, s, s', w, t.b, t.slot);
    forall i | 0 <= i < |s'.tasks| ensures s'.tasks[i].b != t.b || s'.tasks[i].slot != t.slot {
      assert TaskOK(c, s, s.tasks[i], Queued);
    }
    OtherTasks(c, s, s', w, t.b, t.slot);
    OtherHolders(s, s', w, t.b, t.slot);
    OtherTesters(s, s', w, t.b);
    OtherOffer(s, s', w, t.b, t.slot);
  }

  predicate Tester(v: Worker) { v.TestDone? || v.TestRemaining? || v.Signal? }

  /** A tester moves on: only its own state and perhaps the ready flag of `b` change. */
  lemma TestKeeps(c: Config, s: State, s': State, w: nat, b: nat)
    requires Outstanding(c, s) && w < |s.workers| && Tester(s.workers[w]) && s.workers[w].b == b < |s.batches|
    requires |s'.workers| == |s.workers| && |s'.batches| == |s.batches|
    requires s' == s.(workers := s.workers[w := s'.workers[w]], batches := s.batches[b := s'.batches[b]])
    requires WorkerOK(c, s', w) && !s'.workers[w].Busy?
    requires s'.batches[b] == s.batches[b] || s'.batches[b] == s.batches[b].(ready := true)
    requires Testing(s.workers[w], b, s.batches[b].log.gen) && s.batches[b].doneSending && s.batches[b].remaining == 0 ==>
      s'.batches[b].ready || Testing(s'.workers[w], b, s.batches[b].log.gen)
    ensures Outstanding(c, s')
  {
    var bt := s.batches[b];
    assert Counted(bt);
    OneLife(s, s', b);
    assert TaskMove(s, s', w, b, 0);
    if bt.doneSending && bt.log.open == map[] && !s'.batches[b].ready && !(s.pc.Sealing? && s.cur == b) {
      var v :| 0 <= v < |s.workers| && Testing(s.workers[v], b, bt.log.gen);
      assert Testing(s'.workers[v], b, bt.log.gen);
    }
    OtherTesters(s, s', w, b);
    OtherWorkers(c, s, s', w, b, 0);
    OtherTasks(c, s, s', w, b, 0);
    if 0 in bt.log.open { assert Held(s, b, 0, bt.log.open[0].loc); }
    OtherHolders(s, s', w, b, 0);
    OtherOffer(s, s', w, b, 0);
  }

  lemma LoadKeeps(c: Config, s: State, w: nat)
    requires Outstanding(c, s) && CanWork(c, s, w) && Tester(s.workers[w])
    ensures Outstanding(c, DoWork(c, s, w))
  {
    hide TasksOK, LedgerOK, Flat;
    assert WorkerOK(c, s, w);
    var b := s.workers[w].b;
    assert Counted(s.batches[b]);
    TestKeeps(c, s, DoWork(c, s, w), w, b);
  }

  lemma WorkOutstanding(c: Config, s: State, w: nat)
    requires Outstanding(c, s) && RangesOK(c, s) && CanWork(c, s, w)
    ensures Outstanding(c, DoWork(c, s, w))
  {
    hide Outstanding;
    assert WorkerRange(c, s, w);
    match s.workers[w] {
      case Idle => if s.tasks != [] { TakeKeeps(c, s, w); } else { ExitKeeps(c, s, w); }
      case Busy(t, k) => if k < t.n { RowKeeps(c, s, w, t, k); } else { FinishKeeps(c, s, w, t); }
      case _ => LoadKeeps(c, s, w);
    }
  }

  // --- the consumer ---

  /** Batches differ in their role only. */
  predicate RoleOnly(s: State, s': State) {
    && |s'.batches| == |s.batches|
    && (forall b :: 0 <= b < |s.batches| ==> s'.batches[b] == SetRole(s.batches[b], s'.batches[b].log.role))
    && s'.tasks == s.tasks && s'.workers == s.workers && s'.cur == s.cur && s'.pc == s.pc
  }

  lemma RoleWorker(c: Config, s: State, s': State, w: nat)
    requires RoleOnly(s, s') && w < |s.workers| && WorkerOK(c, s, w)
    ensures WorkerOK(c, s', w)
  {
    match s.workers[w]
    case Busy(t, _) => assert s'.batches[t.b] == SetRole(s.batches[t.b], s'.batches[t.b].log.role);
    case TestRemaining(b, _) => assert s'.batches[b] == SetRole(s.batches[b], s'.batches[b].log.role);
    case Signal(b, _) => assert s'.batches[b] == SetRole(s.batches[b], s'.batches[b].log.role);
    case _ =>
  }

  lemma RoleLedger(s: State, s': State)
    requires RoleOnly(s, s') && LedgerOK(s) && SignalOK(s)
    ensures LedgerOK(s') && SignalOK(s')
  {
    forall b, st | 0 <= b < |s'.batches| && st in s'.batches[b].log.open
      ensures Held(s', b, st, s'.batches[b].log.open[st].loc)
    {
      assert s'.batches[b].log.open == s.batches[b].log.open;
      assert Held(s, b, st, s.batches[b].log.open[st].loc);
    }
    forall b | 0 <= b < |s'.batches| && s'.batches[b].doneSending && s'.batches[b].log.open == map[]
               && !s'.batches[b].ready && !(s'.pc.Sealing? && s'.cur == b)
      ensures exists v :: 0 <= v < |s'.workers| && Testing(s'.workers[v], b, s'.batches[b].log.gen)
    {
      assert s.batches[b].doneSending && s.batches[b].log.open == map[] && !s.batches[b].ready;
      var v :| 0 <= v < |s.workers| && Testing(s.workers[v], b, s.batches[b].log.gen);
      assert Testing(s'.workers[v], b, s'.batches[b].log.gen);
    }
  }

  lemma RoleChange(c: Config, s: State, s': State)
    requires Outstanding(c, s) && RoleOnly(s, s')
    ensures Outstanding(c, s')
  {
    forall w | 0 <= w < |s'.workers| ensures WorkerOK(c, s', w) {
      assert WorkerOK(c, s, w);
      RoleWorker(c, s, s', w);
    }
    forall i | 0 <= i < |s'.tasks| ensures TaskOK(c, s', s'.tasks[i], Queued) {
      assert TaskOK(c, s, s.tasks[i], Queued);
    }
    forall b | 0 <= b < |s'.batches| ensures Counted(s'.batches[b]) { assert Counted(s.batches[b]); }
    RoleLedger(s, s');
  }

  lemma ConsumeOutstanding(c: Config, s: State)
    requires Outstanding(c, s) && CanConsume(s)
    ensures Outstanding(c, DoConsume(c, s))
  {
    hide Outstanding, TakeRow;
    var s' := DoConsume(c, s);
    match s.consumer {
      case Waiting => if s.queue[0].Marker? { OutstandingReads(c, s, s'); } else { RoleChange(c, s, s'); }
      case ReadingRows(b, idx) =>
        if idx < s.batches[b].n { TakeRowReads(c, s, b, idx); } else { RoleChange(c, s, s'); }
      case Returning => OutstandingReads(c, s, s');
    }
  }

  lemma TakeRowReads(c: Config, s: State, b: nat, idx: nat)
    requires Outstanding(c, s) && b < |s.batches| && idx < |s.batches[b].slots|
    ensures Outstanding(c, TakeRow(c, s, b, idx, s.batches[b].slots[idx]))
  {
    hide Outstanding;
    OutstandingReads(c, s, TakeRow(c, s, b, idx, s.batches[b].slots[idx]));
  }

  // --- the producer ---

  /** The producer changes one batch: entries it does not own stay, finished flags only grow. */
  predicate Grown(x: Batch, y: Batch) {
    && y.log.gen == x.log.gen && y.log.base == x.log.base && x.log.fill <= y.log.fill && Counted(y)
    && (x.doneSending ==> y.doneSending)
    && (forall st :: st in x.log.open && !x.log.open[st].loc.AtProducer? ==>
          st in y.log.open && y.log.open[st] == x.log.open[st])
    && (x.log.open == map[] && x.doneSending ==> y.log.open == map[])
  }

  ghost predicate OneGrows(s: State, s': State, b: nat) {
    && b < |s.batches| == |s'.batches| && s'.batches == s.batches[b := s'.batches[b]] && s'.workers == s.workers
    && Grown(s.batches[b], s'.batches[b])
  }

  lemma GrownWorkers(c: Config, s: State, s': State, b: nat)
    requires OneGrows(s, s', b) && WorkersOK(c, s)
    ensures WorkersOK(c, s')
  {
    forall w | 0 <= w < |s'.workers| ensures WorkerOK(c, s', w) { assert WorkerOK(c, s, w); }
  }

  lemma GrownTasks(c: Config, s: State, s': State, b: nat)
    requires OneGrows(s, s', b) && TasksOK(c, s) && s'.tasks == s.tasks
    ensures TasksOK(c, s')
  {
    forall i | 0 <= i < |s'.tasks| ensures TaskOK(c, s', s'.tasks[i], Queued) {
      assert TaskOK(c, s, s.tasks[i], Queued);
    }
  }

  lemma GrownLedger(s: State, s': State, b: nat)
    requires OneGrows(s, s', b) && LedgerOK(s)
    requires forall st :: st in s'.batches[b].log.open ==>
               Held(s', b, st, s'.batches[b].log.open[st].loc)
               || (st in s.batches[b].log.open && s'.batches[b].log.open[st] == s.batches[b].log.open[st]
                   && !s.batches[b].log.open[st].loc.AtProducer?)
    requires !s.pc.Sending? || s.pc.t.b == b
    requires |s'.tasks| >= |s.tasks| && s'.tasks[..|s.tasks|] == s.tasks
    ensures LedgerOK(s')
  {
    forall b1, st | 0 <= b1 < |s'.batches| && st in s'.batches[b1].log.open
      ensures Held(s', b1, st, s'.batches[b1].log.open[st].loc)
    {
      if b1 != b || st in s.batches[b].log.open {
        var loc := s.batches[b1].log.open[st].loc;
        assert Held(s, b1, st, loc);
        if loc.Queued? {
          var i :| 0 <= i < |s.tasks| && s.tasks[i].b == b1 && s.tasks[i].slot == st;
          assert s'.tasks[i] == s'.tasks[..|s.tasks|][i];
        }
      }
    }
  }

  lemma GrownSignals(s: State, s': State, b: nat)
    requires OneGrows(s, s', b) && SignalOK(s) && CountedAll(s)
    requires !s.pc.Sealing? || s.cur == b
    requires var y := s'.batches[b]; y.doneSending && y.log.open == map[] && !y.ready ==> s'.pc.Sealing? && s'.cur == b
    ensures SignalOK(s') && CountedAll(s')
  {
    forall b1 | 0 <= b1 < |s'.batches| && b1 != b && s'.batches[b1].doneSending && s'.batches[b1].log.open == map[]
                && !s'.batches[b1].ready
      ensures exists v :: 0 <= v < |s'.workers| && Testing(s'.workers[v], b1, s'.batches[b1].log.gen)
    {
      var v :| 0 <= v < |s.workers| && Testing(s.workers[v], b1, s.batches[b1].log.gen);
      assert Testing(s'.workers[v], b1, s'.batches[b1].log.gen);
    }
    forall b1 | 0 <= b1 < |s'.batches| ensures Counted(s'.batches[b1]) { if b1 != b { assert Counted(s.batches[b1]); } }
  }

  lemma SealOutstanding(c: Config, s: State, last: bool)
    requires Outstanding(c, s) && PlaceOK(c, s) && s.pc.Filling?
    ensures Outstanding(c, Seal(s, last))
  {
    var s' := Seal(s, last);
    assert Counted(s.batches[s.cur]);
    GrownWorkers(c, s, s', s.cur);
    GrownTasks(c, s, s', s.cur);
    GrownLedger(s, s', s.cur) by {
      forall st | st in s'.batches[s.cur].log.open ensures Held(s', s.cur, st, s'.batches[s.cur].log.open[st].loc) {
        assert Held(s, s.cur, st, s.batches[s.cur].log.open[st].loc);
      }
    }
    GrownSignals(s, s', s.cur);
  }

  /** While the producer fills a batch, every unfinished task in it lies before the next free slot. */
  lemma SlotFree(c: Config, s: State)
    requires Outstanding(c, s) && PlaceOK(c, s) && RangesOK(c, s) && s.pc.Filling?
    ensures forall st :: st in s.batches[s.cur].log.open ==> st < s.slot
  {
    var open := s.batches[s.cur].log.open;
    forall st | st in open ensures st < s.slot {
      assert Held(s, s.cur, st, open[st].loc);
      if open[st].loc.Queued? {
        var i :| 0 <= i < |s.tasks| && s.tasks[i].b == s.cur && s.tasks[i].slot == st;
        assert TaskOK(c, s, s.tasks[i], Queued) && TaskRange(c, |s.batches|, s.tasks[i]);
      } else {
        assert WorkerOK(c, s, open[st].loc.w) && WorkerRange(c, s, open[st].loc.w);
      }
    }
  }

  lemma OpenOutstanding(c: Config, s: State, n: nat)
    requires Outstanding(c, s) && PlaceOK(c, s) && RangesOK(c, s) && s.pc.Filling?
    ensures Outstanding(c, OpenTask(s, n))
  {
    hide Flat, Sent;
    var s' := OpenTask(s, n);
    SlotFree(c, s);
    var x, y := s.batches[s.cur], s'.batches[s.cur];
    assert Counted(x) && Counted(y);
    GrownWorkers(c, s, s', s.cur);
    GrownTasks(c, s, s', s.cur);
    GrownLedger(s, s', s.cur) by {
      forall st | st in y.log.open && st != s.slot ensures Held(s', s.cur, st, y.log.open[st].loc) {
        assert Held(s, s.cur, st, x.log.open[st].loc);
      }
    }
    GrownSignals(s, s', s.cur);
  }

  lemma FillOutstanding(c: Config, s: State)
    requires Outstanding(c, s) && PlaceOK(c, s) && RangesOK(c, s) && s.pc.Filling?
    ensures s.np <= |c.pages| && s.cur < |s.batches| && Outstanding(c, Fill(c, s))
  {
    hide Outstanding, RangesOK, Flat, Sent;
    if s.row < PageLen(c, s) {
      var n := Min(PageLen(c, s) - s.row, TASK_ROWS);
      if s.slot + n > BATCH_ROWS { SealOutstanding(c, s, false); } else { OpenOutstanding(c, s, n); }
    } else if s.np < |c.pages| {
      OutstandingReads(c, s, s.(np := s.np + 1, row := 0));
    } else if s.slot > 0 {
      SealOutstanding(c, s, true);
    } else {
      OutstandingReads(c, s, s.(pc := Marking));
    }
  }

  /** A pooled batch whose count is 0 has no unfinished task, so no task or worker refers to its new life. */
  lemma ReuseWorkers(c: Config, s: State, base: nat)
    requires Outstanding(c, s) && s.pool != [] && s.pool[0] < |s.batches| && s.batches[s.pool[0]].remaining == 0
    ensures var s' := Reuse(s, base); WorkersOK(c, s') && TasksOK(c, s') && CountedAll(s')
  {
    var s' := Reuse(s, base);
    assert Counted(s.batches[s.pool[0]]);
    forall b | 0 <= b < |s'.batches| ensures Counted(s'.batches[b]) { if b != s.pool[0] { assert Counted(s.batches[b]); } }
    forall w | 0 <= w < |s'.workers| ensures WorkerOK(c, s', w) { assert WorkerOK(c, s, w); }
    forall i | 0 <= i < |s'.tasks| ensures TaskOK(c, s', s'.tasks[i], Queued) {
      assert TaskOK(c, s, s.tasks[i], Queued);
    }
  }

  lemma ReuseLedger(s: State, base: nat)
    requires LedgerOK(s) && SignalOK(s) && s.pc.NeedBatch? && s.pool != [] && s.pool[0] < |s.batches|
    ensures LedgerOK(Reuse(s, base)) && SignalOK(Reuse(s, base))
  {
    var s', b0 := Reuse(s, base), s.pool[0];
    forall b, st | 0 <= b < |s'.batches| && st in s'.batches[b].log.open
      ensures Held(s', b, st, s'.batches[b].log.open[st].loc)
    {
      assert b != b0;
      assert Held(s, b, st, s.batches[b].log.open[st].loc);
    }
    forall b | 0 <= b < |s'.batches| && s'.batches[b].doneSending && s'.batches[b].log.open == map[]
               && !s'.batches[b].ready
      ensures exists v :: 0 <= v < |s'.workers| && Testing(s'.workers[v], b, s'.batches[b].log.gen)
    {
      assert b != b0;
      var v :| 0 <= v < |s.workers| && Testing(s.workers[v], b, s.batches[b].log.gen);
      assert Testing(s'.workers[v], b, s'.batches[b].log.gen);
    }
  }

  lemma AllocateOutstanding(c: Config, s: State, arena: seq<Cell>, base: nat)
    requires Outstanding(c, s) && s.pc.NeedBatch?
    ensures Outstanding(c, Allocate(s, arena, base))
  {
    var s' := Allocate(s, arena, base);
    forall b | 0 <= b < |s'.batches| ensures Counted(s'.batches[b]) { if b < |s.batches| { assert Counted(s.batches[b]); } }
    forall w | 0 <= w < |s'.workers| ensures WorkerOK(c, s', w) { assert WorkerOK(c, s, w); }
    forall i | 0 <= i < |s'.tasks| ensures TaskOK(c, s', s'.tasks[i], Queued) {
      assert TaskOK(c, s, s.tasks[i], Queued);
    }
    AllocateLedger(s, arena, base);
  }

  lemma AllocateLedger(s: State, arena: seq<Cell>, base: nat)
    requires LedgerOK(s) && SignalOK(s) && s.pc.NeedBatch?
    ensures LedgerOK(Allocate(s, arena, base)) && SignalOK(Allocate(s, arena, base))
  {
    var s' := Allocate(s, arena, base);
    forall b, st | 0 <= b < |s'.batches| && st in s'.batches[b].log.open
      ensures Held(s', b, st, s'.batches[b].log.open[st].loc)
    {
      assert b < |s.batches|;
      assert Held(s, b, st, s.batches[b].log.open[st].loc);
    }
    forall b | 0 <= b < |s'.batches| && s'.batches[b].doneSending && s'.batches[b].log.open == map[]
               && !s'.batches[b].ready
      ensures exists v :: 0 <= v < |s'.workers| && Testing(s'.workers[v], b, s'.batches[b].log.gen)
    {
      var v :| 0 <= v < |s.workers| && Testing(s.workers[v], b, s.batches[b].log.gen);
      assert Testing(s'.workers[v], b, s'.batches[b].log.gen);
    }
  }

  lemma SendOutstanding(c: Config, s: State)
    requires Outstanding(c, s) && PlaceOK(c, s) && s.pc.Sending? && s.pc.t.b < |s.batches|
    ensures Outstanding(c, Send(s, s.pc.t))
  {
    hide TasksOK, WorkersOK, End;
    var t := s.pc.t;
    var s' := Send(s, t);
    var x, y := s.batches[t.b], s'.batches[t.b];
    assert y.log.open.Keys == x.log.open.Keys && |y.log.open| == |x.log.open|;
    assert Counted(x);
    SendTasks(c, s);
    GrownWorkers(c, s, s', t.b);
    GrownLedger(s, s', t.b) by {
      assert s'.tasks[|s.tasks|] == t;
      forall st | st in y.log.open && st != t.slot ensures Held(s', t.b, st, y.log.open[st].loc) {
        assert Held(s, t.b, st, x.log.open[st].loc);
        if x.log.open[st].loc.Queued? {
          var i :| 0 <= i < |s.tasks| && s.tasks[i].b == t.b && s.tasks[i].slot == st;
          assert s'.tasks[i] == s.tasks[i];
        }
      }
    }
    GrownSignals(s, s', t.b);
  }

  lemma SendTasks(c: Config, s: State)
    requires TasksOK(c, s) && PlaceOK(c, s) && OfferOK(s) && s.pc.Sending?
    ensures TasksOK(c, Send(s, s.pc.t))
  {
    var t := s.pc.t;
    var s' := Send(s, t);
    forall i | 0 <= i < |s'.tasks| ensures TaskOK(c, s', s'.tasks[i], Queued) {
      if i < |s.tasks| { assert TaskOK(c, s, s.tasks[i], Queued); }
    }
    forall i, j | 0 <= i < j < |s'.tasks|
      ensures s'.tasks[i].b != s'.tasks[j].b || s'.tasks[i].slot != s'.tasks[j].slot
    {
      assert TaskOK(c, s, s.tasks[i], Queued);
    }
  }

  lemma HandOverOutstanding(c: Config, s: State, last: bool)
    requires Outstanding(c, s) && PlaceOK(c, s) && s.pc == Sealing(last)
    ensures Outstanding(c, HandOver(s, last))
  {
    hide Flat, Sent, End;
    var s' := HandOver(s, last);
    var x, y := s.batches[s.cur], s'.batches[s.cur];
    assert Counted(x);
    GrownWorkers(c, s, s', s.cur);
    GrownTasks(c, s, s', s.cur);
    GrownLedger(s, s', s.cur) by {
      forall st | st in y.log.open ensures Held(s', s.cur, st, y.log.open[st].loc) {
        assert Held(s, s.cur, st, x.log.open[st].loc);
      }
    }
    GrownSignals(s, s', s.cur);
  }

  lemma ProduceOutstanding(c: Config, s: State, arena: seq<Cell>)
    requires Outstanding(c, s) && PlaceOK(c, s) && RangesOK(c, s) && CanProduce(c, s) && !Untidy(s, Produce(arena))
    ensures Outstanding(c, DoProduce(c, s, arena))
  {
    hide Outstanding, PlaceOK, RangesOK, Fill, Sent;
    match s.pc {
      case NeedSlot => OutstandingReads(c, s, s.(free := s.free - 1, held := true, pc := NeedBatch));
      case NeedBatch => if s.pool != [] { ReuseOutstanding(c, s, Sent(c, s)); } else { AllocateOutstanding(c, s, arena, Sent(c, s)); }
      case Renewing => OutstandingReads(c, s, s.(pc := Filling));
      case Filling => FillOutstanding(c, s);
      case Sending(_) => SendOutstanding(c, s);
      case Sealing(last) => HandOverOutstanding(c, s, last);
      case Marking => OutstandingReads(c, s, AddMarker(s, Sent(c, s)));
      case Closing => OutstandingReads(c, s, s.(tasksClosed := true, pc := Stopped));
    }
  }

  lemma ReuseOutstanding(c: Config, s: State, base: nat)
    requires Outstanding(c, s) && s.pc.NeedBatch? && s.pool != [] && s.pool[0] < |s.batches| && s.batches[s.pool[0]].remaining == 0
    ensures Outstanding(c, Reuse(s, base))
  {
    ReuseWorkers(c, s, base);
    ReuseLedger(s, base);
    hide CountedAll, TasksOK, WorkersOK, LedgerOK, SignalOK;
  }

  lemma DropOutstanding(c: Config, s: State)
    requires Outstanding(c, s) && PlaceOK(c, s) && CanProduceCancel(s) && s.pc.Sending?
    ensures Outstanding(c, DoProduceCancel(s))
  {
    hide Flat, Sent, End;
    var s' := DoProduceCancel(s);
    var t := s.pc.t;
    var x, y := s.batches[t.b], s'.batches[t.b];
    assert Counted(x);
    DropSize(x.log.open, t.slot);
    GrownWorkers(c, s, s', t.b);
    GrownTasks(c, s, s', t.b);
    GrownLedger(s, s', t.b) by {
      forall st | st in y.log.open ensures Held(s', t.b, st, y.log.open[st].loc) {
        assert Held(s, t.b, st, x.log.open[st].loc);
      }
    }
    GrownSignals(s, s', t.b);
  }

  /** Every tidy step, premature signals included, keeps track of all outstanding tasks. */
  lemma StepOutstanding(c: Config, s: State, step: Step)
    requires Shape(c, s) && Outstanding(c, s) && Enabled(c, s, step) && !Untidy(s, step)
    ensures Outstanding(c, Do(c, s, step))
  {
    hide Outstanding, PlaceOK, RangesOK, RolesOK, ChainInv, ConsumerOK, CountsOK, DoProduce, DoWork, DoConsume;
    match step {
      case Produce(arena) => ProduceOutstanding(c, s, arena);
      case ProduceCancel =>
        if s.pc.Sending? { DropOutstanding(c, s); } else { OutstandingReads(c, s, s.(pc := Closing)); }
      case Work(w) => WorkOutstanding(c, s, w);
      case Enqueue(i) => OutstandingReads(c, s, DoEnqueue(s, i));
      case EnqueueCancel(i) => OutstandingReads(c, s, SetEnq(s, i, Abandoned));
      case Consume => ConsumeOutstanding(c, s);
      case ConsumeCancel => OutstandingReads(c, s, s.(consumer := Ended(false)));
      case Cancel => OutstandingReads(c, s, s.(cancelled := true));
    }
  }
}
