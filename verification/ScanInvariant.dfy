/**
 What the pipeline keeps, in three layers: who is where (kept by every step), which tasks are
 outstanding (kept unless a batch is recycled before its tasks are done), and what the slots and
 ready signals mean (kept unless a batch is signalled before its tasks are done).
 */
module ScanInvariant {
  import opened Wrappers
  import opened ScanModel

  // --- facts about the flattened table ---

  lemma {:induction false} FlatAt(pages: seq<Page>, p: nat, r: nat)
    requires p < |pages| && r < |pages[p]|
    ensures |Flat(pages[..p])| + r < |Flat(pages)|
    ensures Flat(pages)[|Flat(pages[..p])| + r] == pages[p][r]
  {
    var front := pages[..|pages| - 1];
    if p < |pages| - 1 {
      FlatAt(front, p, r);
      assert front[..p] == pages[..p];
    }
  }

  lemma FlatStep(pages: seq<Page>, p: nat)
    requires p < |pages|
    ensures Flat(pages[..p + 1]) == Flat(pages[..p]) + pages[p]
  {
    assert pages[..p + 1][..p] == pages[..p];
  }

  lemma {:induction false} FlatPrefix(pages: seq<Page>, p: nat)
    requires p <= |pages|
    ensures |Flat(pages[..p])| <= |Flat(pages)|
    decreases |pages| - p
  {
    if p < |pages| {
      FlatStep(pages, p);
      FlatPrefix(pages, p + 1);
    } else {
      assert pages[..p] == pages;
    }
  }

  // --- places in the chain, the table and a batch ---

  /** Position of the first row not yet handed to `enqueueWhen`. */
  function End(chain: seq<Enq>, k: nat): nat
    requires k <= |chain|
  {
    if k == 0 then 0 else chain[k - 1].base + chain[k - 1].n
  }

  predicate HasBatch(s: State) { s.held && !s.pc.NeedBatch? }

  function DataCount(chain: seq<Enq>): nat {
    if chain != [] && chain[|chain| - 1].item.Marker? then |chain| - 1 else |chain|
  }

  /** Batches handed to `enqueueWhen` that the consumer has not received. */
  function InFlight(s: State): int {
    DataCount(s.chain) - Min(s.received, DataCount(s.chain))
  }

  function One(b: bool): nat { if b then 1 else 0 }

  predicate Covered(open: map<nat, Open>, j: nat) {
    exists st :: st in open && st <= j < st + open[st].n
  }

  /** Slot `j` of batch `bt` holds the row it stands for. */
  predicate RightAt(c: Config, slots: seq<Cell>, base: nat, j: nat) {
    j < |slots| && base + j < |Flat(c.pages)| && slots[j] == Flat(c.pages)[base + j]
  }

  /** The first `k` slots from `slot` on are written. */
  ghost predicate Written(c: Config, slots: seq<Cell>, base: nat, slot: nat, k: nat) {
    forall j: nat :: slot <= j < slot + k ==> RightAt(c, slots, base, j)
  }

  predicate Right(c: Config, bt: Batch, j: nat) { RightAt(c, bt.slots, bt.log.base, j) }


  // --- first layer: who is where ---

  /** A batch's slots, its length once it is sealed, and how far the producer has filled it. */
  predicate BatchRange(bt: Batch) {
    && |bt.slots| == BATCH_ROWS && bt.n <= BATCH_ROWS && bt.log.fill <= BATCH_ROWS
    && (bt.doneSending ==> bt.log.fill == bt.n)
    && (!bt.log.role.Current? ==> bt.doneSending)
  }

  /** The rows and slots of a task exist. */
  predicate TaskRange(c: Config, batches: nat, t: Task) {
    && t.b < batches && 0 < t.n && t.slot + t.n <= BATCH_ROWS
    && t.page < |c.pages| && t.firstRow + t.n <= |c.pages[t.page]|
  }

  predicate WorkerRange(c: Config, s: State, w: nat)
    requires w < |s.workers|
  {
    match s.workers[w]
    case Idle => true
    case Busy(t, k) => TaskRange(c, |s.batches|, t) && k <= t.n
    case TestDone(b) => b < |s.batches|
    case TestRemaining(b, _) => b < |s.batches|
    case Signal(b, _) => b < |s.batches|
    case Exited => s.tasksClosed && s.tasks == []
  }

  predicate RangesOK(c: Config, s: State) {
    && (forall b :: 0 <= b < |s.batches| ==> BatchRange(s.batches[b]))
    && (forall i :: 0 <= i < |s.tasks| ==> TaskRange(c, |s.batches|, s.tasks[i]))
    && |s.workers| == c.workers && (forall w :: 0 <= w < |s.workers| ==> WorkerRange(c, s, w))
  }

  /** Where the producer is in its loops, and its own batch. */
  predicate PlaceOK(c: Config, s: State) {
    && s.np <= |c.pages| && s.row <= PageLen(c, s)
    && (s.pc.NeedSlot? ==> !s.held)
    && (s.pc.NeedBatch? || s.pc.Renewing? || s.pc.Filling? || s.pc.Sending? || s.pc.Sealing? ==> s.held)
    && (s.tasksClosed <==> s.pc.Stopped?)
    && (!HasBatch(s) ==> End(s.chain, |s.chain|) == Sent(c, s))
    && (HasBatch(s) ==>
          s.cur < |s.batches| && var bt := s.batches[s.cur];
          End(s.chain, |s.chain|) == bt.log.base && bt.log.role.Current? && bt.log.fill == s.slot && bt.log.base + s.slot == Sent(c, s))
    && (s.pc.Sealing? ==> s.batches[s.cur].doneSending && s.slot > 0
                          && (s.pc.last ==> s.np == |c.pages| && s.row == PageLen(c, s)))
    && (HasBatch(s) && (s.pc.Renewing? || s.pc.Filling? || s.pc.Sending?) ==> !s.batches[s.cur].doneSending)
    && (s.pc.Sending? ==> var t := s.pc.t;
          t.b == s.cur && t.slot == s.slot && s.np > 0 && t.page == s.np - 1 && t.firstRow == s.row
          && 0 < t.n <= TASK_ROWS && s.row + t.n <= PageLen(c, s) && s.slot + t.n <= BATCH_ROWS)
    && (s.pc.Marking? ==> s.np == |c.pages| && s.row == PageLen(c, s))
    && (s.pc.Marking? && HasBatch(s) ==> s.slot == 0)
    && (s.pc.Closing? || s.pc.Stopped? ==> s.cancelled || (s.chain != [] && s.chain[|s.chain| - 1].item.Marker?))
  }

  /** The owner of batch `b` is the one its ledger names. */
  ghost predicate RoleOK(s: State, b: nat)
    requires b < |s.batches|
  {
    match s.batches[b].log.role
    case Current => HasBatch(s) && b == s.cur
    case Chained(i) => s.received <= i < |s.chain| && s.chain[i].item == Data(b)
    case Reading => s.consumer.ReadingRows? && s.consumer.b == b
    case Pooled => true
  }

  /** Entry `i` of the chain, not yet received, owns its batch. */
  ghost predicate LinkOK(s: State, i: nat)
    requires i < |s.chain|
  {
    s.chain[i].item.Data? ==>
      var b := s.chain[i].item.b;
      b < |s.batches| && s.batches[b].log.role == Chained(i)
      && s.batches[b].log.base == s.chain[i].base && s.batches[b].n == s.chain[i].n
  }

  ghost predicate PoolOK(s: State) {
    && (forall i :: 0 <= i < |s.pool| ==> s.pool[i] < |s.batches| && s.batches[s.pool[i]].log.role.Pooled?)
    && (forall i, j :: 0 <= i < j < |s.pool| ==> s.pool[i] != s.pool[j])
  }

  ghost predicate RolesOK(s: State) {
    && (forall b :: 0 <= b < |s.batches| ==> RoleOK(s, b))
    && (forall i :: 0 <= s.received <= i < |s.chain| ==> LinkOK(s, i))
    && PoolOK(s)
  }

  ghost predicate EntryOK(total: nat, chain: seq<Enq>, posted: nat, i: nat, cancelled: bool, closing: bool)
    requires i < |chain|
  {
    && (chain[i].pc.ClosingNext? || chain[i].pc.Finished? <==> i < posted)
    && (chain[i].pc.ClosingNext? ==> i == posted - 1)
    && (chain[i].pc.WaitReady? || chain[i].pc.Posting? ==>
          i == posted && (i > 0 ==> chain[i - 1].pc.Finished?))
    && (chain[i].pc.Abandoned? ==> cancelled)
    && (chain[i].item.Marker? ==> i == |chain| - 1 && chain[i].base == total && chain[i].n == 0 && closing)
    && (chain[i].item.Data? ==> 0 < chain[i].n)
    && chain[i].base == End(chain, i)
  }

  ghost predicate EntriesOK(total: nat, chain: seq<Enq>, posted: nat, cancelled: bool, closing: bool) {
    forall i :: 0 <= i < |chain| ==> EntryOK(total, chain, posted, i, cancelled, closing)
  }

  /** Enqueue goroutines post strictly in order; the queue holds what is posted and not received. */
  ghost predicate ChainOK(total: nat, chain: seq<Enq>, posted: nat, received: nat, queue: seq<Payload>,
                          cancelled: bool, closing: bool)
  {
    && received <= posted <= |chain|
    && EntriesOK(total, chain, posted, cancelled, closing)
    && |queue| == posted - received <= QUEUE_CAP
    && (forall i :: 0 <= i < |queue| ==> queue[i] == chain[received + i].item)
  }

  ghost predicate ChainInv(c: Config, s: State) {
    ChainOK(|Flat(c.pages)|, s.chain, s.posted, s.received, s.queue, s.cancelled, s.pc.Closing? || s.pc.Stopped?)
  }

  ghost predicate ConsumerOK(c: Config, s: State) {
    && s.received <= |s.chain| && s.seen <= |Flat(c.pages)|
    && (match s.consumer
        case Waiting => s.seen == End(s.chain, s.received) && (s.received > 0 ==> s.chain[s.received - 1].item.Data?)
        case Returning => s.seen == End(s.chain, s.received) && (s.received > 0 ==> s.chain[s.received - 1].item.Data?)
        case ReadingRows(b, idx) =>
          0 < s.received && s.chain[s.received - 1].item == Data(b) && b < |s.batches|
          && s.batches[b].log.role.Reading? && idx <= s.batches[b].n
          && s.batches[b].n == s.chain[s.received - 1].n
          && s.batches[b].log.base == s.chain[s.received - 1].base
          && s.seen == s.batches[b].log.base + idx
        case Ended(err) =>
          s.cancelled || (s.received == |s.chain| && s.chain != [] && s.chain[|s.chain| - 1].item.Marker?
                          && s.seen == |Flat(c.pages)| && err == c.failed))
  }

  /** Conservation of slot tokens and of batch arenas. */
  predicate CountsOK(s: State) {
    && s.received <= |s.chain|
    && s.free + One(s.held) + InFlight(s) + One(s.consumer.ReadingRows? || s.consumer.Returning?) == IN_FLIGHT
    && |s.batches| == |s.pool| + One(HasBatch(s)) + InFlight(s) + One(s.consumer.ReadingRows?)
    && |s.batches| <= IN_FLIGHT
  }

  /** What every step of every goroutine keeps. */
  ghost predicate Shape(c: Config, s: State) {
    && PlaceOK(c, s) && RangesOK(c, s) && RolesOK(s) && ChainInv(c, s) && ConsumerOK(c, s) && CountsOK(s)
  }

  // --- second layer: which tasks are outstanding ---

  /** Every task counted and not finished is in the ledger, once. */
  ghost predicate TaskOK(c: Config, s: State, t: Task, loc: Loc) {
    && t.b < |s.batches| && var bt := s.batches[t.b];
    && t.slot in bt.log.open && bt.log.open[t.slot] == Open(t.n, loc)
    && t.slot + t.n <= bt.log.fill
    && t.page < |c.pages| && t.firstRow + t.n <= |c.pages[t.page]|
    && bt.log.base + t.slot == |Flat(c.pages[..t.page])| + t.firstRow
  }

  ghost predicate TasksOK(c: Config, s: State) {
    && (forall i :: 0 <= i < |s.tasks| ==> TaskOK(c, s, s.tasks[i], Queued))
    && (forall i, j :: 0 <= i < j < |s.tasks| ==>
          s.tasks[i].b != s.tasks[j].b || s.tasks[i].slot != s.tasks[j].slot)
  }

  ghost predicate WorkerOK(c: Config, s: State, w: nat)
    requires w < |s.workers|
  {
    match s.workers[w]
    case Busy(t, k) => TaskOK(c, s, t, AtWorker(w))
    case TestRemaining(b, g) =>
      b < |s.batches| && g <= s.batches[b].log.gen
      && (g == s.batches[b].log.gen ==> s.batches[b].doneSending)
    case Signal(b, g) =>
      b < |s.batches| && g <= s.batches[b].log.gen
      && (g == s.batches[b].log.gen ==> s.batches[b].doneSending && s.batches[b].log.open == map[])
    case _ => true
  }

  ghost predicate WorkersOK(c: Config, s: State) {
    forall w :: 0 <= w < |s.workers| ==> WorkerOK(c, s, w)
  }

  /** Every unfinished task is where the ledger says it is. */
  ghost predicate Held(s: State, b: nat, st: nat, loc: Loc) {
    match loc
    case AtProducer => s.pc.Sending? && s.pc.t.b == b && s.pc.t.slot == st
    case Queued => exists i :: 0 <= i < |s.tasks| && s.tasks[i].b == b && s.tasks[i].slot == st
    case AtWorker(w) =>
      w < |s.workers| && s.workers[w].Busy? && s.workers[w].t.b == b && s.workers[w].t.slot == st
  }

  ghost predicate LedgerOK(s: State) {
    forall b, st :: 0 <= b < |s.batches| && st in s.batches[b].log.open ==>
      Held(s, b, st, s.batches[b].log.open[st].loc)
  }

  predicate Testing(v: Worker, b: nat, g: nat) {
    v == TestDone(b) || v == TestRemaining(b, g) || v == Signal(b, g)
  }

  /** The ready signal of a finished batch has been given or is about to be given. */
  ghost predicate SignalOK(s: State) {
    forall b :: 0 <= b < |s.batches| ==>
      var bt := s.batches[b];
      bt.doneSending && bt.log.open == map[] && !bt.ready ==>
        (s.pc.Sealing? && s.cur == b)
        || exists w :: 0 <= w < |s.workers| && Testing(s.workers[w], b, bt.log.gen)
  }

  predicate Counted(bt: Batch) { bt.remaining == |bt.log.open| }

  predicate CountedAll(s: State) { forall b :: 0 <= b < |s.batches| ==> Counted(s.batches[b]) }

  /** The task the producer is offering is counted. */
  predicate OfferOK(s: State) {
    s.pc.Sending? ==> var t := s.pc.t;
      t.b < |s.batches| && t.slot in s.batches[t.b].log.open && s.batches[t.b].log.open[t.slot] == Open(t.n, AtProducer)
  }

  /** What every tidy step keeps on top of `Shape`. */
  ghost predicate Outstanding(c: Config, s: State) {
    CountedAll(s) && TasksOK(c, s) && WorkersOK(c, s) && LedgerOK(s) && SignalOK(s) && OfferOK(s)
  }

  // --- third layer: what slots and ready signals mean ---

  ghost predicate BatchOK(c: Config, bt: Batch) {
    && (bt.ready ==> bt.doneSending && bt.log.open == map[])
    && (bt.log.role.Reading? || bt.log.role.Pooled? ==> bt.ready)
    && (forall j: nat :: j < bt.log.fill ==> Right(c, bt, j) || Covered(bt.log.open, j))
  }

  /** A worker has written what it says it has. */
  ghost predicate DoneSoFar(c: Config, s: State, w: nat)
    requires w < |s.workers|
  {
    s.workers[w].Busy? ==> var t := s.workers[w].t;
      t.b < |s.batches| && Written(c, s.batches[t.b].slots, s.batches[t.b].log.base, t.slot, s.workers[w].k)
  }

  ghost predicate SlotsOK(c: Config, s: State) {
    && (forall b :: 0 <= b < |s.batches| ==> BatchOK(c, s.batches[b]))
    && (forall w :: 0 <= w < |s.workers| ==> DoneSoFar(c, s, w))
  }

  /** Whatever is posted, or about to be, is finished. */
  ghost predicate PostedOK(s: State) {
    forall i :: 0 <= s.received <= i < |s.chain| && s.chain[i].item.Data?
                && (s.chain[i].pc.Posting? || s.chain[i].pc.ClosingNext? || s.chain[i].pc.Finished?) ==>
      s.chain[i].item.b < |s.batches| && s.batches[s.chain[i].item.b].ready
  }

  ghost predicate OutputOK(c: Config, s: State) {
    && s.seen <= |Flat(c.pages)|
    && s.out == Cut(Rows(Flat(c.pages)[..s.seen]), c.limit)
    && s.rowCount == |s.out|
  }

  /** What every careful step keeps on top of the other two layers. */
  ghost predicate Meaning(c: Config, s: State) { SlotsOK(c, s) && PostedOK(s) && OutputOK(c, s) }

  ghost predicate Inv(c: Config, s: State) { Shape(c, s) && Outstanding(c, s) && Meaning(c, s) }

  lemma InitKeeps(c: Config)
    requires c.Ok()
    ensures Inv(c, Init(c))
  {
    assert Flat(c.pages)[..0] == [];
  }
}
