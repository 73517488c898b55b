/**
 The parallel scan pipeline of internal/gomdb/fastscan.go as a step system.

 One producer goroutine cuts pages into tasks and fills batches, a pool of workers
 writes row slots, one enqueue goroutine per finished batch hands it over in order,
 and one consumer reads rows and returns batches and slot tokens.

 Each row write, channel operation and atomic operation of a worker is a step of its own, and so are
 those of the enqueue goroutines and the consumer. Three stretches of the producer and `markReady`
 are one step each: taking a batch from the pool and resetting its count and flags (its new channel
 is a step of its own), sealing a batch (its length and `doneSending`), and the load of `remaining`
 with the signal and the start of the enqueue goroutine.
 `Enabled` says when a goroutine can take its next step, `Do` says what it does.
 Fields grouped under "history" record the past for the proofs; no guard and no
 update of another field reads them.
 */
module ScanModel {
  import opened Wrappers

  const BATCH_ROWS: nat := 256
  const TASK_ROWS: nat := 128
  const IN_FLIGHT: nat := 8
  const POOL_BATCHES: nat := 8
  const QUEUE_CAP: nat := 4

  /** What `processTask` leaves in one row slot: a row to hand out, or nothing. */
  datatype Cell = Invalid | Valid(values: seq<string>)

  type Page = seq<Cell>

  /** `pages` is what the page walk yields; `failed` says it ends with an error. */
  datatype Config = Config(pages: seq<Page>, workers: nat, limit: int, failed: bool) {
    predicate Ok() { 2 <= workers <= 8 }
  }

  datatype Task = Task(b: nat, slot: nat, page: nat, firstRow: nat, n: nat)

  // --- history of a batch: who owns it, what it covers, which tasks are unfinished ---
  datatype Role = Pooled | Current | Chained(i: nat) | Reading
  datatype Loc = AtProducer | Queued | AtWorker(w: nat)
  datatype Open = Open(n: nat, loc: Loc)
  datatype Ledger = Ledger(gen: nat, base: nat, fill: nat, role: Role, open: map<nat, Open>)

  datatype Batch = Batch(n: nat, remaining: int, doneSending: bool, ready: bool,
                         slots: seq<Cell>, log: Ledger)

  datatype Producer =
    | NeedSlot                // acquireSlot
    | NeedBatch               // acquireBatch
    | Renewing                // a recycled batch's flags are reset, its channel is still the old one
    | Filling                 // the page and row loops
    | Sending(t: Task)        // remaining incremented, blocked in sendTask's select
    | Sealing(last: bool)     // doneSending stored, about to load remaining
    | Marking                 // enqueueEOF / enqueueErr
    | Closing                 // deferred close(tasks)
    | Stopped

  datatype Worker =
    | Idle
    | Busy(t: Task, k: nat)
    | TestDone(b: nat)                  // decremented, about to load doneSending
    | TestRemaining(b: nat, g: nat)     // saw doneSending in generation g
    | Signal(b: nat, g: nat)            // saw remaining == 0, about to markReady
    | Exited

  datatype Payload = Data(b: nat) | Marker

  datatype EnqPc = WaitPrev | WaitReady | Posting | ClosingNext | Finished | Abandoned
  datatype Enq = Enq(item: Payload, pc: EnqPc, base: nat, n: nat)

  datatype Consumer = Waiting | ReadingRows(b: nat, idx: nat) | Returning | Ended(err: bool)

  datatype State = State(
    batches: seq<Batch>, pool: seq<nat>, free: nat,
    tasks: seq<Task>, tasksClosed: bool, queue: seq<Payload>,
    workers: seq<Worker>, chain: seq<Enq>,
    pc: Producer, cur: nat, slot: nat, np: nat, row: nat,
    consumer: Consumer, rowCount: nat, out: seq<seq<string>>,
    cancelled: bool,
    // history
    held: bool, posted: nat, received: nat, seen: nat)

  datatype Step =
    | Produce(arena: seq<Cell>)   // arena: what a newly allocated batch happens to hold
    | ProduceCancel
    | Work(w: nat)
    | Enqueue(i: nat)
    | EnqueueCancel(i: nat)
    | Consume
    | ConsumeCancel
    | Cancel

  /** All rows in page order, then row order. */
  function Flat(pages: seq<Page>): seq<Cell> {
    if pages == [] then [] else Flat(pages[..|pages| - 1]) + pages[|pages| - 1]
  }

  /** The rows a consumer should see from a run of cells. */
  function Rows(cells: seq<Cell>): seq<seq<string>> {
    if cells == [] then []
    else
      var last := cells[|cells| - 1];
      Rows(cells[..|cells| - 1]) + if last.Valid? then [last.values] else []
  }

  /** The LIMIT cut: a negative limit means none. */
  function Cut(rows: seq<seq<string>>, limit: int): seq<seq<string>> {
    if 0 <= limit < |rows| then rows[..limit] else rows
  }

  function Init(c: Config): State {
    State([], [], IN_FLIGHT, [], false, [], seq(c.workers, _ => Idle), [],
          NeedSlot, 0, 0, 0, 0, Waiting, 0, [], false, false, 0, 0, 0)
  }

  /** Rows on the page the producer is on; none before the first page. */
  function PageLen(c: Config, s: State): nat
    requires s.np <= |c.pages|
  {
    if s.np == 0 then 0 else |c.pages[s.np - 1]|
  }

  /** Rows dispatched so far, as a position in `Flat`. */
  function Sent(c: Config, s: State): nat
    requires s.np <= |c.pages|
  {
    if s.np == 0 then 0 else |Flat(c.pages[..s.np - 1])| + s.row
  }

  // --- guards ---

  predicate CanProduce(c: Config, s: State) {
    match s.pc
    case NeedSlot => s.free > 0
    case NeedBatch => s.np <= |c.pages| && (s.pool != [] ==> s.pool[0] < |s.batches|)
    case Renewing => true
    case Filling => s.np <= |c.pages| && s.cur < |s.batches|
    case Sending(t) => |s.tasks| < 4 * c.workers && t.b < |s.batches|
    case Sealing(_) => s.cur < |s.batches|
    case Marking => s.np <= |c.pages|
    case Closing => true
    case Stopped => false
  }

  predicate CanProduceCancel(s: State) {
    s.cancelled && (s.pc.NeedSlot? || (s.pc.Sending? && s.pc.t.b < |s.batches|))
  }

  predicate CanWork(c: Config, s: State, w: nat) {
    w < |s.workers| &&
    match s.workers[w]
    case Idle =>
      if s.tasks != [] then s.tasks[0].b < |s.batches| else s.tasksClosed
    case Busy(t, k) =>
      t.b < |s.batches| &&
      (k < t.n ==> t.page < |c.pages| && t.firstRow + k < |c.pages[t.page]|
                   && t.slot + k < |s.batches[t.b].slots|)
    case TestDone(b) => b < |s.batches|
    case TestRemaining(b, _) => b < |s.batches|
    case Signal(b, _) => b < |s.batches|
    case Exited => false
  }

  predicate CanEnqueue(s: State, i: nat) {
    i < |s.chain| &&
    match s.chain[i].pc
    case WaitPrev => i == 0 || s.chain[i - 1].pc.Finished?
    case WaitReady =>
      s.chain[i].item.Marker?
      || (s.chain[i].item.b < |s.batches| && s.batches[s.chain[i].item.b].ready)
    case Posting => |s.queue| < QUEUE_CAP
    case ClosingNext => true
    case Finished => false
    case Abandoned => false
  }

  predicate CanEnqueueCancel(s: State, i: nat) {
    s.cancelled && i < |s.chain| &&
    ((s.chain[i].pc.WaitPrev? && i > 0) || s.chain[i].pc.WaitReady? || s.chain[i].pc.Posting?)
  }

  predicate CanConsume(s: State) {
    match s.consumer
    case Waiting => s.queue != [] && (s.queue[0].Data? ==> s.queue[0].b < |s.batches|)
    case ReadingRows(b, idx) => b < |s.batches| && (idx < s.batches[b].n ==> idx < |s.batches[b].slots|)
    case Returning => s.free < IN_FLIGHT
    case Ended(_) => false
  }

  predicate Enabled(c: Config, s: State, step: Step) {
    match step
    case Produce(arena) => |arena| == BATCH_ROWS && CanProduce(c, s)
    case ProduceCancel => CanProduceCancel(s)
    case Work(w) => CanWork(c, s, w)
    case Enqueue(i) => CanEnqueue(s, i)
    case EnqueueCancel(i) => CanEnqueueCancel(s, i)
    case Consume => CanConsume(s)
    case ConsumeCancel => s.cancelled && s.consumer.Waiting?
    case Cancel => !s.cancelled
  }

  // --- effects ---

  function Recycled(b: Batch, base: nat): Batch {
    b.(remaining := 0, doneSending := false, ready := false,
       log := Ledger(b.log.gen + 1, base, 0, Current, map[]))
  }

  function Fresh(arena: seq<Cell>, base: nat): Batch {
    Batch(0, 0, false, false, arena, Ledger(0, base, 0, Current, map[]))
  }

  /** `acquireBatch` takes a batch from the pool and resets its count and flags, not its slots. */
  function Reuse(s: State, base: nat): State
    requires s.pool != [] && s.pool[0] < |s.batches|
  {
    var b := s.pool[0];
    s.(batches := s.batches[b := Recycled(s.batches[b], base)], pool := s.pool[1..], cur := b, slot := 0, pc := Renewing)
  }

  function Allocate(s: State, arena: seq<Cell>, base: nat): State {
    s.(batches := s.batches + [Fresh(arena, base)], cur := |s.batches|, slot := 0, pc := Filling)
  }

  function Seal(s: State, last: bool): State
    requires s.cur < |s.batches|
  {
    s.(batches := s.batches[s.cur := s.batches[s.cur].(n := s.slot, doneSending := true)],
       pc := Sealing(last))
  }

  /** The first half of `sendTask`: count a task before offering it. */
  function OpenTask(s: State, n: nat): State
    requires s.cur < |s.batches|
  {
    var bt := s.batches[s.cur];
    s.(batches := s.batches[s.cur := bt.(remaining := bt.remaining + 1,
                                         log := bt.log.(open := bt.log.open[s.slot := Open(n, AtProducer)]))],
       pc := Sending(Task(s.cur, s.slot, if s.np == 0 then 0 else s.np - 1, s.row, n)))
  }

  function Fill(c: Config, s: State): State
    requires s.np <= |c.pages| && s.cur < |s.batches|
  {
    if s.row < PageLen(c, s) then
      var n := Min(PageLen(c, s) - s.row, TASK_ROWS);
      if s.slot + n > BATCH_ROWS then Seal(s, false) else OpenTask(s, n)
    else if s.np < |c.pages| then s.(np := s.np + 1, row := 0)
    else if s.slot > 0 then Seal(s, true)
    else s.(pc := Marking)
  }

  function MoveOpen(bt: Batch, t: Task, loc: Loc): Batch {
    bt.(log := bt.log.(open := bt.log.open[t.slot := Open(t.n, loc)]))
  }

  function Send(s: State, t: Task): State
    requires t.b < |s.batches|
  {
    var bt := MoveOpen(s.batches[t.b], t, Queued);
    s.(batches := s.batches[t.b := bt.(log := bt.log.(fill := t.slot + t.n))],
       tasks := s.tasks + [t], slot := s.slot + t.n, row := s.row + t.n, pc := Filling)
  }

  /** The end of `enqueueWhen`: test remaining, start the enqueue goroutine. */
  function HandOver(s: State, last: bool): State
    requires s.cur < |s.batches|
  {
    var bt := s.batches[s.cur];
    s.(batches := s.batches[s.cur := bt.(ready := bt.ready || bt.remaining == 0,
                                         log := bt.log.(role := Chained(|s.chain|)))],
       chain := s.chain + [Enq(Data(s.cur), WaitPrev, bt.log.base, bt.n)],
       held := false, pc := if last then Marking else NeedSlot)
  }

  /** `enqueueEOF` or `enqueueErr`. */
  function AddMarker(s: State, base: nat): State {
    s.(chain := s.chain + [Enq(Marker, WaitPrev, base, 0)], pc := Closing)
  }

  function DoProduce(c: Config, s: State, arena: seq<Cell>): State
    requires CanProduce(c, s)
  {
    match s.pc
    case NeedSlot => s.(free := s.free - 1, held := true, pc := NeedBatch)
    case NeedBatch => if s.pool != [] then Reuse(s, Sent(c, s)) else Allocate(s, arena, Sent(c, s))
    case Renewing => s.(pc := Filling)
    case Filling => Fill(c, s)
    case Sending(t) => Send(s, t)
    case Sealing(last) => HandOver(s, last)
    case Marking => AddMarker(s, Sent(c, s))
    case Closing => s.(tasksClosed := true, pc := Stopped)
  }

  function DropTask(bt: Batch, slot: nat): Batch {
    bt.(remaining := bt.remaining - 1, log := bt.log.(open := bt.log.open - {slot}))
  }

  function DoProduceCancel(s: State): State
    requires CanProduceCancel(s)
  {
    if s.pc.Sending? then
      s.(batches := s.batches[s.pc.t.b := DropTask(s.batches[s.pc.t.b], s.pc.t.slot)], pc := Closing)
    else s.(pc := Closing)
  }

  function SetWorker(s: State, w: nat, v: Worker): State
    requires w < |s.workers|
  {
    s.(workers := s.workers[w := v])
  }

  /** A worker receives the next task. */
  function TakeTask(s: State, w: nat): State
    requires w < |s.workers| && s.tasks != [] && s.tasks[0].b < |s.batches|
  {
    var t := s.tasks[0];
    s.(workers := s.workers[w := Busy(t, 0)], tasks := s.tasks[1..],
       batches := s.batches[t.b := MoveOpen(s.batches[t.b], t, AtWorker(w))])
  }

  /** One turn of the loop of `processTask`. */
  function WriteRow(c: Config, s: State, w: nat, t: Task, k: nat): State
    requires w < |s.workers| && t.b < |s.batches| && t.slot + k < |s.batches[t.b].slots|
    requires t.page < |c.pages| && t.firstRow + k < |c.pages[t.page]|
  {
    var bt := s.batches[t.b];
    s.(workers := s.workers[w := Busy(t, k + 1)],
       batches := s.batches[t.b := bt.(slots := bt.slots[t.slot + k := c.pages[t.page][t.firstRow + k]])])
  }

  /** `remaining.Add(-1)` after a task is done. */
  function FinishTask(s: State, w: nat, t: Task): State
    requires w < |s.workers| && t.b < |s.batches|
  {
    s.(workers := s.workers[w := TestDone(t.b)],
       batches := s.batches[t.b := DropTask(s.batches[t.b], t.slot)])
  }

  function LoadDone(s: State, w: nat, b: nat): State
    requires w < |s.workers| && b < |s.batches|
  {
    var bt := s.batches[b];
    SetWorker(s, w, if bt.doneSending then TestRemaining(b, bt.log.gen) else Idle)
  }

  function LoadRemaining(s: State, w: nat, b: nat, g: nat): State
    requires w < |s.workers| && b < |s.batches|
  {
    SetWorker(s, w, if s.batches[b].remaining == 0 then Signal(b, g) else Idle)
  }

  function MarkReady(s: State, w: nat, b: nat): State
    requires w < |s.workers| && b < |s.batches|
  {
    s.(workers := s.workers[w := Idle], batches := s.batches[b := s.batches[b].(ready := true)])
  }

  function DoWork(c: Config, s: State, w: nat): State
    requires CanWork(c, s, w)
  {
    match s.workers[w]
    case Idle => if s.tasks != [] then TakeTask(s, w) else SetWorker(s, w, Exited)
    case Busy(t, k) => if k < t.n then WriteRow(c, s, w, t, k) else FinishTask(s, w, t)
    case TestDone(b) => LoadDone(s, w, b)
    case TestRemaining(b, g) => LoadRemaining(s, w, b, g)
    case Signal(b, _) => MarkReady(s, w, b)
  }

  function SetEnq(s: State, i: nat, pc: EnqPc): State
    requires i < |s.chain|
  {
    s.(chain := s.chain[i := s.chain[i].(pc := pc)])
  }

  function DoEnqueue(s: State, i: nat): State
    requires CanEnqueue(s, i)
  {
    match s.chain[i].pc
    case WaitPrev => SetEnq(s, i, WaitReady)
    case WaitReady => SetEnq(s, i, Posting)
    case Posting => SetEnq(s, i, ClosingNext).(queue := s.queue + [s.chain[i].item], posted := s.posted + 1)
    case ClosingNext => SetEnq(s, i, Finished)
  }

  function SetRole(bt: Batch, role: Role): Batch { bt.(log := bt.log.(role := role)) }

  /** `nextRow` receives a batch of rows. */
  function ReceiveData(s: State, b: nat): State
    requires s.queue != [] && b < |s.batches|
  {
    s.(queue := s.queue[1..], received := s.received + 1, consumer := ReadingRows(b, 0),
       batches := s.batches[b := SetRole(s.batches[b], Reading)])
  }

  /** `nextRow` receives the batch that ends the scan. */
  function ReceiveMarker(c: Config, s: State): State
    requires s.queue != []
  {
    s.(queue := s.queue[1..], received := s.received + 1, consumer := Ended(c.failed))
  }

  /** One turn of the loop of `nextRow` over the current batch. */
  function TakeRow(c: Config, s: State, b: nat, idx: nat, cell: Cell): State {
    var s' := s.(seen := s.seen + 1, consumer := ReadingRows(b, idx + 1));
    if cell.Invalid? || (c.limit >= 0 && s.rowCount + 1 > c.limit) then s'
    else s'.(rowCount := s.rowCount + 1, out := s.out + [cell.values])
  }

  function ReleaseBatch(s: State, b: nat): State
    requires b < |s.batches|
  {
    s.(batches := s.batches[b := SetRole(s.batches[b], Pooled)], consumer := Returning,
       pool := if |s.pool| < POOL_BATCHES then s.pool + [b] else s.pool)
  }

  function DoConsume(c: Config, s: State): State
    requires CanConsume(s)
  {
    match s.consumer
    case Waiting => if s.queue[0].Marker? then ReceiveMarker(c, s) else ReceiveData(s, s.queue[0].b)
    case ReadingRows(b, idx) =>
      if idx < s.batches[b].n then TakeRow(c, s, b, idx, s.batches[b].slots[idx]) else ReleaseBatch(s, b)
    case Returning => s.(free := s.free + 1, consumer := Waiting)
  }

  function Do(c: Config, s: State, step: Step): State
    requires Enabled(c, s, step)
  {
    match step
    case Produce(arena) => DoProduce(c, s, arena)
    case ProduceCancel => DoProduceCancel(s)
    case Work(w) => DoWork(c, s, w)
    case Enqueue(i) => DoEnqueue(s, i)
    case EnqueueCancel(i) => SetEnq(s, i, Abandoned)
    case Consume => DoConsume(c, s)
    case ConsumeCancel => s.(consumer := Ended(false))
    case Cancel => s.(cancelled := true)
  }

  /**
   A worker about to run `markReady` on a batch that is not finished. It holds the two
   loads of line 505, but the batch has been handed out again since.
   */
  predicate Premature(s: State, step: Step) {
    step.Work? && step.w < |s.workers| && s.workers[step.w].Signal? &&
    var b := s.workers[step.w].b;
    b < |s.batches| && !(s.batches[b].doneSending && s.batches[b].remaining == 0)
  }

  /** The producer takes a batch from the pool whose tasks are not all done, and sets its count to 0. */
  predicate Untidy(s: State, step: Step) {
    step.Produce? && s.pc.NeedBatch? && s.pool != [] && s.pool[0] < |s.batches| && s.batches[s.pool[0]].remaining != 0
  }

  /**
   A worker about to close the old channel of a recycled batch once more: `readyClosed` is reset
   already, and the new channel not yet made. In Go this ends the process.
   */
  predicate DoubleClose(s: State, step: Step) {
    step.Work? && step.w < |s.workers| && s.workers[step.w].Signal? && s.pc.Renewing? &&
    var b := s.workers[step.w].b;
    b == s.cur < |s.batches| && !s.batches[b].ready
  }

  /** `ss` is a run: it starts in `Init` and every next state is one step further. */
  ghost predicate Run(c: Config, ss: seq<State>, steps: seq<Step>) {
    |ss| == |steps| + 1 && ss[0] == Init(c) &&
    forall k :: 0 <= k < |steps| ==> Enabled(c, ss[k], steps[k]) && ss[k + 1] == Do(c, ss[k], steps[k])
  }

  /** No step of the run signals a batch whose tasks are not all sent and done. */
  ghost predicate Careful(ss: seq<State>, steps: seq<Step>)
    requires |ss| == |steps| + 1
  {
    forall k :: 0 <= k < |steps| ==> !Premature(ss[k], steps[k])
  }

  /** No step of the run recycles a batch whose tasks are not all done. */
  ghost predicate Tidy(ss: seq<State>, steps: seq<Step>)
    requires |ss| == |steps| + 1
  {
    forall k :: 0 <= k < |steps| ==> !Untidy(ss[k], steps[k])
  }
}
