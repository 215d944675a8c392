/**
  The audit writer as a protocol.

  `AuditService` runs on one event loop, so each stretch of code between two
  awaits is one atomic step.  A coroutine that is suspended (the writer, a
  `flush`, a `stop`) is a frame; a frame remembers where it is suspended and the
  records its local `batch` holds.  Any number of writers, flushes and stops may
  be suspended at once, and steps of different frames interleave freely.

  A record is named by its acceptance number: the k-th accepted record is k.
 */
module AuditProtocol {
  import opened Common

  type Record = nat

  datatype Config = Config(enabled: bool, capacity: int, batchSize: int) {
    /** The most records one stretch of `_drain` gathers before it writes. */
    function DrainSize(): int {
      Max(1, batchSize)
    }
  }

  datatype Stats = Stats(queued: nat, written: nat, dropped: nat, failed: nat)

  datatype Frame =
    | Collecting(slot: Option<Record>)       // writer in _collect; slot is a finished getter's record
    | AwaitingLock(batch: seq<Record>)       // writer waiting for _write_lock
    | Writing(batch: seq<Record>)            // writer inside _write, holding the lock
    | Exited                                 // _run has returned
    | FlushAwaitingLock(mark: nat)           // flush waiting for _write_lock
    | AwaitingWriter(writer: nat, mark: nat) // stop waiting for the writer task
    | Called(mark: nat)                      // flush or stop running, not suspended
    | Draining(batch: seq<Record>, last: bool, mark: nat) // inside _drain's _write
    | Returned(mark: nat)                    // flush or stop has returned
  {
    function Held(): seq<Record> {
      match this
      case Collecting(Some(r)) => [r]
      case AwaitingLock(b) => b
      case Writing(b) => b
      case Draining(b, _, _) => b
      case _ => []
    }

    predicate IsWriter() {
      Collecting? || AwaitingLock? || Writing? || Exited?
    }

    predicate Live() {
      !Exited? && !Returned?
    }

    /** May take records out of the queue or hold some. */
    predicate Consumer() {
      Collecting? || AwaitingLock? || Writing? || Draining?
    }

    predicate WaitsForLock() {
      AwaitingLock? || FlushAwaitingLock?
    }

    /** A flush or a stop whose mark bounds the records accepted before its call. */
    predicate Marked() {
      FlushAwaitingLock? || AwaitingWriter? || Called? || Draining? || Returned?
    }
  }

  /** What has happened so far; no step depends on it. */
  datatype History = History(
    accepted: nat,
    committed: seq<Record>,
    failed: seq<Record>,
    dropped: seq<Record>,
    settled: seq<Record>)  // committed and failed, in the order their writes ended

  datatype State = State(
    queue: seq<Record>,
    frames: seq<Frame>,
    task: Option<nat>,
    stopping: bool,
    locked: bool,
    waiters: seq<nat>,
    stats: Stats,
    log: History)
  {
    /** asyncio.Lock.acquire returns at once only if nobody holds it or waits for it. */
    predicate LockFree() {
      !locked && waiters == []
    }

    predicate Settled(r: Record) {
      r in log.committed || r in log.failed || r in log.dropped
    }
  }

  datatype Step =
    | Record
    | Getter(i: nat)
    | Collect(i: nat)
    | Acquire(i: nat)
    | EndWrite(i: nat, ok: bool)
    | EndDrainWrite(i: nat, ok: bool)
    | Start
    | CallFlush
    | CallStop
    | ResumeStop(i: nat)

  const INIT := State([], [], None, false, false, [], Stats(0, 0, 0, 0), History(0, [], [], [], []))

  // ---------------------------------------------------------------- the steps

  predicate QueueFull(c: Config, queue: seq<Record>) {
    c.capacity > 0 && |queue| >= c.capacity
  }

  function DoRecord(c: Config, s: State): State {
    if !c.enabled then s else
    var r := s.log.accepted;
    var grown := s.log.(accepted := r + 1);
    if !QueueFull(c, s.queue) then
      s.(queue := s.queue + [r], stats := s.stats.(queued := s.stats.queued + 1), log := grown)
    else
      s.(queue := s.queue[1..] + [r],
         stats := s.stats.(queued := s.stats.queued + 1, dropped := s.stats.dropped + 1),
         log := grown.(dropped := s.log.dropped + [s.queue[0]]))
  }

  /** Frame `i` becomes `f`, the first `k` queued records having gone to it. */
  function Move(s: State, i: nat, k: nat, f: Frame): State
    requires i < |s.frames| && k <= |s.queue|
  {
    s.(queue := s.queue[k..], frames := s.frames[i := f])
  }

  /** The getter task runs: asyncio.Queue.get takes the oldest record. */
  function DoGetter(s: State, i: nat): State
    requires i < |s.frames| && s.queue != []
  {
    Move(s, i, 1, Collecting(Some(s.queue[0])))
  }

  /** How many queued records _collect adds to a batch that already has `have`. */
  function Room(c: Config, have: nat, queued: nat): (k: nat)
    ensures k <= queued
  {
    if c.batchSize <= have then 0 else Min(c.batchSize - have, queued)
  }

  /** What the writer does after a pass of its loop. */
  function NextPass(s: State): Frame {
    if s.stopping then Exited else Collecting(None)
  }

  /** asyncio.wait has returned: cancel or read the getter, top the batch up. */
  function DoCollect(c: Config, s: State, i: nat): State
    requires i < |s.frames| && s.frames[i].Collecting?
  {
    var got := s.frames[i].Held();
    var k := Room(c, |got|, |s.queue|);
    var batch := got + s.queue[..k];
    if batch == [] then Move(s, i, k, NextPass(s))
    else if s.LockFree() then Move(s, i, k, Writing(batch)).(locked := true)
    else Move(s, i, k, AwaitingLock(batch)).(waiters := s.waiters + [i])
  }

  /** The bookkeeping of _write for frame `i`'s batch once its commit succeeded or raised. */
  function Finish(c: Config, s: State, i: nat, ok: bool, next: Frame): State
    requires i < |s.frames|
  {
    var t := s.(frames := s.frames[i := next]);
    var batch := s.frames[i].Held();
    if !c.enabled then t
    else if ok then
      t.(stats := s.stats.(written := s.stats.written + |batch|),
         log := s.log.(committed := s.log.committed + batch, settled := s.log.settled + batch))
    else
      t.(stats := s.stats.(failed := s.stats.failed + |batch|),
         log := s.log.(failed := s.log.failed + batch, settled := s.log.settled + batch))
  }

  function DoEndWrite(c: Config, s: State, i: nat, ok: bool): State
    requires i < |s.frames| && s.frames[i].Writing?
  {
    Finish(c, s, i, ok, NextPass(s)).(locked := false)
  }

  /** One pass of _drain's loop: gather up to a batch and suspend in _write, or return. */
  function DoDrain(c: Config, s: State, i: nat, mark: nat): State
    requires i < |s.frames|
  {
    var k := Min(c.DrainSize(), |s.queue|);
    if s.queue == [] then Move(s, i, 0, Returned(mark))
    else Move(s, i, k, Draining(s.queue[..k], k < c.batchSize, mark))
  }

  function DoEndDrainWrite(c: Config, s: State, i: nat, ok: bool): State
    requires i < |s.frames| && s.frames[i].Draining?
  {
    var mark := s.frames[i].mark;
    if s.frames[i].last then Finish(c, s, i, ok, Returned(mark))
    else DoDrain(c, Finish(c, s, i, ok, Called(mark)), i, mark)
  }

  /** The head waiter gets the released lock; a flush gives it back at once. */
  function DoAcquire(c: Config, s: State, i: nat): State
    requires i < |s.frames| && s.frames[i].WaitsForLock() && s.waiters != []
  {
    var t := s.(waiters := s.waiters[1..]);
    match s.frames[i]
    case AwaitingLock(batch) => Move(t, i, 0, Writing(batch)).(locked := true)
    case FlushAwaitingLock(mark) => DoDrain(c, t, i, mark)
  }

  /** A new coroutine starts in frame `f`. */
  function Enter(s: State, f: Frame): State {
    s.(frames := s.frames + [f])
  }

  function DoStart(c: Config, s: State): State {
    if !c.enabled || s.task.Some? then s
    else Enter(s, Collecting(None)).(task := Some(|s.frames|))
  }

  function DoCallFlush(c: Config, s: State): State {
    var mark := s.log.accepted;
    if s.LockFree() then DoDrain(c, Enter(s, Called(mark)), |s.frames|, mark)
    else Enter(s, FlushAwaitingLock(mark)).(waiters := s.waiters + [|s.frames|])
  }

  function DoCallStop(c: Config, s: State): State {
    var mark := s.log.accepted;
    match s.task
    case None => DoDrain(c, Enter(s, Called(mark)), |s.frames|, mark)
    case Some(w) => Enter(s, AwaitingWriter(w, mark)).(stopping := true)
  }

  function DoResumeStop(c: Config, s: State, i: nat): State
    requires i < |s.frames| && s.frames[i].AwaitingWriter?
  {
    DoDrain(c, s.(task := None, stopping := false), i, s.frames[i].mark)
  }

  /** When the event loop may run a step. */
  predicate Can(s: State, step: Step) {
    match step
    case Getter(i) => i < |s.frames| && s.frames[i] == Collecting(None) && s.queue != []
    case Collect(i) => i < |s.frames| && s.frames[i].Collecting?
    case Acquire(i) =>
      i < |s.frames| && s.frames[i].WaitsForLock() && !s.locked && s.waiters != [] && s.waiters[0] == i
    case EndWrite(i, _) => i < |s.frames| && s.frames[i].Writing?
    case EndDrainWrite(i, _) => i < |s.frames| && s.frames[i].Draining?
    case ResumeStop(i) =>
      && i < |s.frames| && s.frames[i].AwaitingWriter?
      && s.frames[i].writer < |s.frames| && s.frames[s.frames[i].writer].Exited?
    case _ => true
  }

  function Do(c: Config, s: State, step: Step): State
    requires Can(s, step)
  {
    match step
    case Record => DoRecord(c, s)
    case Getter(i) => DoGetter(s, i)
    case Collect(i) => DoCollect(c, s, i)
    case Acquire(i) => DoAcquire(c, s, i)
    case EndWrite(i, ok) => DoEndWrite(c, s, i, ok)
    case EndDrainWrite(i, ok) => DoEndDrainWrite(c, s, i, ok)
    case Start => DoStart(c, s)
    case CallFlush => DoCallFlush(c, s)
    case CallStop => DoCallStop(c, s)
    case ResumeStop(i) => DoResumeStop(c, s, i)
  }

  // ------------------------------------------------------------------- runs

  /** `steps` can be taken one after the other from `s`. */
  predicate Run(c: Config, s: State, steps: seq<Step>)
    decreases |steps|, 0
  {
    steps == [] ||
    (Run(c, s, Front(steps)) && Can(After(c, s, Front(steps)), Last(steps)))
  }

  function After(c: Config, s: State, steps: seq<Step>): State
    requires Run(c, s, steps)
    decreases |steps|, 1
  {
    if steps == [] then s else Do(c, After(c, s, Front(steps)), Last(steps))
  }

  ghost predicate Reachable(c: Config, s: State) {
    exists steps :: Run(c, INIT, steps) && After(c, INIT, steps) == s
  }
}
