/** What every step of the audit protocol keeps. */
module AuditInvariants {
  import opened Common
  import opened AuditProtocol

  // ------------------------------------------------------------- occurrences

  /** How often `r` occurs in `xs`. */
  ghost function Count(xs: seq<Record>, r: Record): nat {
    if xs == [] then 0 else Count(Front(xs), r) + if Last(xs) == r then 1 else 0
  }

  lemma {:induction false} CountAppend(a: seq<Record>, b: seq<Record>, r: Record)
    ensures Count(a + b, r) == Count(a, r) + Count(b, r)
  {
    if b == [] {
      assert a + b == a;
    } else {
      assert Front(a + b) == a + Front(b);
      CountAppend(a, Front(b), r);
    }
  }

  lemma CountSplit(xs: seq<Record>, k: nat, r: Record)
    requires k <= |xs|
    ensures Count(xs, r) == Count(xs[..k], r) + Count(xs[k..], r)
  {
    assert xs == xs[..k] + xs[k..];
    CountAppend(xs[..k], xs[k..], r);
  }

  lemma {:induction false} CountIsMembership(xs: seq<Record>, r: Record)
    ensures Count(xs, r) > 0 <==> r in xs
  {
    if xs != [] {
      CountIsMembership(Front(xs), r);
      assert xs == Front(xs) + [Last(xs)];
    }
  }

  /** How often `r` occurs among the records the suspended frames hold. */
  ghost function HeldCount(frames: seq<Frame>, r: Record): nat {
    if frames == [] then 0 else HeldCount(Front(frames), r) + Count(Last(frames).Held(), r)
  }

  lemma {:induction false} HeldAfterSet(frames: seq<Frame>, i: nat, f: Frame, r: Record)
    requires i < |frames|
    ensures HeldCount(frames[i := f], r) + Count(frames[i].Held(), r)
         == HeldCount(frames, r) + Count(f.Held(), r)
  {
    var changed := frames[i := f];
    if i == |frames| - 1 {
      assert Front(changed) == Front(frames);
    } else {
      HeldAfterSet(Front(frames), i, f, r);
      assert Front(changed) == Front(frames)[i := f];
    }
  }

  lemma HeldAfterEnter(frames: seq<Frame>, f: Frame, r: Record)
    ensures HeldCount(frames + [f], r) == HeldCount(frames, r) + Count(f.Held(), r)
  {
    assert Front(frames + [f]) == frames;
  }

  /** How many records the suspended frames hold. */
  ghost function HeldSize(frames: seq<Frame>): nat {
    if frames == [] then 0 else HeldSize(Front(frames)) + |Last(frames).Held()|
  }

  lemma {:induction false} HeldSizeAfterSet(frames: seq<Frame>, i: nat, f: Frame)
    requires i < |frames|
    ensures HeldSize(frames[i := f]) + |frames[i].Held()| == HeldSize(frames) + |f.Held()|
  {
    var changed := frames[i := f];
    if i == |frames| - 1 {
      assert Front(changed) == Front(frames);
    } else {
      HeldSizeAfterSet(Front(frames), i, f);
      assert Front(changed) == Front(frames)[i := f];
    }
  }

  /** The number of places `r` is in: queue, frames, committed, failed, dropped. */
  ghost function Occurrences(s: State, r: Record): nat {
    Count(s.queue, r) + HeldCount(s.frames, r)
    + Count(s.log.committed, r) + Count(s.log.failed, r) + Count(s.log.dropped, r)
  }

  // -------------------------------------------------------------- invariants

  /** Accepted records are in exactly one place, others in none. */
  ghost predicate Conserved(s: State) {
    && (forall r: Record :: Occurrences(s, r) == if r < s.log.accepted then 1 else 0)
    && (forall r: Record :: Count(s.log.settled, r) == Count(s.log.committed, r) + Count(s.log.failed, r))
  }

  ghost predicate Counted(c: Config, s: State) {
    && s.stats.queued == s.log.accepted
    && s.stats.written == |s.log.committed|
    && s.stats.failed == |s.log.failed|
    && s.stats.dropped == |s.log.dropped|
    && (!c.enabled ==> s.log.accepted == 0)
  }

  /** Every accepted record is queued, held, written, failed or dropped. */
  ghost predicate Balanced(s: State) {
    s.log.accepted == |s.queue| + HeldSize(s.frames) + |s.log.committed| + |s.log.failed| + |s.log.dropped|
  }

  ghost predicate Bounded(c: Config, s: State) {
    c.capacity > 0 ==> |s.queue| <= c.capacity
  }

  ghost predicate Ascending(xs: seq<Record>) {
    forall j, k | 0 <= j < k < |xs| :: xs[j] < xs[k]
  }

  ghost predicate QueueOrdered(s: State) {
    Ascending(s.queue) && forall j | 0 <= j < |s.queue| :: s.queue[j] < s.log.accepted
  }

  /** How many frames are inside _write under the lock. */
  ghost function WritersInside(frames: seq<Frame>): nat {
    if frames == [] then 0 else WritersInside(Front(frames)) + if Last(frames).Writing? then 1 else 0
  }

  /** The lock is held exactly when one writer is writing, and never by two. */
  ghost predicate LockConsistent(s: State) {
    WritersInside(s.frames) == if s.locked then 1 else 0
  }

  ghost predicate WriterAt(frames: seq<Frame>, i: nat) {
    i < |frames| && frames[i].IsWriter()
  }

  ghost predicate AwaitsWriter(frames: seq<Frame>, i: nat) {
    i < |frames| && frames[i].AwaitingWriter? ==> WriterAt(frames, frames[i].writer)
  }

  ghost predicate TasksKnown(s: State) {
    && (s.task.Some? ==> WriterAt(s.frames, s.task.value))
    && (forall i: nat :: AwaitsWriter(s.frames, i))
  }

  ghost predicate NoneBefore(queue: seq<Record>, mark: nat) {
    forall j | 0 <= j < |queue| :: mark <= queue[j]
  }

  /** No queued record is older than a call that has stopped looking at the queue. */
  ghost predicate MarkKept(s: State, f: Frame) {
    && (f.Marked() ==> f.mark <= s.log.accepted)
    && (f.Returned? || (f.Draining? && f.last) ==> NoneBefore(s.queue, f.mark))
  }

  ghost predicate MarksKept(s: State) {
    forall i | 0 <= i < |s.frames| :: MarkKept(s, s.frames[i])
  }

  ghost predicate Inv(c: Config, s: State) {
    && Conserved(s)
    && Counted(c, s)
    && Balanced(s)
    && Bounded(c, s)
    && QueueOrdered(s)
    && LockConsistent(s)
    && TasksKnown(s)
    && MarksKept(s)
  }

  // ------------------------------------------------ what each kind of move keeps

  lemma {:induction false} WritersAfterSet(frames: seq<Frame>, i: nat, f: Frame)
    requires i < |frames|
    ensures WritersInside(frames[i := f]) + (if frames[i].Writing? then 1 else 0)
         == WritersInside(frames) + (if f.Writing? then 1 else 0)
  {
    var changed := frames[i := f];
    if i == |frames| - 1 {
      assert Front(changed) == Front(frames);
    } else {
      WritersAfterSet(Front(frames), i, f);
      assert Front(changed) == Front(frames)[i := f];
    }
  }

  /** The lock changes hands exactly when frame `i` enters or leaves its write. */
  ghost predicate LockFollows(s: State, i: nat, f: Frame, locked: bool)
    requires i < |s.frames|
  {
    (if locked then 1 else 0) + (if s.frames[i].Writing? then 1 else 0)
      == (if s.locked then 1 else 0) + if f.Writing? then 1 else 0
  }

  /** Frame `f` may replace frame `i` as far as tasks and stops are concerned. */
  ghost predicate Continues(s: State, i: nat, f: Frame)
    requires i < |s.frames|
  {
    (s.frames[i].IsWriter() ==> f.IsWriter()) && !f.AwaitingWriter?
  }

  lemma SetKeepsTasks(s: State, i: nat, f: Frame)
    requires i < |s.frames| && TasksKnown(s) && Continues(s, i, f)
    ensures TasksKnown(s.(frames := s.frames[i := f]))
  {
    var t := s.(frames := s.frames[i := f]);
    forall j: nat ensures AwaitsWriter(t.frames, j) {
      assert AwaitsWriter(s.frames, j);
    }
  }

  lemma MoveConserves(s: State, i: nat, k: nat, f: Frame, r: Record)
    requires i < |s.frames| && k <= |s.queue|
    requires f.Held() == s.frames[i].Held() + s.queue[..k]
    ensures Occurrences(Move(s, i, k, f), r) == Occurrences(s, r)
  {
    HeldAfterSet(s.frames, i, f, r);
    CountSplit(s.queue, k, r);
    CountAppend(s.frames[i].Held(), s.queue[..k], r);
  }

  lemma MoveKeepsMarks(s: State, i: nat, k: nat, f: Frame)
    requires i < |s.frames| && k <= |s.queue| && MarksKept(s)
    requires MarkKept(Move(s, i, k, f), f)
    ensures MarksKept(Move(s, i, k, f))
  {
    var t := Move(s, i, k, f);
    forall j | 0 <= j < |t.frames| ensures MarkKept(t, t.frames[j]) {
      if j != i {
        assert MarkKept(s, s.frames[j]);
      }
    }
  }

  lemma MoveKeepsInv(c: Config, s: State, i: nat, k: nat, f: Frame, locked: bool)
    requires i < |s.frames| && k <= |s.queue| && Inv(c, s)
    requires f.Held() == s.frames[i].Held() + s.queue[..k]
    requires Continues(s, i, f) && LockFollows(s, i, f, locked)
    requires MarkKept(Move(s, i, k, f), f)
    ensures Inv(c, Move(s, i, k, f).(locked := locked))
  {
    var t := Move(s, i, k, f);
    forall r: Record ensures Occurrences(t.(locked := locked), r) == Occurrences(s, r) {
      MoveConserves(s, i, k, f, r);
    }
    SetKeepsTasks(s, i, f);
    WritersAfterSet(s.frames, i, f);
    HeldSizeAfterSet(s.frames, i, f);
    MoveKeepsMarks(s, i, k, f);
    assert MarksKept(t.(locked := locked)) by {
      forall j | 0 <= j < |t.frames| ensures MarkKept(t.(locked := locked), t.frames[j]) {
        assert MarkKept(t, t.frames[j]);
      }
    }
  }

  /** The writer handle, stop event and lock queue may change as long as the handle is a writer. */
  lemma FlagsKeepInv(c: Config, s: State, task: Option<nat>, stopping: bool, waiters: seq<nat>)
    requires Inv(c, s) && (task.Some? ==> WriterAt(s.frames, task.value))
    ensures Inv(c, s.(task := task, stopping := stopping, waiters := waiters))
  {
    var t := s.(task := task, stopping := stopping, waiters := waiters);
    assert forall r: Record :: Occurrences(t, r) == Occurrences(s, r);
    assert forall f :: MarkKept(s, f) ==> MarkKept(t, f);
  }

  lemma InvTask(c: Config, s: State)
    requires Inv(c, s)
    ensures s.task.Some? ==> WriterAt(s.frames, s.task.value)
  {
  }

  lemma InvMark(c: Config, s: State, i: nat)
    requires Inv(c, s) && i < |s.frames|
    ensures MarkKept(s, s.frames[i])
  {
  }

  lemma EnterKeepsInv(c: Config, s: State, f: Frame)
    requires Inv(c, s) && f.Held() == [] && MarkKept(s, f)
    requires !f.Writing? && (f.AwaitingWriter? ==> WriterAt(s.frames, f.writer))
    ensures Inv(c, Enter(s, f))
  {
    var t := Enter(s, f);
    assert Front(t.frames) == s.frames;
    forall r: Record ensures Occurrences(t, r) == Occurrences(s, r) {
      HeldAfterEnter(s.frames, f, r);
    }
    forall j: nat ensures AwaitsWriter(t.frames, j) {
      assert AwaitsWriter(s.frames, j);
    }
    forall j | 0 <= j < |t.frames| ensures MarkKept(t, t.frames[j]) {
      assert j < |s.frames| ==> MarkKept(s, s.frames[j]);
    }
  }

  lemma FinishConserves(c: Config, s: State, i: nat, ok: bool, f: Frame, r: Record)
    requires i < |s.frames| && f.Held() == []
    requires Conserved(s) && Counted(c, s)
    ensures var t := Finish(c, s, i, ok, f);
      && Occurrences(t, r) == Occurrences(s, r)
      && Count(t.log.settled, r) == Count(t.log.committed, r) + Count(t.log.failed, r)
  {
    HeldAfterSet(s.frames, i, f, r);
    var b := s.frames[i].Held();
    CountAppend(s.log.committed, b, r);
    CountAppend(s.log.failed, b, r);
    CountAppend(s.log.settled, b, r);
    assert !c.enabled ==> Occurrences(s, r) == 0;
  }

  lemma FinishKeepsMarks(c: Config, s: State, i: nat, ok: bool, f: Frame, locked: bool)
    requires i < |s.frames| && MarksKept(s) && MarkKept(s, f)
    ensures MarksKept(Finish(c, s, i, ok, f).(locked := locked))
  {
    var t := Finish(c, s, i, ok, f).(locked := locked);
    forall j | 0 <= j < |t.frames| ensures MarkKept(t, t.frames[j]) {
      assert MarkKept(s, s.frames[j]);
    }
  }

  lemma FinishKeepsConserved(c: Config, s: State, i: nat, ok: bool, f: Frame, locked: bool)
    requires i < |s.frames| && f.Held() == [] && Conserved(s) && Counted(c, s)
    ensures Conserved(Finish(c, s, i, ok, f).(locked := locked))
  {
    hide Finish, Counted;
    var t := Finish(c, s, i, ok, f);
    forall r: Record
      ensures Occurrences(t, r) == Occurrences(s, r)
      ensures Count(t.log.settled, r) == Count(t.log.committed, r) + Count(t.log.failed, r)
    {
      FinishConserves(c, s, i, ok, f, r);
    }
    assert t.log.accepted == s.log.accepted by {
      FinishAccepts(c, s, i, ok, f);
    }
    assert forall r: Record :: Occurrences(t.(locked := locked), r) == Occurrences(t, r);
  }

  lemma FinishAccepts(c: Config, s: State, i: nat, ok: bool, f: Frame)
    requires i < |s.frames|
    ensures Finish(c, s, i, ok, f).log.accepted == s.log.accepted
  {
  }

  lemma FinishKeepsCounts(c: Config, s: State, i: nat, ok: bool, f: Frame, locked: bool)
    requires i < |s.frames| && f.Held() == []
    requires Counted(c, s) && Balanced(s) && Bounded(c, s) && QueueOrdered(s)
    ensures var t := Finish(c, s, i, ok, f).(locked := locked);
      Counted(c, t) && Balanced(t) && Bounded(c, t) && QueueOrdered(t)
  {
    HeldSizeAfterSet(s.frames, i, f);
    hide HeldSize;
  }

  lemma FinishKeepsLock(c: Config, s: State, i: nat, ok: bool, f: Frame, locked: bool)
    requires i < |s.frames| && LockConsistent(s) && TasksKnown(s)
    requires Continues(s, i, f) && LockFollows(s, i, f, locked)
    ensures var t := Finish(c, s, i, ok, f).(locked := locked); LockConsistent(t) && TasksKnown(t)
  {
    SetKeepsTasks(s, i, f);
    WritersAfterSet(s.frames, i, f);
    hide WritersInside;
  }

  /** A write that ends moves its batch from the frame to one of the two outcomes. */
  lemma FinishKeepsInv(c: Config, s: State, i: nat, ok: bool, f: Frame, locked: bool)
    requires i < |s.frames| && Inv(c, s) && f.Held() == [] && MarkKept(s, f)
    requires Continues(s, i, f) && LockFollows(s, i, f, locked)
    ensures Inv(c, Finish(c, s, i, ok, f).(locked := locked))
  {
    hide Finish, Conserved, Counted, Balanced, Bounded, QueueOrdered, LockConsistent, TasksKnown, MarksKept;
    FinishKeepsConserved(c, s, i, ok, f, locked);
    FinishKeepsMarks(c, s, i, ok, f, locked);
    FinishKeepsCounts(c, s, i, ok, f, locked);
    FinishKeepsLock(c, s, i, ok, f, locked);
  }

  // ------------------------------------------------------- what each step keeps

  lemma RecordConserves(c: Config, s: State, r: Record)
    requires c.enabled
    ensures Occurrences(DoRecord(c, s), r) == Occurrences(s, r) + if s.log.accepted == r then 1 else 0
  {
    var q := s.queue;
    var a := s.log.accepted;
    CountAppend(q, [a], r);
    assert Front([a]) == [];
    if QueueFull(c, q) {
      CountSplit(q, 1, r);
      CountAppend(q[1..], [a], r);
      assert q[..1] == [q[0]];
      assert Front([q[0]]) == [];
      CountAppend(s.log.dropped, [q[0]], r);
    }
  }

  lemma RecordKeepsQueue(c: Config, s: State)
    requires c.enabled && Bounded(c, s) && QueueOrdered(s) && MarksKept(s)
    ensures var t := DoRecord(c, s); Bounded(c, t) && QueueOrdered(t) && MarksKept(t)
  {
    var t := DoRecord(c, s);
    forall j | 0 <= j < |t.frames| ensures MarkKept(t, t.frames[j]) {
      assert MarkKept(s, s.frames[j]);
    }
  }

  lemma RecordKeepsInv(c: Config, s: State)
    requires Inv(c, s)
    ensures Inv(c, DoRecord(c, s))
  {
    hide Occurrences, Bounded, QueueOrdered, MarksKept, HeldSize;
    if c.enabled {
      var t := DoRecord(c, s);
      forall r: Record ensures Occurrences(t, r) == if r < t.log.accepted then 1 else 0 {
        RecordConserves(c, s, r);
      }
      RecordKeepsQueue(c, s);
    }
  }

  lemma CollectKeepsInv(c: Config, s: State, i: nat)
    requires Can(s, Collect(i)) && Inv(c, s)
    ensures Inv(c, DoCollect(c, s, i))
  {
    hide Inv;
    var got := s.frames[i].Held();
    var k := Room(c, |got|, |s.queue|);
    var t := DoCollect(c, s, i);
    MoveKeepsInv(c, s, i, k, t.frames[i], t.locked);
    var u := Move(s, i, k, t.frames[i]).(locked := t.locked);
    InvTask(c, u);
    FlagsKeepInv(c, u, s.task, s.stopping, t.waiters);
    assert t == u.(waiters := t.waiters);
  }

  lemma DrainKeepsInv(c: Config, s: State, i: nat, mark: nat)
    requires i < |s.frames| && Inv(c, s) && s.frames[i].Held() == [] && !s.frames[i].IsWriter()
    requires mark <= s.log.accepted
    ensures Inv(c, DoDrain(c, s, i, mark))
  {
    hide Inv;
    var t := DoDrain(c, s, i, mark);
    var k := if s.queue == [] then 0 else Min(c.DrainSize(), |s.queue|);
    MoveKeepsInv(c, s, i, k, t.frames[i], s.locked);
    assert t == Move(s, i, k, t.frames[i]).(locked := s.locked);
  }

  lemma EndDrainWriteKeepsInv(c: Config, s: State, i: nat, ok: bool)
    requires Can(s, EndDrainWrite(i, ok)) && Inv(c, s)
    ensures Inv(c, DoEndDrainWrite(c, s, i, ok))
  {
    hide Inv;
    var f := s.frames[i];
    InvMark(c, s, i);
    var next := if f.last then Returned(f.mark) else Called(f.mark);
    FinishKeepsInv(c, s, i, ok, next, s.locked);
    var t := Finish(c, s, i, ok, next);
    assert t == t.(locked := s.locked);
    if !f.last {
      DrainKeepsInv(c, t, i, f.mark);
    }
  }

  lemma AcquireKeepsInv(c: Config, s: State, i: nat)
    requires Can(s, Acquire(i)) && Inv(c, s)
    ensures Inv(c, DoAcquire(c, s, i))
  {
    hide Inv;
    var t := s.(waiters := s.waiters[1..]);
    InvTask(c, s);
    InvMark(c, s, i);
    FlagsKeepInv(c, s, s.task, s.stopping, t.waiters);
    match s.frames[i]
    case AwaitingLock(b) =>
      MoveKeepsInv(c, t, i, 0, Writing(b), true);
    case FlushAwaitingLock(m) => DrainKeepsInv(c, t, i, m);
  }

  lemma CallFlushKeepsInv(c: Config, s: State)
    requires Inv(c, s)
    ensures Inv(c, DoCallFlush(c, s))
  {
    var mark := s.log.accepted;
    if s.LockFree() {
      EnterKeepsInv(c, s, Called(mark));
      DrainKeepsInv(c, Enter(s, Called(mark)), |s.frames|, mark);
    } else {
      var t := Enter(s, FlushAwaitingLock(mark));
      EnterKeepsInv(c, s, FlushAwaitingLock(mark));
      FlagsKeepInv(c, t, t.task, t.stopping, s.waiters + [|s.frames|]);
    }
  }

  lemma CallStopKeepsInv(c: Config, s: State)
    requires Inv(c, s)
    ensures Inv(c, DoCallStop(c, s))
  {
    var mark := s.log.accepted;
    match s.task
    case None =>
      EnterKeepsInv(c, s, Called(mark));
      DrainKeepsInv(c, Enter(s, Called(mark)), |s.frames|, mark);
    case Some(w) =>
      var t := Enter(s, AwaitingWriter(w, mark));
      EnterKeepsInv(c, s, AwaitingWriter(w, mark));
      FlagsKeepInv(c, t, t.task, true, t.waiters);
  }

  lemma ResumeStopKeepsInv(c: Config, s: State, i: nat)
    requires Can(s, ResumeStop(i)) && Inv(c, s)
    ensures Inv(c, DoResumeStop(c, s, i))
  {
    assert MarkKept(s, s.frames[i]);
    FlagsKeepInv(c, s, None, false, s.waiters);
    DrainKeepsInv(c, s.(task := None, stopping := false), i, s.frames[i].mark);
  }

  lemma StartKeepsInv(c: Config, s: State)
    requires Inv(c, s)
    ensures Inv(c, DoStart(c, s))
  {
    if c.enabled && s.task.None? {
      var t := Enter(s, Collecting(None));
      EnterKeepsInv(c, s, Collecting(None));
      FlagsKeepInv(c, t, Some(|s.frames|), t.stopping, t.waiters);
    }
  }

  lemma StepKeepsInv(c: Config, s: State, step: Step)
    requires Can(s, step) && Inv(c, s)
    ensures Inv(c, Do(c, s, step))
  {
    match step
    case Record => RecordKeepsInv(c, s);
    case Getter(i) => MoveKeepsInv(c, s, i, 1, Collecting(Some(s.queue[0])), s.locked);
    case Collect(i) => CollectKeepsInv(c, s, i);
    case Acquire(i) => AcquireKeepsInv(c, s, i);
    case EndWrite(i, ok) =>
      WritersAfterSet(s.frames, i, NextPass(s));
      FinishKeepsInv(c, s, i, ok, NextPass(s), false);
    case EndDrainWrite(i, ok) => EndDrainWriteKeepsInv(c, s, i, ok);
    case Start => StartKeepsInv(c, s);
    case CallFlush => CallFlushKeepsInv(c, s);
    case CallStop => CallStopKeepsInv(c, s);
    case ResumeStop(i) => ResumeStopKeepsInv(c, s, i);
  }

  lemma {:induction false} RunKeepsInv(c: Config, s: State, steps: seq<Step>)
    requires Inv(c, s) && Run(c, s, steps)
    ensures Inv(c, After(c, s, steps))
    decreases |steps|
  {
    if steps != [] {
      RunKeepsInv(c, s, Front(steps));
      StepKeepsInv(c, After(c, s, Front(steps)), Last(steps));
    }
  }
}
