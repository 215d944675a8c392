/** What a flush, or a stop that finds no writer, guarantees, and exactly where it falls short. */
module AuditFlush {
  import opened Common
  import opened AuditProtocol
  import opened AuditInvariants
  import opened AuditShapes
  import opened AuditTheorems
  import opened AuditReach

  ghost predicate SettledUpTo(s: State, n: nat) {
    forall r: Record | r < n :: s.Settled(r)
  }

  /** A flush or stop called in `s` has returned after `steps`, during which nothing else was called. */
  ghost predicate Returns(c: Config, s: State, call: Step, steps: seq<Step>) {
    && Undisturbed(steps)
    && Run(c, s, [call] + steps)
    && |s.frames| < |After(c, s, [call] + steps).frames|
    && After(c, s, [call] + steps).frames[|s.frames|].Returned?
  }

  /** However the steps interleave, the call returns with everything accepted before it settled. */
  ghost predicate Barrier(c: Config, s: State, call: Step) {
    forall steps | Returns(c, s, call, steps) :: SettledUpTo(After(c, s, [call] + steps), s.log.accepted)
  }

  /** A flush that finds the lock free, or a stop that finds no writer in `_task`. */
  predicate DrainsAtOnce(s: State, call: Step) {
    (call.CallFlush? && s.LockFree()) || (call.CallStop? && s.task == None)
  }

  /** Nobody holds a record, and one drain takes the whole queue or nobody is there to take any. */
  ghost predicate NothingReaches(c: Config, s: State) {
    && (forall j | 0 <= j < |s.frames| :: s.frames[j].Held() == [])
    && (|s.queue| <= c.DrainSize() || DeadBelow(s.frames, |s.frames|))
  }

  // ------------------------------------------------------- the queue grows younger

  ghost predicate HeldFrom(f: Frame, mark: nat) {
    forall r | r in f.Held() :: r >= mark
  }

  lemma DrainFromQueue(c: Config, s: State, i: nat, mark: nat, bound: nat)
    requires i < |s.frames| && NoneBefore(s.queue, bound)
    ensures NoneBefore(DoDrain(c, s, i, mark).queue, bound)
  {
  }

  lemma RecordFromQueue(c: Config, s: State, mark: nat)
    requires mark <= s.log.accepted && NoneBefore(s.queue, mark)
    ensures NoneBefore(DoRecord(c, s).queue, mark)
  {
  }

  lemma TakingFromQueue(c: Config, s: State, i: nat, mark: nat)
    requires NoneBefore(s.queue, mark)
    ensures Can(s, Getter(i)) ==> NoneBefore(DoGetter(s, i).queue, mark)
    ensures Can(s, Collect(i)) ==> NoneBefore(DoCollect(c, s, i).queue, mark)
  {
  }

  lemma ActingFromQueue(c: Config, s: State, i: nat, ok: bool, mark: nat)
    requires NoneBefore(s.queue, mark)
    ensures Can(s, Acquire(i)) ==> NoneBefore(DoAcquire(c, s, i).queue, mark)
    ensures Can(s, EndWrite(i, ok)) ==> NoneBefore(DoEndWrite(c, s, i, ok).queue, mark)
    ensures Can(s, EndDrainWrite(i, ok)) ==> NoneBefore(DoEndDrainWrite(c, s, i, ok).queue, mark)
    ensures Can(s, ResumeStop(i)) ==> NoneBefore(DoResumeStop(c, s, i).queue, mark)
  {
    hide NoneBefore, DoDrain, Finish;
    if i < |s.frames| {
      var m := if s.frames[i].Marked() then s.frames[i].mark else 0;
      FinishShape(c, s, i, ok, NextPass(s));
      FinishShape(c, s, i, ok, Called(m));
      FinishShape(c, s, i, ok, Returned(m));
      DrainFromQueue(c, s.(waiters := if s.waiters == [] then [] else s.waiters[1..]), i, m, mark);
      DrainFromQueue(c, Finish(c, s, i, ok, Called(m)), i, m, mark);
      DrainFromQueue(c, s.(task := None, stopping := false), i, m, mark);
    }
  }

  lemma CallingFromQueue(c: Config, s: State, step: Step, mark: nat)
    requires NoneBefore(s.queue, mark) && (step.CallFlush? || step.CallStop? || step.Start?)
    ensures NoneBefore(Do(c, s, step).queue, mark)
  {
    hide NoneBefore, DoDrain;
    DrainFromQueue(c, Enter(s, Called(s.log.accepted)), |s.frames|, s.log.accepted, mark);
  }

  /** No step puts an older record into the queue. */
  lemma QueueFromQueue(c: Config, s: State, step: Step, mark: nat)
    requires Can(s, step) && mark <= s.log.accepted && NoneBefore(s.queue, mark)
    ensures NoneBefore(Do(c, s, step).queue, mark)
  {
    hide NoneBefore, Can, DoRecord, DoGetter, DoCollect, DoAcquire, DoEndWrite, DoEndDrainWrite, DoResumeStop;
    match step
    case Record => RecordFromQueue(c, s, mark);
    case Getter(i) => TakingFromQueue(c, s, i, mark);
    case Collect(i) => TakingFromQueue(c, s, i, mark);
    case Acquire(i) => ActingFromQueue(c, s, i, true, mark);
    case EndWrite(i, ok) => ActingFromQueue(c, s, i, ok, mark);
    case EndDrainWrite(i, ok) => ActingFromQueue(c, s, i, ok, mark);
    case ResumeStop(i) => ActingFromQueue(c, s, i, true, mark);
    case _ => CallingFromQueue(c, s, step, mark);
  }

  /** What a drain or a collect takes into frame `k` comes from the queue. */
  lemma TakenFromQueue(got: seq<Record>, queue: seq<Record>, n: nat, f: Frame, mark: nat)
    requires n <= |queue| && NoneBefore(queue, mark) && f.Held() == got + queue[..n]
    requires forall j | 0 <= j < |got| :: got[j] >= mark
    ensures HeldFrom(f, mark)
  {
    assert forall j | 0 <= j < |f.Held()| :: f.Held()[j] >= mark;
  }

  lemma DrainHeldFrom(c: Config, s: State, i: nat, mark: nat, bound: nat)
    requires i < |s.frames| && NoneBefore(s.queue, bound)
    ensures HeldFrom(DoDrain(c, s, i, mark).frames[i], bound)
  {
    if s.queue != [] {
      TakenFromQueue([], s.queue, Min(c.DrainSize(), |s.queue|), DoDrain(c, s, i, mark).frames[i], bound);
    }
  }

  lemma CollectHeldFrom(c: Config, s: State, i: nat, bound: nat)
    requires Can(s, Collect(i)) && NoneBefore(s.queue, bound) && HeldFrom(s.frames[i], bound)
    ensures i < |DoCollect(c, s, i).frames| && HeldFrom(DoCollect(c, s, i).frames[i], bound)
  {
    var got := s.frames[i].Held();
    assert forall j | 0 <= j < |got| :: got[j] in got;
    TakenFromQueue(got, s.queue, Room(c, |got|, |s.queue|), DoCollect(c, s, i).frames[i], bound);
  }

  lemma FlushAcquireHeldFrom(c: Config, s: State, i: nat, bound: nat)
    requires Can(s, Acquire(i)) && s.frames[i].FlushAwaitingLock? && NoneBefore(s.queue, bound)
    ensures i < |DoAcquire(c, s, i).frames| && HeldFrom(DoAcquire(c, s, i).frames[i], bound)
  {
    hide DoDrain, HeldFrom, NoneBefore;
    var t := s.(waiters := s.waiters[1..]);
    DrainShape(c, t, i, s.frames[i].mark);
    DrainHeldFrom(c, t, i, s.frames[i].mark, bound);
  }

  lemma AcquireHeldFrom(c: Config, s: State, i: nat, bound: nat)
    requires Can(s, Acquire(i)) && NoneBefore(s.queue, bound) && HeldFrom(s.frames[i], bound)
    ensures i < |DoAcquire(c, s, i).frames| && HeldFrom(DoAcquire(c, s, i).frames[i], bound)
  {
    hide DoDrain;
    if s.frames[i].FlushAwaitingLock? {
      FlushAcquireHeldFrom(c, s, i, bound);
    } else {
      assert DoAcquire(c, s, i).frames[i].Held() == s.frames[i].Held();
    }
  }

  lemma EndDrainHeldFrom(c: Config, s: State, i: nat, ok: bool, bound: nat)
    requires Can(s, EndDrainWrite(i, ok)) && NoneBefore(s.queue, bound)
    ensures i < |DoEndDrainWrite(c, s, i, ok).frames| && HeldFrom(DoEndDrainWrite(c, s, i, ok).frames[i], bound)
  {
    hide DoDrain, Finish;
    var m := s.frames[i].mark;
    var t := Finish(c, s, i, ok, Called(m));
    FinishShape(c, s, i, ok, Called(m));
    FinishShape(c, s, i, ok, Returned(m));
    DrainShape(c, t, i, m);
    DrainHeldFrom(c, t, i, m, bound);
  }

  lemma ResumeHeldFrom(c: Config, s: State, i: nat, bound: nat)
    requires Can(s, ResumeStop(i)) && NoneBefore(s.queue, bound)
    ensures i < |DoResumeStop(c, s, i).frames| && HeldFrom(DoResumeStop(c, s, i).frames[i], bound)
  {
    hide DoDrain;
    var t := s.(task := None, stopping := false);
    DrainShape(c, t, i, s.frames[i].mark);
    DrainHeldFrom(c, t, i, s.frames[i].mark, bound);
  }

  lemma EndWriteHeldFrom(c: Config, s: State, i: nat, ok: bool, bound: nat)
    requires Can(s, EndWrite(i, ok))
    ensures i < |DoEndWrite(c, s, i, ok).frames| && HeldFrom(DoEndWrite(c, s, i, ok).frames[i], bound)
  {
    hide Finish;
    FinishShape(c, s, i, ok, NextPass(s));
  }

  lemma GetterHeldFrom(s: State, i: nat, bound: nat)
    requires Can(s, Getter(i)) && NoneBefore(s.queue, bound)
    ensures i < |DoGetter(s, i).frames| && HeldFrom(DoGetter(s, i).frames[i], bound)
  {
  }

  /** Whoever moves next to a queue without older records holds none afterwards. */
  lemma HeldFromQueue(c: Config, s: State, step: Step, k: nat, mark: nat)
    requires Can(s, step) && Actor(step) == Some(k) && k < |s.frames|
    requires NoneBefore(s.queue, mark) && HeldFrom(s.frames[k], mark)
    ensures k < |Do(c, s, step).frames| && HeldFrom(Do(c, s, step).frames[k], mark)
  {
    hide HeldFrom, NoneBefore, DoGetter, DoCollect, DoAcquire, DoEndWrite, DoEndDrainWrite, DoResumeStop;
    match step
    case Getter(i) => GetterHeldFrom(s, i, mark);
    case Collect(i) => CollectHeldFrom(c, s, i, mark);
    case Acquire(i) => AcquireHeldFrom(c, s, i, mark);
    case EndWrite(i, ok) => EndWriteHeldFrom(c, s, i, ok, mark);
    case EndDrainWrite(i, ok) => EndDrainHeldFrom(c, s, i, ok, mark);
    case ResumeStop(i) => ResumeHeldFrom(c, s, i, mark);
  }

  lemma AcceptedGrows(c: Config, s: State, step: Step)
    requires Can(s, step)
    ensures s.log.accepted <= Do(c, s, step).log.accepted
  {
    hide Do, Can;
    if Actor(step).Some? {
      ActorShape(c, s, step);
    } else if step.Record? {
      RecordOnly(c, s);
      RecordShape(c, s);
    } else {
      CallShape(c, s, step);
    }
  }

  lemma UndisturbedFront(steps: seq<Step>)
    requires steps != [] && Undisturbed(steps)
    ensures Undisturbed(Front(steps)) && Undisturbed([Last(steps)])
  {
    assert Last(steps) in steps;
  }

  // ------------------------------------------------- calls that cannot be slipped past

  /** What frame `i` is to settle is settled or its own: nobody else can reach it, whatever is called. */
  ghost predicate Owns(t: State, i: nat, mark: nat) {
    && i < |t.frames| && (t.frames[i].Draining? || t.frames[i].Returned?) && t.frames[i].mark == mark
    && mark <= t.log.accepted && NoneBefore(t.queue, mark)
    && forall j | 0 <= j < |t.frames| && j != i :: HeldFrom(t.frames[j], mark)
  }

  lemma CallHeldFrom(c: Config, s: State, step: Step, mark: nat)
    requires step.CallFlush? || step.CallStop? || step.Start?
    requires NoneBefore(s.queue, mark)
    ensures var t := Do(c, s, step);
      forall j | |s.frames| <= j < |t.frames| :: HeldFrom(t.frames[j], mark)
  {
    DrainHeldFrom(c, Enter(s, Called(s.log.accepted)), |s.frames|, s.log.accepted, mark);
  }

  lemma OwnsStep(c: Config, s: State, i: nat, mark: nat, step: Step)
    requires Owns(s, i, mark) && Can(s, step)
    ensures Owns(Do(c, s, step), i, mark)
  {
    hide Do, Can, NoneBefore, HeldFrom, Affects;
    var t := Do(c, s, step);
    QueueFromQueue(c, s, step, mark);
    AcceptedGrows(c, s, step);
    if step.CallFlush? || step.CallStop? || step.Start? {
      CallHeldFrom(c, s, step, mark);
      CallShape(c, s, step);
      assert forall j | 0 <= j < |s.frames| :: t.frames[j] == t.frames[..|s.frames|][j];
    } else if step.Record? {
      RecordOnly(c, s);
    } else {
      ActorShape(c, s, step);
      var k := Actor(step).value;
      if k != i {
        HeldFromQueue(c, s, step, k, mark);
      }
    }
  }

  lemma OwnerSettles(c: Config, t: State, i: nat, mark: nat)
    requires Inv(c, t) && Owns(t, i, mark) && t.frames[i].Returned?
    ensures SettledUpTo(t, mark)
  {
    forall r: Record | r < mark ensures t.Settled(r) {
      assert !HeldByLive(t, r);
      ReturnedSettles(c, t, i, r);
    }
  }

  /** At most `n` queued records are older than the mark; they come first. */
  ghost predicate AtMostOld(queue: seq<Record>, n: int, mark: nat) {
    forall j | 0 <= j < |queue| && n <= j :: mark <= queue[j]
  }

  /** A drain whose first batch takes every older record owns them, if nobody else holds any. */
  lemma DrainOwns(c: Config, s: State, i: nat, mark: nat)
    requires i < |s.frames| && mark <= s.log.accepted && AtMostOld(s.queue, c.DrainSize(), mark)
    requires forall j | 0 <= j < |s.frames| && j != i :: HeldFrom(s.frames[j], mark)
    ensures Owns(DoDrain(c, s, i, mark), i, mark)
  {
  }

  lemma {:induction false} OwnsRun(c: Config, s: State, i: nat, mark: nat, steps: seq<Step>)
    requires Owns(s, i, mark) && Run(c, s, steps)
    ensures Owns(After(c, s, steps), i, mark)
    decreases |steps|
  {
    hide Do, Can, Owns;
    if steps != [] {
      OwnsRun(c, s, i, mark, Front(steps));
      OwnsStep(c, After(c, s, Front(steps)), i, mark, Last(steps));
    }
  }

  // ------------------------------------------------------------- it holds if

  /** The first stretch of a call that drains at once. */
  lemma FirstDrain(c: Config, s: State, call: Step)
    requires DrainsAtOnce(s, call)
    ensures Can(s, call) && Do(c, s, call) == DoDrain(c, Enter(s, Called(s.log.accepted)), |s.frames|, s.log.accepted)
    ensures var t := Do(c, s, call);
      var i := |s.frames|;
      && |t.frames| == i + 1 && t.frames[..i] == s.frames && t.log == s.log
      && (t.frames[i].Draining? || t.frames[i].Returned?) && t.frames[i].mark == s.log.accepted
      && (|s.queue| > c.DrainSize() ==> t.frames[i].Draining? && t.queue == s.queue[c.DrainSize()..])
  {
  }

  lemma FirstDrainOwns(c: Config, s: State, call: Step)
    requires DrainsAtOnce(s, call) && |s.queue| <= c.DrainSize()
    requires forall j | 0 <= j < |s.frames| :: s.frames[j].Held() == []
    ensures Owns(Do(c, s, call), |s.frames|, s.log.accepted)
  {
    hide Do;
    FirstDrain(c, s, call);
    DrainOwns(c, Enter(s, Called(s.log.accepted)), |s.frames|, s.log.accepted);
  }

  lemma FirstDrainAlone(c: Config, s: State, call: Step)
    requires DrainsAtOnce(s, call) && DeadBelow(s.frames, |s.frames|)
    ensures StopOwns(Do(c, s, call), |s.frames|, s.log.accepted)
  {
    hide Do;
    FirstDrain(c, s, call);
    assert forall j | 0 <= j < |s.frames| :: Do(c, s, call).frames[j] == Do(c, s, call).frames[..|s.frames|][j];
  }

  /** Such a call settles what was accepted before it if nothing can reach any of that. */
  lemma DrainSettles(c: Config, s: State, call: Step)
    requires Inv(c, s) && DrainsAtOnce(s, call) && NothingReaches(c, s)
    ensures Barrier(c, s, call)
  {
    hide Do, Inv, StopOwns, Owns;
    var i, mark := |s.frames|, s.log.accepted;
    FirstDrain(c, s, call);
    forall steps | Returns(c, s, call, steps)
      ensures SettledUpTo(After(c, s, [call] + steps), mark)
    {
      var t := After(c, s, [call] + steps);
      RunKeepsInv(c, s, [call] + steps);
      RunAfterFirst(c, s, call, steps);
      if |s.queue| <= c.DrainSize() {
        FirstDrainOwns(c, s, call);
        OwnsRun(c, Do(c, s, call), i, mark, steps);
        OwnerSettles(c, t, i, mark);
      } else {
        FirstDrainAlone(c, s, call);
        StopOwnsRun(c, Do(c, s, call), i, mark, steps);
        forall r: Record | r < mark ensures t.Settled(r) {
          StopOwnerSettles(c, t, i, mark, r);
        }
      }
    }
  }

  // --------------------------------------------------------- and only if

  /** The end of a drain's commit ends the drain or shortens the queue. */
  lemma DrainAdvances(c: Config, s: State, i: nat, ok: bool)
    requires i < |s.frames| && s.frames[i].Draining?
    ensures Can(s, EndDrainWrite(i, ok))
    ensures var t := Do(c, s, EndDrainWrite(i, ok));
      && t.frames == s.frames[i := t.frames[i]]
      && (t.frames[i].Draining? || t.frames[i].Returned?) && t.frames[i].mark == s.frames[i].mark
      && (t.frames[i].Draining? ==> |t.queue| < |s.queue|) && |t.queue| <= |s.queue|
  {
    hide Finish;
    var mark := s.frames[i].mark;
    FinishShape(c, s, i, ok, Returned(mark));
    FinishShape(c, s, i, ok, Called(mark));
  }

  /** Left alone, a drain in frame `i` runs to its end. */
  lemma {:induction false} DrainToReturn(c: Config, s: State, i: nat) returns (steps: seq<Step>)
    requires i < |s.frames| && (s.frames[i].Draining? || s.frames[i].Returned?)
    ensures Run(c, s, steps) && Undisturbed(steps)
    ensures After(c, s, steps).frames == s.frames[i := Returned(s.frames[i].mark)]
    ensures forall step | step in steps :: step.EndDrainWrite?
    decreases |s.queue|, if s.frames[i].Draining? then 1 else 0
  {
    if s.frames[i].Returned? {
      steps := [];
    } else {
      var step := EndDrainWrite(i, true);
      DrainAdvances(c, s, i, true);
      hide Do, Can;
      var t := Do(c, s, step);
      RunOne(c, s, step);
      hide Run, After;
      var rest := DrainToReturn(c, t, i);
      RunAppend(c, s, [step], rest);
      steps := [step] + rest;
    }
  }

  /** While somebody holds a record accepted before it, a draining call can return first. */
  lemma HolderSlips(c: Config, s: State, i: nat, j: nat, r: Record) returns (steps: seq<Step>)
    requires Inv(c, s) && i < |s.frames| && j < |s.frames| && i != j
    requires s.frames[i].Draining? || s.frames[i].Returned?
    requires r in s.frames[j].Held() && r < s.frames[i].mark
    ensures Run(c, s, steps) && Undisturbed(steps)
    ensures var t := After(c, s, steps); i < |t.frames| && t.frames[i].Returned? && !t.Settled(r)
    ensures forall step | step in steps :: step.EndDrainWrite?
  {
    steps := DrainToReturn(c, s, i);
    RunKeepsInv(c, s, steps);
    var t := After(c, s, steps);
    assert t.frames[j].Live() && r in t.frames[j].Held();
    ReturnedSettles(c, t, i, r);
  }

  lemma {:induction false} SomeoneWrites(frames: seq<Frame>) returns (h: nat)
    requires WritersInside(frames) > 0
    ensures h < |frames| && frames[h].Writing?
  {
    if Last(frames).Writing? {
      h := |frames| - 1;
    } else {
      h := SomeoneWrites(Front(frames));
    }
  }

  /** Frame `k` takes the oldest queued record in one step. */
  ghost predicate Takes(c: Config, t: State, step: Step, k: nat) {
    && Can(t, step) && Undisturbed([step]) && k < |t.frames| && t.queue != []
    && var u := Do(c, t, step);
       |u.frames| == |t.frames| && u.frames == t.frames[k := u.frames[k]] && t.queue[0] in u.frames[k].Held()
       && u.log == t.log
  }

  lemma GetterTakes(c: Config, t: State, k: nat)
    requires k < |t.frames| && t.frames[k] == Collecting(None) && t.queue != []
    ensures Takes(c, t, Getter(k), k)
  {
  }

  lemma DrainTakes(c: Config, t: State, k: nat, mark: nat)
    requires k < |t.frames| && t.queue != []
    ensures var u := DoDrain(c, t, k, mark); k < |u.frames| && t.queue[0] in u.frames[k].Held()
  {
    var batch := DoDrain(c, t, k, mark).frames[k].Held();
    assert batch[0] == t.queue[0];
  }

  lemma ResumeTakes(c: Config, t: State, k: nat)
    requires Can(t, ResumeStop(k)) && t.queue != []
    ensures Takes(c, t, ResumeStop(k), k)
  {
    hide DoDrain;
    var u := t.(task := None, stopping := false);
    DrainShape(c, u, k, t.frames[k].mark);
    DrainTakes(c, u, k, t.frames[k].mark);
  }

  lemma AcquireTakes(c: Config, t: State, k: nat)
    requires Can(t, Acquire(k)) && t.frames[k].FlushAwaitingLock? && t.queue != []
    ensures Takes(c, t, Acquire(k), k)
  {
    hide DoDrain;
    var u := t.(waiters := t.waiters[1..]);
    DrainShape(c, u, k, t.frames[k].mark);
    DrainTakes(c, u, k, t.frames[k].mark);
  }

  /** Nobody but the drain in the last frame holds anything. */
  ghost predicate LastAloneHolds(t: State, i: nat) {
    && |t.frames| == i + 1 && t.frames[i].Draining?
    && forall j | 0 <= j < i :: t.frames[j].Held() == []
  }

  /** Whoever runs besides can take a record, or lets somebody take one. */
  lemma SomeoneTakes(c: Config, t: State, i: nat, j: nat) returns (step: Step, k: nat)
    requires Coherent(c, t) && LastAloneHolds(t, i) && j < i && t.frames[j].Live() && t.queue != []
    ensures k < i && Takes(c, t, step, k)
  {
    hide Inv, Takes;
    assert Suspended(c, t.frames[j]);
    if t.frames[j].Collecting? {
      step, k := Getter(j), j;
      GetterTakes(c, t, k);
    } else if t.frames[j].AwaitingWriter? {
      InvTasks(c, t);
      assert AwaitsWriter(t.frames, j);
      var v := t.frames[j].writer;
      assert Suspended(c, t.frames[v]);
      if t.frames[v].Exited? {
        step, k := ResumeStop(j), j;
        ResumeTakes(c, t, k);
      } else {
        step, k := Getter(v), v;
        GetterTakes(c, t, k);
      }
    } else {
      k := WaiterIsFlush(c, t, i, j);
      step := Acquire(k);
      AcquireTakes(c, t, k);
    }
  }

  lemma WaiterIsFlush(c: Config, t: State, i: nat, j: nat) returns (k: nat)
    requires Coherent(c, t) && LastAloneHolds(t, i) && j < i && t.frames[j].FlushAwaitingLock?
    ensures k < i && Can(t, Acquire(k)) && t.frames[k].FlushAwaitingLock?
  {
    assert Waits(t.frames, j);
    k := t.waiters[0];
    assert Waits(t.frames, t.waiters[0]);
    assert Suspended(c, t.frames[k]);
    if t.locked {
      var h := SomeoneWrites(t.frames);
      assert false;
    }
  }

  lemma QueueAccepted(c: Config, s: State, k: nat)
    requires Inv(c, s) && k < |s.queue|
    ensures s.queue[k] < s.log.accepted
  {
  }

  lemma HeldAccepted(c: Config, s: State, j: nat, r: Record)
    requires Inv(c, s) && j < |s.frames| && r in s.frames[j].Held()
    ensures r < s.log.accepted
  {
    PlaceCounts(s, InFrame(j), r);
  }

  lemma Regroup(first: Step, a: seq<Step>, b: seq<Step>)
    ensures ([first] + a) + b == [first] + (a + b)
  {
  }

  /** The run in which the first to take a record keeps it until the call has returned. */
  lemma TakerSlips(c: Config, t: State, i: nat, j: nat) returns (steps: seq<Step>, r: Record)
    requires Coherent(c, t) && LastAloneHolds(t, i) && j < i && t.frames[j].Live() && t.queue != []
    requires t.queue[0] < t.frames[i].mark
    ensures r < t.frames[i].mark && Run(c, t, steps) && Undisturbed(steps)
    ensures var u := After(c, t, steps); i < |u.frames| && u.frames[i].Returned? && !u.Settled(r)
  {
    var step, k := SomeoneTakes(c, t, i, j);
    hide Coherent, Run, After;
    r := t.queue[0];
    var u := Do(c, t, step);
    RunOne(c, t, step);
    CoherentInv(c, t);
    StepKeepsInv(c, t, step);
    var rest := HolderSlips(c, u, i, k, r);
    RunAppend(c, t, [step], rest);
    steps := [step] + rest;
  }

  lemma CoherentInv(c: Config, s: State)
    requires Coherent(c, s)
    ensures Inv(c, s)
  {
  }

  /** After the first stretch of the call: whoever holds or can take a record lets the call slip past it. */
  lemma SlipsAfter(c: Config, t: State, i: nat) returns (steps: seq<Step>, r: Record)
    requires Coherent(c, t) && |t.frames| == i + 1 && (t.frames[i].Draining? || t.frames[i].Returned?)
    requires t.frames[i].mark == t.log.accepted
    requires || (exists j :: 0 <= j < i && t.frames[j].Held() != [])
             || (t.frames[i].Draining? && t.queue != [] && exists j :: 0 <= j < i && t.frames[j].Live())
    ensures r < t.frames[i].mark && Run(c, t, steps) && Undisturbed(steps)
    ensures var u := After(c, t, steps); i < |u.frames| && u.frames[i].Returned? && !u.Settled(r)
  {
    CoherentInv(c, t);
    hide Coherent, Run, After;
    if exists j :: 0 <= j < i && t.frames[j].Held() != [] {
      var j :| 0 <= j < i && t.frames[j].Held() != [];
      r := t.frames[j].Held()[0];
      HeldAccepted(c, t, j, r);
      steps := HolderSlips(c, t, i, j, r);
    } else {
      var j :| 0 <= j < i && t.frames[j].Live();
      QueueAccepted(c, t, 0);
      steps, r := TakerSlips(c, t, i, j);
    }
  }

  lemma SlipRun(c: Config, s: State, call: Step) returns (steps: seq<Step>, r: Record)
    requires Coherent(c, s) && DrainsAtOnce(s, call) && !NothingReaches(c, s)
    ensures r < s.log.accepted && Returns(c, s, call, steps)
    ensures !After(c, s, [call] + steps).Settled(r)
  {
    hide Coherent, Do, Can, Run, After;
    var i := |s.frames|;
    FirstDrain(c, s, call);
    var t := Do(c, s, call);
    StepKeepsCoherent(c, s, call);
    assert forall j | 0 <= j < i :: t.frames[j] == t.frames[..i][j];
    steps, r := SlipsAfter(c, t, i);
    RunAfterFirst(c, s, call, steps);
  }

  /** Otherwise some interleaving lets it return while somebody holds a record accepted before it. */
  lemma DrainSlips(c: Config, s: State, call: Step)
    requires Coherent(c, s) && DrainsAtOnce(s, call) && !NothingReaches(c, s)
    ensures !Barrier(c, s, call)
  {
    var steps, r := SlipRun(c, s, call);
  }

  /**
    flush() is documented to write everything queued, including a batch in flight.
    Called with the lock free, whatever runs, it does so on every interleaving if and only
    if nobody holds a record and one drain takes the whole queue or nobody else runs.
   */
  lemma FlushBarrierExactly(c: Config, s: State)
    requires Reachable(c, s) && s.LockFree()
    ensures Barrier(c, s, CallFlush) <==> NothingReaches(c, s)
  {
    hide Barrier, NothingReaches, Inv;
    ReachableCoherent(c, s);
    if NothingReaches(c, s) {
      DrainSettles(c, s, CallFlush);
    } else {
      DrainSlips(c, s, CallFlush);
    }
  }

  // ------------------------------------------------------- the batch in flight

  /** Nothing is taken back from committed, failed and dropped. */
  ghost predicate LogGrows(s: State, t: State) {
    && (forall r | r in s.log.committed :: r in t.log.committed)
    && (forall r | r in s.log.failed :: r in t.log.failed)
    && (forall r | r in s.log.dropped :: r in t.log.dropped)
  }

  lemma FinishGrowsLog(c: Config, s: State, i: nat, ok: bool, f: Frame)
    requires i < |s.frames|
    ensures LogGrows(s, Finish(c, s, i, ok, f))
  {
  }

  lemma EndsGrowLog(c: Config, s: State, i: nat, ok: bool)
    ensures Can(s, EndWrite(i, ok)) ==> LogGrows(s, DoEndWrite(c, s, i, ok))
    ensures Can(s, EndDrainWrite(i, ok)) ==> LogGrows(s, DoEndDrainWrite(c, s, i, ok))
  {
    hide Finish;
    if i < |s.frames| {
      var m := if s.frames[i].Marked() then s.frames[i].mark else 0;
      FinishGrowsLog(c, s, i, ok, NextPass(s));
      FinishGrowsLog(c, s, i, ok, Called(m));
      FinishGrowsLog(c, s, i, ok, Returned(m));
    }
  }

  lemma OthersKeepLog(c: Config, s: State, step: Step)
    requires Can(s, step) && !step.EndWrite? && !step.EndDrainWrite? && !step.Record?
    ensures Do(c, s, step).log == s.log
  {
  }

  lemma RecordGrowsLog(c: Config, s: State)
    ensures LogGrows(s, DoRecord(c, s))
  {
  }

  lemma SettledStays(c: Config, s: State, step: Step, r: Record)
    requires Can(s, step) && s.Settled(r)
    ensures Do(c, s, step).Settled(r)
  {
    hide DoRecord, DoEndWrite, DoEndDrainWrite;
    match step
    case Record => RecordGrowsLog(c, s);
    case EndWrite(i, ok) => EndsGrowLog(c, s, i, ok);
    case EndDrainWrite(i, ok) => EndsGrowLog(c, s, i, ok);
    case _ =>
      hide Do;
      OthersKeepLog(c, s, step);
  }

  ghost predicate AllSettled(s: State, batch: seq<Record>) {
    forall r | r in batch :: s.Settled(r)
  }

  /** Writer `h` is still committing `batch` and flush `i` still waits, or the batch is settled. */
  ghost predicate WaitsOrSettled(s: State, h: nat, batch: seq<Record>, i: nat) {
    && h < i < |s.frames|
    && ((s.frames[i].FlushAwaitingLock? && s.frames[h] == Writing(batch)) || AllSettled(s, batch))
  }

  /** While `h` commits, only the end of its write changes it or lets flush `i` go on. */
  lemma CommitKeepsFlushWaiting(c: Config, s: State, h: nat, i: nat, step: Step)
    requires LockConsistent(s) && Can(s, step) && step != EndWrite(h, true) && step != EndWrite(h, false)
    requires h < i < |s.frames| && s.frames[h].Writing? && s.frames[i].FlushAwaitingLock?
    ensures i < |Do(c, s, step).frames|
    ensures Do(c, s, step).frames[h] == s.frames[h] && Do(c, s, step).frames[i] == s.frames[i]
  {
    WritersAfterSet(s.frames, h, Exited);
    assert s.locked;
    if Undisturbed([step]) {
      ActorOnly(c, s, step);
    }
  }

  lemma AllSettledStays(c: Config, s: State, step: Step, batch: seq<Record>)
    requires Can(s, step) && AllSettled(s, batch)
    ensures AllSettled(Do(c, s, step), batch)
  {
    forall r | r in batch ensures Do(c, s, step).Settled(r) {
      SettledStays(c, s, step, r);
    }
  }

  lemma EndWriteSettles(c: Config, s: State, h: nat, ok: bool)
    requires Inv(c, s) && Can(s, EndWrite(h, ok))
    ensures AllSettled(DoEndWrite(c, s, h, ok), s.frames[h].batch)
  {
    HeldSizeAfterSet(s.frames, h, Exited);
    assert !c.enabled ==> s.frames[h].batch == [];
  }

  lemma StepGrowsFrames(c: Config, s: State, step: Step)
    requires Can(s, step)
    ensures |s.frames| <= |Do(c, s, step).frames|
  {
    hide Do, Can;
    if Actor(step).Some? {
      ActorShape(c, s, step);
    } else if step.Record? {
      RecordOnly(c, s);
    } else {
      CallShape(c, s, step);
    }
  }

  lemma WaitsOrSettledStep(c: Config, s: State, h: nat, batch: seq<Record>, i: nat, step: Step)
    requires Inv(c, s) && Can(s, step) && WaitsOrSettled(s, h, batch, i)
    ensures WaitsOrSettled(Do(c, s, step), h, batch, i)
  {
    StepGrowsFrames(c, s, step);
    if AllSettled(s, batch) {
      AllSettledStays(c, s, step, batch);
    } else if step.EndWrite? && step.i == h {
      EndWriteSettles(c, s, h, step.ok);
    } else {
      CommitKeepsFlushWaiting(c, s, h, i, step);
    }
  }

  lemma CallFlushWaits(c: Config, s: State, h: nat)
    requires Inv(c, s) && h < |s.frames| && s.frames[h].Writing?
    ensures Can(s, CallFlush) && WaitsOrSettled(Do(c, s, CallFlush), h, s.frames[h].batch, |s.frames|)
  {
    WritersAfterSet(s.frames, h, Exited);
    assert s.locked;
  }

  /** A flush that has got past the lock left no part of the batch then being committed behind. */
  lemma {:induction false} FlushWaitsForCommit(c: Config, s: State, h: nat, steps: seq<Step>)
    requires Inv(c, s) && h < |s.frames| && s.frames[h].Writing?
    requires Run(c, s, [CallFlush] + steps)
    ensures var t := After(c, s, [CallFlush] + steps);
      && WaitsOrSettled(t, h, s.frames[h].batch, |s.frames|)
      && (!t.frames[|s.frames|].FlushAwaitingLock? ==> AllSettled(t, s.frames[h].batch))
    decreases |steps|
  {
    hide Do, Can, Inv, AllSettled;
    var all := [CallFlush] + steps;
    if steps == [] {
      assert all == [CallFlush];
      CallFlushWaits(c, s, h);
      RunOne(c, s, CallFlush);
    } else {
      assert Front(all) == [CallFlush] + Front(steps);
      FlushWaitsForCommit(c, s, h, Front(steps));
      RunKeepsInv(c, s, Front(all));
      WaitsOrSettledStep(c, After(c, s, Front(all)), h, s.frames[h].batch, |s.frames|, Last(steps));
    }
  }
}
