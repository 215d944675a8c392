/** Which parts of the state each step of a suspended coroutine touches. */
module AuditShapes {
  import opened Common
  import opened AuditProtocol

  /** Which frame a step rewrites; flush, stop and start append one instead. */
  function Actor(step: Step): Option<nat> {
    match step
    case Getter(i) => Some(i)
    case Collect(i) => Some(i)
    case Acquire(i) => Some(i)
    case EndWrite(i, _) => Some(i)
    case EndDrainWrite(i, _) => Some(i)
    case ResumeStop(i) => Some(i)
    case _ => None
  }

  /** From `s` to `t` only frame `i` is rewritten: a writer goes on, a call drains or returns. */
  ghost predicate Rewrites(s: State, t: State, i: nat) {
    && i < |s.frames| == |t.frames| && t.frames == s.frames[i := t.frames[i]]
    && s.frames[i].Live() && s.log.accepted == t.log.accepted
    && (s.frames[i].IsWriter() ==> t.frames[i].IsWriter())
    && (!s.frames[i].IsWriter() ==>
          && s.frames[i].Marked() && (t.frames[i].Draining? || t.frames[i].Returned?)
          && t.frames[i].mark == s.frames[i].mark)
  }

  /** What the step does to the task, the stop event and the lock's waiters. */
  ghost predicate Affects(s: State, t: State, i: nat, step: Step)
    requires i < |s.frames| && i < |t.frames|
  {
    && (t.frames[i].Exited? ==> s.stopping)
    && (if step.ResumeStop? then t.task == None && !t.stopping else t.task == s.task && t.stopping == s.stopping)
    && (if step.Acquire?
        then s.waiters != [] && s.waiters[0] == i && t.waiters == s.waiters[1..] && !t.frames[i].WaitsForLock()
        else !s.frames[i].WaitsForLock()
             && t.waiters == s.waiters + if t.frames[i].WaitsForLock() then [i] else [])
  }

  lemma DrainShape(c: Config, s: State, i: nat, mark: nat)
    requires i < |s.frames|
    ensures var t := DoDrain(c, s, i, mark);
      && |t.frames| == |s.frames| && t.frames == s.frames[i := t.frames[i]]
      && (t.frames[i].Draining? || t.frames[i].Returned?) && t.frames[i].mark == mark
      && t.task == s.task && t.stopping == s.stopping && t.locked == s.locked
      && t.waiters == s.waiters && t.log == s.log && t.stats == s.stats
  {
  }

  lemma FinishShape(c: Config, s: State, i: nat, ok: bool, next: Frame)
    requires i < |s.frames|
    ensures var t := Finish(c, s, i, ok, next);
      && t.frames == s.frames[i := next] && t.queue == s.queue && t.log.accepted == s.log.accepted
      && t.task == s.task && t.stopping == s.stopping && t.locked == s.locked && t.waiters == s.waiters
  {
  }

  lemma NoWaiters(waiters: seq<nat>)
    ensures waiters + [] == waiters
  {
  }

  lemma GetterShape(c: Config, s: State, i: nat)
    requires Can(s, Getter(i))
    ensures var t := DoGetter(s, i); Rewrites(s, t, i) && Affects(s, t, i, Getter(i))
  {
    NoWaiters(s.waiters);
  }

  lemma CollectShape(c: Config, s: State, i: nat)
    requires Can(s, Collect(i))
    ensures var t := DoCollect(c, s, i); Rewrites(s, t, i) && Affects(s, t, i, Collect(i))
  {
    NoWaiters(s.waiters);
  }

  lemma AcquireShape(c: Config, s: State, i: nat)
    requires Can(s, Acquire(i))
    ensures var t := DoAcquire(c, s, i); Rewrites(s, t, i) && Affects(s, t, i, Acquire(i))
  {
    hide DoDrain;
    if s.frames[i].FlushAwaitingLock? {
      DrainShape(c, s.(waiters := s.waiters[1..]), i, s.frames[i].mark);
    }
  }

  lemma EndWriteShape(c: Config, s: State, i: nat, ok: bool)
    requires Can(s, EndWrite(i, ok))
    ensures var t := DoEndWrite(c, s, i, ok); Rewrites(s, t, i) && Affects(s, t, i, EndWrite(i, ok))
  {
    hide Finish;
    NoWaiters(s.waiters);
    FinishShape(c, s, i, ok, NextPass(s));
  }

  lemma EndDrainWriteShape(c: Config, s: State, i: nat, ok: bool)
    requires Can(s, EndDrainWrite(i, ok))
    ensures var t := DoEndDrainWrite(c, s, i, ok); Rewrites(s, t, i) && Affects(s, t, i, EndDrainWrite(i, ok))
  {
    hide Finish, DoDrain;
    NoWaiters(s.waiters);
    var mark := s.frames[i].mark;
    FinishShape(c, s, i, ok, Returned(mark));
    FinishShape(c, s, i, ok, Called(mark));
    DrainShape(c, Finish(c, s, i, ok, Called(mark)), i, mark);
  }

  lemma ResumeStopShape(c: Config, s: State, i: nat)
    requires Can(s, ResumeStop(i))
    ensures var t := DoResumeStop(c, s, i); Rewrites(s, t, i) && Affects(s, t, i, ResumeStop(i))
  {
    hide DoDrain;
    NoWaiters(s.waiters);
    DrainShape(c, s.(task := None, stopping := false), i, s.frames[i].mark);
  }

  lemma ActorShape(c: Config, s: State, step: Step)
    requires Can(s, step) && Actor(step).Some?
    ensures var t := Do(c, s, step); Rewrites(s, t, Actor(step).value) && Affects(s, t, Actor(step).value, step)
  {
    hide Rewrites, Affects, DoGetter, DoCollect, DoAcquire, DoEndWrite, DoEndDrainWrite, DoResumeStop, Can;
    match step
    case Getter(i) => GetterShape(c, s, i);
    case Collect(i) => CollectShape(c, s, i);
    case Acquire(i) => AcquireShape(c, s, i);
    case EndWrite(i, ok) => EndWriteShape(c, s, i, ok);
    case EndDrainWrite(i, ok) => EndDrainWriteShape(c, s, i, ok);
    case ResumeStop(i) => ResumeStopShape(c, s, i);
  }

  /** record() touches no coroutine. */
  lemma RecordShape(c: Config, s: State)
    ensures var t := DoRecord(c, s);
      && t.frames == s.frames && t.task == s.task && t.stopping == s.stopping && t.locked == s.locked
      && t.waiters == s.waiters && s.log.accepted <= t.log.accepted
  {
  }

  /** flush, stop and start append at most one frame. */
  lemma CallShape(c: Config, s: State, step: Step)
    requires step.CallFlush? || step.CallStop? || step.Start?
    ensures var t := Do(c, s, step);
      && |s.frames| <= |t.frames| <= |s.frames| + 1 && t.frames[..|s.frames|] == s.frames
      && t.log.accepted == s.log.accepted
  {
    hide DoDrain;
    DrainShape(c, Enter(s, Called(s.log.accepted)), |s.frames|, s.log.accepted);
  }
}
