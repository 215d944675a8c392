/** What stop() guarantees: exactly, with and without starts while it runs. */
module AuditStop {
  import opened Common
  import opened AuditProtocol
  import opened AuditInvariants
  import opened AuditShapes
  import opened AuditTheorems
  import opened AuditReach
  import opened AuditFlush

  // ---------------------------------------------------------- stop left alone

  /**
    stop() is documented to leave no record behind.  Called while the writer in `_task` is
    all that runs, wherever that is suspended, it keeps that on every interleaving.  Called
    without one, whatever runs, it keeps it if and only if nobody holds a record and one
    drain takes the whole queue or nobody runs.
   */
  lemma StopBarrierExactly(c: Config, s: State)
    requires Reachable(c, s) && (s.task == None || OnlyTheWriter(s))
    ensures Barrier(c, s, CallStop) <==> s.task.Some? || NothingReaches(c, s)
  {
    hide Barrier, NothingReaches, Inv;
    ReachableCoherent(c, s);
    if s.task.Some? {
      OwnWriterSettles(c, s);
    } else if NothingReaches(c, s) {
      DrainSettles(c, s, CallStop);
    } else {
      DrainSlips(c, s, CallStop);
    }
  }

  lemma OwnWriterSettles(c: Config, s: State)
    requires Reachable(c, s) && OnlyTheWriter(s)
    ensures Barrier(c, s, CallStop)
  {
    forall steps | Returns(c, s, CallStop, steps)
      ensures SettledUpTo(After(c, s, [CallStop] + steps), s.log.accepted)
    {
      var t := After(c, s, [CallStop] + steps);
      forall r: Record | r < s.log.accepted ensures t.Settled(r) {
        StopIsBarrier(c, s, steps, t, r);
      }
    }
  }

  // ------------------------------------------------------- stop amid starts

  /** Starts may happen, flushes and stops do not. */
  predicate OnlyStarts(steps: seq<Step>) {
    forall step | step in steps :: !step.CallFlush? && !step.CallStop?
  }

  ghost predicate StopReturnsAmidStarts(c: Config, s: State, steps: seq<Step>) {
    && OnlyStarts(steps)
    && Run(c, s, [CallStop] + steps)
    && |s.frames| < |After(c, s, [CallStop] + steps).frames|
    && After(c, s, [CallStop] + steps).frames[|s.frames|].Returned?
  }

  ghost predicate StopBarrierAmidStarts(c: Config, s: State) {
    forall steps | StopReturnsAmidStarts(c, s, steps) ::
      SettledUpTo(After(c, s, [CallStop] + steps), s.log.accepted)
  }

  /** How many queued records the writer's last pass takes for sure; past _collect, none. */
  function LastPass(c: Config, f: Frame): (n: int)
    ensures n >= 0
  {
    if f.Collecting? then Max(0, c.batchSize - |f.Held()|) else 0
  }

  /** One drain takes what the last pass of the writer in `_task` leaves; without one, nobody holds a record. */
  ghost predicate OneDrainSuffices(c: Config, s: State) {
    if s.task.Some? && s.task.value < |s.frames|
    then |s.queue| <= LastPass(c, s.frames[s.task.value]) + c.DrainSize()
    else |s.queue| <= c.DrainSize() && forall j | 0 <= j < |s.frames| :: s.frames[j].Held() == []
  }

  /** The stop in frame `i` waits, and when its writer has exited one drain will suffice. */
  ghost predicate WaitsSafely(c: Config, t: State, i: nat, mark: nat, w: nat) {
    && |t.frames| == i + 1 && w < i && t.task == Some(w) && t.stopping
    && t.frames[i] == AwaitingWriter(w, mark) && mark <= t.log.accepted
    && (forall j | 0 <= j < i && j != w :: !t.frames[j].Live())
    && t.frames[w].IsWriter()
    && AtMostOld(t.queue, c.DrainSize() + LastPass(c, t.frames[w]), mark)
  }

  lemma RecordWaitsSafely(c: Config, s: State, i: nat, mark: nat, w: nat)
    requires WaitsSafely(c, s, i, mark, w)
    ensures WaitsSafely(c, DoRecord(c, s), i, mark, w)
  {
  }

  lemma GetterWaitsSafely(c: Config, s: State, i: nat, mark: nat, w: nat)
    requires WaitsSafely(c, s, i, mark, w) && Can(s, Getter(w))
    ensures WaitsSafely(c, DoGetter(s, w), i, mark, w)
  {
  }

  lemma CollectWaitsSafely(c: Config, s: State, i: nat, mark: nat, w: nat)
    requires WaitsSafely(c, s, i, mark, w) && Can(s, Collect(w))
    ensures WaitsSafely(c, DoCollect(c, s, w), i, mark, w)
  {
  }

  lemma AcquireWaitsSafely(c: Config, s: State, i: nat, mark: nat, w: nat)
    requires WaitsSafely(c, s, i, mark, w) && Can(s, Acquire(w))
    ensures WaitsSafely(c, DoAcquire(c, s, w), i, mark, w)
  {
  }

  lemma EndWriteWaitsSafely(c: Config, s: State, i: nat, mark: nat, w: nat, ok: bool)
    requires WaitsSafely(c, s, i, mark, w) && Can(s, EndWrite(w, ok))
    ensures WaitsSafely(c, DoEndWrite(c, s, w, ok), i, mark, w)
  {
    FinishShape(c, s, w, ok, NextPass(s));
    hide Finish, AtMostOld;
  }

  lemma WriterActs(c: Config, s: State, i: nat, mark: nat, w: nat, step: Step)
    requires WaitsSafely(c, s, i, mark, w) && Can(s, step) && Actor(step) == Some(w)
    ensures step.Getter? || step.Collect? || step.Acquire? || step.EndWrite?
  {
  }

  /** The writer moves on: what it takes, later passes need not. */
  lemma WriterWaitsSafely(c: Config, s: State, i: nat, mark: nat, w: nat, step: Step)
    requires WaitsSafely(c, s, i, mark, w) && Can(s, step) && Actor(step) == Some(w)
    ensures WaitsSafely(c, Do(c, s, step), i, mark, w)
  {
    WriterActs(c, s, i, mark, w, step);
    hide WaitsSafely, Can, DoGetter, DoCollect, DoAcquire, DoEndWrite;
    match step
    case Getter(_) => GetterWaitsSafely(c, s, i, mark, w);
    case Collect(_) => CollectWaitsSafely(c, s, i, mark, w);
    case Acquire(_) => AcquireWaitsSafely(c, s, i, mark, w);
    case EndWrite(_, ok) => EndWriteWaitsSafely(c, s, i, mark, w, ok);
  }

  lemma ResumeOwns(c: Config, s: State, i: nat, mark: nat, w: nat)
    requires WaitsSafely(c, s, i, mark, w) && Can(s, ResumeStop(i))
    ensures Owns(DoResumeStop(c, s, i), i, mark)
  {
    DrainOwns(c, s.(task := None, stopping := false), i, mark);
  }

  /** Only the writer, the stop itself and record() can do anything; a start finds a task. */
  lemma WaitingActors(c: Config, s: State, i: nat, mark: nat, w: nat, step: Step)
    requires WaitsSafely(c, s, i, mark, w) && Can(s, step) && !step.CallFlush? && !step.CallStop?
    ensures step.Record? || step.Start? || Actor(step) == Some(w) || step == ResumeStop(i)
    ensures step.Start? ==> Do(c, s, step) == s
  {
    if !step.Start? {
      ActorOnly(c, s, step);
    }
  }

  lemma WaitsSafelyStep(c: Config, s: State, i: nat, mark: nat, w: nat, step: Step)
    requires WaitsSafely(c, s, i, mark, w) && Can(s, step) && !step.CallFlush? && !step.CallStop?
    ensures var t := Do(c, s, step); WaitsSafely(c, t, i, mark, w) || Owns(t, i, mark)
  {
    WaitingActors(c, s, i, mark, w, step);
    hide WaitsSafely, Owns;
    if step.Record? {
      RecordWaitsSafely(c, s, i, mark, w);
    } else if Actor(step) == Some(w) {
      WriterWaitsSafely(c, s, i, mark, w, step);
    } else if step == ResumeStop(i) {
      ResumeOwns(c, s, i, mark, w);
    }
  }

  lemma {:induction false} AmidStartsRun(c: Config, s: State, steps: seq<Step>, i: nat, mark: nat, w: nat)
    requires OnlyStarts(steps) && Run(c, s, steps)
    requires WaitsSafely(c, s, i, mark, w) || Owns(s, i, mark)
    ensures var t := After(c, s, steps); WaitsSafely(c, t, i, mark, w) || Owns(t, i, mark)
    decreases |steps|
  {
    hide Do, Can, WaitsSafely, Owns;
    if steps != [] {
      assert Last(steps) in steps;
      AmidStartsRun(c, s, Front(steps), i, mark, w);
      var t := After(c, s, Front(steps));
      if Owns(t, i, mark) {
        OwnsStep(c, t, i, mark, Last(steps));
      } else {
        WaitsSafelyStep(c, t, i, mark, w, Last(steps));
      }
    }
  }

  lemma CallStopSafe(c: Config, s: State)
    requires Inv(c, s) && (s.task == None || OnlyTheWriter(s)) && OneDrainSuffices(c, s)
    ensures var t := Do(c, s, CallStop);
      if s.task == None then Owns(t, |s.frames|, s.log.accepted)
      else WaitsSafely(c, t, |s.frames|, s.log.accepted, s.task.value)
  {
    if s.task == None {
      FirstDrainOwns(c, s, CallStop);
    } else {
      InvTasks(c, s);
    }
  }

  lemma OneDrainSettles(c: Config, s: State)
    requires Inv(c, s) && (s.task == None || OnlyTheWriter(s)) && OneDrainSuffices(c, s)
    ensures StopBarrierAmidStarts(c, s)
  {
    hide Inv, OneDrainSuffices, WaitsSafely, Owns;
    forall steps | StopReturnsAmidStarts(c, s, steps)
      ensures SettledUpTo(After(c, s, [CallStop] + steps), s.log.accepted)
    {
      var i, mark := |s.frames|, s.log.accepted;
      var w := if s.task.Some? then s.task.value else 0;
      var t := After(c, s, [CallStop] + steps);
      CallStopSafe(c, s);
      RunAfterFirst(c, s, CallStop, steps);
      AmidStartsRun(c, Do(c, s, CallStop), steps, i, mark, w);
      RunKeepsInv(c, s, [CallStop] + steps);
      WaitingIsNotReturned(c, t, i, mark, w);
      OwnerSettles(c, t, i, mark);
    }
  }

  lemma WaitingIsNotReturned(c: Config, t: State, i: nat, mark: nat, w: nat)
    ensures i < |t.frames| && t.frames[i].Returned? ==> !WaitsSafely(c, t, i, mark, w)
    ensures Owns(t, i, mark) ==> i < |t.frames|
  {
  }

  // --------------------------------------------------------- and only if

  /** A newly started writer takes the oldest record. */
  lemma StartTakes(c: Config, t: State)
    requires c.enabled && t.task == None && t.queue != []
    ensures var steps := [Start, Getter(|t.frames|)];
      && Run(c, t, steps)
      && After(c, t, steps).frames == t.frames + [Collecting(Some(t.queue[0]))]
  {
    var getter := Getter(|t.frames|);
    var started := Do(c, t, Start);
    RunOne(c, t, Start);
    RunOne(c, started, getter);
    RunAppend(c, t, [Start], [getter]);
    assert [Start] + [getter] == [Start, getter];
    assert Do(c, started, getter).frames == t.frames + [Collecting(Some(t.queue[0]))];
  }

  /** A writer started while frame `i` still has older records to drain can take one and keep it. */
  lemma StartSlips(c: Config, t: State, i: nat) returns (steps: seq<Step>, r: Record)
    requires Inv(c, t) && c.enabled && t.task == None && i < |t.frames| && t.frames[i].Draining?
    requires t.queue != [] && t.queue[0] < t.frames[i].mark
    ensures Run(c, t, steps) && OnlyStarts(steps) && r < t.frames[i].mark
    ensures var u := After(c, t, steps); i < |u.frames| && u.frames[i].Returned? && !u.Settled(r)
  {
    var k := |t.frames|;
    r := t.queue[0];
    StartTakes(c, t);
    var taken := After(c, t, [Start, Getter(k)]);
    RunKeepsInv(c, t, [Start, Getter(k)]);
    hide Inv, Run, After, Do;
    var rest := HolderSlips(c, taken, i, k, r);
    RunAppend(c, t, [Start, Getter(k)], rest);
    steps := [Start, Getter(k)] + rest;
  }

  /** From the state after `before` a slipping run makes one from `s`. */
  lemma Slips(c: Config, s: State, before: seq<Step>, rest: seq<Step>, r: Record)
    requires Run(c, s, [CallStop] + before) && Run(c, After(c, s, [CallStop] + before), rest)
    requires OnlyStarts(before) && OnlyStarts(rest) && r < s.log.accepted
    requires var u := After(c, After(c, s, [CallStop] + before), rest);
      |s.frames| < |u.frames| && u.frames[|s.frames|].Returned? && !u.Settled(r)
    ensures !StopBarrierAmidStarts(c, s)
  {
    RunAppend(c, s, [CallStop] + before, rest);
    Regroup(CallStop, before, rest);
    assert StopReturnsAmidStarts(c, s, before + rest);
  }

  lemma AcceptedEnabled(c: Config, s: State)
    requires Inv(c, s) && s.queue != []
    ensures c.enabled && s.queue[0] < s.log.accepted
  {
  }

  /** Without a writer in `_task`: a start lets a new one take what the first drain leaves. */
  lemma DrainLeavesSome(c: Config, s: State)
    requires Inv(c, s) && s.task == None && |s.queue| > c.DrainSize()
    ensures !StopBarrierAmidStarts(c, s)
  {
    AcceptedEnabled(c, s);
    QueueAccepted(c, s, c.DrainSize());
    hide Inv, StopBarrierAmidStarts, Do;
    FirstDrain(c, s, CallStop);
    var t := Do(c, s, CallStop);
    CallStopKeepsTask(c, s);
    RunOne(c, s, CallStop);
    StepKeepsInv(c, s, CallStop);
    assert [CallStop] + [] == [CallStop];
    hide Run, After;
    var rest, r := StartSlips(c, t, |s.frames|);
    Slips(c, s, [], rest, r);
  }

  lemma CallStopKeepsTask(c: Config, s: State)
    ensures Do(c, s, CallStop).task == s.task
  {
  }

  /** The writer's last pass, until it has exited. */
  lemma WriterExits(c: Config, t: State, w: nat) returns (steps: seq<Step>)
    requires w < |t.frames| && t.frames[w].IsWriter() && t.frames[w].Live() && t.stopping
    requires if t.frames[w].Writing? then t.waiters == []
             else !t.locked && t.waiters == if t.frames[w].AwaitingLock? then [w] else []
    ensures Run(c, t, steps) && OnlyStarts(steps)
    ensures var u := After(c, t, steps);
      && u.frames == t.frames[w := Exited] && u.task == t.task && u.log.accepted == t.log.accepted
      && u.queue == t.queue[Min(LastPass(c, t.frames[w]), |t.queue|)..]
    decreases if t.frames[w].Collecting? then 2 else if t.frames[w].AwaitingLock? then 1 else 0
  {
    var step := if t.frames[w].Collecting? then Collect(w)
                else if t.frames[w].AwaitingLock? then Acquire(w)
                else EndWrite(w, true);
    var u := Do(c, t, step);
    RunOne(c, t, step);
    if u.frames[w].Exited? {
      steps := [step];
    } else {
      hide Do, Run, After;
      var rest := WriterExits(c, u, w);
      RunAppend(c, t, [step], rest);
      steps := [step] + rest;
    }
  }

  lemma CallStopWaits(c: Config, s: State, w: nat)
    requires s.task == Some(w)
    ensures Do(c, s, CallStop) == s.(frames := s.frames + [AwaitingWriter(w, s.log.accepted)], stopping := true)
  {
  }

  lemma ResumeDrains(c: Config, t: State, i: nat)
    requires Can(t, ResumeStop(i)) && |t.queue| > c.DrainSize()
    ensures var u := Do(c, t, ResumeStop(i));
      && |u.frames| == |t.frames| && u.frames[i].Draining? && u.frames[i].mark == t.frames[i].mark
      && u.task == None && u.queue == t.queue[c.DrainSize()..]
  {
  }

  /** A writer that alone runs waits for nobody at the lock. */
  lemma AloneAtLock(c: Config, s: State, w: nat)
    requires Coherent(c, s) && w < |s.frames| && s.frames[w].IsWriter() && s.frames[w].Live()
    requires forall j | 0 <= j < |s.frames| && s.frames[j].Live() :: j == w
    ensures !s.stopping
    ensures if s.frames[w].Writing? then s.locked && s.waiters == []
            else !s.locked && s.waiters == if s.frames[w].AwaitingLock? then [w] else []
  {
    WritersAfterSet(s.frames, w, Exited);
    if s.locked && !s.frames[w].Writing? {
      var h := SomeoneWrites(s.frames);
      assert false;
    }
    forall k | 0 <= k < |s.waiters| ensures s.waiters[k] == w {
      assert Waits(s.frames, s.waiters[k]);
    }
    assert w in s.waiters <==> Waits(s.frames, w);
    OnlyWaiter(s.waiters, w);
  }

  lemma FirstTwoDiffer(waiters: seq<nat>)
    requires |waiters| > 1 && forall j, k | 0 <= j < k < |waiters| :: waiters[j] != waiters[k]
    ensures waiters[0] != waiters[1]
  {
  }

  lemma OnlyWaiter(waiters: seq<nat>, w: nat)
    requires forall k | 0 <= k < |waiters| :: waiters[k] == w
    requires forall j, k | 0 <= j < k < |waiters| :: waiters[j] != waiters[k]
    ensures waiters == if w in waiters then [w] else []
  {
    if |waiters| > 1 {
      FirstTwoDiffer(waiters);
      assert false;
    } else if |waiters| == 1 {
      assert waiters == [waiters[0]];
    }
  }

  /** stop has been called and its writer has made its last pass. */
  lemma ReachesExit(c: Config, s: State, w: nat) returns (before: seq<Step>)
    requires Coherent(c, s) && OnlyTheWriter(s) && s.task == Some(w) && w < |s.frames|
    requires s.frames[w].IsWriter() && s.frames[w].Live()
    ensures Run(c, s, [CallStop] + before) && OnlyStarts(before)
    ensures var t := After(c, s, [CallStop] + before);
      && |t.frames| == |s.frames| + 1 && t.frames[|s.frames|] == AwaitingWriter(w, s.log.accepted)
      && t.frames[w].Exited?
      && t.queue == s.queue[Min(LastPass(c, s.frames[w]), |s.queue|)..]
  {
    AloneAtLock(c, s, w);
    CallStopWaits(c, s, w);
    hide Coherent, Do;
    before := WriterExits(c, Do(c, s, CallStop), w);
    RunAfterFirst(c, s, CallStop, before);
  }

  lemma ReachesDrain(c: Config, s: State, w: nat, k: nat) returns (before: seq<Step>)
    requires Coherent(c, s) && OnlyTheWriter(s) && s.task == Some(w) && w < |s.frames|
    requires s.frames[w].IsWriter() && s.frames[w].Live()
    requires k == Min(LastPass(c, s.frames[w]), |s.queue|) + c.DrainSize() && k < |s.queue|
    ensures Run(c, s, [CallStop] + before) && OnlyStarts(before)
    ensures var t := After(c, s, [CallStop] + before);
      && |t.frames| == |s.frames| + 1 && t.frames[|s.frames|].Draining?
      && t.frames[|s.frames|].mark == s.log.accepted
      && t.task == None && t.queue == s.queue[k..]
  {
    var pass := ReachesExit(c, s, w);
    var t := After(c, s, [CallStop] + pass);
    var resume := ResumeStop(|s.frames|);
    hide Coherent, OnlyTheWriter, Run, After, Do;
    ResumeDrains(c, t, |s.frames|);
    RunOne(c, t, resume);
    RunAppend(c, s, [CallStop] + pass, [resume]);
    before := pass + [resume];
    Regroup(CallStop, pass, [resume]);
    assert s.queue[k - c.DrainSize()..][c.DrainSize()..] == s.queue[k..];
  }

  /** stop waits for its writer, whose last pass and one drain do not take the whole queue. */
  lemma WriterLeavesSome(c: Config, s: State, w: nat)
    requires Coherent(c, s) && OnlyTheWriter(s) && s.task == Some(w) && w < |s.frames|
    requires s.frames[w].IsWriter() && s.frames[w].Live() && !OneDrainSuffices(c, s)
    ensures !StopBarrierAmidStarts(c, s)
  {
    var k := Min(LastPass(c, s.frames[w]), |s.queue|) + c.DrainSize();
    CoherentInv(c, s);
    AcceptedEnabled(c, s);
    QueueAccepted(c, s, k);
    hide Coherent, OnlyTheWriter, Run, After, StopBarrierAmidStarts, OneDrainSuffices, LastPass, OnlyStarts, Inv;
    var before := ReachesDrain(c, s, w, k);
    RunKeepsInv(c, s, [CallStop] + before);
    var rest, r := StartSlips(c, After(c, s, [CallStop] + before), |s.frames|);
    Slips(c, s, before, rest, r);
  }

  /** Somebody holds a record, and stop finds no writer in `_task`. */
  lemma HeldSlips(c: Config, s: State)
    requires Coherent(c, s) && s.task == None && !NothingReaches(c, s)
    ensures !StopBarrierAmidStarts(c, s)
  {
    var steps, r := SlipRun(c, s, CallStop);
    assert OnlyStarts(steps);
    assert StopReturnsAmidStarts(c, s, steps);
  }

  /**
    With starts while it runs: stop settles everything accepted before it, on every
    interleaving, if and only if one drain takes what the last pass of its own writer
    leaves in the queue - or, without one, the whole queue, and nobody holds a record.
   */
  lemma StopAmidStartsExactly(c: Config, s: State)
    requires Reachable(c, s) && (s.task == None || OnlyTheWriter(s))
    ensures StopBarrierAmidStarts(c, s) <==> OneDrainSuffices(c, s)
  {
    hide StopBarrierAmidStarts;
    ReachableCoherent(c, s);
    if OneDrainSuffices(c, s) {
      OneDrainSettles(c, s);
    } else if s.task.Some? {
      OwnTaskRuns(c, s);
      WriterLeavesSome(c, s, s.task.value);
    } else if |s.queue| > c.DrainSize() {
      DrainLeavesSome(c, s);
    } else {
      HeldSlips(c, s);
    }
  }

  lemma OwnTaskRuns(c: Config, s: State)
    requires Reachable(c, s) && OnlyTheWriter(s) && s.task.Some?
    ensures s.task.value < |s.frames| && s.frames[s.task.value].IsWriter() && s.frames[s.task.value].Live()
  {
    ReachableCoherent(c, s);
    CoherentInv(c, s);
    InvTasks(c, s);
    hide Inv, WaitersKnown, AllSuspended;
    forall j | 0 <= j < |s.frames| && s.frames[j].Live() ensures !s.frames[j].AwaitingWriter? {
    }
    QuietTask(c, s);
  }

  // ------------------------------------------------------ a writer nobody waits for

  lemma Extend(c: Config, steps: seq<Step>, s: State, step: Step) returns (t: State)
    requires Run(c, INIT, steps) && After(c, INIT, steps) == s && Can(s, step)
    ensures t == Do(c, s, step) && Run(c, INIT, steps + [step]) && After(c, INIT, steps + [step]) == t
  {
    assert Front(steps + [step]) == steps;
    t := Do(c, s, step);
  }

  /** A state without records: the frames, the task and the stop event. */
  function Empty(frames: seq<Frame>, task: Option<nat>, stopping: bool): State {
    INIT.(frames := frames, task := task, stopping := stopping)
  }

  /** The writer has exited and two stops wait for it. */
  lemma TwoStopsWait(c: Config) returns (steps: seq<Step>)
    requires c.enabled
    ensures Run(c, INIT, steps)
    ensures After(c, INIT, steps) == Empty([Exited, AwaitingWriter(0, 0), AwaitingWriter(0, 0)], Some(0), true)
  {
    var s := Extend(c, [], INIT, Start);
    s := Extend(c, [] + [Start], s, CallStop);
    s := Extend(c, [] + [Start] + [CallStop], s, CallStop);
    s := Extend(c, [] + [Start] + [CallStop] + [CallStop], s, Collect(0));
    steps := [] + [Start] + [CallStop] + [CallStop] + [Collect(0)];
    assert s == Empty([Exited, AwaitingWriter(0, 0), AwaitingWriter(0, 0)], Some(0), true);
  }

  /** The first of them has returned and a new writer has been started. */
  lemma RestartBetweenStops(c: Config) returns (steps: seq<Step>)
    requires c.enabled
    ensures Run(c, INIT, steps)
    ensures After(c, INIT, steps)
         == Empty([Exited, Returned(0), AwaitingWriter(0, 0), Collecting(None)], Some(3), false)
  {
    var before := TwoStopsWait(c);
    var s := Extend(c, before, After(c, INIT, before), ResumeStop(1));
    s := Extend(c, before + [ResumeStop(1)], s, Start);
    steps := before + [ResumeStop(1)] + [Start];
    assert s == Empty([Exited, Returned(0), AwaitingWriter(0, 0), Collecting(None)], Some(3), false);
  }

  /**
    The second stop then empties `_task` while the new writer lives; a third stop returns
    although that writer holds a record.
   */
  lemma OverlappingStopsOrphanWriter(c: Config) returns (s: State)
    requires c.enabled
    ensures Reachable(c, s)
    ensures s.task == None && |s.frames| == 5
    ensures s.frames[3].Live() && s.frames[4].Returned? && 0 < s.frames[4].mark
    ensures !s.Settled(0)
  {
    var before := RestartBetweenStops(c);
    s := Extend(c, before, After(c, INIT, before), ResumeStop(2));
    s := OrphanTakesRecord(c, before + [ResumeStop(2)], s);
  }

  lemma OrphanTakesRecord(c: Config, before: seq<Step>, start: State) returns (s: State)
    requires c.enabled && Run(c, INIT, before) && After(c, INIT, before) == start
    requires start == Empty([Exited, Returned(0), Returned(0), Collecting(None)], None, false)
    ensures Reachable(c, s)
    ensures s.task == None && |s.frames| == 5
    ensures s.frames[3].Live() && s.frames[4].Returned? && 0 < s.frames[4].mark
    ensures !s.Settled(0)
  {
    s := Extend(c, before, start, Step.Record);
    s := Extend(c, before + [Step.Record], s, Getter(3));
    s := Extend(c, before + [Step.Record] + [Getter(3)], s, CallStop);
  }
}
