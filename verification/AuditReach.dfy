/** What else holds of every reachable state: who waits, who is asked to stop, who holds something. */
module AuditReach {
  import opened Common
  import opened AuditProtocol
  import opened AuditInvariants
  import opened AuditShapes
  import opened AuditTheorems

  // ------------------------------------------------------ who set the stop event

  /** A stop in some frame waits for the writer in `_task`. */
  ghost predicate Awaited(s: State) {
    s.task.Some? && exists j :: 0 <= j < |s.frames| && WaitsFor(s.frames[j], s.task.value)
  }

  predicate WaitsFor(f: Frame, w: nat) {
    f.AwaitingWriter? && f.writer == w
  }

  /** The event is set only while a stop waits for the current writer, and that one exits only then. */
  ghost predicate StopsAwaited(s: State) {
    && (s.stopping ==> Awaited(s))
    && (s.task.Some? && s.task.value < |s.frames| && s.frames[s.task.value].Exited? ==> s.stopping)
  }

  /** A step by frame `k` that is no waiting stop leaves the waiting stops alone. */
  lemma AwaitedStays(s: State, t: State, k: nat)
    requires k < |s.frames| == |t.frames| && !s.frames[k].AwaitingWriter?
    requires t.frames == s.frames[k := t.frames[k]] && t.task == s.task
    ensures Awaited(s) ==> Awaited(t)
  {
    if Awaited(s) {
      var j :| 0 <= j < |s.frames| && WaitsFor(s.frames[j], s.task.value);
      assert WaitsFor(t.frames[j], t.task.value);
    }
  }

  lemma AwaitedGrows(s: State, t: State)
    requires |s.frames| <= |t.frames| && t.frames[..|s.frames|] == s.frames && t.task == s.task
    ensures Awaited(s) ==> Awaited(t)
  {
    if Awaited(s) {
      var j :| 0 <= j < |s.frames| && WaitsFor(s.frames[j], s.task.value);
      assert t.frames[j] == t.frames[..|s.frames|][j];
      assert WaitsFor(t.frames[j], t.task.value);
    }
  }

  lemma CallKeepsAwaited(c: Config, s: State, step: Step)
    requires StopsAwaited(s) && (step.CallFlush? || step.CallStop? || step.Start?) && TasksKnown(s)
    ensures StopsAwaited(Do(c, s, step))
  {
    var t := Do(c, s, step);
    CallShape(c, s, step);
    if step.CallStop? && s.task.Some? {
      assert WaitsFor(t.frames[|s.frames|], t.task.value);
    } else if t.task == s.task {
      AwaitedGrows(s, t);
    }
    if s.task.Some? {
      assert t.frames[s.task.value] == t.frames[..|s.frames|][s.task.value];
    }
  }

  lemma StepKeepsAwaited(c: Config, s: State, step: Step)
    requires Can(s, step) && StopsAwaited(s) && TasksKnown(s)
    ensures StopsAwaited(Do(c, s, step))
  {
    var t := Do(c, s, step);
    if step.CallFlush? || step.CallStop? || step.Start? {
      CallKeepsAwaited(c, s, step);
    } else if step.Record? {
      RecordOnly(c, s);
      AwaitedGrows(s, t);
    } else {
      hide Do;
      ActorShape(c, s, step);
      if !step.ResumeStop? {
        AwaitedStays(s, t, Actor(step).value);
      }
    }
  }

  // ------------------------------------------------------------- nobody is lost

  /** The lock's waiters are exactly the frames that wait for it, each once. */
  ghost predicate WaitersKnown(s: State) {
    && (forall k | 0 <= k < |s.waiters| :: Waits(s.frames, s.waiters[k]))
    && (forall j, k | 0 <= j < k < |s.waiters| :: s.waiters[j] != s.waiters[k])
    && (forall i: nat | Waits(s.frames, i) :: i in s.waiters)
  }

  predicate Waits(frames: seq<Frame>, i: nat) {
    i < |frames| && frames[i].WaitsForLock()
  }

  /** A frame that neither waits before nor after its step leaves the waiters alone. */
  lemma OthersKeepWaiters(s: State, t: State, i: nat)
    requires WaitersKnown(s) && i < |s.frames| && !s.frames[i].WaitsForLock()
    requires |t.frames| == |s.frames| && t.frames == s.frames[i := t.frames[i]] && t.waiters == s.waiters
    requires !t.frames[i].WaitsForLock()
    ensures WaitersKnown(t)
  {
    forall k | 0 <= k < |t.waiters| ensures Waits(t.frames, t.waiters[k]) {
      assert Waits(s.frames, s.waiters[k]);
    }
    forall j: nat | Waits(t.frames, j) ensures j in t.waiters {
      assert Waits(s.frames, j);
    }
  }

  /** A frame that begins to wait is the last waiter. */
  lemma JoinsWaiters(s: State, t: State, i: nat)
    requires WaitersKnown(s) && i < |t.frames| && !Waits(s.frames, i)
    requires |s.frames| <= |t.frames|
    requires forall j: nat | j < |t.frames| && j != i :: j < |s.frames| && t.frames[j] == s.frames[j]
    requires t.frames[i].WaitsForLock() && t.waiters == s.waiters + [i]
    ensures WaitersKnown(t)
  {
    forall k | 0 <= k < |t.waiters| ensures Waits(t.frames, t.waiters[k]) && (k < |s.waiters| ==> t.waiters[k] != i) {
      assert k < |s.waiters| ==> Waits(s.frames, s.waiters[k]);
    }
    forall j: nat | Waits(t.frames, j) ensures j in t.waiters {
      if j == i {
        assert t.waiters[|s.waiters|] == i;
      } else {
        assert Waits(s.frames, j);
      }
    }
  }

  /** A frame that is appended without waiting changes no waiter. */
  lemma AppendKeepsWaiters(s: State, t: State)
    requires WaitersKnown(s) && t.waiters == s.waiters
    requires |s.frames| <= |t.frames| && t.frames[..|s.frames|] == s.frames
    requires forall j | |s.frames| <= j < |t.frames| :: !t.frames[j].WaitsForLock()
    ensures WaitersKnown(t)
  {
    assert forall j | 0 <= j < |s.frames| :: t.frames[j] == t.frames[..|s.frames|][j];
    forall k | 0 <= k < |t.waiters| ensures Waits(t.frames, t.waiters[k]) {
      assert Waits(s.frames, s.waiters[k]);
    }
    forall j: nat | Waits(t.frames, j) ensures j in t.waiters {
      assert Waits(s.frames, j);
    }
  }

  /** The head waiter gets the lock and waits no more. */
  lemma HeadLeaves(s: State, t: State)
    requires WaitersKnown(s) && s.waiters != [] && t.waiters == s.waiters[1..]
    requires |t.frames| == |s.frames| && s.waiters[0] < |t.frames|
    requires t.frames == s.frames[s.waiters[0] := t.frames[s.waiters[0]]] && !t.frames[s.waiters[0]].WaitsForLock()
    ensures WaitersKnown(t)
  {
    forall k | 0 <= k < |t.waiters| ensures Waits(t.frames, t.waiters[k]) {
      assert t.waiters[k] == s.waiters[k + 1] && Waits(s.frames, s.waiters[k + 1]);
    }
    forall j: nat | Waits(t.frames, j) ensures j in t.waiters {
      assert Waits(s.frames, j);
      var k :| 0 <= k < |s.waiters| && s.waiters[k] == j;
      assert t.waiters[k - 1] == j;
    }
  }

  lemma CallKeepsWaiters(c: Config, s: State, step: Step)
    requires WaitersKnown(s) && (step.CallFlush? || step.CallStop? || step.Start?)
    ensures WaitersKnown(Do(c, s, step))
  {
    var t := Do(c, s, step);
    CallShape(c, s, step);
    if t.waiters == s.waiters {
      AppendKeepsWaiters(s, t);
    } else {
      JoinsWaiters(s, t, |s.frames|);
    }
  }

  lemma ActorKeepsWaiters(c: Config, s: State, step: Step, i: nat)
    requires Can(s, step) && WaitersKnown(s) && Actor(step) == Some(i)
    ensures WaitersKnown(Do(c, s, step))
  {
    hide Do, Can, WaitersKnown;
    ActorShape(c, s, step);
    var t := Do(c, s, step);
    if step.Acquire? {
      HeadLeaves(s, t);
    } else if t.frames[i].WaitsForLock() {
      JoinsWaiters(s, t, i);
    } else {
      NoWaiters(s.waiters);
      OthersKeepWaiters(s, t, i);
    }
  }

  lemma StepKeepsWaiters(c: Config, s: State, step: Step)
    requires Can(s, step) && WaitersKnown(s)
    ensures WaitersKnown(Do(c, s, step))
  {
    hide Do, Can, WaitersKnown;
    if step.CallFlush? || step.CallStop? || step.Start? {
      CallKeepsWaiters(c, s, step);
    } else if step.Record? {
      RecordOnly(c, s);
      RecordShape(c, s);
      SameWaiters(s, Do(c, s, step));
    } else {
      ActorKeepsWaiters(c, s, step, Actor(step).value);
    }
  }

  lemma SameWaiters(s: State, t: State)
    requires WaitersKnown(s) && t.waiters == s.waiters && t.frames == s.frames
    ensures WaitersKnown(t)
  {
  }

  // ------------------------------------------------------------ nobody idles

  /**
    A frame between two steps: whoever waits to write or writes has something to write, but
    no more than a batch, and a drain knows whether its batch is a short, last one.
   */
  predicate Suspended(c: Config, f: Frame) {
    && !f.Called?
    && (f.AwaitingLock? || f.Writing? || f.Draining? ==> f.Held() != [])
    && |f.Held()| <= Max(1, c.batchSize)
    && (f.Draining? ==> (f.last <==> |f.batch| < c.batchSize))
    && (f.IsWriter() ==> c.enabled)
  }

  ghost predicate AllSuspended(c: Config, s: State) {
    forall i | 0 <= i < |s.frames| :: Suspended(c, s.frames[i])
  }

  lemma DrainSuspends(c: Config, s: State, i: nat, mark: nat)
    requires i < |s.frames|
    ensures Suspended(c, DoDrain(c, s, i, mark).frames[i])
  {
  }

  lemma CollectSuspends(c: Config, s: State, i: nat)
    requires Can(s, Collect(i)) && Suspended(c, s.frames[i])
    ensures i < |DoCollect(c, s, i).frames| && Suspended(c, DoCollect(c, s, i).frames[i])
  {
  }

  /** The stretches of a writer, and those that end in a drain. */
  lemma WriterSuspends(c: Config, s: State, step: Step, i: nat)
    requires Can(s, step) && Actor(step) == Some(i) && s.frames[i].IsWriter() && Suspended(c, s.frames[i])
    ensures i < |Do(c, s, step).frames| && Suspended(c, Do(c, s, step).frames[i])
  {
    hide DoDrain, DoCollect;
    if step.Collect? {
      CollectSuspends(c, s, i);
    }
  }

  lemma CallSuspends(c: Config, s: State, step: Step, i: nat)
    requires Can(s, step) && Actor(step) == Some(i) && !s.frames[i].IsWriter()
    ensures i < |Do(c, s, step).frames| && Suspended(c, Do(c, s, step).frames[i])
  {
    hide DoDrain, Finish;
    var mark := s.frames[i].mark;
    FinishShape(c, s, i, true, Returned(mark));
    if step.EndDrainWrite? {
      FinishShape(c, s, i, step.ok, Returned(mark));
      FinishShape(c, s, i, step.ok, Called(mark));
      DrainShape(c, Finish(c, s, i, step.ok, Called(mark)), i, mark);
      DrainSuspends(c, Finish(c, s, i, step.ok, Called(mark)), i, mark);
    } else if step.Acquire? {
      DrainShape(c, s.(waiters := s.waiters[1..]), i, mark);
      DrainSuspends(c, s.(waiters := s.waiters[1..]), i, mark);
    } else {
      DrainShape(c, s.(task := None, stopping := false), i, mark);
      DrainSuspends(c, s.(task := None, stopping := false), i, mark);
    }
  }

  lemma EnterSuspends(c: Config, s: State, step: Step)
    requires step.CallFlush? || step.CallStop? || step.Start?
    ensures forall j | |s.frames| <= j < |Do(c, s, step).frames| :: Suspended(c, Do(c, s, step).frames[j])
  {
    DrainSuspends(c, Enter(s, Called(s.log.accepted)), |s.frames|, s.log.accepted);
  }

  lemma StepKeepsSuspended(c: Config, s: State, step: Step)
    requires Can(s, step) && AllSuspended(c, s)
    ensures AllSuspended(c, Do(c, s, step))
  {
    hide Do, Can, Suspended, Affects;
    var t := Do(c, s, step);
    if step.CallFlush? || step.CallStop? || step.Start? {
      CallShape(c, s, step);
      EnterSuspends(c, s, step);
      assert forall j | 0 <= j < |s.frames| :: t.frames[j] == t.frames[..|s.frames|][j];
    } else if step.Record? {
      RecordOnly(c, s);
    } else {
      var i := Actor(step).value;
      ActorShape(c, s, step);
      if s.frames[i].IsWriter() {
        WriterSuspends(c, s, step, i);
      } else {
        CallSuspends(c, s, step, i);
      }
    }
  }

  // -------------------------------------------------------------- all together

  ghost predicate Coherent(c: Config, s: State) {
    Inv(c, s) && StopsAwaited(s) && WaitersKnown(s) && AllSuspended(c, s)
  }

  lemma InitCoherent(c: Config)
    ensures Coherent(c, INIT)
  {
    InitInv(c);
  }

  lemma InvTasks(c: Config, s: State)
    requires Inv(c, s)
    ensures TasksKnown(s)
  {
  }

  lemma StepKeepsCoherent(c: Config, s: State, step: Step)
    requires Can(s, step) && Coherent(c, s)
    ensures Coherent(c, Do(c, s, step))
  {
    hide Do, Can, Inv, StopsAwaited, WaitersKnown, AllSuspended;
    InvTasks(c, s);
    StepKeepsInv(c, s, step);
    StepKeepsAwaited(c, s, step);
    StepKeepsWaiters(c, s, step);
    StepKeepsSuspended(c, s, step);
  }

  lemma {:induction false} RunKeepsCoherent(c: Config, s: State, steps: seq<Step>)
    requires Coherent(c, s) && Run(c, s, steps)
    ensures Coherent(c, After(c, s, steps))
    decreases |steps|
  {
    hide Do, Can, Coherent;
    if steps != [] {
      RunKeepsCoherent(c, s, Front(steps));
      StepKeepsCoherent(c, After(c, s, Front(steps)), Last(steps));
    }
  }

  lemma ReachableCoherent(c: Config, s: State)
    requires Reachable(c, s)
    ensures Coherent(c, s)
  {
    var steps :| Run(c, INIT, steps) && After(c, INIT, steps) == s;
    InitCoherent(c);
    RunKeepsCoherent(c, INIT, steps);
  }

  /** While no stop waits, nobody is asked to stop and the writer in `_task`, if any, is running. */
  lemma QuietTask(c: Config, s: State)
    requires Reachable(c, s) && forall j | 0 <= j < |s.frames| :: !s.frames[j].AwaitingWriter?
    ensures !s.stopping
    ensures s.task.Some? ==> WriterAt(s.frames, s.task.value) && s.frames[s.task.value].Live()
  {
    ReachableCoherent(c, s);
  }
}
