/** Which calls can return: waiting for the lock always ends, waiting for a writer does not. */
module AuditReturn {
  import opened Common
  import opened AuditProtocol
  import opened AuditInvariants
  import opened AuditShapes
  import opened AuditTheorems
  import opened AuditReach
  import opened AuditFlush
  import opened AuditStop

  // ---------------------------------------------------------------- the lock

  /** The stops that wait for a writer still wait for it, and the stop event is as it was. */
  ghost predicate StopsStay(s: State, t: State) {
    && |s.frames| <= |t.frames| && t.stopping == s.stopping
    && forall j | 0 <= j < |s.frames| && s.frames[j].AwaitingWriter? :: t.frames[j] == s.frames[j]
  }

  lemma StopsStayOn(s: State, t: State, u: State)
    requires StopsStay(s, t) && StopsStay(t, u)
    ensures StopsStay(s, u)
  {
  }

  /** What a step of the lock brings the waiter in frame `i`. */
  ghost predicate Nearer(s: State, t: State, i: nat, p: nat)
    requires i < |s.frames|
  {
    && |t.frames| == |s.frames|
    && if s.locked then !t.locked && t.waiters == s.waiters && t.frames[i] == s.frames[i]
       else if p > 0 then s.waiters != [] && t.waiters == s.waiters[1..] && t.frames[i] == s.frames[i]
       else if s.frames[i].AwaitingLock? then t.frames[i].Writing?
       else t.frames[i].Draining? || t.frames[i].Returned?
  }

  /** The step that brings a waiter nearer to the lock: the commit ends, or the head waiter gets it. */
  lemma LockMoves(c: Config, s: State, i: nat, p: nat) returns (step: Step)
    requires Coherent(c, s) && i < |s.frames| && s.frames[i].WaitsForLock()
    requires p < |s.waiters| && s.waiters[p] == i
    ensures Can(s, step) && Undisturbed([step])
    ensures StopsStay(s, Do(c, s, step)) && Nearer(s, Do(c, s, step), i, p)
  {
    if s.locked {
      var h := SomeoneWrites(s.frames);
      step := EndWrite(h, true);
    } else {
      assert Waits(s.frames, s.waiters[0]);
      step := Acquire(s.waiters[0]);
    }
  }

  /** Every waiter gets the lock, without new calls and without any stop going on. */
  lemma {:induction false} LockReached(c: Config, s: State, i: nat, p: nat) returns (steps: seq<Step>)
    requires Coherent(c, s) && i < |s.frames| && s.frames[i].WaitsForLock()
    requires p < |s.waiters| && s.waiters[p] == i
    ensures Run(c, s, steps) && Undisturbed(steps) && StopsStay(s, After(c, s, steps))
    ensures var t := After(c, s, steps);
      if s.frames[i].AwaitingLock? then t.frames[i].Writing? else t.frames[i].Draining? || t.frames[i].Returned?
    decreases p, s.locked
  {
    hide Coherent;
    var step := LockMoves(c, s, i, p);
    var t := Do(c, s, step);
    RunOne(c, s, step);
    StepKeepsCoherent(c, s, step);
    hide Do, Can, Run, After, StopsStay;
    if s.locked || p > 0 {
      var rest := LockReached(c, t, i, if s.locked then p else p - 1);
      RunAppend(c, s, [step], rest);
      steps := [step] + rest;
      StopsStayOn(s, t, After(c, s, steps));
    } else {
      steps := [step];
    }
  }

  lemma WaiterKnown(c: Config, s: State, i: nat) returns (p: nat)
    requires Coherent(c, s) && i < |s.frames| && s.frames[i].WaitsForLock()
    ensures p < |s.waiters| && s.waiters[p] == i
  {
    assert Waits(s.frames, i);
    p :| p < |s.waiters| && s.waiters[p] == i;
  }

  /** In every reachable state the waiters are known, and every waiting flush can return without new calls. */
  lemma WaitingFlushCanReturn(c: Config, s: State, i: nat) returns (steps: seq<Step>)
    requires Reachable(c, s) && i < |s.frames| && s.frames[i].FlushAwaitingLock?
    ensures WaitersKnown(s)
    ensures Run(c, s, steps) && Undisturbed(steps)
    ensures i < |After(c, s, steps).frames| && After(c, s, steps).frames[i].Returned?
  {
    ReachableCoherent(c, s);
    assert WaitersKnown(s);
    var p := WaiterKnown(c, s, i);
    hide Coherent, Run, After, WaitersKnown;
    var first := LockReached(c, s, i, p);
    var rest := DrainToReturn(c, After(c, s, first), i);
    RunAppend(c, s, first, rest);
    steps := first + rest;
  }

  // --------------------------------------------------------------- the writer

  /** How many stretches a writer still needs once it is asked to stop. */
  function Stage(f: Frame): nat {
    match f
    case Collecting(_) => 3
    case AwaitingLock(_) => 2
    case Writing(_) => 1
    case _ => 0
  }

  /** The writer's next stretch, if it need not wait for the lock. */
  lemma WriterMoves(c: Config, s: State, v: nat) returns (step: Step)
    requires v < |s.frames| && (s.frames[v].Collecting? || s.frames[v].Writing?) && s.stopping
    ensures Can(s, step) && Undisturbed([step])
    ensures var t := Do(c, s, step);
      StopsStay(s, t) && t.frames[v].IsWriter() && Stage(t.frames[v]) < Stage(s.frames[v])
  {
    step := if s.frames[v].Collecting? then Collect(v) else EndWrite(v, true);
  }

  /** A writer asked to stop gets one stretch further. */
  lemma WriterGoesOn(c: Config, s: State, v: nat) returns (steps: seq<Step>)
    requires Coherent(c, s) && v < |s.frames| && s.frames[v].IsWriter() && !s.frames[v].Exited? && s.stopping
    ensures Run(c, s, steps) && Undisturbed(steps) && StopsStay(s, After(c, s, steps))
    ensures var t := After(c, s, steps); t.frames[v].IsWriter() && Stage(t.frames[v]) < Stage(s.frames[v])
  {
    hide Coherent;
    if s.frames[v].AwaitingLock? {
      var p := WaiterKnown(c, s, v);
      hide Run, After;
      steps := LockReached(c, s, v, p);
    } else {
      var step := WriterMoves(c, s, v);
      RunOne(c, s, step);
      steps := [step];
    }
  }

  /** It can exit, without any stop going on before. */
  lemma {:induction false} WriterCanExit(c: Config, s: State, v: nat) returns (steps: seq<Step>)
    requires Coherent(c, s) && v < |s.frames| && s.frames[v].IsWriter() && s.stopping
    ensures Run(c, s, steps) && Undisturbed(steps) && StopsStay(s, After(c, s, steps))
    ensures After(c, s, steps).frames[v].Exited?
    decreases Stage(s.frames[v])
  {
    if s.frames[v].Exited? {
      steps := [];
    } else {
      hide Coherent, Run, After, Stage;
      var first := WriterGoesOn(c, s, v);
      RunKeepsCoherent(c, s, first);
      var rest := WriterCanExit(c, After(c, s, first), v);
      RunAppend(c, s, first, rest);
      steps := first + rest;
    }
  }

  // ------------------------------------------------------------- waiting stops

  /** The stop in frame `i` can return without new calls. */
  ghost predicate CanReturn(c: Config, s: State, i: nat) {
    exists steps :: Run(c, s, steps) && Undisturbed(steps)
                    && i < |After(c, s, steps).frames| && After(c, s, steps).frames[i].Returned?
  }

  /** Stop `i` waits for a writer that nobody asks to stop. */
  ghost predicate Stranded(s: State, i: nat, v: nat) {
    && i < |s.frames| && s.frames[i].AwaitingWriter? && s.frames[i].writer == v && !s.stopping
    && v < |s.frames| && s.frames[v].IsWriter() && !s.frames[v].Exited?
  }

  lemma StrandedStep(c: Config, s: State, i: nat, v: nat, step: Step)
    requires Stranded(s, i, v) && Can(s, step) && Undisturbed([step])
    ensures Stranded(Do(c, s, step), i, v)
  {
    ActorOnly(c, s, step);
    hide Do;
    if step.Record? {
      RecordOnly(c, s);
      hide Can;
      RecordShape(c, s);
    } else {
      assert step in [step];
      ActorShape(c, s, step);
    }
  }

  lemma {:induction false} StrandedRun(c: Config, s: State, i: nat, v: nat, steps: seq<Step>)
    requires Stranded(s, i, v) && Run(c, s, steps) && Undisturbed(steps)
    ensures Stranded(After(c, s, steps), i, v)
    decreases |steps|
  {
    hide Do, Can, Stranded;
    if steps != [] {
      UndisturbedFront(steps);
      StrandedRun(c, s, i, v, Front(steps));
      StrandedStep(c, After(c, s, Front(steps)), i, v, Last(steps));
    }
  }

  lemma ResumesToReturn(c: Config, s: State, i: nat) returns (steps: seq<Step>)
    requires Can(s, ResumeStop(i))
    ensures Run(c, s, steps) && Undisturbed(steps)
    ensures i < |After(c, s, steps).frames| && After(c, s, steps).frames[i].Returned?
  {
    var resume := ResumeStop(i);
    var t := Do(c, s, resume);
    DrainShape(c, s.(task := None, stopping := false), i, s.frames[i].mark);
    RunOne(c, s, resume);
    hide Run, After, Do, Can;
    var rest := DrainToReturn(c, t, i);
    RunAppend(c, s, [resume], rest);
    steps := [resume] + rest;
  }

  lemma StopReturnsThen(c: Config, s: State, i: nat)
    requires Coherent(c, s) && i < |s.frames| && s.frames[i].AwaitingWriter?
    requires WriterAt(s.frames, s.frames[i].writer)
    requires s.stopping || s.frames[s.frames[i].writer].Exited?
    ensures CanReturn(c, s, i)
  {
    var v := s.frames[i].writer;
    var first: seq<Step> := [];
    hide Coherent;
    if !s.frames[v].Exited? {
      first := WriterCanExit(c, s, v);
    }
    var t := After(c, s, first);
    var rest := ResumesToReturn(c, t, i);
    hide Run, After;
    RunAppend(c, s, first, rest);
    assert Undisturbed(first + rest);
  }

  /**
    From a reachable state a waiting stop can return without new calls if and only if its
    writer has exited or the stop event is set.
   */
  lemma StopCanReturnExactly(c: Config, s: State, i: nat)
    requires Reachable(c, s) && i < |s.frames| && s.frames[i].AwaitingWriter?
    ensures WriterAt(s.frames, s.frames[i].writer)
    ensures CanReturn(c, s, i) <==> s.stopping || s.frames[s.frames[i].writer].Exited?
  {
    ReachableCoherent(c, s);
    InvTasks(c, s);
    assert AwaitsWriter(s.frames, i);
    hide Coherent;
    var v := s.frames[i].writer;
    if s.stopping || s.frames[v].Exited? {
      StopReturnsThen(c, s, i);
    } else if CanReturn(c, s, i) {
      var steps :| Run(c, s, steps) && Undisturbed(steps)
                   && i < |After(c, s, steps).frames| && After(c, s, steps).frames[i].Returned?;
      StrandedRun(c, s, i, v, steps);
      assert false;
    }
  }

  /** The calls that ask every running writer to stop. */
  function Plea(s: State): seq<Step> {
    if s.task.Some? then [CallStop] else [Start, CallStop]
  }

  lemma PleaIsHeard(c: Config, s: State)
    requires c.enabled
    ensures Run(c, s, Plea(s))
    ensures var t := After(c, s, Plea(s)); t.stopping && |s.frames| <= |t.frames| && t.frames[..|s.frames|] == s.frames
  {
    if s.task.Some? {
      RunOne(c, s, CallStop);
    } else {
      var started := Do(c, s, Start);
      RunOne(c, s, Start);
      RunOne(c, started, CallStop);
      RunAppend(c, s, [Start], [CallStop]);
      assert [Start] + [CallStop] == [Start, CallStop];
    }
  }

  /** One more stop, after a start if no writer is in `_task`, lets every waiting stop return. */
  lemma PleaFreesStop(c: Config, s: State, i: nat)
    requires Reachable(c, s) && i < |s.frames| && s.frames[i].AwaitingWriter?
    ensures Run(c, s, Plea(s)) && CanReturn(c, After(c, s, Plea(s)), i)
  {
    ReachableCoherent(c, s);
    CoherentInv(c, s);
    InvTasks(c, s);
    assert AwaitsWriter(s.frames, i);
    var v := s.frames[i].writer;
    assert c.enabled by {
      assert Suspended(c, s.frames[v]);
    }
    hide Coherent, Run, After, CanReturn, Inv, TasksKnown, Plea;
    PleaIsHeard(c, s);
    RunKeepsCoherent(c, s, Plea(s));
    var t := After(c, s, Plea(s));
    assert t.frames[i] == t.frames[..|s.frames|][i] && t.frames[v] == t.frames[..|s.frames|][v];
    StopReturnsThen(c, t, i);
  }

  // --------------------------------------------- a stop that nobody lets return

  /**
    Two overlapping stops around a restart: the second one clears the event that a third
    has set for the restarted writer, and that third stop can return no more.
   */
  lemma StopCanBeStranded(c: Config) returns (s: State)
    requires c.enabled
    ensures Reachable(c, s) && |s.frames| == 5 && s.frames[4].AwaitingWriter? && !CanReturn(c, s, 4)
  {
    var before := RestartBetweenStops(c);
    s := Extend(c, before, After(c, INIT, before), CallStop);
    s := Extend(c, before + [CallStop], s, ResumeStop(2));
    assert s == Empty([Exited, Returned(0), Returned(0), Collecting(None), AwaitingWriter(3, 0)], None, false);
    hide CanReturn;
    StopCanReturnExactly(c, s, 4);
  }
}
