/** A flush called while the only writer waits for the write lock or commits. */
module AuditLock {
  import opened Common
  import opened AuditProtocol
  import opened AuditInvariants
  import opened AuditShapes
  import opened AuditTheorems
  import opened AuditReach
  import opened AuditFlush
  import opened AuditStop

  /**
    The event loop wakes the first waiter before the getter that the releasing writer
    creates afterwards: no writer collects while the lock is free and somebody waits for it.
   */
  ghost predicate WakesFirst(c: Config, s: State, steps: seq<Step>)
    requires Run(c, s, steps)
    decreases |steps|
  {
    steps == [] ||
    (&& WakesFirst(c, s, Front(steps))
     && (Last(steps).Getter? || Last(steps).Collect? ==>
           var t := After(c, s, Front(steps)); t.locked || t.waiters == []))
  }

  /** Only writer `h` runs, and it waits for the lock or commits. */
  ghost predicate Committing(s: State, h: nat) {
    && h < |s.frames| && (s.frames[h].Writing? || s.frames[h].AwaitingLock?)
    && forall j | 0 <= j < |s.frames| && s.frames[j].Live() :: j == h
  }

  /** As Barrier, for the orders in which the event loop wakes waiters first. */
  ghost predicate PromptFlushBarrier(c: Config, s: State) {
    forall steps | Returns(c, s, CallFlush, steps) && WakesFirst(c, s, [CallFlush] + steps) ::
      SettledUpTo(After(c, s, [CallFlush] + steps), s.log.accepted)
  }

  // ------------------------------------------------------------- it holds if

  /** Where the lock is while the flush in frame `i` waits behind writer `h`. */
  predicate LockBehind(t: State, i: nat, h: nat)
    requires h < |t.frames|
  {
    match t.frames[h]
    case AwaitingLock(_) => !t.locked && t.waiters == [h, i]
    case Writing(_) => t.locked && t.waiters == [i]
    case Collecting(slot) => slot == None && !t.locked && t.waiters == [i]
    case _ => false
  }

  /** The flush in frame `i` waits behind the writer, and one drain will take the older records. */
  ghost predicate WaitsBehind(c: Config, t: State, i: nat, mark: nat, h: nat) {
    && |t.frames| == i + 1 && h < i && t.frames[i] == FlushAwaitingLock(mark)
    && !t.stopping && mark <= t.log.accepted && AtMostOld(t.queue, c.DrainSize(), mark)
    && (forall j | 0 <= j < i && j != h :: !t.frames[j].Live())
    && LockBehind(t, i, h)
  }

  lemma BehindActors(c: Config, t: State, i: nat, mark: nat, h: nat, step: Step)
    requires WaitsBehind(c, t, i, mark, h) && Can(t, step) && Undisturbed([step])
    requires step.Getter? || step.Collect? ==> t.locked || t.waiters == []
    ensures || step.Record?
            || (t.frames[h].AwaitingLock? && step == Acquire(h))
            || (t.frames[h].Writing? && step.EndWrite? && step.i == h)
            || (t.frames[h].Collecting? && step == Acquire(i))
  {
    ActorOnly(c, t, step);
  }

  lemma FlushAcquireOwns(c: Config, t: State, i: nat, mark: nat, h: nat)
    requires WaitsBehind(c, t, i, mark, h) && t.frames[h].Collecting? && Can(t, Acquire(i))
    ensures Owns(DoAcquire(c, t, i), i, mark)
  {
    DrainOwns(c, t.(waiters := t.waiters[1..]), i, mark);
  }

  lemma RecordBehind(c: Config, t: State, i: nat, mark: nat, h: nat)
    requires WaitsBehind(c, t, i, mark, h)
    ensures WaitsBehind(c, DoRecord(c, t), i, mark, h)
  {
    RecordShape(c, t);
  }

  lemma WriterAcquiresBehind(c: Config, t: State, i: nat, mark: nat, h: nat)
    requires WaitsBehind(c, t, i, mark, h) && t.frames[h].AwaitingLock?
    ensures WaitsBehind(c, DoAcquire(c, t, h), i, mark, h)
  {
  }

  lemma CommitEndsBehind(c: Config, t: State, i: nat, mark: nat, h: nat, ok: bool)
    requires WaitsBehind(c, t, i, mark, h) && t.frames[h].Writing?
    ensures WaitsBehind(c, DoEndWrite(c, t, h, ok), i, mark, h)
  {
    FinishShape(c, t, h, ok, NextPass(t));
    hide Finish;
  }

  lemma BehindStep(c: Config, t: State, i: nat, mark: nat, h: nat, step: Step)
    requires WaitsBehind(c, t, i, mark, h) && Can(t, step) && Undisturbed([step])
    requires step.Getter? || step.Collect? ==> t.locked || t.waiters == []
    ensures WaitsBehind(c, Do(c, t, step), i, mark, h) || Owns(Do(c, t, step), i, mark)
  {
    BehindActors(c, t, i, mark, h, step);
    hide WaitsBehind, Owns, DoAcquire, DoEndWrite, DoRecord;
    match step
    case Record => RecordBehind(c, t, i, mark, h);
    case EndWrite(_, ok) => CommitEndsBehind(c, t, i, mark, h, ok);
    case Acquire(k) =>
      if k == h {
        WriterAcquiresBehind(c, t, i, mark, h);
      } else {
        FlushAcquireOwns(c, t, i, mark, h);
      }
  }

  lemma CallFlushBehind(c: Config, s: State, h: nat)
    requires Coherent(c, s) && Committing(s, h)
    ensures LockBehind(Do(c, s, CallFlush), |s.frames|, h)
    ensures Do(c, s, CallFlush).frames == s.frames + [FlushAwaitingLock(s.log.accepted)]
    ensures var t := Do(c, s, CallFlush); !t.stopping && t.queue == s.queue && t.log == s.log
  {
    AloneAtLock(c, s, h);
  }

  lemma FlushBehind(c: Config, s: State, h: nat)
    requires Coherent(c, s) && Committing(s, h) && |s.queue| <= c.DrainSize()
    ensures WaitsBehind(c, Do(c, s, CallFlush), |s.frames|, s.log.accepted, h)
  {
    CallFlushBehind(c, s, h);
    hide Coherent, Do, LockBehind;
  }

  lemma {:induction false} BehindRun(c: Config, s: State, h: nat, steps: seq<Step>)
    requires Coherent(c, s) && Committing(s, h) && |s.queue| <= c.DrainSize()
    requires Undisturbed(steps) && Run(c, s, [CallFlush] + steps) && WakesFirst(c, s, [CallFlush] + steps)
    ensures var t := After(c, s, [CallFlush] + steps);
      WaitsBehind(c, t, |s.frames|, s.log.accepted, h) || Owns(t, |s.frames|, s.log.accepted)
    decreases |steps|
  {
    hide Do, WaitsBehind, Owns, Coherent, Committing;
    var all := [CallFlush] + steps;
    FlushBehind(c, s, h);
    if steps == [] {
      assert all == [CallFlush];
      RunOne(c, s, CallFlush);
    } else {
      assert Front(all) == [CallFlush] + Front(steps);
      UndisturbedFront(steps);
      BehindRun(c, s, h, Front(steps));
      var t := After(c, s, Front(all));
      if Owns(t, |s.frames|, s.log.accepted) {
        OwnsStep(c, t, |s.frames|, s.log.accepted, Last(steps));
      } else {
        BehindStep(c, t, |s.frames|, s.log.accepted, h, Last(steps));
      }
    }
  }

  lemma PromptFlushSettles(c: Config, s: State, h: nat)
    requires Coherent(c, s) && Committing(s, h) && |s.queue| <= c.DrainSize()
    ensures PromptFlushBarrier(c, s)
  {
    CoherentInv(c, s);
    hide Inv, Coherent, Committing, WaitsBehind, Owns;
    forall steps | Returns(c, s, CallFlush, steps) && WakesFirst(c, s, [CallFlush] + steps)
      ensures SettledUpTo(After(c, s, [CallFlush] + steps), s.log.accepted)
    {
      var t := After(c, s, [CallFlush] + steps);
      RunKeepsInv(c, s, [CallFlush] + steps);
      BehindRun(c, s, h, steps);
      BehindIsNotReturned(c, t, |s.frames|, s.log.accepted, h);
      OwnerSettles(c, t, |s.frames|, s.log.accepted);
    }
  }

  lemma BehindIsNotReturned(c: Config, t: State, i: nat, mark: nat, h: nat)
    ensures i < |t.frames| && t.frames[i].Returned? ==> !WaitsBehind(c, t, i, mark, h)
  {
  }

  // --------------------------------------------------------- and only if

  lemma {:induction false} WakesAppend(c: Config, s: State, a: seq<Step>, b: seq<Step>)
    requires Run(c, s, a) && Run(c, After(c, s, a), b)
    requires WakesFirst(c, s, a) && WakesFirst(c, After(c, s, a), b)
    ensures Run(c, s, a + b) && WakesFirst(c, s, a + b)
    decreases |b|
  {
    hide Do, Can;
    RunAppend(c, s, a, b);
    if b == [] {
      assert a + b == a;
    } else {
      RunAppend(c, s, a, Front(b));
      WakesAppend(c, s, a, Front(b));
      assert Front(a + b) == a + Front(b);
    }
  }

  lemma {:induction false} DrainingWakesFirst(c: Config, s: State, steps: seq<Step>)
    requires Run(c, s, steps) && forall step | step in steps :: step.EndDrainWrite?
    ensures WakesFirst(c, s, steps)
    decreases |steps|
  {
    hide Do, Can, After;
    if steps != [] {
      assert Last(steps) in steps;
      DrainingWakesFirst(c, s, Front(steps));
    }
  }

  lemma WakesOne(c: Config, s: State, step: Step)
    requires Can(s, step) && (step.Getter? || step.Collect? ==> s.locked || s.waiters == [])
    ensures Run(c, s, [step]) && WakesFirst(c, s, [step]) && After(c, s, [step]) == Do(c, s, step)
  {
    RunOne(c, s, step);
    assert Front([step]) == [];
    assert WakesFirst(c, s, []);
  }

  /** Frame `i` drains although the queue was longer than that; `h` has taken the next record. */
  ghost predicate TakenBehind(c: Config, s: State, t: State, i: nat, h: nat)
    requires |s.queue| > c.DrainSize()
  {
    && |t.frames| == |s.frames| && i < |t.frames| && h < |t.frames| && s.frames[i].FlushAwaitingLock?
    && t.frames[i].Draining? && t.frames[i].mark == s.frames[i].mark
    && t.frames[h] == Collecting(Some(s.queue[c.DrainSize()]))
  }

  /** The writer's step behind which the flush comes nearer; in the end its new getter takes a record. */
  lemma BehindMoves(c: Config, s: State, i: nat, h: nat) returns (step: Step)
    requires h < i < |s.frames| && s.frames[i].FlushAwaitingLock? && LockBehind(s, i, h)
    requires !s.stopping && |s.queue| > c.DrainSize()
    ensures Can(s, step) && !step.Getter? && !step.Collect? && Undisturbed([step])
    ensures var t := Do(c, s, step);
      && |t.frames| == |s.frames| && !t.stopping
      && if s.frames[h].Collecting?
         then t.frames[i].Draining? && t.frames[i].mark == s.frames[i].mark && t.frames[h] == Collecting(None)
              && t.queue == s.queue[c.DrainSize()..] && t.waiters == []
         else t.frames[i] == s.frames[i] && LockBehind(t, i, h) && t.queue == s.queue
              && Rank(t.frames[h]) < Rank(s.frames[h])
  {
    step := if s.frames[h].AwaitingLock? then Acquire(h)
            else if s.frames[h].Writing? then EndWrite(h, true)
            else Acquire(i);
    if s.frames[h].Writing? {
      FinishShape(c, s, h, true, NextPass(s));
    }
  }

  function Rank(f: Frame): nat {
    if f.AwaitingLock? then 2 else if f.Writing? then 1 else 0
  }

  /** The commit ends, the flush drains once, and the writer's new getter takes the next record. */
  lemma {:induction false} GetterAfterDrain(c: Config, s: State, i: nat, h: nat) returns (steps: seq<Step>)
    requires h < i < |s.frames| && s.frames[i].FlushAwaitingLock? && LockBehind(s, i, h)
    requires !s.stopping && |s.queue| > c.DrainSize()
    ensures Run(c, s, steps) && WakesFirst(c, s, steps) && Undisturbed(steps)
    ensures TakenBehind(c, s, After(c, s, steps), i, h)
    decreases Rank(s.frames[h])
  {
    var step := BehindMoves(c, s, i, h);
    var t := Do(c, s, step);
    WakesOne(c, s, step);
    var rest: seq<Step>;
    if s.frames[h].Collecting? {
      GetterTakes(c, t, h);
      WakesOne(c, t, Getter(h));
      rest := [Getter(h)];
      assert Do(c, t, Getter(h)).frames == t.frames[h := Collecting(Some(t.queue[0]))];
    } else {
      hide Do, Can, Run, After, WakesFirst, LockBehind;
      rest := GetterAfterDrain(c, t, i, h);
    }
    hide Do, Can, Run, After, WakesFirst, LockBehind;
    RunAppend(c, s, [step], rest);
    WakesAppend(c, s, [step], rest);
    steps := [step] + rest;
  }

  /** From where the flush waits: it returns while the writer keeps a record accepted before. */
  lemma SlipsBehind(c: Config, t: State, i: nat, h: nat) returns (steps: seq<Step>, r: Record)
    requires Inv(c, t) && h < i < |t.frames| && t.frames[i] == FlushAwaitingLock(t.log.accepted)
    requires LockBehind(t, i, h) && !t.stopping && |t.queue| > c.DrainSize()
    ensures Run(c, t, steps) && WakesFirst(c, t, steps) && Undisturbed(steps) && r < t.log.accepted
    ensures var u := After(c, t, steps); i < |u.frames| && u.frames[i].Returned? && !u.Settled(r)
  {
    QueueAccepted(c, t, c.DrainSize());
    hide Inv, LockBehind, Run, After, WakesFirst;
    r := t.queue[c.DrainSize()];
    var before := GetterAfterDrain(c, t, i, h);
    RunKeepsInv(c, t, before);
    var u := After(c, t, before);
    var rest := HolderSlips(c, u, i, h, r);
    DrainingWakesFirst(c, u, rest);
    WakesAppend(c, t, before, rest);
    RunAppend(c, t, before, rest);
    steps := before + rest;
  }

  lemma PromptFlushSlips(c: Config, s: State, h: nat)
    requires Coherent(c, s) && Committing(s, h) && |s.queue| > c.DrainSize()
    ensures !PromptFlushBarrier(c, s)
  {
    CallFlushBehind(c, s, h);
    CoherentInv(c, s);
    hide Coherent, Inv, Committing, LockBehind, Do;
    WakesOne(c, s, CallFlush);
    StepKeepsInv(c, s, CallFlush);
    hide Run, After, WakesFirst;
    var steps, r := SlipsBehind(c, Do(c, s, CallFlush), |s.frames|, h);
    WakesAppend(c, s, [CallFlush], steps);
    RunAppend(c, s, [CallFlush], steps);
    assert Returns(c, s, CallFlush, steps);
  }

  /**
    A flush called while the only writer waits for the lock or commits: with waiters woken
    first it settles everything accepted before it, the batch in flight included, on every
    interleaving if and only if one drain takes the whole queue.
   */
  lemma FlushDuringCommitExactly(c: Config, s: State, h: nat)
    requires Reachable(c, s) && Committing(s, h)
    ensures PromptFlushBarrier(c, s) <==> |s.queue| <= c.DrainSize()
  {
    ReachableCoherent(c, s);
    if |s.queue| <= c.DrainSize() {
      PromptFlushSettles(c, s, h);
    } else {
      PromptFlushSlips(c, s, h);
    }
  }
}
