/** What becomes of each batch: which counter its write moves, and when a drain is over. */
module AuditOutcomes {
  import opened Common
  import opened AuditProtocol
  import opened AuditInvariants
  import opened AuditShapes
  import opened AuditTheorems
  import opened AuditReach

  // -------------------------------------------------------- committed and failed

  /** A write ends in this step: its commit returned (`ok`) or raised. */
  predicate EndsWrite(step: Step, ok: bool) {
    (step.EndWrite? && step.ok == ok) || (step.EndDrainWrite? && step.ok == ok)
  }

  /** The batches held at those steps of a run, one after the other. */
  ghost function Ended(c: Config, s: State, steps: seq<Step>, ok: bool): seq<Record>
    requires Run(c, s, steps)
  {
    if steps == [] then []
    else
      Ended(c, s, Front(steps), ok)
      + if EndsWrite(Last(steps), ok) then After(c, s, Front(steps)).frames[Last(steps).i].Held() else []
  }

  /** The two lists grow by what the step adds, and their counters with them. */
  ghost predicate Gains(s: State, t: State, committed: seq<Record>, failed: seq<Record>) {
    && t.log.committed == s.log.committed + committed && t.stats.written == s.stats.written + |committed|
    && t.log.failed == s.log.failed + failed && t.stats.failed == s.stats.failed + |failed|
  }

  lemma GainsNothing(s: State, t: State)
    requires t.log.committed == s.log.committed && t.log.failed == s.log.failed
    requires t.stats.written == s.stats.written && t.stats.failed == s.stats.failed
    ensures Gains(s, t, [], [])
  {
  }

  /** A successful commit counts its batch as written, one that raised as failed, and not both. */
  lemma FinishGains(c: Config, s: State, i: nat, ok: bool, next: Frame)
    requires i < |s.frames| && Inv(c, s)
    ensures var batch := s.frames[i].Held();
      Gains(s, Finish(c, s, i, ok, next), if ok then batch else [], if ok then [] else batch)
  {
    DisabledHoldsNothing(c, s, i);
    hide Inv;
    var batch := s.frames[i].Held();
    assert s.log.committed + [] == s.log.committed && s.log.failed + [] == s.log.failed;
  }

  lemma EndWriteGains(c: Config, s: State, step: Step)
    requires Can(s, step) && Inv(c, s) && (step.EndWrite? || step.EndDrainWrite?)
    ensures var batch := s.frames[step.i].Held();
      Gains(s, Do(c, s, step), if step.ok then batch else [], if step.ok then [] else batch)
  {
    hide Inv, Finish, DoDrain;
    var i, ok := step.i, step.ok;
    if step.EndWrite? {
      FinishGains(c, s, i, ok, NextPass(s));
    } else {
      var mark := s.frames[i].mark;
      FinishGains(c, s, i, ok, Returned(mark));
      FinishGains(c, s, i, ok, Called(mark));
      FinishShape(c, s, i, ok, Called(mark));
      DrainShape(c, Finish(c, s, i, ok, Called(mark)), i, mark);
    }
  }

  lemma OthersGainNothing(c: Config, s: State, step: Step)
    requires Can(s, step) && !step.EndWrite? && !step.EndDrainWrite?
    ensures Gains(s, Do(c, s, step), [], [])
  {
    hide Gains;
    GainsNothing(s, Do(c, s, step));
  }

  /**
    Over every run: committed are exactly the batches whose commits returned, in order, and
    failed those whose commits raised; `written` and `failed` count them.
   */
  lemma {:induction false} OutcomesExactly(c: Config, steps: seq<Step>)
    requires Run(c, INIT, steps)
    ensures var t := After(c, INIT, steps);
      && t.log.committed == Ended(c, INIT, steps, true) && t.stats.written == |Ended(c, INIT, steps, true)|
      && t.log.failed == Ended(c, INIT, steps, false) && t.stats.failed == |Ended(c, INIT, steps, false)|
  {
    hide Do, Can, Inv;
    if steps != [] {
      OutcomesExactly(c, Front(steps));
      var s := After(c, INIT, Front(steps));
      InitInv(c);
      RunKeepsInv(c, INIT, Front(steps));
      var step := Last(steps);
      if step.EndWrite? || step.EndDrainWrite? {
        EndedInFrame(s, step);
        EndWriteGains(c, s, step);
      } else {
        OthersGainNothing(c, s, step);
      }
    }
  }

  lemma EndedInFrame(s: State, step: Step)
    requires Can(s, step) && (step.EndWrite? || step.EndDrainWrite?)
    ensures step.i < |s.frames|
  {
  }

  // --------------------------------------------------------------- batch sizes

  /** In every reachable state nobody holds more than a batch, and one record if the batch size is not positive. */
  lemma BatchesBounded(c: Config, s: State, i: nat)
    requires Reachable(c, s) && i < |s.frames|
    ensures |s.frames[i].Held()| <= Max(1, c.batchSize)
  {
    ReachableCoherent(c, s);
    assert Suspended(c, s.frames[i]);
  }

  /** A drain returns right after a write exactly if the batch was short or nothing is queued by then. */
  lemma DrainEndsExactly(c: Config, s: State, i: nat, ok: bool)
    requires Reachable(c, s) && Can(s, EndDrainWrite(i, ok))
    ensures i < |s.frames| && i < |Do(c, s, EndDrainWrite(i, ok)).frames|
    ensures Do(c, s, EndDrainWrite(i, ok)).frames[i].Returned?
       <==> |s.frames[i].Held()| < c.batchSize || s.queue == []
  {
    ReachableCoherent(c, s);
    assert Suspended(c, s.frames[i]);
    hide Coherent;
    var mark := s.frames[i].mark;
    FinishShape(c, s, i, ok, Returned(mark));
    FinishShape(c, s, i, ok, Called(mark));
    hide Finish;
  }
}
