/** What holds of every run of the audit service. */
module AuditTheorems {
  import opened Common
  import opened AuditProtocol
  import opened AuditInvariants
  import opened AuditShapes

  lemma InitInv(c: Config)
    ensures Inv(c, INIT)
  {
  }

  lemma ReachableInv(c: Config, s: State)
    requires Reachable(c, s)
    ensures Inv(c, s)
  {
    var steps :| Run(c, INIT, steps) && After(c, INIT, steps) == s;
    InitInv(c);
    RunKeepsInv(c, INIT, steps);
  }

  // ------------------------------------------------- each record in one place

  /** The places a record can be in. */
  datatype Place = InQueue | InFrame(frame: nat) | Committed | Failed | Dropped

  ghost function At(s: State, p: Place): seq<Record> {
    match p
    case InQueue => s.queue
    case InFrame(i) => if i < |s.frames| then s.frames[i].Held() else []
    case Committed => s.log.committed
    case Failed => s.log.failed
    case Dropped => s.log.dropped
  }

  lemma {:induction false} HeldSomewhere(frames: seq<Frame>, r: Record) returns (i: nat)
    requires HeldCount(frames, r) > 0
    ensures i < |frames| && Count(frames[i].Held(), r) > 0
  {
    if Count(Last(frames).Held(), r) > 0 {
      i := |frames| - 1;
    } else {
      i := HeldSomewhere(Front(frames), r);
    }
  }

  lemma HeldCountAtLeast(frames: seq<Frame>, i: nat, r: Record)
    requires i < |frames|
    ensures HeldCount(frames, r) >= Count(frames[i].Held(), r)
  {
    HeldAfterSet(frames, i, Exited, r);
  }

  lemma HeldCountAtLeastTwo(frames: seq<Frame>, i: nat, j: nat, r: Record)
    requires i < |frames| && j < |frames| && i != j
    ensures HeldCount(frames, r) >= Count(frames[i].Held(), r) + Count(frames[j].Held(), r)
  {
    HeldAfterSet(frames, i, Exited, r);
    HeldCountAtLeast(frames[i := Exited], j, r);
  }

  lemma PlaceCounts(s: State, p: Place, r: Record)
    ensures Count(At(s, p), r) <= Occurrences(s, r)
    ensures r in At(s, p) <==> Count(At(s, p), r) > 0
  {
    CountIsMembership(At(s, p), r);
    if p.InFrame? && p.frame < |s.frames| {
      HeldCountAtLeast(s.frames, p.frame, r);
    }
  }

  lemma TwoPlacesCount(s: State, p: Place, q: Place, r: Record)
    requires p != q
    ensures Count(At(s, p), r) + Count(At(s, q), r) <= Occurrences(s, r)
  {
    if p.InFrame? && p.frame < |s.frames| {
      HeldCountAtLeast(s.frames, p.frame, r);
      if q.InFrame? && q.frame < |s.frames| {
        HeldCountAtLeastTwo(s.frames, p.frame, q.frame, r);
      }
    }
    if q.InFrame? && q.frame < |s.frames| {
      HeldCountAtLeast(s.frames, q.frame, r);
    }
  }

  lemma SomePlace(s: State, r: Record) returns (p: Place)
    requires Occurrences(s, r) > 0
    ensures r in At(s, p)
  {
    if Count(s.queue, r) > 0 {
      p := InQueue;
    } else if Count(s.log.committed, r) > 0 {
      p := Committed;
    } else if Count(s.log.failed, r) > 0 {
      p := Failed;
    } else if Count(s.log.dropped, r) > 0 {
      p := Dropped;
    } else {
      var i := HeldSomewhere(s.frames, r);
      p := InFrame(i);
    }
    CountIsMembership(At(s, p), r);
  }

  /** In every reachable state each accepted record is in exactly one place, once. */
  lemma ExactlyOnePlace(c: Config, s: State, r: Record)
    requires Reachable(c, s)
    ensures r < s.log.accepted <==> exists p :: r in At(s, p)
    ensures forall p, q :: r in At(s, p) && r in At(s, q) ==> p == q
    ensures forall p :: Count(At(s, p), r) <= 1
  {
    ReachableInv(c, s);
    if r < s.log.accepted {
      var p := SomePlace(s, r);
    }
    forall p ensures Count(At(s, p), r) <= 1 && (r in At(s, p) ==> r < s.log.accepted) {
      PlaceCounts(s, p, r);
    }
    forall p, q | r in At(s, p) && r in At(s, q) ensures p == q {
      PlaceCounts(s, p, r);
      PlaceCounts(s, q, r);
      if p != q {
        TwoPlacesCount(s, p, q, r);
      }
    }
  }

  /** The counters balance, the queue is bounded, and at most one writer holds the lock. */
  lemma CountersBalance(c: Config, s: State)
    requires Reachable(c, s)
    ensures s.stats.queued == s.log.accepted
    ensures s.stats.queued
         == s.stats.dropped + s.stats.written + s.stats.failed + |s.queue| + HeldSize(s.frames)
    ensures c.capacity > 0 ==> |s.queue| <= c.capacity
    ensures forall i, j | 0 <= i < |s.frames| && 0 <= j < |s.frames| ::
      s.frames[i].Writing? && s.frames[j].Writing? ==> i == j
  {
    ReachableInv(c, s);
    forall i, j | 0 <= i < |s.frames| && 0 <= j < |s.frames| && s.frames[i].Writing? && s.frames[j].Writing?
      ensures i == j
    {
      WritersAfterSet(s.frames, i, Exited);
      WritersAfterSet(s.frames[i := Exited], j, Exited);
    }
  }

  // ----------------------------------------------------------------- settling

  ghost predicate HeldByLive(s: State, r: Record) {
    exists i: nat :: i < |s.frames| && s.frames[i].Live() && r in s.frames[i].Held()
  }

  /**
    Once a flush or stop has returned, a record accepted before its call is
    settled unless some other coroutine still holds it; it is never in the queue.
   */
  lemma ReturnedSettles(c: Config, s: State, i: nat, r: Record)
    requires Inv(c, s) && i < |s.frames| && s.frames[i].Returned? && r < s.frames[i].mark
    ensures r !in s.queue
    ensures s.Settled(r) <==> !HeldByLive(s, r)
  {
    assert MarkKept(s, s.frames[i]);
    var p := SomePlace(s, r);
    if p.InFrame? {
      assert s.frames[p.frame].Live();
    }
    PlaceCounts(s, p, r);
    if HeldByLive(s, r) {
      var j: nat :| j < |s.frames| && s.frames[j].Live() && r in s.frames[j].Held();
      forall q | r in At(s, q) ensures q == InFrame(j) {
        PlaceCounts(s, q, r);
        PlaceCounts(s, InFrame(j), r);
        if q != InFrame(j) {
          TwoPlacesCount(s, q, InFrame(j), r);
        }
      }
      assert r !in At(s, Committed) && r !in At(s, Failed) && r !in At(s, Dropped);
    }
  }

  /** A disabled service holds nothing. */
  lemma DisabledHoldsNothing(c: Config, s: State, i: nat)
    requires i < |s.frames| && Inv(c, s)
    ensures !c.enabled ==> s.frames[i].Held() == []
  {
    HeldSizeAfterSet(s.frames, i, Exited);
  }

  lemma SettledOnce(s: State, r: Record)
    requires Conserved(s) && s.Settled(r)
    ensures Count(s.log.committed, r) + Count(s.log.failed, r) + Count(s.log.dropped, r) == 1
  {
    CountIsMembership(s.log.committed, r);
    CountIsMembership(s.log.failed, r);
    CountIsMembership(s.log.dropped, r);
    assert Occurrences(s, r) <= 1;
  }

  // ------------------------------------------------------- runs in two pieces

  lemma {:induction false} RunAppend(c: Config, s: State, a: seq<Step>, b: seq<Step>)
    requires Run(c, s, a) && Run(c, After(c, s, a), b)
    ensures Run(c, s, a + b)
    ensures After(c, s, a + b) == After(c, After(c, s, a), b)
    decreases |b|
  {
    hide Do, Can;
    if b == [] {
      assert a + b == a;
    } else {
      RunAppend(c, s, a, Front(b));
      assert Front(a + b) == a + Front(b);
    }
  }

  lemma RunOne(c: Config, s: State, step: Step)
    requires Can(s, step)
    ensures Run(c, s, [step]) && After(c, s, [step]) == Do(c, s, step)
  {
    assert Front([step]) == [];
  }

  /** Taking `first` and then `steps` is running `steps` from where `first` leads. */
  lemma {:induction false} RunAfterFirst(c: Config, s: State, first: Step, steps: seq<Step>)
    requires Can(s, first)
    ensures Run(c, s, [first] + steps) <==> Run(c, Do(c, s, first), steps)
    ensures Run(c, s, [first] + steps) ==> After(c, s, [first] + steps) == After(c, Do(c, s, first), steps)
    decreases |steps|
  {
    hide Do, Can;
    if steps == [] {
      assert [first] + steps == [first];
      RunOne(c, s, first);
    } else {
      assert Front([first] + steps) == [first] + Front(steps);
      RunAfterFirst(c, s, first, Front(steps));
    }
  }

  /** No start, flush or stop is called along `steps`. */
  predicate Undisturbed(steps: seq<Step>) {
    forall step | step in steps :: !step.Start? && !step.CallFlush? && !step.CallStop?
  }

  // ------------------------------------------------------------ stop as barrier

  ghost predicate DeadBelow(frames: seq<Frame>, n: nat) {
    forall j | 0 <= j < n && j < |frames| :: !frames[j].Live()
  }

  /** Nothing runs but the writer in `_task`, if any. */
  ghost predicate OnlyTheWriter(s: State) {
    forall j: nat | j < |s.frames| :: s.frames[j].Live() ==> s.task == Some(j)
  }

  /** The stop in frame `i` waits for the one live writer, or nothing else is live. */
  ghost predicate StopOwns(t: State, i: nat, mark: nat) {
    && |t.frames| == i + 1
    && match t.frames[i]
       case AwaitingWriter(w, m) => m == mark && forall j: nat | j < i && j != w :: !t.frames[j].Live()
       case Draining(_, _, m) => m == mark && DeadBelow(t.frames, i)
       case Returned(m) => m == mark && DeadBelow(t.frames, i)
       case _ => false
  }

  lemma ActorOnly(c: Config, s: State, step: Step)
    requires Can(s, step) && Undisturbed([step])
    ensures match Actor(step)
      case None => Do(c, s, step).frames == s.frames
      case Some(k) =>
        && k < |s.frames| && s.frames[k].Live()
        && Do(c, s, step).frames == s.frames[k := Do(c, s, step).frames[k]]
  {
    hide Do, Can;
    assert step in [step];
    if Actor(step).Some? {
      ActorShape(c, s, step);
    } else {
      RecordOnly(c, s);
    }
  }

  lemma RecordOnly(c: Config, s: State)
    ensures Do(c, s, Step.Record) == DoRecord(c, s) && DoRecord(c, s).frames == s.frames
  {
  }

  lemma StopOwnsStep(c: Config, s: State, i: nat, mark: nat, step: Step)
    requires StopOwns(s, i, mark) && Can(s, step) && Undisturbed([step])
    ensures StopOwns(Do(c, s, step), i, mark)
  {
    hide Do, Affects;
    ActorOnly(c, s, step);
    var t := Do(c, s, step);
    if Actor(step) == Some(i) {
      ActorShape(c, s, step);
      assert forall j: nat | j < i :: t.frames[j] == s.frames[j];
    } else {
      assert t.frames[i] == s.frames[i];
    }
  }

  lemma CallStopOwned(c: Config, s: State)
    requires OnlyTheWriter(s)
    ensures Can(s, CallStop) && StopOwns(Do(c, s, CallStop), |s.frames|, s.log.accepted)
  {
  }

  lemma {:induction false} StopOwnsRun(c: Config, s: State, i: nat, mark: nat, steps: seq<Step>)
    requires StopOwns(s, i, mark) && Undisturbed(steps) && Run(c, s, steps)
    ensures StopOwns(After(c, s, steps), i, mark)
    decreases |steps|
  {
    hide Do, Can, StopOwns;
    if steps != [] {
      assert Last(steps) in steps;
      StopOwnsRun(c, s, i, mark, Front(steps));
      StopOwnsStep(c, After(c, s, Front(steps)), i, mark, Last(steps));
    }
  }

  lemma StopOwnerSettles(c: Config, t: State, i: nat, mark: nat, r: Record)
    requires Inv(c, t) && StopOwns(t, i, mark) && t.frames[i].Returned? && r < mark
    ensures t.Settled(r)
    ensures Count(t.log.committed, r) + Count(t.log.failed, r) + Count(t.log.dropped, r) == 1
    ensures DeadBelow(t.frames, |t.frames|)
  {
    assert !HeldByLive(t, r);
    ReturnedSettles(c, t, i, r);
    SettledOnce(t, r);
  }

  /**
    A stop called while only the writer runs, and not overlapped by another start,
    flush or stop: when it returns nothing is running, and every record accepted
    before the call is committed, failed or dropped, in one of the three only and
    once.  The state at the call is any reachable one, so this holds again after
    every restart.
   */
  lemma StopIsBarrier(c: Config, s: State, steps: seq<Step>, t: State, r: Record)
    requires Reachable(c, s) && OnlyTheWriter(s) && Undisturbed(steps)
    requires Run(c, s, [CallStop] + steps) && t == After(c, s, [CallStop] + steps)
    requires |s.frames| < |t.frames| && t.frames[|s.frames|].Returned?
    requires r < s.log.accepted
    ensures t.Settled(r)
    ensures Count(t.log.committed, r) + Count(t.log.failed, r) + Count(t.log.dropped, r) == 1
    ensures DeadBelow(t.frames, |t.frames|)
  {
    ReachableInv(c, s);
    RunKeepsInv(c, s, [CallStop] + steps);
    CallStopOwned(c, s);
    RunAfterFirst(c, s, CallStop, steps);
    StopOwnsRun(c, Do(c, s, CallStop), |s.frames|, s.log.accepted, steps);
    StopOwnerSettles(c, t, |s.frames|, s.log.accepted, r);
  }
}
