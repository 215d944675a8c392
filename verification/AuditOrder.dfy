/** First in, first out: the order of records while one consumer runs at a time. */
module AuditOrder {
  import opened Common
  import opened AuditProtocol
  import opened AuditInvariants
  import opened AuditTheorems

  /** The records held by the frames, frame by frame. */
  ghost function HeldSeq(frames: seq<Frame>): seq<Record> {
    if frames == [] then [] else HeldSeq(Front(frames)) + Last(frames).Held()
  }

  /** Finished batches in the order they finished, then what is held, then the queue. */
  ghost function Pipeline(s: State): seq<Record> {
    s.log.settled + HeldSeq(s.frames) + s.queue
  }

  /** The accepted records without those dropped on overflow, in acceptance order. */
  ghost function Survivors(n: nat, dropped: seq<Record>): seq<Record> {
    if n == 0 then [] else Survivors(n - 1, dropped) + if n - 1 in dropped then [] else [n - 1]
  }

  ghost predicate SoleHolder(frames: seq<Frame>, i: nat) {
    forall j | 0 <= j < |frames| && j != i :: frames[j].Held() == []
  }

  lemma SoleHolderFront(frames: seq<Frame>, i: nat)
    requires SoleHolder(frames, i) && frames != []
    ensures SoleHolder(Front(frames), i) && (i != |frames| - 1 ==> Last(frames).Held() == [])
  {
    assert forall j | 0 <= j < |frames| - 1 :: Front(frames)[j] == frames[j];
  }

  lemma {:induction false} SoleHolderSeq(frames: seq<Frame>, i: nat)
    requires SoleHolder(frames, i)
    ensures HeldSeq(frames) == if i < |frames| then frames[i].Held() else []
  {
    hide SoleHolder;
    if frames != [] {
      SoleHolderFront(frames, i);
      SoleHolderSeq(Front(frames), i);
    }
  }

  lemma {:induction false} SameHeldSeq(frames: seq<Frame>, i: nat, f: Frame)
    requires i < |frames| && f.Held() == frames[i].Held()
    ensures HeldSeq(frames[i := f]) == HeldSeq(frames)
  {
    var changed := frames[i := f];
    assert Last(changed).Held() == Last(frames).Held();
    if i == |frames| - 1 {
      assert Front(changed) == Front(frames);
    } else {
      SameHeldSeq(Front(frames), i, f);
      assert Front(changed) == Front(frames)[i := f];
    }
  }

  lemma EnterHeldSeq(frames: seq<Frame>, f: Frame)
    requires f.Held() == []
    ensures HeldSeq(frames + [f]) == HeldSeq(frames)
  {
    assert Front(frames + [f]) == frames;
  }

  lemma Regroup(done: seq<Record>, held: seq<Record>, queue: seq<Record>, k: nat)
    requires k <= |queue|
    ensures done + (held + queue[..k]) + queue[k..] == done + held + queue
  {
  }

  lemma MovePipeline(s: State, i: nat, k: nat, f: Frame)
    requires i < |s.frames| && k <= |s.queue|
    requires f.Held() == s.frames[i].Held() + s.queue[..k]
    requires k == 0 || SoleHolder(s.frames, i)
    ensures Pipeline(Move(s, i, k, f)) == Pipeline(s)
  {
    if k == 0 {
      SameHeldSeq(s.frames, i, f);
    } else {
      SoleHolderSeq(s.frames, i);
      SoleHolderSeq(s.frames[i := f], i);
      Regroup(s.log.settled, s.frames[i].Held(), s.queue, k);
    }
  }

  lemma SoleHolderSet(frames: seq<Frame>, i: nat, f: Frame)
    requires i < |frames| && SoleHolder(frames, i)
    ensures SoleHolder(frames[i := f], i)
  {
  }

  /** The held records have all been settled. */
  lemma SettledPipeline(s: State, t: State, batch: seq<Record>)
    requires HeldSeq(s.frames) == batch && HeldSeq(t.frames) == []
    requires t.queue == s.queue && t.log.settled == s.log.settled + batch
    ensures Pipeline(t) == Pipeline(s)
  {
    hide HeldSeq;
    assert t.log.settled + [] == t.log.settled;
  }

  lemma FinishPipeline(c: Config, s: State, i: nat, ok: bool, f: Frame)
    requires i < |s.frames| && f.Held() == [] && SoleHolder(s.frames, i)
    requires Inv(c, s)
    ensures Pipeline(Finish(c, s, i, ok, f)) == Pipeline(s)
  {
    hide Inv, SoleHolder, HeldSeq, Finish, Pipeline;
    DisabledHoldsNothing(c, s, i);
    SoleHolderSeq(s.frames, i);
    SoleHolderSet(s.frames, i, f);
    SoleHolderSeq(s.frames[i := f], i);
    FinishSettles(c, s, i, ok, f);
    SettledPipeline(s, Finish(c, s, i, ok, f), s.frames[i].Held());
  }

  lemma FinishSettles(c: Config, s: State, i: nat, ok: bool, f: Frame)
    requires i < |s.frames|
    ensures var t := Finish(c, s, i, ok, f);
      && t.frames == s.frames[i := f] && t.queue == s.queue
      && t.log.settled == s.log.settled + if c.enabled then s.frames[i].Held() else []
  {
    assert s.log.settled + [] == s.log.settled;
  }

  /** At most one coroutine takes records out of the queue or holds some. */
  ghost predicate Solo(s: State) {
    forall i, j | 0 <= i < |s.frames| && 0 <= j < |s.frames| ::
      s.frames[i].Consumer() && s.frames[j].Consumer() ==> i == j
  }

  lemma SoloHolder(s: State, i: nat)
    requires Solo(s) && i < |s.frames| && s.frames[i].Consumer()
    ensures SoleHolder(s.frames, i)
  {
    forall j | 0 <= j < |s.frames| && j != i ensures s.frames[j].Held() == [] {
      assert !s.frames[j].Consumer();
    }
  }

  lemma DrainPipeline(c: Config, s: State, i: nat, mark: nat)
    requires i < |s.frames| && s.frames[i].Held() == []
    requires Solo(DoDrain(c, s, i, mark)) || SoleHolder(s.frames, i)
    ensures Pipeline(DoDrain(c, s, i, mark)) == Pipeline(s)
  {
    var t := DoDrain(c, s, i, mark);
    if s.queue == [] {
      MovePipeline(s, i, 0, Returned(mark));
    } else {
      assert SoleHolder(s.frames, i) by {
        if Solo(t) {
          SoloHolder(t, i);
          assert forall j | 0 <= j < |s.frames| && j != i :: t.frames[j] == s.frames[j];
        }
      }
      MovePipeline(s, i, Min(c.DrainSize(), |s.queue|), t.frames[i]);
    }
  }

  lemma EndDrainWritePipeline(c: Config, s: State, i: nat, ok: bool)
    requires Can(s, EndDrainWrite(i, ok)) && Inv(c, s) && Solo(s)
    ensures Pipeline(DoEndDrainWrite(c, s, i, ok)) == Pipeline(s)
  {
    var mark := s.frames[i].mark;
    SoloHolder(s, i);
    if s.frames[i].last {
      FinishPipeline(c, s, i, ok, Returned(mark));
    } else {
      FinishPipeline(c, s, i, ok, Called(mark));
      DrainPipeline(c, Finish(c, s, i, ok, Called(mark)), i, mark);
    }
  }

  lemma CollectPipeline(c: Config, s: State, i: nat)
    requires Can(s, Collect(i)) && Solo(s)
    ensures Pipeline(DoCollect(c, s, i)) == Pipeline(s)
  {
    SoloHolder(s, i);
    var got := s.frames[i].Held();
    var k := Room(c, |got|, |s.queue|);
    MovePipeline(s, i, k, DoCollect(c, s, i).frames[i]);
  }

  lemma AcquirePipeline(c: Config, s: State, i: nat)
    requires Can(s, Acquire(i)) && Solo(DoAcquire(c, s, i))
    ensures Pipeline(DoAcquire(c, s, i)) == Pipeline(s)
  {
    match s.frames[i]
    case AwaitingLock(b) => MovePipeline(s, i, 0, Writing(b));
    case FlushAwaitingLock(m) => DrainPipeline(c, s.(waiters := s.waiters[1..]), i, m);
  }

  lemma CallPipeline(c: Config, s: State, step: Step)
    requires step.CallFlush? || step.CallStop?
    requires Solo(Do(c, s, step))
    ensures Pipeline(Do(c, s, step)) == Pipeline(s)
  {
    hide DoDrain, HeldSeq;
    var mark := s.log.accepted;
    EnterHeldSeq(s.frames, Called(mark));
    if step.CallFlush? && !s.LockFree() {
      EnterHeldSeq(s.frames, FlushAwaitingLock(mark));
    } else if step.CallStop? && s.task.Some? {
      EnterHeldSeq(s.frames, AwaitingWriter(s.task.value, mark));
    } else {
      DrainPipeline(c, Enter(s, Called(mark)), |s.frames|, mark);
    }
  }

  /** Apart from record(), a step moves records along the pipeline without reordering it. */
  lemma StepPipeline(c: Config, s: State, step: Step)
    requires Can(s, step) && Inv(c, s) && Solo(s) && Solo(Do(c, s, step)) && !step.Record?
    ensures Pipeline(Do(c, s, step)) == Pipeline(s)
  {
    match step
    case Getter(i) =>
      SoloHolder(s, i);
      MovePipeline(s, i, 1, Collecting(Some(s.queue[0])));
    case Collect(i) => CollectPipeline(c, s, i);
    case Acquire(i) => AcquirePipeline(c, s, i);
    case EndWrite(i, ok) =>
      SoloHolder(s, i);
      FinishPipeline(c, s, i, ok, NextPass(s));
    case EndDrainWrite(i, ok) => EndDrainWritePipeline(c, s, i, ok);
    case Start => EnterHeldSeq(s.frames, Collecting(None));
    case CallFlush => CallPipeline(c, s, step);
    case CallStop => CallPipeline(c, s, step);
    case ResumeStop(i) => DrainPipeline(c, s.(task := None, stopping := false), i, s.frames[i].mark);
  }

  lemma PipelineMembers(s: State, r: Record)
    requires Conserved(s)
    ensures r in Pipeline(s) <==> r < s.log.accepted && r !in s.log.dropped
  {
    CountIsMembership(s.log.dropped, r);
    CountIsMembership(s.queue, r);
    CountIsMembership(s.log.settled, r);
    HeldSeqCount(s.frames, r);
    CountIsMembership(HeldSeq(s.frames), r);
    assert Occurrences(s, r) == if r < s.log.accepted then 1 else 0;
  }

  lemma {:induction false} HeldSeqCount(frames: seq<Frame>, r: Record)
    ensures Count(HeldSeq(frames), r) == HeldCount(frames, r)
  {
    if frames != [] {
      HeldSeqCount(Front(frames), r);
      CountAppend(HeldSeq(Front(frames)), Last(frames).Held(), r);
    }
  }

  lemma AscendingAppend(front: seq<Record>, queue: seq<Record>, r: Record)
    requires Ascending(front + queue) && forall j | 0 <= j < |front + queue| :: (front + queue)[j] < r
    ensures Ascending(front + (queue + [r]))
    ensures queue != [] ==> Ascending(front + (queue[1..] + [r]))
  {
    var p := front + queue;
    assert front + (queue + [r]) == p + [r];
    if queue != [] {
      assert front + (queue[1..] + [r]) == p[..|front|] + p[|front| + 1..] + [r];
    }
  }

  lemma RecordPipeline(c: Config, s: State)
    requires Inv(c, s) && Ascending(Pipeline(s))
    ensures Ascending(Pipeline(DoRecord(c, s)))
  {
    var p := Pipeline(s);
    forall j | 0 <= j < |p| ensures p[j] < s.log.accepted {
      PipelineMembers(s, p[j]);
    }
    AscendingAppend(s.log.settled + HeldSeq(s.frames), s.queue, s.log.accepted);
  }

  lemma {:induction false} SurvivorsAscend(n: nat, dropped: seq<Record>)
    ensures Ascending(Survivors(n, dropped))
    ensures forall r: Record :: r in Survivors(n, dropped) <==> r < n && r !in dropped
  {
    if n > 0 {
      SurvivorsAscend(n - 1, dropped);
      var before := Survivors(n - 1, dropped);
      assert forall j | 0 <= j < |before| :: before[j] in before;
    }
  }

  lemma {:induction false} AscendingUnique(a: seq<Record>, b: seq<Record>)
    requires Ascending(a) && Ascending(b)
    requires forall r: Record :: r in a <==> r in b
    ensures a == b
    decreases |a|
  {
    assert a != [] ==> Last(a) in b;
    assert b != [] ==> Last(b) in a;
    if a != [] {
      assert Last(a) == Last(b);
      forall r: Record ensures r in Front(a) <==> r in Front(b) {
        LastIsGreatest(a, r);
        LastIsGreatest(b, r);
      }
      AscendingUnique(Front(a), Front(b));
    }
  }

  lemma LastIsGreatest(a: seq<Record>, r: Record)
    requires a != [] && Ascending(a)
    ensures r in Front(a) <==> r in a && r != Last(a)
  {
    assert a == Front(a) + [Last(a)];
  }

  // ---------------------------------------------------------- orderly histories

  /** Start and stop are called only while nothing but the writer runs; flush never. */
  ghost predicate Orderly(c: Config, s: State, steps: seq<Step>)
    requires Run(c, s, steps)
    decreases |steps|
  {
    steps != [] ==>
      && Orderly(c, s, Front(steps))
      && !Last(steps).CallFlush?
      && (Last(steps).Start? || Last(steps).CallStop? ==> OnlyTheWriter(After(c, s, Front(steps))))
  }

  /** Only the writer runs, or only the latest stop and the writer it waits for. */
  ghost predicate Calm(s: State) {
    OnlyTheWriter(s) || LatestStopOwns(s)
  }

  ghost predicate LatestStopOwns(s: State) {
    && s.frames != [] && Last(s.frames).Marked()
    && StopOwns(s, |s.frames| - 1, Last(s.frames).mark)
  }

  lemma CalmIsSolo(s: State)
    requires Calm(s)
    ensures Solo(s)
  {
  }

  lemma OnlyTheWriterStep(c: Config, s: State, step: Step)
    requires Can(s, step) && Undisturbed([step]) && OnlyTheWriter(s) && TasksKnown(s)
    ensures OnlyTheWriter(Do(c, s, step))
  {
    ActorOnly(c, s, step);
    assert step in [step];
  }

  lemma CallStopOwns(c: Config, s: State)
    requires OnlyTheWriter(s)
    ensures StopOwns(DoCallStop(c, s), |s.frames|, s.log.accepted)
  {
  }

  lemma StopOwnsKeepsMark(t: State, i: nat, mark: nat)
    ensures StopOwns(t, i, mark) ==> LatestStopOwns(t)
  {
  }

  lemma CalmStep(c: Config, s: State, step: Step)
    requires Can(s, step) && Calm(s) && TasksKnown(s) && !step.CallFlush?
    requires step.Start? || step.CallStop? ==> OnlyTheWriter(s)
    ensures Calm(Do(c, s, step))
  {
    if step.CallStop? {
      CallStopOwns(c, s);
    } else if step.Start? {
      assert OnlyTheWriter(DoStart(c, s));
    } else if OnlyTheWriter(s) {
      OnlyTheWriterStep(c, s, step);
    } else {
      hide Do, TasksKnown;
      assert Undisturbed([step]);
      StopOwnsKeepsMark(Do(c, s, step), |s.frames| - 1, Last(s.frames).mark);
      StopOwnsStep(c, s, |s.frames| - 1, Last(s.frames).mark, step);
    }
  }

  lemma {:induction false} OrderlyAscends(c: Config, steps: seq<Step>)
    requires Run(c, INIT, steps) && Orderly(c, INIT, steps)
    ensures Inv(c, After(c, INIT, steps)) && Calm(After(c, INIT, steps))
    ensures Ascending(Pipeline(After(c, INIT, steps)))
    decreases |steps|
  {
    if steps == [] {
      InitInv(c);
    } else {
      var s := After(c, INIT, Front(steps));
      OrderlyAscends(c, Front(steps));
      OrderlyStep(c, s, Last(steps));
    }
  }

  lemma OrderlyStep(c: Config, s: State, step: Step)
    requires Can(s, step) && Inv(c, s) && Calm(s) && !step.CallFlush?
    requires step.Start? || step.CallStop? ==> OnlyTheWriter(s)
    requires Ascending(Pipeline(s))
    ensures var t := Do(c, s, step); Inv(c, t) && Calm(t) && Ascending(Pipeline(t))
  {
    StepKeepsInv(c, s, step);
    CalmStep(c, s, step);
    if step.Record? {
      RecordPipeline(c, s);
    } else {
      CalmIsSolo(s);
      CalmIsSolo(Do(c, s, step));
      StepPipeline(c, s, step);
    }
  }

  /**
    On a run with no flush and no overlapping start or stop, the finished batches,
    then the batch in hand, the getter's slot and the queue are together exactly
    the accepted records without the overflow victims, in acceptance order.
   */
  lemma FirstInFirstOut(c: Config, steps: seq<Step>, s: State)
    requires Run(c, INIT, steps) && Orderly(c, INIT, steps) && s == After(c, INIT, steps)
    ensures Pipeline(s) == Survivors(s.log.accepted, s.log.dropped)
  {
    OrderlyAscends(c, steps);
    SurvivorsAscend(s.log.accepted, s.log.dropped);
    forall r ensures r in Pipeline(s) <==> r in Survivors(s.log.accepted, s.log.dropped) {
      PipelineMembers(s, r);
    }
    AscendingUnique(Pipeline(s), Survivors(s.log.accepted, s.log.dropped));
  }

  // -------------------------------------------------------------- drop-oldest

  /** The newest `capacity` of `xs`; all of them if the queue is unbounded. */
  function Newest(c: Config, xs: seq<Record>): seq<Record> {
    if c.capacity > 0 && |xs| > c.capacity then xs[|xs| - c.capacity..] else xs
  }

  function Records(n: nat): (steps: seq<Step>)
    ensures |steps| == n
  {
    if n == 0 then [] else Records(n - 1) + [Step.Record]
  }

  /** The names of the next `n` records. */
  function Upcoming(first: Record, n: nat): (rs: seq<Record>)
    ensures |rs| == n && forall k | 0 <= k < n :: rs[k] == first + k
  {
    if n == 0 then [] else Upcoming(first, n - 1) + [first + n - 1]
  }

  lemma NewestAll(c: Config, s: State)
    requires Bounded(c, s)
    ensures Newest(c, s.queue) == s.queue
  {
  }

  lemma NewestStep(c: Config, s: State, all: seq<Record>)
    requires c.enabled && Bounded(c, s) && s.queue == Newest(c, all)
    ensures var t := Do(c, s, Step.Record);
      && t.queue == Newest(c, all + [s.log.accepted])
      && |t.log.dropped| + |t.queue| == |s.log.dropped| + |s.queue| + 1
      && t.log.accepted == s.log.accepted + 1
      && Bounded(c, t)
  {
  }

  /** While nobody consumes, the queue is exactly the newest records that fit. */
  lemma {:induction false} OverflowKeepsNewest(c: Config, s: State, n: nat)
    requires c.enabled && Bounded(c, s)
    ensures Run(c, s, Records(n))
    ensures var t := After(c, s, Records(n));
      && t.queue == Newest(c, s.queue + Upcoming(s.log.accepted, n))
      && t.log.accepted == s.log.accepted + n
      && |t.log.dropped| + |t.queue| == |s.log.dropped| + |s.queue| + n
      && Bounded(c, t)
  {
    hide Do, Newest, Bounded;
    if n == 0 {
      assert s.queue + Upcoming(s.log.accepted, 0) == s.queue;
      NewestAll(c, s);
    } else {
      OverflowKeepsNewest(c, s, n - 1);
      assert Front(Records(n)) == Records(n - 1);
      var before := s.queue + Upcoming(s.log.accepted, n - 1);
      assert s.queue + Upcoming(s.log.accepted, n) == before + [s.log.accepted + n - 1];
      NewestStep(c, After(c, s, Records(n - 1)), before);
    }
  }
}
