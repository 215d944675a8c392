/**
  The training loop: a count of successive non-finite losses that crosses epochs, a
  SIGTERM flag that a signal handler may set at any moment, and checkpoints.  Losses
  are exact reals; when gradients are synchronised is the accelerator's decision.
 */
module TrainingLoop {
  import opened Common

  const MAX_CONSECUTIVE_NAN: nat := 10

  /**
    A microbatch: its loss (None when not finite), whether the accelerator synchronises
    gradients on it, and whether SIGTERM has arrived by the end of it.
   */
  datatype Batch = Batch(loss: Option<real>, sync: bool, sigterm: bool)

  /** One pass over the loader, and whether SIGTERM arrived before the end-of-epoch test. */
  datatype Epoch = Epoch(batches: seq<Batch>, sigterm: bool)

  datatype Config = Config(trainSubset: int, saveInterval: int, startEpoch: int)

  datatype Status = Going | Terminated | Aborted

  /** `steps` holds, for every epoch begun, the loss reported for each of its optimizer steps. */
  datatype Training = Training(nan: nat, sigterm: bool, steps: seq<seq<real>>, saved: seq<int>, status: Status)

  // ------------------------------------------------------- what an epoch amounts to

  function Mean(xs: seq<real>): real
    requires xs != []
  {
    Sum(xs) / |xs| as real
  }

  /** An epoch in progress; `window` holds the finite losses since its last optimizer step. */
  datatype InEpoch = InEpoch(nan: nat, sigterm: bool, window: seq<real>, losses: seq<real>,
                             processed: nat, broke: bool, aborted: bool)

  function Begin(nan: nat, sigterm: bool): InEpoch {
    InEpoch(nan, sigterm, [], [], 0, false, false)
  }

  function Consume(c: Config, s: InEpoch, b: Batch): InEpoch {
    if s.broke || s.aborted then s
    else if 0 < c.trainSubset <= |s.losses| then s.(broke := true)
    else
      var s := s.(processed := s.processed + 1, sigterm := s.sigterm || b.sigterm);
      match b.loss
      case None => s.(nan := s.nan + 1, aborted := s.nan + 1 >= MAX_CONSECUTIVE_NAN)
      case Some(loss) =>
        if b.sync
        then s.(nan := 0, window := [], losses := s.losses + [Mean(s.window + [loss])], broke := s.sigterm)
        else s.(nan := 0, window := s.window + [loss])
  }

  function Feed(c: Config, s: InEpoch, batches: seq<Batch>): InEpoch {
    if batches == [] then s
    else Consume(c, Feed(c, s, batches[..|batches| - 1]), batches[|batches| - 1])
  }

  predicate Due(c: Config, epoch: int)
    requires c.saveInterval != 0
  {
    (epoch + 1) % c.saveInterval == 0
  }

  function RunEpoch(c: Config, s: Training, epoch: int, e: Epoch): Training
    requires c.saveInterval != 0
  {
    if s.status != Going then s
    else
      var d := Feed(c, Begin(s.nan, s.sigterm), e.batches);
      var sigterm := d.sigterm || (e.sigterm && !d.aborted);
      var s := s.(nan := d.nan, sigterm := sigterm, steps := s.steps + [d.losses]);
      if d.aborted then s.(status := Aborted)
      else
        s.(saved := if sigterm || Due(c, epoch) then s.saved + [epoch] else s.saved,
           status := if sigterm then Terminated else Going)
  }

  const START: Training := Training(0, false, [], [], Going)

  function Train(c: Config, epochs: seq<Epoch>): Training
    requires c.saveInterval != 0
  {
    if epochs == [] then START
    else
      var n := |epochs| - 1;
      RunEpoch(c, Train(c, epochs[..n]), c.startEpoch + n, epochs[n])
  }

  // ------------------------------------------------------------------- the loops

  lemma FeedMore(c: Config, s: InEpoch, batches: seq<Batch>, i: nat)
    requires i < |batches|
    ensures Feed(c, s, batches[..i + 1]) == Consume(c, Feed(c, s, batches[..i]), batches[i])
  {
    assert batches[..i + 1][..i] == batches[..i];
  }

  /** Nothing is consumed once the loop has been left. */
  lemma {:induction false} FeedLeft(c: Config, s: InEpoch, batches: seq<Batch>, i: nat)
    requires i <= |batches| && (Feed(c, s, batches[..i]).broke || Feed(c, s, batches[..i]).aborted)
    ensures Feed(c, s, batches) == Feed(c, s, batches[..i])
  {
    if i == |batches| {
      assert batches[..i] == batches;
    } else {
      var n := |batches| - 1;
      assert batches[..n][..i] == batches[..i];
      FeedLeft(c, s, batches[..n], i);
    }
  }

  lemma SumMore(xs: seq<real>, x: real)
    ensures Sum(xs + [x]) == Sum(xs) + x
  {
    assert (xs + [x])[..|xs|] == xs;
  }

  /** The inner loop. */
  method RunBatches(c: Config, nan0: nat, sigterm0: bool, batches: seq<Batch>)
    returns (nan: nat, sigterm: bool, losses: seq<real>, aborted: bool)
    ensures var d := Feed(c, Begin(nan0, sigterm0), batches);
      nan == d.nan && sigterm == d.sigterm && losses == d.losses && aborted == d.aborted
  {
    hide Mean, Consume, Feed;
    nan, sigterm, losses, aborted := nan0, sigterm0, [], false;
    var runningLoss, accumCount, epochBatchIdx := 0.0, 0, 0;
    ghost var s0 := Begin(nan0, sigterm0);
    ghost var s := s0;
    StartFeed(c, s0, batches);
    var i := 0;
    while i < |batches|
      invariant 0 <= i <= |batches| && s == Feed(c, s0, batches[..i])
      invariant !s.broke && !s.aborted && !aborted
      invariant nan == s.nan && sigterm == s.sigterm && losses == s.losses
      invariant runningLoss == Sum(s.window) && accumCount == |s.window| && epochBatchIdx == |s.losses|
    {
      FeedMore(c, s0, batches, i);
      ConsumeCases(c, s, batches[i]);
      s := Consume(c, s, batches[i]);
      if 0 < c.trainSubset <= epochBatchIdx {
        FeedLeft(c, s0, batches, i + 1);
        return;
      }
      var b := batches[i];
      sigterm := sigterm || b.sigterm;
      i := i + 1;
      if b.loss.None? {
        nan := nan + 1;
        if nan >= MAX_CONSECUTIVE_NAN {
          aborted := true;
          FeedLeft(c, s0, batches, i);
          return;
        }
        continue;
      }
      nan := 0;
      runningLoss := runningLoss + b.loss.value;
      accumCount := accumCount + 1;
      if b.sync {
        losses := losses + [runningLoss / accumCount as real];
        runningLoss, accumCount := 0.0, 0;
        epochBatchIdx := epochBatchIdx + 1;
        if sigterm {
          FeedLeft(c, s0, batches, i);
          return;
        }
      }
    }
    assert batches[..|batches|] == batches;
  }

  lemma StartFeed(c: Config, s: InEpoch, batches: seq<Batch>)
    ensures Feed(c, s, batches[..0]) == s && Sum([]) == 0.0
  {
  }

  /** One microbatch in terms of the running sum and count. */
  lemma ConsumeCases(c: Config, s: InEpoch, b: Batch)
    requires !s.broke && !s.aborted
    ensures var t := Consume(c, s, b);
      if 0 < c.trainSubset <= |s.losses| then t == s.(broke := true)
      else
        && t.sigterm == (s.sigterm || b.sigterm)
        && (b.loss.None? ==>
              && t.nan == s.nan + 1 && t.aborted == (s.nan + 1 >= MAX_CONSECUTIVE_NAN) && !t.broke
              && t.window == s.window && t.losses == s.losses)
        && (b.loss.Some? ==>
              && t.nan == 0 && !t.aborted && t.broke == (b.sync && t.sigterm)
              && (b.sync ==> t.window == [] && Sum(t.window) == 0.0
                             && t.losses == s.losses + [(Sum(s.window) + b.loss.value) / (|s.window| + 1) as real])
              && (!b.sync ==> |t.window| == |s.window| + 1 && Sum(t.window) == Sum(s.window) + b.loss.value
                              && t.losses == s.losses))
  {
    if b.loss.Some? {
      SumMore(s.window, b.loss.value);
    }
  }

  lemma TrainMore(c: Config, epochs: seq<Epoch>, i: nat)
    requires c.saveInterval != 0 && i < |epochs|
    ensures Train(c, epochs[..i + 1]) == RunEpoch(c, Train(c, epochs[..i]), c.startEpoch + i, epochs[i])
  {
    assert epochs[..i + 1][..i] == epochs[..i];
  }

  /** TrainingPipeline.run's epochs; the return value stands for what it logged, saved and raised. */
  method Run(c: Config, epochs: seq<Epoch>) returns (r: Training)
    requires c.saveInterval != 0
    ensures r == Train(c, epochs)
  {
    hide Train, Feed;
    var nan: nat, sigterm, lastSavedEpoch := 0, false, -1;
    var steps: seq<seq<real>>, saved: seq<int> := [], [];
    StartTrain(c, epochs);
    var i := 0;
    while i < |epochs|
      invariant 0 <= i <= |epochs|
      invariant Train(c, epochs[..i]) == Training(nan, sigterm, steps, saved, Going)
      invariant lastSavedEpoch < c.startEpoch + i || lastSavedEpoch == -1
    {
      var epoch := c.startEpoch + i;
      TrainMore(c, epochs, i);
      var losses, aborted;
      nan, sigterm, losses, aborted := RunBatches(c, nan, sigterm, epochs[i].batches);
      steps := steps + [losses];
      i := i + 1;
      if aborted {
        r := Training(nan, sigterm, steps, saved, Aborted);
        StaysEnded(c, epochs, i);
        return;
      }
      sigterm := sigterm || epochs[i - 1].sigterm;
      if (epoch + 1) % c.saveInterval == 0 {
        saved := saved + [epoch];
        lastSavedEpoch := epoch;
      }
      if sigterm {
        if lastSavedEpoch != epoch {
          saved := saved + [epoch];
        }
        r := Training(nan, sigterm, steps, saved, Terminated);
        StaysEnded(c, epochs, i);
        return;
      }
    }
    assert epochs[..|epochs|] == epochs;
    return Training(nan, sigterm, steps, saved, Going);
  }

  lemma StartTrain(c: Config, epochs: seq<Epoch>)
    requires c.saveInterval != 0
    ensures Train(c, epochs[..0]) == START
  {
  }

  /** After the run has ended no epoch adds anything. */
  lemma {:induction false} StaysEnded(c: Config, epochs: seq<Epoch>, i: nat)
    requires c.saveInterval != 0 && i <= |epochs| && Train(c, epochs[..i]).status != Going
    ensures Train(c, epochs) == Train(c, epochs[..i])
  {
    if i == |epochs| {
      assert epochs[..i] == epochs;
    } else {
      var n := |epochs| - 1;
      assert epochs[..n][..i] == epochs[..i];
      StaysEnded(c, epochs[..n], i);
    }
  }

  // ------------------------------------------------------------ the NaN watchdog

  /** The finiteness of the microbatches that the run looked at, in order, across epochs. */
  function Trace(c: Config, epochs: seq<Epoch>): seq<bool>
    requires c.saveInterval != 0
  {
    if epochs == [] then []
    else
      var n := |epochs| - 1;
      var s := Train(c, epochs[..n]);
      Trace(c, epochs[..n]) + if s.status == Going then Seen(c, Begin(s.nan, s.sigterm), epochs[n].batches) else []
  }

  function Seen(c: Config, s: InEpoch, batches: seq<Batch>): seq<bool> {
    if batches == [] then []
    else
      var n := |batches| - 1;
      var before := Feed(c, s, batches[..n]);
      Seen(c, s, batches[..n])
      + if Consume(c, before, batches[n]).processed > before.processed then [batches[n].loss.Some?] else []
  }

  /** The length of the run of non-finite losses a trace ends with. */
  function TrailingBad(trace: seq<bool>): nat {
    if trace == [] || trace[|trace| - 1] then 0 else TrailingBad(trace[..|trace| - 1]) + 1
  }

  /** Ten successive microbatches somewhere in the trace are all non-finite. */
  ghost predicate TenInARow(trace: seq<bool>) {
    exists i: nat :: BadFrom(trace, i)
  }

  predicate BadFrom(trace: seq<bool>, i: nat) {
    i + MAX_CONSECUTIVE_NAN <= |trace| && forall j | i <= j < i + MAX_CONSECUTIVE_NAN :: !trace[j]
  }

  lemma {:induction false} TrailingIsBad(trace: seq<bool>)
    ensures TrailingBad(trace) <= |trace|
    ensures forall j | |trace| - TrailingBad(trace) <= j < |trace| :: !trace[j]
    ensures TrailingBad(trace) < |trace| ==> trace[|trace| - TrailingBad(trace) - 1]
  {
    if trace != [] && !trace[|trace| - 1] {
      TrailingIsBad(trace[..|trace| - 1]);
    }
  }

  /** One more microbatch completes ten in a row exactly if nine already trail. */
  lemma TenMore(trace: seq<bool>, finite: bool)
    ensures TenInARow(trace + [finite])
      <==> TenInARow(trace) || (!finite && TrailingBad(trace) + 1 >= MAX_CONSECUTIVE_NAN)
    ensures TrailingBad(trace + [finite]) == if finite then 0 else TrailingBad(trace) + 1
  {
    var longer := trace + [finite];
    assert longer[..|trace|] == trace;
    TrailingIsBad(trace);
    if TenInARow(trace) {
      var i: nat :| BadFrom(trace, i);
      assert BadFrom(longer, i);
    }
    if !finite && TrailingBad(trace) + 1 >= MAX_CONSECUTIVE_NAN {
      assert BadFrom(longer, |longer| - MAX_CONSECUTIVE_NAN);
    }
    if TenInARow(longer) {
      var i: nat :| BadFrom(longer, i);
      if i + MAX_CONSECUTIVE_NAN <= |trace| {
        assert BadFrom(trace, i);
      } else {
        assert !longer[|trace|];
        assert TrailingBad(trace) < |trace| ==> !(i <= |trace| - TrailingBad(trace) - 1);
      }
    }
  }

  /** The watchdog's state agrees with the trace. */
  ghost predicate Watching(trace: seq<bool>, nan: nat, aborted: bool) {
    && nan == TrailingBad(trace)
    && (aborted <==> TenInARow(trace))
    && (aborted <==> nan >= MAX_CONSECUTIVE_NAN)
  }

  predicate LooksAt(c: Config, s: InEpoch) {
    !s.broke && !s.aborted && !(0 < c.trainSubset <= |s.losses|)
  }

  /** A microbatch is either looked at or, the loop having been left, changes nothing else. */
  lemma ConsumeLooks(c: Config, s: InEpoch, b: Batch)
    ensures var t := Consume(c, s, b);
      if LooksAt(c, s) then t.processed == s.processed + 1
      else t.processed == s.processed && t == s.(broke := t.broke) && (t.broke || t.aborted)
  {
  }

  lemma ConsumeWatches(c: Config, s: InEpoch, b: Batch)
    requires LooksAt(c, s)
    ensures var t := Consume(c, s, b);
      if b.loss.Some? then t.nan == 0 && !t.aborted
      else t.nan == s.nan + 1 && t.aborted == (t.nan >= MAX_CONSECUTIVE_NAN)
  {
  }

  lemma {:induction false} FeedWatches(c: Config, s: InEpoch, batches: seq<Batch>, trace: seq<bool>)
    requires Watching(trace, s.nan, s.aborted)
    ensures var d := Feed(c, s, batches); Watching(trace + Seen(c, s, batches), d.nan, d.aborted)
  {
    hide Consume, TenInARow, TrailingBad;
    if batches == [] {
      assert trace + [] == trace;
    } else {
      var n := |batches| - 1;
      FeedWatches(c, s, batches[..n], trace);
      var before, b := Feed(c, s, batches[..n]), batches[n];
      var so := trace + Seen(c, s, batches[..n]);
      ConsumeLooks(c, before, b);
      if LooksAt(c, before) {
        assert trace + Seen(c, s, batches) == so + [b.loss.Some?];
        ConsumeWatches(c, before, b);
        TenMore(so, b.loss.Some?);
      } else {
        assert trace + Seen(c, s, batches) == so;
      }
    }
  }

  lemma NothingSeen()
    ensures Watching([], 0, false)
  {
  }

  lemma {:induction false} TrainWatches(c: Config, epochs: seq<Epoch>)
    requires c.saveInterval != 0
    ensures var s := Train(c, epochs); Watching(Trace(c, epochs), s.nan, s.status == Aborted)
  {
    hide Watching, Feed, Seen;
    if epochs == [] {
      NothingSeen();
    } else {
      var n := |epochs| - 1;
      var s := Train(c, epochs[..n]);
      TrainWatches(c, epochs[..n]);
      if s.status == Going {
        FeedWatches(c, Begin(s.nan, s.sigterm), epochs[n].batches, Trace(c, epochs[..n]));
      } else {
        assert Trace(c, epochs[..n]) + [] == Trace(c, epochs[..n]);
      }
    }
  }

  /**
    Training aborts exactly when ten successive microbatches that it looked at, counted
    across epoch boundaries, had non-finite loss - and then right at the tenth.
   */
  lemma AbortsExactly(c: Config, epochs: seq<Epoch>)
    requires c.saveInterval != 0
    ensures Train(c, epochs).status == Aborted <==> TenInARow(Trace(c, epochs))
    ensures var t := Trace(c, epochs);
      Train(c, epochs).status == Aborted ==> t != [] && !TenInARow(t[..|t| - 1])
  {
    TrainWatches(c, epochs);
    EndsAtTenth(c, epochs);
  }

  lemma {:induction false} SeenEndsAtTenth(c: Config, s: InEpoch, batches: seq<Batch>, trace: seq<bool>)
    requires Watching(trace, s.nan, s.aborted) && !s.aborted
    ensures var t := trace + Seen(c, s, batches);
      Feed(c, s, batches).aborted ==> t != [] && !TenInARow(t[..|t| - 1])
  {
    hide Mean, TenInARow, TrailingBad;
    if batches != [] {
      var n := |batches| - 1;
      var before, b := Feed(c, s, batches[..n]), batches[n];
      var so := trace + Seen(c, s, batches[..n]);
      SeenEndsAtTenth(c, s, batches[..n], trace);
      FeedWatches(c, s, batches[..n], trace);
      var t := trace + Seen(c, s, batches);
      if Consume(c, before, b).processed > before.processed {
        assert t == so + [b.loss.Some?];
        assert t[..|t| - 1] == so;
      } else {
        assert t == so;
      }
    }
  }

  lemma {:induction false} EndsAtTenth(c: Config, epochs: seq<Epoch>)
    requires c.saveInterval != 0
    ensures var t := Trace(c, epochs);
      Train(c, epochs).status == Aborted ==> t != [] && !TenInARow(t[..|t| - 1])
  {
    hide TenInARow, Feed, Seen;
    if epochs != [] {
      var n := |epochs| - 1;
      var s := Train(c, epochs[..n]);
      EndsAtTenth(c, epochs[..n]);
      TrainWatches(c, epochs[..n]);
      if s.status == Going {
        SeenEndsAtTenth(c, Begin(s.nan, s.sigterm), epochs[n].batches, Trace(c, epochs[..n]));
      } else {
        assert Trace(c, epochs[..n]) + [] == Trace(c, epochs[..n]);
      }
    }
  }

  // ---------------------------------------------------------- what an epoch does

  /** The microbatches of an epoch that the loop looked at are its first ones. */
  lemma {:induction false} SeenIsPrefix(c: Config, s: InEpoch, batches: seq<Batch>)
    ensures var d := Feed(c, s, batches);
      var k := d.processed - s.processed;
      && 0 <= k <= |batches|
      && |Seen(c, s, batches)| == k
      && (forall i | 0 <= i < k :: Seen(c, s, batches)[i] == batches[i].loss.Some?)
      && (k < |batches| ==> d.broke || d.aborted)
  {
    hide Consume;
    if batches != [] {
      var n := |batches| - 1;
      var front := batches[..n];
      SeenIsPrefix(c, s, front);
      ConsumeLooks(c, Feed(c, s, front), batches[n]);
    }
  }

  /** No epoch takes more optimizer steps than a configured subset allows. */
  lemma {:induction false} StepsWithinSubset(c: Config, s: InEpoch, batches: seq<Batch>)
    requires c.trainSubset > 0 && |s.losses| <= c.trainSubset
    ensures |Feed(c, s, batches).losses| <= c.trainSubset
  {
    if batches != [] {
      StepsWithinSubset(c, s, batches[..|batches| - 1]);
    }
  }

  lemma {:induction false} EveryEpochWithinSubset(c: Config, epochs: seq<Epoch>, e: nat)
    requires c.saveInterval != 0 && c.trainSubset > 0 && e < |Train(c, epochs).steps|
    ensures |Train(c, epochs).steps[e]| <= c.trainSubset
  {
    hide Feed;
    var n := |epochs| - 1;
    var s := Train(c, epochs[..n]);
    if e < |s.steps| {
      EveryEpochWithinSubset(c, epochs[..n], e);
    } else {
      StepsWithinSubset(c, Begin(s.nan, s.sigterm), epochs[n].batches);
    }
  }

  /** The finite losses since the last finite microbatch that synchronised. */
  function Pending(batches: seq<Batch>): seq<real> {
    if batches == [] then []
    else
      var front, b := Pending(batches[..|batches| - 1]), batches[|batches| - 1];
      if b.loss.None? then front else if b.sync then [] else front + [b.loss.value]
  }

  /** A step is reported for each finite synchronising microbatch, as a mean of losses. */
  function Reported(batches: seq<Batch>): seq<real> {
    if batches == [] then []
    else
      var front, b := batches[..|batches| - 1], batches[|batches| - 1];
      if b.loss.Some? && b.sync then Reported(front) + [Mean(Pending(front) + [b.loss.value])] else Reported(front)
  }

  /**
    The losses an epoch reports: one per finite synchronising microbatch looked at, each
    the mean of the finite losses since the one before.  A non-finite loss on a
    synchronising microbatch therefore makes two accumulation windows share a report.
   */
  lemma {:induction false} ReportsAreMeans(c: Config, s: InEpoch, batches: seq<Batch>)
    requires s.window == [] && s.losses == [] && s.processed == 0
    ensures var d := Feed(c, s, batches);
      && 0 <= d.processed <= |batches|
      && d.losses == Reported(batches[..d.processed]) && d.window == Pending(batches[..d.processed])
  {
    hide Mean, Consume, Reported, Pending, Seen;
    if batches == [] {
      NothingReported(batches);
    } else {
      var n := |batches| - 1;
      var front, b := batches[..n], batches[n];
      ReportsAreMeans(c, s, front);
      SeenIsPrefix(c, s, front);
      var before := Feed(c, s, front);
      var k := before.processed;
      ConsumeLooks(c, before, b);
      assert front[..k] == batches[..k];
      if LooksAt(c, before) {
        assert batches[..n + 1] == batches && front[..n] == front;
        ConsumeReports(c, before, batches);
      }
    }
  }

  lemma NothingReported(batches: seq<Batch>)
    ensures Reported(batches[..0]) == [] && Pending(batches[..0]) == []
  {
  }

  lemma ConsumeReports(c: Config, s: InEpoch, batches: seq<Batch>)
    requires batches != [] && LooksAt(c, s)
    requires s.losses == Reported(batches[..|batches| - 1]) && s.window == Pending(batches[..|batches| - 1])
    ensures var t := Consume(c, s, batches[|batches| - 1]);
      t.losses == Reported(batches) && t.window == Pending(batches)
  {
    hide Mean, Reported, Pending;
    ReportedMore(batches);
  }

  lemma ReportedMore(batches: seq<Batch>)
    requires batches != []
    ensures var front, b := batches[..|batches| - 1], batches[|batches| - 1];
      && Reported(batches) == (if b.loss.Some? && b.sync then Reported(front) + [Mean(Pending(front) + [b.loss.value])]
                               else Reported(front))
      && Pending(batches) == (if b.loss.None? then Pending(front)
                              else if b.sync then [] else Pending(front) + [b.loss.value])
  {
    hide Mean;
  }

  // ------------------------------------------------- where the inner loop ends

  /** Non-finite losses in succession at the end of these microbatches, `nan0` having come before. */
  function InSuccession(nan0: nat, batches: seq<Batch>): nat {
    if batches == [] then nan0
    else if Last(batches).loss.Some? then 0
    else InSuccession(nan0, Front(batches)) + 1
  }

  predicate Signalled(batches: seq<Batch>) {
    exists j :: 0 <= j < |batches| && batches[j].sigterm
  }

  /**
    Having looked at `batches` the loop looks no further: the subset's steps are done, SIGTERM
    has arrived by a microbatch that reported, or ten non-finite losses have come in succession.
   */
  predicate Leaves(c: Config, nan0: nat, batches: seq<Batch>) {
    || 0 < c.trainSubset <= |Reported(batches)|
    || (batches != [] && Last(batches).loss.Some? && Last(batches).sync && Signalled(batches))
    || (batches != [] && InSuccession(nan0, batches) >= MAX_CONSECUTIVE_NAN)
  }

  /** The loop looks at the first `k` microbatches: it goes on until then and not beyond. */
  predicate LooksUpTo(c: Config, nan0: nat, batches: seq<Batch>, k: nat) {
    && k <= |batches| && (k < |batches| ==> Leaves(c, nan0, batches[..k]))
    && forall j | 0 <= j < k :: !Leaves(c, nan0, batches[..j])
  }

  /** The loop's state, having looked at these microbatches. */
  ghost predicate Agrees(c: Config, nan0: nat, d: InEpoch, batches: seq<Batch>) {
    && d.processed == |batches| && d.nan == InSuccession(nan0, batches) && d.sigterm == Signalled(batches)
    && d.losses == Reported(batches)
    && (d.aborted <==> batches != [] && d.nan >= MAX_CONSECUTIVE_NAN)
    && (Leaves(c, nan0, batches) <==> !LooksAt(c, d))
  }

  lemma ReportedAndNext(front: seq<Batch>, b: Batch)
    ensures var all := front + [b];
      && Front(all) == front && all[..|all| - 1] == front && Last(all) == all[|all| - 1] == b
      && (Signalled(all) <==> Signalled(front) || b.sigterm)
  {
    var all := front + [b];
    assert forall j | 0 <= j < |front| :: all[j] == front[j];
    if Signalled(front) {
      var j :| 0 <= j < |front| && front[j].sigterm;
      assert all[j].sigterm;
    }
    assert all[|front|] == b;
  }

  lemma ConsumeAgrees(c: Config, nan0: nat, d: InEpoch, front: seq<Batch>, b: Batch)
    requires Agrees(c, nan0, d, front) && LooksAt(c, d) && d.window == Pending(front)
    ensures Agrees(c, nan0, Consume(c, d, b), front + [b])
  {
    hide Mean, Reported, Pending, Signalled;
    ReportedAndNext(front, b);
    ReportedMore(front + [b]);
  }

  lemma LooksFurther(c: Config, nan0: nat, batches: seq<Batch>)
    requires batches != [] && LooksUpTo(c, nan0, Front(batches), |batches| - 1) && !Leaves(c, nan0, Front(batches))
    ensures LooksUpTo(c, nan0, batches, |batches|)
  {
    hide Leaves;
    var n := |batches| - 1;
    assert forall j | 0 <= j < n :: Front(batches)[..j] == batches[..j];
    assert batches[..n] == Front(batches);
  }

  lemma LooksNoFurther(c: Config, nan0: nat, batches: seq<Batch>, k: nat)
    requires batches != [] && LooksUpTo(c, nan0, Front(batches), k) && Leaves(c, nan0, Front(batches)[..k])
    ensures LooksUpTo(c, nan0, batches, k) && Front(batches)[..k] == batches[..k]
  {
    hide Leaves;
    assert forall j | 0 <= j <= k :: Front(batches)[..j] == batches[..j];
  }

  /** The inner loop looks at the microbatches up to the first after which it is to leave, or else at all. */
  lemma {:induction false} FeedAgrees(c: Config, nan0: nat, batches: seq<Batch>)
    requires nan0 < MAX_CONSECUTIVE_NAN
    ensures var d := Feed(c, Begin(nan0, false), batches);
      LooksUpTo(c, nan0, batches, d.processed) && Agrees(c, nan0, d, batches[..d.processed])
  {
    hide Consume, Mean, Leaves, Agrees, LooksUpTo, Pending, Reported;
    if batches == [] {
      NothingLeft(c, nan0);
    } else {
      var n := |batches| - 1;
      var front, b := batches[..n], batches[n];
      var before := Feed(c, Begin(nan0, false), front);
      var k := before.processed;
      FeedAgrees(c, nan0, front);
      ReportsAreMeans(c, Begin(nan0, false), front);
      ConsumeLooks(c, before, b);
      AgreesSays(c, nan0, before, front[..k]);
      if LooksAt(c, before) {
        LooksToEnd(c, nan0, front, k);
        assert front[..n] == front && front + [b] == batches && batches[..n + 1] == batches;
        ConsumeAgrees(c, nan0, before, front, b);
        LooksFurther(c, nan0, batches);
      } else {
        LooksNoFurther(c, nan0, batches, k);
        AgreesStill(c, nan0, before, Consume(c, before, b), front[..k]);
      }
    }
  }

  lemma AgreesSays(c: Config, nan0: nat, d: InEpoch, batches: seq<Batch>)
    requires Agrees(c, nan0, d, batches)
    ensures Leaves(c, nan0, batches) <==> !LooksAt(c, d)
  {
  }

  lemma LooksToEnd(c: Config, nan0: nat, batches: seq<Batch>, k: nat)
    requires LooksUpTo(c, nan0, batches, k) && !Leaves(c, nan0, batches[..k])
    ensures k == |batches|
  {
  }

  lemma AgreesStill(c: Config, nan0: nat, d: InEpoch, e: InEpoch, batches: seq<Batch>)
    requires Agrees(c, nan0, d, batches) && !LooksAt(c, d) && e == d.(broke := e.broke) && (e.broke || e.aborted)
    ensures Agrees(c, nan0, e, batches)
  {
    hide Leaves;
  }

  lemma NothingLeft(c: Config, nan0: nat)
    requires nan0 < MAX_CONSECUTIVE_NAN
    ensures LooksUpTo(c, nan0, [], 0) && Agrees(c, nan0, Begin(nan0, false), [][..0])
  {
  }

  /**
    What Run reports for epoch number `e`: the means of the windows that its loop completed,
    which looks at the microbatches up to the first after which it is to leave.
   */
  lemma StepsAreReports(c: Config, epochs: seq<Epoch>, e: nat)
    requires c.saveInterval != 0 && e < |Train(c, epochs).steps|
    ensures e < |epochs|
    ensures exists k: nat ::
      && LooksUpTo(c, TrailingBad(Trace(c, epochs[..e])), epochs[e].batches, k)
      && Train(c, epochs).steps[e] == Reported(epochs[e].batches[..k])
  {
    StepsOfEpoch(c, epochs, e);
    var s := Train(c, epochs[..e]);
    hide Train, Trace, Reported, LooksUpTo, TrailingBad;
    GoingCounts(c, epochs[..e]);
    FeedReports(c, s.nan, epochs[e].batches);
  }

  lemma GoingCounts(c: Config, epochs: seq<Epoch>)
    requires c.saveInterval != 0 && Train(c, epochs).status == Going
    ensures var s := Train(c, epochs);
      s.nan == TrailingBad(Trace(c, epochs)) && s.nan < MAX_CONSECUTIVE_NAN && !s.sigterm
  {
    hide Train, Trace, TenInARow, TrailingBad;
    TrainWatches(c, epochs);
    GoingIsUnflagged(c, epochs);
  }

  /**
    SIGTERM is flagged before an epoch's end test exactly if no ten non-finite losses ended
    the epoch first and it arrived by a microbatch looked at or by that test.
   */
  lemma FlaggedExactly(c: Config, epochs: seq<Epoch>, e: nat)
    requires c.saveInterval != 0 && e < |epochs| && Train(c, epochs[..e]).status == Going
    ensures var nan0 := TrailingBad(Trace(c, epochs[..e]));
      exists k: nat ::
        && LooksUpTo(c, nan0, epochs[e].batches, k)
        && (Flagged(c, epochs, e) <==>
              && (k == 0 || InSuccession(nan0, epochs[e].batches[..k]) < MAX_CONSECUTIVE_NAN)
              && (Signalled(epochs[e].batches[..k]) || epochs[e].sigterm))
  {
    hide Train, Trace, LooksUpTo, TrailingBad, Leaves, Signalled, InSuccession, Reported, Feed;
    GoingCounts(c, epochs[..e]);
    FeedAgrees(c, Train(c, epochs[..e]).nan, epochs[e].batches);
  }

  lemma FeedReports(c: Config, nan0: nat, batches: seq<Batch>)
    requires nan0 < MAX_CONSECUTIVE_NAN
    ensures var d := Feed(c, Begin(nan0, false), batches);
      LooksUpTo(c, nan0, batches, d.processed) && d.processed <= |batches|
      && d.losses == Reported(batches[..d.processed])
  {
    hide Feed, Leaves, Reported, Signalled;
    FeedAgrees(c, nan0, batches);
  }

  /** Each epoch begun has one entry in `steps`, and the run was going when it began. */
  lemma {:induction false} StepsOfEpoch(c: Config, epochs: seq<Epoch>, e: nat)
    requires c.saveInterval != 0 && e < |Train(c, epochs).steps|
    ensures e < |epochs| && Train(c, epochs[..e]).status == Going
    ensures Train(c, epochs).steps[e] == Feed(c, Begin(Train(c, epochs[..e]).nan, Train(c, epochs[..e]).sigterm),
                                              epochs[e].batches).losses
  {
    hide Feed, Due;
    var n := |epochs| - 1;
    var s := Train(c, epochs[..n]);
    GoingIsUnflagged(c, epochs[..n]);
    if e < |s.steps| {
      StepsOfEpoch(c, epochs[..n], e);
      assert epochs[..n][..e] == epochs[..e];
    }
  }

  /** The finite losses of the accumulation window in progress: since the last synchronisation, finite or not. */
  function Own(batches: seq<Batch>): seq<real> {
    if batches == [] then []
    else
      var front, b := Own(batches[..|batches| - 1]), batches[|batches| - 1];
      if b.sync then [] else if b.loss.None? then front else front + [b.loss.value]
  }

  /** The last microbatch that synchronised, if any. */
  function LastSync(batches: seq<Batch>): (k: Option<nat>)
    ensures k.Some? ==> k.value < |batches| && batches[k.value].sync
    ensures forall j | (if k.Some? then k.value + 1 else 0) <= j < |batches| :: !batches[j].sync
  {
    if batches == [] then None
    else if batches[|batches| - 1].sync then Some(|batches| - 1)
    else LastSync(batches[..|batches| - 1])
  }

  /** What is pending is what the last synchronisation left behind, and then the window's own losses. */
  lemma {:induction false} PendingIsLeftAndOwn(batches: seq<Batch>)
    ensures var k := LastSync(batches);
      Pending(batches) == (if k.Some? then Pending(batches[..k.value + 1]) else []) + Own(batches)
  {
    if batches != [] {
      var n := |batches| - 1;
      PendingIsLeftAndOwn(batches[..n]);
      if batches[n].sync {
        assert batches[..n + 1] == batches;
      } else if LastSync(batches).Some? {
        var k := LastSync(batches).value;
        assert batches[..n][..k + 1] == batches[..k + 1];
      }
    }
  }

  /** The last synchronisation before `i` reported, or had nothing pending to report. */
  predicate WindowClosed(batches: seq<Batch>, i: nat)
    requires i <= |batches|
  {
    var k := LastSync(batches[..i]);
    k.Some? ==> batches[k.value].loss.Some? || Pending(batches[..k.value + 1]) == []
  }

  /**
    The comment in the loop promises the average over the accumulation window.  The losses
    averaged at a reporting microbatch are its own window's exactly if the synchronising
    microbatch before it was finite or left no finite loss pending.
   */
  lemma ReportsOwnWindowExactly(batches: seq<Batch>, i: nat)
    requires i < |batches| && batches[i].sync && batches[i].loss.Some?
    ensures var loss := batches[i].loss.value;
      && Reported(batches[..i + 1]) == Reported(batches[..i]) + [Mean(Pending(batches[..i]) + [loss])]
      && (Pending(batches[..i]) + [loss] == Own(batches[..i]) + [loss] <==> WindowClosed(batches, i))
  {
    hide Mean;
    var before := batches[..i];
    assert batches[..i + 1][..i] == before;
    PendingIsLeftAndOwn(before);
    var k := LastSync(before);
    var left := if k.Some? then Pending(before[..k.value + 1]) else [];
    if k.Some? {
      assert before[..k.value + 1] == batches[..k.value + 1];
      if batches[k.value].loss.Some? {
        SyncClears(batches[..k.value + 1]);
      }
    }
    assert |Pending(before)| == |left| + |Own(before)|;
    assert left == [] ==> left + Own(before) == Own(before);
    assert |Pending(before) + [batches[i].loss.value]| == |Pending(before)| + 1;
  }

  lemma SyncClears(batches: seq<Batch>)
    requires batches != [] && batches[|batches| - 1].sync && batches[|batches| - 1].loss.Some?
    ensures Pending(batches) == []
  {
  }

  /** Three microbatches in which two windows share one report: 2 instead of 3. */
  lemma WindowsShareReport(c: Config)
    requires c.trainSubset <= 0
    ensures var batches := [Batch(Some(1.0), false, false), Batch(None, true, false), Batch(Some(3.0), true, false)];
      && Feed(c, Begin(0, false), batches).losses == [2.0]
      && Own(batches[..2]) + [3.0] == [3.0]
  {
    hide Mean, Sum, Feed;
    var a, b, d := Batch(Some(1.0), false, false), Batch(None, true, false), Batch(Some(3.0), true, false);
    var s0 := Begin(0, false);
    FeedNothing(c, s0);
    FeedOne(c, s0, [], a);
    FeedOne(c, s0, [a], b);
    FeedOne(c, s0, [a, b], d);
    assert [] + [a] == [a] && [a] + [b] == [a, b] && [a, b] + [d] == [a, b, d];
    assert Consume(c, s0, a).window == [] + [1.0] == [1.0];
    assert Consume(c, Consume(c, s0, a), b).window == [1.0];
    MeanOfTwo(1.0, 3.0);
    assert [1.0] + [3.0] == [1.0, 3.0];
    assert [a, b, d][..2] == [a, b] && Own([a, b]) == [];
  }

  lemma FeedNothing(c: Config, s: InEpoch)
    ensures Feed(c, s, []) == s
  {
  }

  lemma FeedOne(c: Config, s: InEpoch, batches: seq<Batch>, b: Batch)
    ensures Feed(c, s, batches + [b]) == Consume(c, Feed(c, s, batches), b)
  {
    assert (batches + [b])[..|batches|] == batches;
  }

  lemma MeanOfTwo(x: real, y: real)
    ensures Mean([x, y]) == (x + y) / 2.0
  {
    assert [x, y] == [x] + [y] && [x] == [] + [x];
    SumMore([x], y);
    SumMore([], x);
  }

  // ------------------------------------------------------- SIGTERM and checkpoints

  /** The epochs among the first `n` whose checkpoint is due. */
  function Scheduled(c: Config, n: nat): seq<int>
    requires c.saveInterval != 0
  {
    if n == 0 then []
    else Scheduled(c, n - 1) + if Due(c, c.startEpoch + n - 1) then [c.startEpoch + n - 1] else []
  }

  /** How many epochs ran to their end. */
  function Completed(s: Training): int {
    |s.steps| - if s.status == Aborted then 1 else 0
  }

  /** SIGTERM was flagged before the end-of-epoch test of epoch number `e`. */
  predicate Flagged(c: Config, epochs: seq<Epoch>, e: nat)
    requires c.saveInterval != 0 && e < |epochs|
  {
    var s := Train(c, epochs[..e]);
    s.status == Going && var d := Feed(c, Begin(s.nan, s.sigterm), epochs[e].batches);
    !d.aborted && (d.sigterm || epochs[e].sigterm)
  }

  lemma {:induction false} GoingIsUnflagged(c: Config, epochs: seq<Epoch>)
    requires c.saveInterval != 0
    ensures var s := Train(c, epochs);
      && (s.status == Going ==> !s.sigterm && |s.steps| == |epochs|)
      && (s.status == Aborted ==> |s.steps| > 0)
      && (s.status == Terminated ==> |s.steps| > 0)
      && |s.steps| <= |epochs|
  {
    hide Feed;
    if epochs != [] {
      GoingIsUnflagged(c, epochs[..|epochs| - 1]);
    }
  }

  /**
    What is checkpointed: the due epochs among those completed and, after SIGTERM, the
    last one - each once, in order.
   */
  lemma {:induction false} SavedExactly(c: Config, epochs: seq<Epoch>)
    requires c.saveInterval != 0
    ensures var s := Train(c, epochs);
      var n := Completed(s);
      && n >= 0
      && (s.status == Terminated ==> n > 0)
      && s.saved == if s.status == Terminated then Scheduled(c, n - 1) + [c.startEpoch + n - 1] else Scheduled(c, n)
  {
    hide Train, RunEpoch, Due, Scheduled;
    ScheduledMore(c, 0);
    if epochs == [] {
      StartTrain(c, epochs);
      assert epochs[..0] == epochs;
    } else {
      var n := |epochs| - 1;
      assert epochs[..n + 1] == epochs;
      TrainMore(c, epochs, n);
      SavedExactly(c, epochs[..n]);
      GoingIsUnflagged(c, epochs[..n]);
      EpochSaves(c, Train(c, epochs[..n]), c.startEpoch + n, epochs[n]);
      ScheduledMore(c, n);
    }
  }

  lemma ScheduledMore(c: Config, n: nat)
    requires c.saveInterval != 0
    ensures Scheduled(c, 0) == []
    ensures Scheduled(c, n + 1) == Scheduled(c, n) + if Due(c, c.startEpoch + n) then [c.startEpoch + n] else []
  {
    hide Due;
  }

  lemma EpochSaves(c: Config, s: Training, epoch: int, e: Epoch)
    requires c.saveInterval != 0
    ensures var t := RunEpoch(c, s, epoch, e);
      if s.status != Going then t == s
      else
        && |t.steps| == |s.steps| + 1
        && match t.status
           case Aborted => t.saved == s.saved
           case Terminated => t.saved == s.saved + [epoch]
           case Going => t.saved == s.saved + if Due(c, epoch) then [epoch] else []
  {
    hide Feed, Due;
  }

  lemma {:induction false} ScheduledAre(c: Config, n: nat, epoch: int)
    requires c.saveInterval != 0
    ensures epoch in Scheduled(c, n)
       <==> c.startEpoch <= epoch < c.startEpoch + n && (epoch + 1) % c.saveInterval == 0
  {
    if n > 0 {
      ScheduledAre(c, n - 1, epoch);
    }
  }

  /** An epoch's checkpoint is saved exactly if it ran to its end and its number is due, or SIGTERM ended it. */
  lemma SavedAre(c: Config, epochs: seq<Epoch>, epoch: int)
    requires c.saveInterval != 0
    ensures var s := Train(c, epochs);
      epoch in s.saved <==>
        && c.startEpoch <= epoch < c.startEpoch + Completed(s)
        && ((epoch + 1) % c.saveInterval == 0
            || (s.status == Terminated && epoch == c.startEpoch + Completed(s) - 1))
  {
    hide Train, Scheduled;
    SavedExactly(c, epochs);
    var n := Completed(Train(c, epochs));
    ScheduledAre(c, n, epoch);
    if n > 0 {
      ScheduledAre(c, n - 1, epoch);
    }
  }

  lemma {:induction false} ScheduledAscends(c: Config, n: nat)
    requires c.saveInterval != 0
    ensures Ascending(Scheduled(c, n))
    ensures forall i | 0 <= i < |Scheduled(c, n)| :: Scheduled(c, n)[i] < c.startEpoch + n
  {
    hide Due;
    if n > 0 {
      ScheduledAscends(c, n - 1);
    }
  }

  predicate Ascending(xs: seq<int>) {
    forall i, j | 0 <= i < j < |xs| :: xs[i] < xs[j]
  }

  /** No epoch is checkpointed twice. */
  lemma SavedOnce(c: Config, epochs: seq<Epoch>)
    requires c.saveInterval != 0
    ensures Ascending(Train(c, epochs).saved)
  {
    hide Train, Scheduled;
    SavedExactly(c, epochs);
    var n := Completed(Train(c, epochs));
    ScheduledAscends(c, n);
    if n > 0 {
      ScheduledAscends(c, n - 1);
    }
  }

  /**
    If SIGTERM is flagged before the end-of-epoch test of an epoch, that epoch is the last
    one and its checkpoint is the last one saved; otherwise SIGTERM ends no epoch.
   */
  lemma SigtermEndsAtEpoch(c: Config, epochs: seq<Epoch>, e: nat)
    requires c.saveInterval != 0 && e < |epochs|
    ensures Flagged(c, epochs, e) <==>
      (var s := Train(c, epochs); s.status == Terminated && |s.steps| == e + 1)
    ensures Flagged(c, epochs, e) ==>
      var saved := Train(c, epochs).saved; saved != [] && saved[|saved| - 1] == c.startEpoch + e
  {
    hide Feed, Due;
    TrainMore(c, epochs, e);
    GoingIsUnflagged(c, epochs[..e]);
    var after := Train(c, epochs[..e + 1]);
    if after.status != Going {
      StaysEnded(c, epochs, e + 1);
    } else {
      GoingIsUnflagged(c, epochs[..e + 1]);
      StepsGrow(c, epochs, e + 1);
    }
    if Train(c, epochs[..e]).status != Going {
      StaysEnded(c, epochs, e);
    }
  }

  /** Epochs after a running state add steps entries before they can end the run. */
  lemma {:induction false} StepsGrow(c: Config, epochs: seq<Epoch>, i: nat)
    requires c.saveInterval != 0 && i <= |epochs| && Train(c, epochs[..i]).status == Going
    ensures Train(c, epochs).status != Going ==> |Train(c, epochs).steps| > i
  {
    hide Train, RunEpoch, Due;
    if i == |epochs| {
      assert epochs[..i] == epochs;
    } else {
      var n := |epochs| - 1;
      assert epochs[..n][..i] == epochs[..i] && epochs[..n + 1] == epochs;
      TrainMore(c, epochs, n);
      EpochSaves(c, Train(c, epochs[..n]), c.startEpoch + n, epochs[n]);
      StepsGrow(c, epochs[..n], i);
      GoingIsUnflagged(c, epochs[..n]);
    }
  }
}
