/**
  `AuditService` itself: its fields, and one method for each stretch of code
  between two awaits.  Every method does to the fields what the protocol step of
  the same name does to the state, so the theorems about runs apply to the class.
 */
module AuditServiceModel {
  import opened Common
  import opened AuditProtocol
  import opened AuditInvariants
  import opened AuditTheorems
  import opened AuditOutcomes

  class AuditService {
    const config: Config
    var queue: seq<Record>
    var task: Option<nat>
    var stopping: bool
    var locked: bool
    var waiters: seq<nat>
    var queued: nat
    var written: nat
    var dropped: nat
    var failed: nat
    var frames: seq<Frame>  // the suspended coroutines
    var log: History        // what has happened; read only to name the next record

    ghost function View(): State
      reads this
    {
      State(queue, frames, task, stopping, locked, waiters, Stats(queued, written, dropped, failed), log)
    }

    ghost predicate Valid()
      reads this
    {
      Inv(config, View())
    }

    constructor (enabled: bool, capacity: int, batchSize: int)
      ensures Valid() && View() == INIT && config == Config(enabled, capacity, batchSize)
    {
      config := Config(enabled, capacity, batchSize);
      queue, task, stopping, locked, waiters := [], None, false, false, [];
      queued, written, dropped, failed := 0, 0, 0, 0;
      frames, log := [], History(0, [], [], [], []);
      new;
      InitInv(config);
    }

    predicate Full()
      reads this
    {
      config.capacity > 0 && |queue| >= config.capacity
    }

    /** put_nowait on a queue that has room. */
    method PutNowait()
      modifies this`queue, this`queued, this`log
      ensures queue == old(queue) + [old(log.accepted)] && queued == old(queued) + 1
      ensures log == old(log).(accepted := old(log.accepted) + 1)
    {
      queue := queue + [log.accepted];
      queued := queued + 1;
      log := log.(accepted := log.accepted + 1);
    }

    /** Drop the oldest if there is no room, then put: the body of record(). */
    method PutOrReplace()
      requires config.enabled && Bounded(config, View())
      modifies this`queue, this`queued, this`dropped, this`log
      ensures View() == DoRecord(config, old(View()))
    {
      if !Full() {
        PutNowait();
      } else {
        if queue != [] {
          log := log.(dropped := log.dropped + [queue[0]]);
          queue := queue[1..];
          dropped := dropped + 1;
        }
        if !Full() {
          PutNowait();
        }
      }
    }

    method RecordFields()
      requires Valid()
      modifies this
      ensures Valid() && View() == Do(config, old(View()), Step.Record)
    {
      StepKeepsInv(config, View(), Step.Record);
      if config.enabled {
        PutOrReplace();
      }
    }

    method RunGetter(i: nat)
      requires Valid() && Can(View(), Getter(i))
      modifies this
      ensures Valid() && View() == Do(config, old(View()), Getter(i))
    {
      StepKeepsInv(config, View(), Getter(i));
      frames := frames[i := Collecting(Some(queue[0]))];
      queue := queue[1..];
    }

    /** Top a batch up from the queue without waiting. */
    method TopUp(got: seq<Record>) returns (batch: seq<Record>)
      modifies this`queue
      ensures var k := Room(config, |got|, |old(queue)|);
        batch == got + old(queue)[..k] && queue == old(queue)[k..]
    {
      batch := got;
      ghost var k := 0;
      while |batch| < config.batchSize && queue != []
        invariant 0 <= k <= |old(queue)| && queue == old(queue)[k..] && batch == got + old(queue)[..k]
        invariant k <= Room(config, |got|, |old(queue)|)
        decreases |queue|
      {
        batch, queue, k := batch + [queue[0]], queue[1..], k + 1;
      }
    }

    method Collect(i: nat)
      requires Valid() && Can(View(), Step.Collect(i))
      modifies this
      ensures Valid() && View() == Do(config, old(View()), Step.Collect(i))
    {
      StepKeepsInv(config, View(), Step.Collect(i));
      var batch := TopUp(frames[i].Held());
      if batch == [] {
        frames := frames[i := if stopping then Exited else Collecting(None)];
      } else if !locked && waiters == [] {
        locked := true;
        frames := frames[i := Writing(batch)];
      } else {
        waiters := waiters + [i];
        frames := frames[i := AwaitingLock(batch)];
      }
    }

    /** _write after its commit has succeeded or raised. */
    method FinishWrite(i: nat, ok: bool, next: Frame)
      requires i < |frames|
      modifies this`written, this`failed, this`log, this`frames
      ensures View() == Finish(config, old(View()), i, ok, next)
    {
      var batch := frames[i].Held();
      frames := frames[i := next];
      if config.enabled {
        log := log.(settled := log.settled + batch);
        if ok {
          written := written + |batch|;
          log := log.(committed := log.committed + batch);
        } else {
          failed := failed + |batch|;
          log := log.(failed := log.failed + batch);
        }
      }
    }

    method EndWrite(i: nat, ok: bool)
      requires Valid() && Can(View(), Step.EndWrite(i, ok))
      modifies this
      ensures Valid() && View() == Do(config, old(View()), Step.EndWrite(i, ok))
      ensures written == old(written) + if ok then |old(frames[i].Held())| else 0
      ensures failed == old(failed) + if ok then 0 else |old(frames[i].Held())|
    {
      EndWriteGains(config, View(), Step.EndWrite(i, ok));
      StepKeepsInv(config, View(), Step.EndWrite(i, ok));
      FinishWrite(i, ok, if stopping then Exited else Collecting(None));
      locked := false;
    }

    /** The loop of _drain up to its next await or its return. */
    method Drain(i: nat, mark: nat)
      requires i < |frames|
      modifies this`queue, this`frames
      ensures View() == DoDrain(config, old(View()), i, mark)
    {
      var batch := [];
      ghost var k := 0;
      while queue != []
        invariant 0 <= k <= |old(queue)| && queue == old(queue)[k..] && batch == old(queue)[..k]
        invariant k == 0 || k < config.batchSize
        invariant frames == old(frames)
        decreases |queue|
      {
        batch, queue, k := batch + [queue[0]], queue[1..], k + 1;
        if |batch| >= config.batchSize {
          assert k == Min(config.DrainSize(), |old(queue)|) && batch == old(queue)[..k];
          assert queue == old(queue)[k..];
          frames := frames[i := Draining(batch, false, mark)];
          return;
        }
      }
      frames := frames[i := if batch == [] then Returned(mark) else Draining(batch, true, mark)];
    }

    method EndDrainWrite(i: nat, ok: bool)
      requires Valid() && Can(View(), Step.EndDrainWrite(i, ok))
      modifies this
      ensures Valid() && View() == Do(config, old(View()), Step.EndDrainWrite(i, ok))
      ensures written == old(written) + if ok then |old(frames[i].Held())| else 0
      ensures failed == old(failed) + if ok then 0 else |old(frames[i].Held())|
    {
      EndWriteGains(config, View(), Step.EndDrainWrite(i, ok));
      StepKeepsInv(config, View(), Step.EndDrainWrite(i, ok));
      var last, mark := frames[i].last, frames[i].mark;
      if last {
        FinishWrite(i, ok, Returned(mark));
      } else {
        FinishWrite(i, ok, Called(mark));
        Drain(i, mark);
      }
    }

    method AcquireLock(i: nat)
      requires Valid() && Can(View(), Acquire(i))
      modifies this
      ensures Valid() && View() == Do(config, old(View()), Acquire(i))
    {
      StepKeepsInv(config, View(), Acquire(i));
      waiters := waiters[1..];
      match frames[i]
      case AwaitingLock(batch) =>
        locked := true;
        frames := frames[i := Writing(batch)];
      case FlushAwaitingLock(mark) =>
        Drain(i, mark);
    }

    method StartWriter()
      requires Valid()
      modifies this
      ensures Valid() && View() == Do(config, old(View()), Start)
    {
      StepKeepsInv(config, View(), Start);
      if !config.enabled || task.Some? {
        return;
      }
      task := Some(|frames|);
      frames := frames + [Collecting(None)];
    }

    method TakeLockOrWait()
      modifies this`queue, this`frames, this`waiters
      ensures View() == DoCallFlush(config, old(View()))
    {
      var i, mark := |frames|, log.accepted;
      if !locked && waiters == [] {
        frames := frames + [Called(mark)];
        Drain(i, mark);
      } else {
        frames := frames + [FlushAwaitingLock(mark)];
        waiters := waiters + [i];
      }
    }

    method Flush()
      requires Valid()
      modifies this
      ensures Valid() && View() == Do(config, old(View()), CallFlush)
    {
      StepKeepsInv(config, View(), CallFlush);
      TakeLockOrWait();
    }

    method Stop()
      requires Valid()
      modifies this
      ensures Valid() && View() == Do(config, old(View()), CallStop)
    {
      StepKeepsInv(config, View(), CallStop);
      var i, mark := |frames|, log.accepted;
      match task
      case Some(w) =>
        stopping := true;
        frames := frames + [AwaitingWriter(w, mark)];
      case None =>
        frames := frames + [Called(mark)];
        Drain(i, mark);
    }

    /** The writer has ended: drop the handle, clear the event, drain. */
    method StopAfterWriter(i: nat)
      requires Valid() && Can(View(), ResumeStop(i))
      modifies this
      ensures Valid() && View() == Do(config, old(View()), ResumeStop(i))
    {
      StepKeepsInv(config, View(), ResumeStop(i));
      task, stopping := None, false;
      Drain(i, frames[i].mark);
    }
  }
}
