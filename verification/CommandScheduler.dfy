/**
 The scheduler and pipeline objects as the source writes them: shared fields changed in place. Every method is one
 atomic segment of the code between two points where another goroutine may run, and is proved to be
 one event of the state machine.
*/
module CommandScheduler {
  import opened Prelude
  import opened CommandProtocol
  import opened CommandQueue

  datatype Reply = Reply(success: bool, message: string)

  /** Counting the timeout first and then failing without one is the same step as failing by timeout. */
  lemma TimeoutThenFail(c: Settings, s: System, t: System, k: nat, msg: string)
    requires Wired(s) && k in s.senders
    requires t == s.(orphans := s.orphans + 1, counters := s.counters.(totalTimeout := s.counters.totalTimeout + 1))
    ensures ApplyAction(c, t, k, Fail(msg, false)) == ApplyAction(c, s, k, Fail(msg, true))
  {
  }

  class Metrics {
    var totalSent: nat
    var totalAcked: nat
    var totalFailed: nat
    var totalTimeout: nat
    var successRate: nat

    constructor ()
      ensures Snapshot() == Counters(0, 0, 0, 0, 0)
    {
      totalSent, totalAcked, totalFailed, totalTimeout, successRate := 0, 0, 0, 0, 0;
    }

    function Snapshot(): Counters
      reads this
    {
      Counters(totalSent, totalAcked, totalFailed, totalTimeout, successRate)
    }

    method RecordAck(success: bool)
      modifies this
      ensures Snapshot() == if success then RecordedAck(old(Snapshot())) else old(Snapshot())
      ensures totalAcked == old(totalAcked) + (if success then 1 else 0) && totalSent == old(totalSent)
      ensures successRate == if success && totalSent > 0 then totalAcked * 10000 / totalSent else old(successRate)
      ensures totalFailed == old(totalFailed) && totalTimeout == old(totalTimeout)
    {
      if !success {
        return;
      }
      totalAcked := totalAcked + 1;
      if totalSent > 0 {
        successRate := totalAcked * 10000 / totalSent;
      }
    }
  }

  class Scheduler {
    const config: Settings
    const queue: PriorityQueue
    const metrics: Metrics
    var sem: int
    var stopped: bool

    // where the goroutines stand, and the history the properties speak of
    ghost var dispatcher: Dispatcher
    ghost var senders: map<nat, Sender>
    ghost var stopReturned: bool
    ghost var orphans: nat
    ghost var sends: map<Id, nat>
    ghost var waited: map<Id, nat>

    ghost function State(): System
      reads this, queue, metrics
    {
      System(queue.items, dispatcher, senders, sem, stopped, stopReturned, metrics.Snapshot(), orphans, sends, waited)
    }

    ghost predicate Valid()
      reads this, queue, metrics
    {
      Wired(State())
    }

    /** How long a failed attempt makes the sender wait: the exponential back-off while retries are left. */
    ghost function Wait(before: System, after: System, id: Id): Option<nat>
      requires id in before.items && id in after.items
      requires before.items[id].retryCount < config.maxRetries ==> after.items[id].retryCount > 0
    {
      if before.items[id].retryCount < config.maxRetries then Some(Delay(config.retryBackoff, after.items[id].retryCount))
      else None
    }

    /** A failed attempt that is to be repeated: still being sent, one retry more, and its sender waits. */
    ghost predicate Retried(before: System, after: System, k: nat, id: Id, msg: string) {
      && id in before.items
      && after.items == before.items[id := before.items[id].(retryCount := before.items[id].retryCount + 1, error := msg)]
      && after.senders == before.senders[k := Sender(id, Backoff)]
      && after.counters.totalFailed == before.counters.totalFailed
    }

    /** The last failed attempt. */
    ghost predicate GivenUp(before: System, after: System, k: nat, id: Id, msg: string) {
      && id in before.items
      && after.items == before.items[id := before.items[id].(status := Failed, error := msg)]
      && after.senders == before.senders[k := Sender(id, Finishing)]
      && after.counters.totalFailed == before.counters.totalFailed + 1
    }

    constructor (config: Config)
      requires config.retryBackoff < TWO_TO_63
      ensures Valid() && Initial(State()) && State().items == map[]
      ensures this.config == WithDefaults(config)
      ensures fresh(queue) && fresh(metrics)
    {
      this.config := WithDefaults(config);
      queue := new PriorityQueue();
      metrics := new Metrics();
      sem, stopped := 0, false;
      dispatcher, senders, stopReturned, orphans, sends, waited := Top, map[], false, 0, map[], map[];
    }

    // ---- Callers ------------------------------------------------------------------------------

    /** freshId is the identifier generated when the caller gives none; checked says whether a validator is set. */
    method Send(commandId: Id, freshId: Id, satelliteId: string, commandType: string, checked: bool, priority: int, now: int)
      returns (r: Outcome<string>)
      requires Valid() && freshId != ""
      modifies this, queue
      ensures Valid()
      ensures var id := if commandId == "" then freshId else commandId;
        if (checked && (satelliteId == "" || commandType == "")) || id in old(State()).items
        then r.Err? && State() == old(State())
        else r.Ok? && State() == Apply(config, old(State()), Caller(CallerEvent.Send(id, priority, now)))
      ensures r.Ok? ==> queue.items == old(queue.items)
        [if commandId == "" then freshId else commandId := Item(priority, Queued, now, None, None, 0, "")]
    {
      var id := if commandId == "" then freshId else commandId;
      if checked && satelliteId == "" {
        return Err("empty satelliteId");
      }
      if checked && commandType == "" {
        return Err("empty commandType");
      }
      r := queue.Enqueue(Some(Submission(id, priority, Some(Queued), Some(now), None, None, 0, "")), now);
      if r.Ok? {
        sends, waited := sends[id := 0], waited[id := 0];
      }
    }

    method Cancel(id: Id) returns (r: Outcome<string>)
      requires Valid()
      modifies queue
      ensures Valid()
      ensures r.Ok? <==> id in old(State()).items && old(State()).items[id].status.Queued?
      ensures r.Err? ==> State() == old(State())
      ensures r.Ok? ==> State() == Apply(config, old(State()), Caller(CallerEvent.Cancel(id)))
      ensures r.Ok? ==> queue.items == old(queue.items)[id := old(queue.items)[id].(status := Cancelled)]
    {
      if id !in queue.items {
        return Err("no such command");
      }
      var item := queue.items[id];
      if !item.status.Queued? {
        return Err("not cancellable");
      }
      queue.Update(id, item.(status := Cancelled));
      r := Ok;
    }

    // ---- Dispatcher ---------------------------------------------------------------------------

    /** The first call of Stop closes the stop channel; later calls return at once. */
    method CloseStop() returns (first: bool)
      requires Valid()
      modifies this
      ensures Valid() && first == CallerEnabled(old(State()), CallerEvent.CloseStop)
      ensures State() == if first then Apply(config, old(State()), Caller(CallerEvent.CloseStop)) else old(State())
      ensures stopped && first == !old(stopped) && dispatcher == old(dispatcher) && senders == old(senders)
    {
      first := !stopped;
      if first {
        stopped := true;
      }
    }

    method CheckStop() returns (quit: bool)
      requires Valid() && dispatcher.Top?
      modifies this
      ensures Valid() && quit == stopped && State() == Apply(config, old(State()), Dispatch(Check))
      ensures dispatcher == if stopped then Exited else WantSlot
    {
      quit := stopped;
      dispatcher := if quit then Exited else WantSlot;
    }

    /** A select between a free slot and the stop channel; with both ready either branch may be taken. */
    method AcquireSlot() returns (acquired: bool)
      requires Valid() && dispatcher.WantSlot? && (sem < config.maxConcurrent || stopped)
      modifies this
      ensures Valid()
      ensures var e := if acquired then Acquire else QuitWaiting;
        DispatchEnabled(config, old(State()), e) && State() == Apply(config, old(State()), Dispatch(e))
      ensures if acquired then sem == old(sem) + 1 <= config.maxConcurrent && dispatcher == HasSlot
              else stopped && sem == old(sem) && dispatcher == Exited
    {
      var slotFirst: bool := *;
      acquired := sem < config.maxConcurrent && (slotFirst || !stopped);
      if acquired {
        sem := sem + 1;
        dispatcher := HasSlot;
      } else {
        dispatcher := Exited;
      }
    }

    /** The pause after an empty queue ends with the timer or with the stop channel. */
    method Pause() returns (quit: bool)
      requires Valid() && dispatcher.Sleeping?
      modifies this
      ensures Valid()
      ensures var e := if quit then QuitSleeping else Wake;
        DispatchEnabled(config, old(State()), e) && State() == Apply(config, old(State()), Dispatch(e))
      ensures if quit then stopped && dispatcher == Exited else dispatcher == Top
    {
      var timer: bool := *;
      quit := stopped && !timer;
      dispatcher := if quit then Exited else Top;
    }

    method TakeNext(now: int) returns (id: Option<Id>)
      requires Valid() && dispatcher.HasSlot?
      modifies this, queue
      ensures Valid()
      ensures var e := if id.Some? then DispatchEvent.Dequeue(id.value, now) else DequeueNone;
        DispatchEnabled(config, old(State()), e) && State() == Apply(config, old(State()), Dispatch(e))
      ensures id.None? ==> NoneQueued(old(queue.items)) && queue.items == old(queue.items) && dispatcher == NoneFound
      ensures id.Some? ==>
        && IsBest(old(queue.items), id.value) && dispatcher == Holding(id.value)
        && queue.items == old(queue.items)[id.value := old(queue.items)[id.value].(status := Sending, sentAt := Some(now))]
    {
      id := queue.Dequeue(now);
      dispatcher := if id.Some? then Holding(id.value) else NoneFound;
    }

    method SpawnSender(ghost k: nat)
      requires Valid() && dispatcher.Holding? && k !in senders
      modifies this
      ensures Valid() && State() == Apply(config, old(State()), Dispatch(Spawn(k)))
      ensures senders == old(senders)[k := Sender(old(dispatcher).id, Started)] && dispatcher == Top && sem == old(sem)
    {
      senders, dispatcher := senders[k := Sender(dispatcher.id, Started)], Top;
    }

    method ReleaseUnused()
      requires Valid() && dispatcher.NoneFound?
      modifies this
      ensures Valid() && State() == Apply(config, old(State()), Dispatch(ReleaseEmpty))
      ensures sem == old(sem) - 1 && dispatcher == Sleeping
    {
      sem := sem - 1;
      dispatcher := Sleeping;
    }

    // ---- Senders ------------------------------------------------------------------------------

    method BeginSending(ghost k: nat)
      requires Valid() && k in senders && senders[k].phase.Started?
      modifies this, metrics
      ensures Valid() && State() == Apply(config, old(State()), Act(k, BeginSend))
      ensures metrics.totalSent == old(metrics.totalSent) + 1 && queue.items == old(queue.items)
      ensures senders == old(senders)[k := Sender(old(senders)[k].id, Waiting)]
    {
      metrics.totalSent := metrics.totalSent + 1;
      senders, sends := senders[k := senders[k].(phase := Waiting)], sends[senders[k].id := sends[senders[k].id] + 1];
    }

    method ScheduleRetry(ghost k: nat, id: Id, msg: string) returns (wait: nat)
      requires Valid() && k in senders && senders[k] == Sender(id, Waiting)
      requires queue.items[id].retryCount < config.maxRetries
      modifies this, queue
      ensures State() == ApplyAction(config, old(State()), k, Fail(msg, false))
      ensures wait == Delay(config.retryBackoff, queue.items[id].retryCount)
      ensures Retried(old(State()), State(), k, id, msg)
    {
      var item := queue.items[id];
      item := item.(retryCount := item.retryCount + 1);
      item := item.(error := msg);
      queue.Update(id, item);
      wait := Delay(config.retryBackoff, item.retryCount);
      senders, waited := senders[k := Sender(id, Backoff)], waited[id := waited[id] + wait];
    }

    method MarkFailed(ghost k: nat, id: Id, msg: string)
      requires Valid() && k in senders && senders[k] == Sender(id, Waiting)
      requires queue.items[id].retryCount >= config.maxRetries
      modifies this, queue, metrics
      ensures State() == ApplyAction(config, old(State()), k, Fail(msg, false))
      ensures GivenUp(old(State()), State(), k, id, msg)
    {
      var item := queue.items[id];
      item := item.(status := Failed);
      item := item.(error := msg);
      queue.Update(id, item);
      metrics.totalFailed := metrics.totalFailed + 1;
      senders, waited := senders[k := Sender(id, Finishing)], waited[id := waited[id] + 0];
    }

    /** Decides between another attempt and giving up; returns how long to wait before the next attempt. */
    method RetryOrFail(ghost k: nat, id: Id, msg: string) returns (backoff: Option<nat>)
      requires Valid() && k in senders && senders[k] == Sender(id, Waiting)
      modifies this, queue, metrics
      ensures Valid() && State() == Apply(config, old(State()), Act(k, Fail(msg, false)))
      ensures backoff == Wait(old(State()), State(), id)
      ensures if backoff.Some? then Retried(old(State()), State(), k, id, msg) else GivenUp(old(State()), State(), k, id, msg)
      ensures backoff.Some? <==> old(queue.items)[id].retryCount < config.maxRetries
      ensures backoff.Some? ==> backoff.value == Delay(config.retryBackoff, old(queue.items)[id].retryCount + 1)
    {
      ghost var want := Apply(config, State(), Act(k, Fail(msg, false)));
      if queue.items[id].retryCount < config.maxRetries {
        var wait := ScheduleRetry(k, id, msg);
        backoff := Some(wait);
      } else {
        MarkFailed(k, id, msg);
        backoff := None;
      }
    }

    /** The context deadline passes; the adapter call is abandoned, not awaited. */
    method OnTimeout(ghost k: nat, id: Id) returns (backoff: Option<nat>)
      requires Valid() && k in senders && senders[k] == Sender(id, Waiting)
      modifies this, queue, metrics
      ensures Valid() && State() == Apply(config, old(State()), Act(k, Fail("timeout", true)))
      ensures backoff == Wait(old(State()), State(), id)
      ensures if backoff.Some? then Retried(old(State()), State(), k, id, "timeout") else GivenUp(old(State()), State(), k, id, "timeout")
      ensures backoff.Some? <==> old(queue.items)[id].retryCount < config.maxRetries
      ensures backoff.Some? ==> backoff.value == Delay(config.retryBackoff, old(queue.items)[id].retryCount + 1)
      ensures metrics.totalTimeout == old(metrics.totalTimeout) + 1
    {
      ghost var before := State();
      metrics.totalTimeout := metrics.totalTimeout + 1;
      orphans := orphans + 1;
      TimeoutThenFail(config, before, State(), k, "timeout");
      backoff := RetryOrFail(k, id, "timeout");
    }

    /** The adapter returns; anything but a successful acknowledgement counts as a failed attempt. */
    method OnReply(ghost k: nat, id: Id, error: Option<string>, ack: Reply, now: int) returns (backoff: Option<nat>)
      requires Valid() && k in senders && senders[k] == Sender(id, Waiting)
      modifies this, queue, metrics
      ensures Valid()
      ensures State() == Apply(config, old(State()), Act(k,
        if error.Some? then Fail(error.value, false)
        else if !ack.success then Fail(ack.message, false)
        else Ack(now)))
      ensures backoff == if error.None? && ack.success then None else Wait(old(State()), State(), id)
      ensures error.Some? || !ack.success ==>
        var msg := if error.Some? then error.value else ack.message;
        && (if backoff.Some? then Retried(old(State()), State(), k, id, msg) else GivenUp(old(State()), State(), k, id, msg))
        && (backoff.Some? <==> old(queue.items)[id].retryCount < config.maxRetries)
        && (backoff.Some? ==> backoff.value == Delay(config.retryBackoff, old(queue.items)[id].retryCount + 1))
      ensures error.None? && ack.success ==>
        && backoff.None? && senders == old(senders)[k := Sender(id, Recording)]
        && queue.items == old(queue.items)[id := old(queue.items)[id].(status := Acked, ackedAt := Some(now))]
      ensures metrics.totalTimeout == old(metrics.totalTimeout)
    {
      if error.Some? {
        backoff := RetryOrFail(k, id, error.value);
        return;
      }
      if !ack.success {
        backoff := RetryOrFail(k, id, ack.message);
        return;
      }
      var item := queue.items[id];
      item := item.(ackedAt := Some(now));
      item := item.(status := Acked);
      queue.Update(id, item);
      senders := senders[k := Sender(id, Recording)];
      backoff := None;
    }

    method CountAck(ghost k: nat)
      requires Valid() && k in senders && senders[k].phase.Recording?
      modifies this, metrics
      ensures Valid() && State() == Apply(config, old(State()), Act(k, Record))
      ensures metrics.totalAcked == old(metrics.totalAcked) + 1 && queue.items == old(queue.items)
      ensures senders == old(senders)[k := Sender(old(senders)[k].id, Finishing)]
    {
      metrics.RecordAck(true);
      senders := senders[k := senders[k].(phase := Finishing)];
    }

    method RequeueAfterBackoff(ghost k: nat, id: Id)
      requires Valid() && k in senders && senders[k] == Sender(id, Backoff)
      modifies this, queue
      ensures Valid() && State() == Apply(config, old(State()), Act(k, BackoffElapsed))
      ensures id in queue.items && id in old(queue.items)
      ensures var item, before := queue.items[id], old(queue.items)[id];
        && item.status == Queued && item.sentAt == None
        && item.priority == before.priority && item.enqueuedAt == before.enqueuedAt
        && item.retryCount == before.retryCount && item.error == before.error && item.ackedAt == before.ackedAt
      ensures queue.items - {id} == old(queue.items) - {id} && senders == old(senders)[k := Sender(id, Finishing)]
    {
      var item := queue.items[id];
      item := item.(status := Queued);
      item := item.(sentAt := None);
      queue.Update(id, item);
      senders := senders[k := Sender(id, Finishing)];
    }

    method FailOnStop(ghost k: nat, id: Id)
      requires Valid() && k in senders && senders[k] == Sender(id, Backoff) && stopped
      modifies this, queue, metrics
      ensures Valid() && State() == Apply(config, old(State()), Act(k, BackoffStopped))
      ensures queue.items == old(queue.items)[id := old(queue.items)[id].(status := Failed)]
      ensures metrics.totalFailed == old(metrics.totalFailed) + 1 && senders == old(senders)[k := Sender(id, Finishing)]
    {
      queue.Update(id, queue.items[id].(status := Failed));
      metrics.totalFailed := metrics.totalFailed + 1;
      senders := senders[k := Sender(id, Finishing)];
    }

    method GiveSlotBack(ghost k: nat)
      requires Valid() && k in senders && senders[k].phase.Finishing?
      modifies this
      ensures Valid() && State() == Apply(config, old(State()), Act(k, ReleaseSlot))
      ensures sem == old(sem) - 1 && senders == old(senders)[k := Sender(old(senders)[k].id, Released)]
    {
      sem := sem - 1;
      senders := senders[k := senders[k].(phase := Released)];
    }
  }
}
