/** Properties of whole runs of the command pipeline: concurrency, finality, attempts, termination, shutdown. */
module CommandRuns {
  import opened Prelude
  import opened CommandProtocol
  import opened CommandInvariants

  // ---- Concurrency and shutdown ---------------------------------------------------------------

  /** The items sender goroutines own are no more than the slots sender goroutines hold. */
  lemma OwnedWithinHeld(senders: map<nat, Sender>, owned: set<Id>)
    requires forall id | id in owned :: exists k :: k in senders && senders[k].phase.Owns() && senders[k].id == id
    ensures |owned| <= |Holders(senders)|
  {
    var ids := map k | k in senders :: senders[k].id;
    forall id | id in owned ensures exists k :: k in Holders(senders) && ids[k] == id {
      var k :| k in senders && senders[k].phase.Owns() && senders[k].id == id;
      assert k in Holders(senders);
    }
    ImageSize(ids, Holders(senders), owned);
  }

  lemma SendingWithinSlots(c: Settings, s: System)
    requires SlotsCounted(c, s) && Ownership(s)
    ensures |With(s.items, Sending)| <= s.slots
  {
    var sending := With(s.items, Sending);
    var mine := if s.dispatcher.Holding? then {s.dispatcher.id} else {};
    forall id | id in sending - mine
      ensures exists k :: k in s.senders && s.senders[k].phase.Owns() && s.senders[k].id == id
    {
      assert IsSending(s, id);
      var k :| OwnedBy(s, k, id);
    }
    OwnedWithinHeld(s.senders, sending - mine);
    assert |sending| <= |sending - mine| + |mine| by {
      assert sending <= (sending - mine) + mine;
      assert |sending| == |sending - mine| + |sending * mine|;
      if mine != {} && sending * mine != {} {
        assert sending * mine == mine;
      }
    }
  }

  /** At most MaxConcurrent commands are being sent, whatever the interleaving. */
  lemma AtMostMaxConcurrentSending(c: Settings, s: System)
    requires Reachable(c, s)
    ensures |With(s.items, Sending)| <= s.slots <= c.maxConcurrent
  {
    ReachableInv(c, s);
    SendingWithinSlots(c, s);
  }

  /** A command is sending exactly when one goroutine, the dispatcher or a single sender, holds it. */
  lemma OneOwner(c: Settings, s: System, id: Id)
    requires Reachable(c, s)
    ensures IsSending(s, id) <==> HasOwner(s, id)
    ensures s.dispatcher == Holding(id) ==> !exists k :: OwnedBy(s, k, id)
    ensures forall k, l :: OwnedBy(s, k, id) && OwnedBy(s, l, id) ==> k == l
  {
    ReachableInv(c, s);
  }

  /** Once the call of Stop that closed the channel, and waited, has returned. */
  lemma NoneSendingAfterStop(c: Settings, s: System)
    requires Reachable(c, s) && s.stopReturned
    ensures With(s.items, Sending) == {}
  {
    ReachableInv(c, s);
    forall id ensures id !in With(s.items, Sending) {
      assert !HasOwner(s, id);
      assert !IsSending(s, id);
    }
  }

  /** At any other moment, such as the return of another call of Stop, nothing is being sent if and only if no goroutine holds
      an item. */
  lemma NoneSendingIff(c: Settings, s: System)
    requires Reachable(c, s)
    ensures With(s.items, Sending) == {} <==> !s.dispatcher.Holding? && forall k | k in s.senders :: !s.senders[k].phase.Owns()
  {
    ReachableInv(c, s);
    if s.dispatcher.Holding? {
      assert s.dispatcher.id in With(s.items, Sending);
    }
    forall k | k in s.senders && s.senders[k].phase.Owns() ensures s.senders[k].id in With(s.items, Sending) {
      OwnerIsSending(s, k);
    }
    if id :| id in With(s.items, Sending) {
      assert IsSending(s, id) && HasOwner(s, id);
      if s.dispatcher != Holding(id) {
        var k :| OwnedBy(s, k, id);
      }
    }
  }

  const WAITING := Item(0, Queued, 0, None, None, 0, "")
  const ONE_QUEUED := System(
    map["a" := WAITING], Top, map[], 0, false, false, Counters(0, 0, 0, 0, 0), 0, map["a" := 0], map["a" := 0])

  /** A second call of Stop finds the channel closed and returns at once, here while a command is being sent. */
  lemma SecondStopDoesNotWait(c: Settings) returns (s: System)
    ensures Reachable(c, s) && s.stopped && !CallerEnabled(s, CloseStop) && "a" in With(s.items, Sending)
  {
    var s0 := ONE_QUEUED;
    var s1 := Apply(c, s0, Dispatch(Check));
    var s2 := Apply(c, s1, Dispatch(Acquire));
    assert IsBest(s2.items, "a");
    var s3 := Apply(c, s2, Dispatch(Dequeue("a", 0)));
    s := Apply(c, s3, Caller(CloseStop));
    var none: seq<Event> := [];
    PrependEvent(c, s3, Caller(CloseStop), none);
    PrependEvent(c, s2, Dispatch(Dequeue("a", 0)), [Caller(CloseStop)] + none);
    PrependEvent(c, s1, Dispatch(Acquire), [Dispatch(Dequeue("a", 0))] + ([Caller(CloseStop)] + none));
    PrependEvent(c, s0, Dispatch(Check), [Dispatch(Acquire)] + ([Dispatch(Dequeue("a", 0))] + ([Caller(CloseStop)] + none)));
    assert Initial(s0);
  }

  // ---- Finality -------------------------------------------------------------------------------

  /** t may follow s: no item is lost, priority and arrival stay, and a terminal item stays as it is. */
  ghost predicate Continues(s: System, t: System) {
    forall id | id in s.items ::
      && id in t.items
      && t.items[id].priority == s.items[id].priority
      && t.items[id].enqueuedAt == s.items[id].enqueuedAt
      && s.items[id].retryCount <= t.items[id].retryCount
      && (s.items[id].status.Terminal() ==> t.items[id] == s.items[id])
  }

  lemma ContinuesAction(c: Settings, s: System, k: nat, a: Action)
    requires Wired(s) && k in s.senders && ActionEnabled(s.senders[k].phase, s.stopped, a) && Ownership(s)
    ensures Continues(s, ApplyAction(c, s, k, a))
  {
    hide Ownership, NextCounters, NextPhase, Charge;
    OwnerIsSending(s, k);
  }

  lemma ContinuesDispatch(c: Settings, s: System, e: DispatchEvent)
    requires DispatchEnabled(c, s, e)
    ensures Continues(s, ApplyDispatch(c, s, e))
  {
  }

  lemma ContinuesCaller(s: System, e: CallerEvent)
    requires CallerEnabled(s, e)
    ensures Continues(s, ApplyCaller(s, e))
  {
  }

  lemma ContinuesStep(c: Settings, s: System, e: Event)
    requires Wired(s) && Ownership(s) && Enabled(c, s, e)
    ensures Continues(s, Apply(c, s, e))
  {
    match e
    case Caller(call) => ContinuesCaller(s, call);
    case Dispatch(step) => ContinuesDispatch(c, s, step);
    case Act(k, a) => ContinuesAction(c, s, k, a);
    case LateReply =>
  }

  /** Acked, failed and cancelled commands never change again, and no command moves in the queue order. */
  lemma {:induction false} ContinuesRun(c: Settings, s: System, es: seq<Event>)
    requires Inv(c, s) && IsRun(c, s, es)
    ensures Continues(s, Final(c, s, es))
    decreases |es|
  {
    if es != [] {
      var t := Apply(c, s, es[0]);
      InvStep(c, s, es[0]);
      ContinuesStep(c, s, es[0]);
      ContinuesRun(c, t, es[1..]);
      var u := Final(c, t, es[1..]);
      forall id | id in s.items
        ensures id in u.items && u.items[id].priority == s.items[id].priority
          && u.items[id].enqueuedAt == s.items[id].enqueuedAt && s.items[id].retryCount <= u.items[id].retryCount
          && (s.items[id].status.Terminal() ==> u.items[id] == s.items[id])
      {
        assert id in t.items;
      }
    }
  }

  // ---- Attempts, totals, back-off -------------------------------------------------------------

  lemma PowGrows(m: nat, n: nat)
    requires m <= n
    ensures Pow2(m) <= Pow2(n)
  {
  }

  /** How often a command was handed to sendItem follows from its status and retry count. */
  lemma AttemptAccounting(c: Settings, s: System, id: Id)
    requires Reachable(c, s) && id in s.items
    ensures s.items.Keys == s.sends.Keys == s.waited.Keys
    ensures s.sends[id] <= c.maxRetries + 1
    ensures s.items[id].status.Queued? || s.items[id].status.Cancelled? ==> s.sends[id] == s.items[id].retryCount
    ensures s.items[id].status.Acked? ==> s.sends[id] == s.items[id].retryCount + 1
    ensures s.items[id].status.Failed? ==>
      (s.sends[id] == s.items[id].retryCount + 1 == c.maxRetries + 1) || (s.stopped && s.sends[id] == s.items[id].retryCount > 0)
    ensures s.items[id].status.Failed? && !s.stopped ==> s.sends[id] == c.maxRetries + 1
  {
    ReachableInv(c, s);
    assert ItemAccount(c, s.stopped, s.items[id], s.sends[id], s.waited[id]);
    if s.items[id].status.Sending? {
      assert IsSending(s, id);
      if s.dispatcher != Holding(id) {
        var k :| OwnedBy(s, k, id);
        assert OwnerAccount(s.senders[k].phase, s.items[id], s.sends[id]);
      }
    }
  }

  lemma ChargeGrows(c: Settings, m: nat, n: nat)
    requires m <= n
    ensures ChargeBound(c, m) <= ChargeBound(c, n)
  {
    PowGrows(m, n);
    TimesGrows(c.retryBackoff, Pow2(m) - 1, Pow2(n) - 1);
  }

  lemma TimesGrows(x: nat, a: int, b: int)
    requires a <= b
    ensures x * a <= x * b
  {
  }

  /** The back-off charged to one command is at most RetryBackoff * (2^MaxRetries - 1). */
  lemma BackoffBounded(c: Settings, s: System, id: Id)
    requires Reachable(c, s) && id in s.items
    ensures id in s.waited && s.waited[id] <= c.retryBackoff * (Pow2(c.maxRetries) - 1)
  {
    ReachableInv(c, s);
    assert ItemAccount(c, s.stopped, s.items[id], s.sends[id], s.waited[id]);
    ChargeGrows(c, s.items[id].retryCount, c.maxRetries);
  }

  /** The counters are the sums they are meant to be; an acknowledgement is counted a step after it is stored. */
  lemma CountersAgree(c: Settings, s: System)
    requires Reachable(c, s)
    ensures s.counters.totalSent == Sum(s.sends)
    ensures s.counters.totalFailed == |With(s.items, Failed)|
    ensures s.counters.totalAcked + |Recorders(s.senders)| == |With(s.items, Acked)|
    ensures s.senders == map[] ==> s.counters.totalAcked == |With(s.items, Acked)|
    ensures s.counters.totalAcked <= s.counters.totalSent
    ensures 0 <= s.counters.successRate <= 10000
  {
    ReachableInv(c, s);
    AckedAtMostSent(c, s);
    if s.senders == map[] {
      assert Recorders(s.senders) == {};
    }
  }

  // ---- Termination ----------------------------------------------------------------------------

  function ItemWeight(c: Settings, item: Item): nat {
    var left := if item.retryCount < c.maxRetries then c.maxRetries - item.retryCount else 0;
    match item.status
    case Queued => 12 * left + 12
    case Sending => 12 * left
    case _ => 0
  }

  function SenderWeight(ph: Phase): nat {
    match ph
    case Started => 10
    case Waiting => 9
    case Backoff => 19
    case Recording => 3
    case Finishing => 2
    case Released => 1
  }

  ghost function ItemWeights(c: Settings, items: map<Id, Item>): map<Id, nat> {
    map id | id in items :: ItemWeight(c, items[id])
  }

  ghost function SenderWeights(senders: map<nat, Sender>): map<nat, nat> {
    map k | k in senders :: SenderWeight(senders[k].phase)
  }

  /** The work left: remaining retries and the stations every command and goroutine still has to pass. */
  ghost function Work(c: Settings, s: System): nat {
    Sum(ItemWeights(c, s.items)) + Sum(SenderWeights(s.senders)) + s.orphans
      + (if s.dispatcher.Holding? then 11 else 0) + (if s.stopped then 0 else 1) + (if s.stopReturned then 0 else 1)
  }

  /** The dispatcher polling an empty queue or a full semaphore. */
  predicate Idle(e: Event) {
    e.Dispatch? && !e.step.Dequeue? && !e.step.Spawn?
  }

  predicate IsSend(e: Event) {
    e.Caller? && e.call.Send?
  }

  lemma ItemReweighs(c: Settings, items: map<Id, Item>, id: Id, item: Item)
    ensures Sum(ItemWeights(c, items[id := item])) + (if id in items then ItemWeight(c, items[id]) else 0)
         == Sum(ItemWeights(c, items)) + ItemWeight(c, item)
  {
    assert ItemWeights(c, items[id := item]) == ItemWeights(c, items)[id := ItemWeight(c, item)];
    SumUpdate(ItemWeights(c, items), id, ItemWeight(c, item));
  }

  lemma SenderReweighs(senders: map<nat, Sender>, k: nat, next: Sender)
    ensures Sum(SenderWeights(senders[k := next])) + (if k in senders then SenderWeight(senders[k].phase) else 0)
         == Sum(SenderWeights(senders)) + SenderWeight(next.phase)
  {
    assert SenderWeights(senders[k := next]) == SenderWeights(senders)[k := SenderWeight(next.phase)];
    SumUpdate(SenderWeights(senders), k, SenderWeight(next.phase));
  }

  lemma LocalWork(c: Settings, item: Item, ph: Phase, stopped: bool, a: Action)
    requires ActionEnabled(ph, stopped, a)
    requires item.retryCount <= c.maxRetries
    requires ph.Owns() ==> item.status.Sending?
    ensures ItemWeight(c, NextItem(c, item, a)) + (if a.Exit? then 0 else SenderWeight(NextPhase(c, item, a)))
              + (if a.Fail? && a.timedOut then 1 else 0)
            < ItemWeight(c, item) + SenderWeight(ph)
  {
  }

  lemma SenderLeaves(senders: map<nat, Sender>, k: nat)
    requires k in senders
    ensures Sum(SenderWeights(senders - {k})) + SenderWeight(senders[k].phase) == Sum(SenderWeights(senders))
  {
    SumRemove(SenderWeights(senders), k);
    assert SenderWeights(senders - {k}) == SenderWeights(senders) - {k};
  }

  lemma WorkOfAction(c: Settings, s: System, k: nat, a: Action)
    requires Wired(s) && k in s.senders && ActionEnabled(s.senders[k].phase, s.stopped, a)
    requires s.items[s.senders[k].id].retryCount <= c.maxRetries
    requires s.senders[k].phase.Owns() ==> s.items[s.senders[k].id].status.Sending?
    ensures Work(c, ApplyAction(c, s, k, a)) < Work(c, s)
  {
    var id, ph := s.senders[k].id, s.senders[k].phase;
    var item := s.items[id];
    LocalWork(c, item, ph, s.stopped, a);
    ItemReweighs(c, s.items, id, NextItem(c, item, a));
    if a.Exit? {
      SenderLeaves(s.senders, k);
    } else {
      SenderReweighs(s.senders, k, Sender(id, NextPhase(c, item, a)));
    }
  }

  lemma WorkAction(c: Settings, s: System, k: nat, a: Action)
    requires Inv(c, s) && k in s.senders && ActionEnabled(s.senders[k].phase, s.stopped, a)
    ensures Work(c, ApplyAction(c, s, k, a)) < Work(c, s)
  {
    var id := s.senders[k].id;
    assert ItemAccount(c, s.stopped, s.items[id], s.sends[id], s.waited[id]);
    OwnerIsSending(s, k);
    WorkOfAction(c, s, k, a);
  }

  lemma WorkDequeue(c: Settings, s: System, id: Id, now: int)
    requires DispatchEnabled(c, s, Dequeue(id, now)) && s.items[id].retryCount <= c.maxRetries
    ensures Work(c, ApplyDispatch(c, s, Dequeue(id, now))) < Work(c, s)
  {
    ItemReweighs(c, s.items, id, s.items[id].(status := Sending, sentAt := Some(now)));
  }

  lemma WorkSpawn(c: Settings, s: System, k: nat)
    requires DispatchEnabled(c, s, Spawn(k))
    ensures Work(c, ApplyDispatch(c, s, Spawn(k))) < Work(c, s)
  {
    SenderReweighs(s.senders, k, Sender(s.dispatcher.id, Started));
  }

  lemma WorkDispatch(c: Settings, s: System, e: DispatchEvent)
    requires Inv(c, s) && DispatchEnabled(c, s, e)
    ensures Idle(Dispatch(e)) ==> Work(c, ApplyDispatch(c, s, e)) == Work(c, s)
    ensures !Idle(Dispatch(e)) ==> Work(c, ApplyDispatch(c, s, e)) < Work(c, s)
  {
    match e
    case Dequeue(id, now) =>
      assert ItemAccount(c, s.stopped, s.items[id], s.sends[id], s.waited[id]);
      WorkDequeue(c, s, id, now);
    case Spawn(k) => WorkSpawn(c, s, k);
    case _ =>
  }

  lemma WorkCaller(c: Settings, s: System, e: CallerEvent)
    requires Inv(c, s) && CallerEnabled(s, e)
    ensures !e.Send? ==> Work(c, ApplyCaller(s, e)) < Work(c, s)
    ensures e.Send? ==> Work(c, ApplyCaller(s, e)) == Work(c, s) + 12 * (c.maxRetries + 1)
  {
    hide Sum, ItemWeights, SenderWeights, Inv, IsBest;
    match e
    case Send(id, priority, now) => ItemReweighs(c, s.items, id, Item(priority, Queued, now, None, None, 0, ""));
    case Cancel(id) => ItemReweighs(c, s.items, id, s.items[id].(status := Cancelled));
    case _ =>
  }

  /** Every step but a new Send or an idle poll strictly reduces the work left. */
  lemma WorkStep(c: Settings, s: System, e: Event)
    requires Inv(c, s) && Enabled(c, s, e)
    ensures !IsSend(e) && !Idle(e) ==> Work(c, Apply(c, s, e)) < Work(c, s)
    ensures Idle(e) ==> Work(c, Apply(c, s, e)) == Work(c, s)
    ensures IsSend(e) ==> Work(c, Apply(c, s, e)) == Work(c, s) + 12 * (c.maxRetries + 1)
  {
    match e
    case Caller(call) => WorkCaller(c, s, call);
    case Dispatch(step) => WorkDispatch(c, s, step);
    case Act(k, a) => WorkAction(c, s, k, a);
    case LateReply =>
  }

  function CountSends(es: seq<Event>): nat {
    if es == [] then 0 else (if IsSend(es[0]) then 1 else 0) + CountSends(es[1..])
  }

  function CountProgress(es: seq<Event>): nat {
    if es == [] then 0 else (if IsSend(es[0]) || Idle(es[0]) then 0 else 1) + CountProgress(es[1..])
  }

  /** In any run, however long, the steps that are not idle polls are bounded by the initial work and the new Sends. */
  lemma {:induction false} ProgressIsBounded(c: Settings, s: System, es: seq<Event>)
    requires Inv(c, s) && IsRun(c, s, es)
    ensures CountProgress(es) + Work(c, Final(c, s, es)) <= Work(c, s) + 12 * (c.maxRetries + 1) * CountSends(es)
    decreases |es|
  {
    if es != [] {
      WorkStep(c, s, es[0]);
      InvStep(c, s, es[0]);
      ProgressIsBounded(c, Apply(c, s, es[0]), es[1..]);
      assert 12 * (c.maxRetries + 1) * (CountSends(es[1..]) + 1)
          == 12 * (c.maxRetries + 1) * CountSends(es[1..]) + 12 * (c.maxRetries + 1);
    }
  }

  // ---- Something can always be done -----------------------------------------------------------

  ghost predicate AllTerminal(s: System) {
    forall id | id in s.items :: s.items[id].status.Terminal()
  }

  lemma {:induction false} BestAmong(items: map<Id, Item>, ids: set<Id>) returns (best: Id)
    requires ids != {} && ids <= items.Keys
    ensures best in ids && forall o | o in ids :: !Outranks(items[o], items[best])
    decreases |ids|
  {
    best :| best in ids;
    if ids != {best} {
      var other := BestAmong(items, ids - {best});
      if Outranks(items[other], items[best]) {
        best := other;
      }
    }
  }

  lemma BestExists(items: map<Id, Item>)
    requires !NoneQueued(items)
    ensures exists id :: IsBest(items, id)
  {
    var queued := With(items, Queued);
    var w :| w in items && items[w].status.Queued?;
    assert w in queued;
    var best := BestAmong(items, queued);
    assert IsBest(items, best);
  }

  /** The step a sender takes next when its adapter answers and its timer fires. */
  function Helpful(ph: Phase): (a: Action)
    ensures ActionEnabled(ph, false, a) && ActionEnabled(ph, true, a)
  {
    match ph
    case Started => BeginSend
    case Waiting => Ack(0)
    case Backoff => BackoffElapsed
    case Recording => Record
    case Finishing => ReleaseSlot
    case Released => Exit
  }

  function Distance(d: Dispatcher): nat {
    match d
    case NoneFound => 5
    case Sleeping => 4
    case Top => 3
    case WantSlot => 2
    case HasSlot => 1
    case _ => 0
  }

  predicate IsClose(e: Event) {
    e.Caller? && e.call.CloseStop?
  }

  lemma DispatcherCanProgress(c: Settings, s: System) returns (e: DispatchEvent)
    requires Inv(c, s) && !s.stopped && !NoneQueued(s.items) && s.senders == map[]
    ensures DispatchEnabled(c, s, e)
    ensures Idle(Dispatch(e)) ==> Distance(ApplyDispatch(c, s, e).dispatcher) < Distance(s.dispatcher)
  {
    assert Holders(s.senders) == {};
    match s.dispatcher
    case Top => e := Check;
    case WantSlot => e := Acquire;
    case HasSlot =>
      BestExists(s.items);
      var best :| IsBest(s.items, best);
      e := Dequeue(best, 0);
    case NoneFound => e := ReleaseEmpty;
    case Sleeping => e := Wake;
    case Holding(_) => e := Spawn(0);
    case Exited => assert false;
  }

  lemma UnfinishedIsQueued(s: System)
    requires Ownership(s) && s.senders == map[] && !s.dispatcher.Holding? && !AllTerminal(s)
    ensures !NoneQueued(s.items)
  {
    var id :| id in s.items && !s.items[id].status.Terminal();
    assert !HasOwner(s, id);
    assert !IsSending(s, id);
  }

  /** While a command is unfinished and the scheduler runs, a step is enabled that brings the end nearer. */
  lemma CanProgress(c: Settings, s: System) returns (e: Event)
    requires Inv(c, s) && !s.stopped && !AllTerminal(s)
    ensures Enabled(c, s, e) && !IsSend(e) && !IsClose(e)
    ensures Idle(e) ==> Distance(Apply(c, s, e).dispatcher) < Distance(s.dispatcher)
  {
    if k :| k in s.senders {
      e := Act(k, Helpful(s.senders[k].phase));
    } else if s.dispatcher.Holding? {
      e := Dispatch(Spawn(0));
    } else {
      UnfinishedIsQueued(s);
      var step := DispatcherCanProgress(c, s);
      e := Dispatch(step);
    }
  }

  lemma PrependEvent(c: Settings, s: System, e: Event, es: seq<Event>)
    requires Wired(s) && Enabled(c, s, e) && IsRun(c, Apply(c, s, e), es)
    ensures IsRun(c, s, [e] + es) && Final(c, s, [e] + es) == Final(c, Apply(c, s, e), es)
  {
    assert ([e] + es)[1..] == es;
  }

  /** So from every state of a running scheduler all commands can still reach a terminal status. */
  lemma {:induction false} CanFinish(c: Settings, s: System) returns (es: seq<Event>)
    requires Inv(c, s) && !s.stopped
    ensures IsRun(c, s, es) && AllTerminal(Final(c, s, es))
    ensures forall e | e in es :: !IsSend(e) && !IsClose(e)
    decreases Work(c, s), Distance(s.dispatcher)
  {
    es := [];
    if !AllTerminal(s) {
      var e := CanProgress(c, s);
      WorkStep(c, s, e);
      InvStep(c, s, e);
      var rest := CanFinish(c, Apply(c, s, e));
      PrependEvent(c, s, e, rest);
      es := [e] + rest;
    }
  }

  // ---- Stop returns ---------------------------------------------------------------------------

  function StepsToExit(d: Dispatcher): nat {
    match d
    case Exited => 0
    case Top => 1
    case Sleeping | Holding(_) => 2
    case NoneFound => 3
    case HasSlot => 4
    case WantSlot => 5
  }

  lemma DispatcherWindsDown(c: Settings, s: System, e: DispatchEvent)
    requires s.stopped && DispatchEnabled(c, s, e)
    ensures ApplyDispatch(c, s, e).stopped
    ensures StepsToExit(ApplyDispatch(c, s, e).dispatcher) < StepsToExit(s.dispatcher)
  {
  }

  lemma StoppedStep(c: Settings, s: System, e: Event)
    requires Inv(c, s) && s.stopped && Enabled(c, s, e)
    ensures var t := Apply(c, s, e);
      && t.stopped
      && Work(c, t) + StepsToExit(t.dispatcher) + 1
           <= Work(c, s) + StepsToExit(s.dispatcher) + (if IsSend(e) then 12 * (c.maxRetries + 1) + 1 else 0)
  {
    match e
    case Caller(call) => WorkCaller(c, s, call);
    case Dispatch(step) =>
      WorkDispatch(c, s, step);
      DispatcherWindsDown(c, s, step);
    case Act(k, a) => WorkAction(c, s, k, a);
    case LateReply => WorkStep(c, s, e);
  }

  /** Once the stop channel is closed even idle polling is bounded, so every run is. */
  lemma {:induction false} StoppedRunsAreBounded(c: Settings, s: System, es: seq<Event>)
    requires Inv(c, s) && s.stopped && IsRun(c, s, es)
    ensures |es| <= Work(c, s) + StepsToExit(s.dispatcher) + (12 * (c.maxRetries + 1) + 1) * CountSends(es)
    decreases |es|
  {
    if es != [] {
      StoppedStep(c, s, es[0]);
      InvStep(c, s, es[0]);
      StoppedRunsAreBounded(c, Apply(c, s, es[0]), es[1..]);
      var w := 12 * (c.maxRetries + 1) + 1;
      assert w * (CountSends(es[1..]) + 1) == w * CountSends(es[1..]) + w;
    }
  }

  predicate ByGoroutine(e: Event) {
    e.Dispatch? || e.Act?
  }

  /** And it can only end with Stop able to return: until then the dispatcher or a sender has a step to take. */
  lemma StopIsNotStuck(c: Settings, s: System) returns (e: Event)
    requires Inv(c, s) && s.stopped && !s.stopReturned
    ensures Enabled(c, s, e) && (ByGoroutine(e) || e == Caller(StopReturns))
  {
    if k :| k in s.senders {
      e := Act(k, Helpful(s.senders[k].phase));
    } else {
      match s.dispatcher
      case Exited => e := Caller(StopReturns);
      case Top => e := Dispatch(Check);
      case WantSlot => e := Dispatch(QuitWaiting);
      case HasSlot =>
        if NoneQueued(s.items) {
          e := Dispatch(DequeueNone);
        } else {
          BestExists(s.items);
          var best :| IsBest(s.items, best);
          e := Dispatch(Dequeue(best, 0));
        }
      case NoneFound => e := Dispatch(ReleaseEmpty);
      case Holding(_) => e := Dispatch(Spawn(0));
      case Sleeping => e := Dispatch(QuitSleeping);
    }
  }
}
