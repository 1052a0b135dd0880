/** What happens to a command from Send to its end, in terms of the events of a run. */
module CommandLifeCycle {
  import opened Prelude
  import opened CommandProtocol
  import opened CommandInvariants
  import opened CommandRuns
  import opened CommandFairness

  // ---- One step -------------------------------------------------------------------------------

  /** What a caller or the dispatcher may make of an item. */
  ghost predicate CalledOn(a: Item, b: Item, e: Event, id: Id) {
    || (e == Caller(Cancel(id)) && a.status == Queued && b == a.(status := Cancelled))
    || (e.Dispatch? && e.step.Dequeue? && e.step.id == id && a.status == Queued
        && b == a.(status := Sending, sentAt := Some(e.step.now)))
  }

  /** What its sender may make of an item that is being sent: another retry, back to the queue with nothing but the time of
      sending forgotten, or one of the two ends. */
  ghost predicate SentOn(c: Settings, stopped: bool, a: Item, b: Item, action: Action) {
    && a.status == Sending
    && match action
       case Fail(msg, _) =>
         if a.retryCount < c.maxRetries then b == a.(retryCount := a.retryCount + 1, error := msg)
         else b == a.(status := Failed, error := msg)
       case Ack(now) => b == a.(status := Acked, ackedAt := Some(now))
       case BackoffElapsed => b == a.(status := Queued, sentAt := None)
       case BackoffStopped => stopped && b == a.(status := Failed)
       case _ => false
  }

  ghost predicate Moves(c: Settings, s: System, e: Event, id: Id, b: Item)
    requires id in s.items
  {
    || CalledOn(s.items[id], b, e, id)
    || (e.Act? && e.k in s.senders && s.senders[e.k].id == id && SentOn(c, s.stopped, s.items[id], b, e.action))
  }

  lemma ActionMoves(c: Settings, s: System, k: nat, a: Action, id: Id)
    requires Wired(s) && Ownership(s) && Accounts(c, s) && Enabled(c, s, Act(k, a)) && id in s.items
    ensures var t := ApplyAction(c, s, k, a);
      && t.items.Keys == s.items.Keys
      && (t.items[id] == s.items[id] || Moves(c, s, Act(k, a), id, t.items[id]))
      && (s.senders[k].id == id && (a.Fail? || a.Ack? || a.BackoffElapsed? || a.BackoffStopped?) ==>
            SentOn(c, s.stopped, s.items[id], t.items[id], a))
  {
    hide Ownership, NextCounters, NextPhase, Charge, Accounts;
    OwnerIsSending(s, k);
  }

  lemma ActionAddsNone(c: Settings, s: System, k: nat, a: Action)
    requires Wired(s) && k in s.senders
    ensures ApplyAction(c, s, k, a).items.Keys == s.items.Keys
  {
  }

  lemma DispatchAddsNone(c: Settings, s: System, e: DispatchEvent)
    requires DispatchEnabled(c, s, e)
    ensures ApplyDispatch(c, s, e).items.Keys == s.items.Keys
  {
  }

  lemma DispatchMoves(c: Settings, s: System, e: DispatchEvent, id: Id)
    requires DispatchEnabled(c, s, e) && id in s.items
    ensures var t := ApplyDispatch(c, s, e);
      t.items.Keys == s.items.Keys && (t.items[id] == s.items[id] || CalledOn(s.items[id], t.items[id], Dispatch(e), id))
    ensures e.Dequeue? && e.id == id ==> CalledOn(s.items[id], ApplyDispatch(c, s, e).items[id], Dispatch(e), id)
  {
  }

  lemma CallMoves(s: System, e: CallerEvent, id: Id)
    requires CallerEnabled(s, e)
    ensures var t := ApplyCaller(s, e);
      && (e.Send? ==> t.items == s.items[e.id := Item(e.priority, Queued, e.now, None, None, 0, "")] && e.id !in s.items)
      && (!e.Send? ==> t.items.Keys == s.items.Keys)
      && (id in s.items ==> t.items[id] == s.items[id] || CalledOn(s.items[id], t.items[id], Caller(e), id))
      && (e == Cancel(id) ==> CalledOn(s.items[id], t.items[id], Caller(e), id))
  {
  }

  /** Every step of a run: a new command enters queued, with the priority and the time of its Send; a stored one stays as it
      is or makes one of the moves above, and the events that are to move it do. */
  lemma LifeCycleStep(c: Settings, s: System, e: Event, id: Id)
    requires Inv(c, s) && Enabled(c, s, e)
    ensures var t := Apply(c, s, e);
      && (id in t.items && id !in s.items ==>
            && e.Caller? && e.call.Send? && e.call.id == id
            && t.items[id] == Item(e.call.priority, Queued, e.call.now, None, None, 0, ""))
      && (id in s.items ==> id in t.items && (t.items[id] == s.items[id] || Moves(c, s, e, id, t.items[id])))
      && (e == Caller(Cancel(id)) || (e.Dispatch? && e.step.Dequeue? && e.step.id == id)
          || (e.Act? && s.senders[e.k].id == id
              && (e.action.Fail? || e.action.Ack? || e.action.BackoffElapsed? || e.action.BackoffStopped?))
          ==> id in s.items && id in t.items && Moves(c, s, e, id, t.items[id]))
  {
    hide ApplyCaller, ApplyDispatch, ApplyAction, Accounts, Ownership, Totals, SlotsCounted, SentOn, CalledOn;
    match e
    case Caller(call) => CallMoves(s, call, id);
    case Dispatch(step) => if id in s.items { DispatchMoves(c, s, step, id); } else { DispatchAddsNone(c, s, step); }
    case Act(k, a) => if id in s.items { ActionMoves(c, s, k, a, id); } else { ActionAddsNone(c, s, k, a); }
    case LateReply =>
  }

  // ---- Cancelled by a caller only -------------------------------------------------------------

  predicate IsCancelled(s: System, id: Id) {
    id in s.items && s.items[id].status.Cancelled?
  }

  lemma CancelledStep(c: Settings, s: System, e: Event, id: Id)
    requires Inv(c, s) && Enabled(c, s, e) && IsCancelled(Apply(c, s, e), id)
    ensures IsCancelled(s, id) || e == Caller(Cancel(id))
  {
    hide Inv, Apply, Enabled;
    LifeCycleStep(c, s, e, id);
  }

  /** Over any run: a command that ends cancelled and did not begin so was cancelled by a call of Cancel. */
  lemma {:induction false} CancelledByCaller(c: Settings, s: System, es: seq<Event>, id: Id)
    requires Inv(c, s) && IsRun(c, s, es) && IsCancelled(Final(c, s, es), id)
    ensures IsCancelled(s, id) || Caller(Cancel(id)) in es
    decreases |es|
  {
    hide Apply, Enabled, IsCancelled, Accounts, Ownership, Totals, SlotsCounted;
    if es != [] {
      var t := Apply(c, s, es[0]);
      InvStep(c, s, es[0]);
      CancelledByCaller(c, t, es[1..], id);
      if IsCancelled(t, id) {
        CancelledStep(c, s, es[0], id);
      }
    }
  }

  // ---- What becomes of every command ----------------------------------------------------------

  ghost predicate NoCancel(rounds: seq<seq<Event>>) {
    forall es, e | es in rounds && e in es :: !(e.Caller? && e.call.Cancel?)
  }

  ghost predicate NoneCancelled(s: System) {
    forall id | id in s.items :: !s.items[id].status.Cancelled?
  }

  lemma NoneBecomesCancelled(c: Settings, s: System, es: seq<Event>)
    requires Inv(c, s) && IsRun(c, s, es) && NoneCancelled(s) && forall e | e in es :: !(e.Caller? && e.call.Cancel?)
    ensures NoneCancelled(Final(c, s, es))
  {
    var t := Final(c, s, es);
    forall id | id in t.items ensures !t.items[id].status.Cancelled? {
      var call := Caller(Cancel(id));
      assert call.Caller? && call.call.Cancel? && call !in es;
      if IsCancelled(t, id) {
        CancelledByCaller(c, s, es, id);
      }
    }
  }

  lemma {:induction false} RoundsKeep(c: Settings, s: System, rounds: seq<seq<Event>>)
    requires Inv(c, s) && !s.stopped && FairRounds(c, s, rounds) && NoneCancelled(s) && NoCancel(rounds)
    ensures var t := AfterRounds(c, s, rounds);
      Inv(c, t) && !t.stopped && NoneCancelled(t) && t.items.Keys == s.items.Keys
    decreases |rounds|
  {
    if rounds != [] {
      assert rounds[0] in rounds && forall es | es in rounds[1..] :: es in rounds;
      var t := Final(c, s, rounds[0]);
      NoneBecomesCancelled(c, s, rounds[0]);
      RoundLowersWork(c, s, rounds[0]);
      QuietRun(c, s, rounds[0]);
      RoundsKeep(c, t, rounds[1..]);
    }
  }

  /** Without Cancel and Stop every fair run ends with each command acknowledged, or failed after exactly MaxRetries + 1
      attempts: a failed attempt with retries left is always followed by another one. */
  lemma FairRunsServe(c: Settings, s: System, rounds: seq<seq<Event>>, id: Id)
    requires Inv(c, s) && !s.stopped && NoneCancelled(s) && id in s.items
    requires FairRounds(c, s, rounds) && NoCancel(rounds) && |rounds| > Work(c, s)
    ensures var t := AfterRounds(c, s, rounds);
      && id in t.items && id in t.sends
      && (t.items[id].status == Acked || (t.items[id].status == Failed && t.sends[id] == c.maxRetries + 1))
  {
    FairRunsFinish(c, s, rounds);
    RoundsKeep(c, s, rounds);
    var t := AfterRounds(c, s, rounds);
    assert t.items[id].status.Terminal();
    assert ItemAccount(c, t.stopped, t.items[id], t.sends[id], t.waited[id]);
  }

  // ---- Waits and time-outs, exactly -----------------------------------------------------------

  /** The waits before the first n retries. */
  function Waits(base: int, n: nat): nat {
    if n == 0 then 0 else Waits(base, n - 1) + Delay(base, n)
  }

  ghost predicate WaitedExactly(c: Settings, s: System)
    requires Wired(s)
  {
    forall id | id in s.items :: s.waited[id] == Waits(c.retryBackoff, s.items[id].retryCount)
  }

  lemma ChargeIsNextWait(c: Settings, item: Item, a: Action)
    ensures Waits(c.retryBackoff, NextItem(c, item, a).retryCount) == Waits(c.retryBackoff, item.retryCount) + Charge(c, item, a)
    ensures !a.Fail? ==> Charge(c, item, a) == 0
  {
    hide Delay;
  }

  lemma WaitedAction(c: Settings, s: System, k: nat, a: Action)
    requires Wired(s) && k in s.senders && WaitedExactly(c, s)
    ensures Wired(ApplyAction(c, s, k, a)) && WaitedExactly(c, ApplyAction(c, s, k, a))
  {
    hide Delay, Waits, Charge, NextItem, NextPhase, NextCounters;
    ChargeIsNextWait(c, s.items[s.senders[k].id], a);
  }

  lemma WaitedCall(c: Settings, s: System, e: CallerEvent)
    requires Wired(s) && CallerEnabled(s, e) && WaitedExactly(c, s)
    ensures Wired(ApplyCaller(s, e)) && WaitedExactly(c, ApplyCaller(s, e))
  {
  }

  lemma WaitedDispatch(c: Settings, s: System, e: DispatchEvent)
    requires Wired(s) && DispatchEnabled(c, s, e) && WaitedExactly(c, s)
    ensures Wired(ApplyDispatch(c, s, e)) && WaitedExactly(c, ApplyDispatch(c, s, e))
  {
  }

  lemma WaitedStep(c: Settings, s: System, e: Event)
    requires Wired(s) && Enabled(c, s, e) && WaitedExactly(c, s)
    ensures WaitedExactly(c, Apply(c, s, e))
  {
    hide ApplyCaller, ApplyDispatch, ApplyAction, Delay, Waits;
    match e
    case Caller(call) => WaitedCall(c, s, call);
    case Dispatch(step) => WaitedDispatch(c, s, step);
    case Act(k, a) => WaitedAction(c, s, k, a);
    case LateReply =>
  }

  lemma {:induction false} WaitedRun(c: Settings, s: System, es: seq<Event>)
    requires Wired(s) && IsRun(c, s, es) && WaitedExactly(c, s)
    ensures WaitedExactly(c, Final(c, s, es))
    decreases |es|
  {
    if es != [] {
      WaitedStep(c, s, es[0]);
      WaitedRun(c, Apply(c, s, es[0]), es[1..]);
    }
  }

  /** In every reachable state each command has been made to wait exactly for the back-off of its retries so far. */
  lemma WaitedIsExact(c: Settings, s: System)
    requires Reachable(c, s)
    ensures Wired(s) && WaitedExactly(c, s)
  {
    ReachableInv(c, s);
    var s0, es :| Initial(s0) && IsRun(c, s0, es) && Final(c, s0, es) == s;
    WaitedRun(c, s0, es);
  }

  predicate TimesOut(e: Event) {
    e.Act? && e.action.Fail? && e.action.timedOut
  }

  function CountTimeouts(es: seq<Event>): nat {
    if es == [] then 0 else (if TimesOut(es[0]) then 1 else 0) + CountTimeouts(es[1..])
  }

  function CountLate(es: seq<Event>): nat {
    if es == [] then 0 else (if es[0].LateReply? then 1 else 0) + CountLate(es[1..])
  }

  lemma TimeoutAction(c: Settings, s: System, k: nat, a: Action)
    requires Wired(s) && k in s.senders
    ensures var t := ApplyAction(c, s, k, a);
      && t.counters.totalTimeout == s.counters.totalTimeout + (if TimesOut(Act(k, a)) then 1 else 0)
      && t.orphans == s.orphans + (if TimesOut(Act(k, a)) then 1 else 0)
  {
    hide NextItem, NextPhase, Charge;
  }

  lemma TimeoutDispatch(c: Settings, s: System, e: DispatchEvent)
    requires DispatchEnabled(c, s, e)
    ensures ApplyDispatch(c, s, e).counters == s.counters && ApplyDispatch(c, s, e).orphans == s.orphans
  {
  }

  lemma TimeoutCall(s: System, e: CallerEvent)
    requires CallerEnabled(s, e)
    ensures ApplyCaller(s, e).counters == s.counters && ApplyCaller(s, e).orphans == s.orphans
  {
  }

  lemma TimeoutStep(c: Settings, s: System, e: Event)
    requires Wired(s) && Enabled(c, s, e)
    ensures Apply(c, s, e).counters.totalTimeout == s.counters.totalTimeout + (if TimesOut(e) then 1 else 0)
    ensures Apply(c, s, e).orphans + (if e.LateReply? then 1 else 0) == s.orphans + (if TimesOut(e) then 1 else 0)
  {
    hide ApplyCaller, ApplyDispatch, ApplyAction;
    match e
    case Caller(call) => TimeoutCall(s, call);
    case Dispatch(step) => TimeoutDispatch(c, s, step);
    case Act(k, a) => TimeoutAction(c, s, k, a);
    case LateReply =>
  }

  /** TotalTimeout counts the attempts whose deadline passed; each leaves an adapter call behind that may answer later. */
  lemma {:induction false} TimeoutsAreCounted(c: Settings, s: System, es: seq<Event>)
    requires Wired(s) && IsRun(c, s, es)
    ensures Final(c, s, es).counters.totalTimeout == s.counters.totalTimeout + CountTimeouts(es)
    ensures Final(c, s, es).orphans + CountLate(es) == s.orphans + CountTimeouts(es)
    decreases |es|
  {
    if es != [] {
      TimeoutStep(c, s, es[0]);
      TimeoutsAreCounted(c, Apply(c, s, es[0]), es[1..]);
    }
  }
}
