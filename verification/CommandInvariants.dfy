/** What every step of the command pipeline keeps, and what that says about any reachable state. */
module CommandInvariants {
  import opened Prelude
  import opened CommandProtocol

  // ---- Ownership and slots --------------------------------------------------------------------

  function Holders(senders: map<nat, Sender>): set<nat> {
    set k | k in senders && senders[k].phase.HoldsSlot()
  }

  function DispatcherSlots(d: Dispatcher): nat {
    if d.HasSlot? || d.NoneFound? || d.Holding? then 1 else 0
  }

  predicate SlotsCounted(c: Settings, s: System) {
    s.slots == DispatcherSlots(s.dispatcher) + |Holders(s.senders)| && s.slots <= c.maxConcurrent
  }

  predicate OwnedBy(s: System, k: nat, id: Id) {
    k in s.senders && s.senders[k].phase.Owns() && s.senders[k].id == id
  }

  ghost predicate HasOwner(s: System, id: Id) {
    s.dispatcher == Holding(id) || exists k :: OwnedBy(s, k, id)
  }

  predicate IsSending(s: System, id: Id) {
    id in s.items && s.items[id].status.Sending?
  }

  /** A sending item has exactly one owner, and only sending items have one. */
  ghost predicate Ownership(s: System) {
    && (s.dispatcher.Holding? ==> IsSending(s, s.dispatcher.id) && forall k :: !OwnedBy(s, k, s.dispatcher.id))
    && (forall k, id :: OwnedBy(s, k, id) ==> IsSending(s, id))
    && (forall k, l, id :: OwnedBy(s, k, id) && OwnedBy(s, l, id) ==> k == l)
    && (forall id :: IsSending(s, id) ==> HasOwner(s, id))
  }

  lemma OwnerIsSending(s: System, k: nat)
    requires Ownership(s) && k in s.senders
    ensures s.senders[k].phase.Owns() ==> IsSending(s, s.senders[k].id)
  {
    assert s.senders[k].phase.Owns() ==> OwnedBy(s, k, s.senders[k].id);
  }

  lemma SlotsCountedAction(c: Settings, s: System, k: nat, a: Action)
    requires Wired(s) && k in s.senders && ActionEnabled(s.senders[k].phase, s.stopped, a) && SlotsCounted(c, s)
    ensures SlotsCounted(c, ApplyAction(c, s, k, a))
  {
    var t := ApplyAction(c, s, k, a);
    if a.ReleaseSlot? {
      assert Holders(t.senders) == Holders(s.senders) - {k};
    } else {
      assert Holders(t.senders) == Holders(s.senders);
    }
  }

  lemma SlotsCountedDispatch(c: Settings, s: System, e: DispatchEvent)
    requires Wired(s) && DispatchEnabled(c, s, e) && SlotsCounted(c, s)
    ensures SlotsCounted(c, ApplyDispatch(c, s, e))
  {
    var t := ApplyDispatch(c, s, e);
    if e.Spawn? {
      assert Holders(t.senders) == Holders(s.senders) + {e.k};
    }
  }

  lemma SameOwners(s: System, t: System)
    requires s.senders == t.senders
    ensures forall k, id :: OwnedBy(t, k, id) == OwnedBy(s, k, id)
  {
  }

  lemma OwnershipCaller(s: System, e: CallerEvent)
    requires Wired(s) && CallerEnabled(s, e) && Ownership(s)
    ensures Ownership(ApplyCaller(s, e))
  {
    var t := ApplyCaller(s, e);
    SameOwners(s, t);
    forall id ensures IsSending(t, id) == IsSending(s, id) && HasOwner(t, id) == HasOwner(s, id) {}
  }

  lemma OwnershipSpawn(c: Settings, s: System, k: nat)
    requires Wired(s) && DispatchEnabled(c, s, Spawn(k)) && Ownership(s)
    ensures Ownership(ApplyDispatch(c, s, Spawn(k)))
  {
    var t := ApplyDispatch(c, s, Spawn(k));
    var mine := s.dispatcher.id;
    forall l, id ensures OwnedBy(t, l, id) <==> OwnedBy(s, l, id) || (l == k && id == mine) {}
    forall id | IsSending(t, id) ensures HasOwner(t, id) {
      assert IsSending(s, id);
      if id == mine {
        assert OwnedBy(t, k, id);
      }
    }
  }

  lemma OwnershipDispatch(c: Settings, s: System, e: DispatchEvent)
    requires Wired(s) && DispatchEnabled(c, s, e) && Ownership(s) && !e.Spawn?
    ensures Ownership(ApplyDispatch(c, s, e))
  {
    var t := ApplyDispatch(c, s, e);
    SameOwners(s, t);
    forall id ensures IsSending(t, id) <==> IsSending(s, id) || (e.Dequeue? && id == e.id) {}
    forall id | IsSending(s, id) ensures HasOwner(t, id) {
      assert HasOwner(s, id);
    }
  }

  lemma OwnershipAction(c: Settings, s: System, k: nat, a: Action)
    requires Wired(s) && k in s.senders && ActionEnabled(s.senders[k].phase, s.stopped, a) && Ownership(s)
    ensures Ownership(ApplyAction(c, s, k, a))
  {
    var t := ApplyAction(c, s, k, a);
    var mine := s.senders[k].id;
    assert s.senders[k].phase.Owns() ==> OwnedBy(s, k, mine);
    var keeps := NextPhase(c, s.items[mine], a).Owns();
    forall l, id ensures OwnedBy(t, l, id) <==> OwnedBy(s, l, id) && (l != k || keeps) {}
    forall id ensures IsSending(t, id) <==> IsSending(s, id) && (id != mine || !s.senders[k].phase.Owns() || keeps) {}
    forall id | IsSending(t, id) ensures HasOwner(t, id) {
      assert HasOwner(s, id);
      if s.dispatcher != Holding(id) {
        var l :| OwnedBy(s, l, id);
        assert OwnedBy(t, l, id);
      }
    }
  }

  // ---- Attempt accounting ---------------------------------------------------------------------

  function ChargeBound(c: Settings, retries: nat): nat {
    c.retryBackoff * (Pow2(retries) - 1)
  }

  /** What the attempt count of an item must be, given its status. */
  predicate ItemAccount(c: Settings, stopped: bool, item: Item, sent: nat, waited: nat) {
    && item.retryCount <= c.maxRetries
    && waited <= ChargeBound(c, item.retryCount)
    && match item.status {
      case Queued | Cancelled => sent == item.retryCount
      case Acked => sent == item.retryCount + 1
      case Failed =>
        || (sent == item.retryCount + 1 && item.retryCount == c.maxRetries)
        || (sent == item.retryCount && item.retryCount > 0 && stopped)
      case Sending => true
    }
  }

  /** What it must be while a goroutine holds the item. */
  predicate OwnerAccount(ph: Phase, item: Item, sent: nat) {
    match ph
    case Started => sent == item.retryCount
    case Waiting => sent == item.retryCount + 1
    case Backoff => sent == item.retryCount && item.retryCount > 0
    case _ => true
  }

  ghost predicate ItemAccounts(c: Settings, s: System)
    requires Wired(s)
  {
    forall id | id in s.items :: ItemAccount(c, s.stopped, s.items[id], s.sends[id], s.waited[id])
  }

  ghost predicate OwnerAccounts(s: System)
    requires Wired(s)
  {
    && (forall k | k in s.senders ::
          OwnerAccount(s.senders[k].phase, s.items[s.senders[k].id], s.sends[s.senders[k].id]))
    && (s.dispatcher.Holding? ==> s.sends[s.dispatcher.id] == s.items[s.dispatcher.id].retryCount)
  }

  ghost predicate Accounts(c: Settings, s: System)
    requires Wired(s)
  {
    ItemAccounts(c, s) && OwnerAccounts(s)
  }

  lemma ChargeStep(c: Settings, retries: nat)
    ensures ChargeBound(c, retries) + Delay(c.retryBackoff, retries + 1) <= ChargeBound(c, retries + 1)
  {
    DelayIsExponential(c.retryBackoff, retries + 1);
    assert Pow2(retries + 1) == 2 * Pow2(retries);
    assert c.retryBackoff * (2 * Pow2(retries) - 1) == c.retryBackoff * (Pow2(retries) - 1) + c.retryBackoff * Pow2(retries);
  }

  lemma AccountAction(c: Settings, stopped: bool, item: Item, ph: Phase, sent: nat, waited: nat, a: Action)
    requires ActionEnabled(ph, stopped, a)
    requires ItemAccount(c, stopped, item, sent, waited) && OwnerAccount(ph, item, sent)
    requires ph.Owns() ==> item.status.Sending?
    ensures ItemAccount(c, stopped, NextItem(c, item, a), sent + (if a.BeginSend? then 1 else 0), waited + Charge(c, item, a))
    ensures OwnerAccount(NextPhase(c, item, a), NextItem(c, item, a), sent + (if a.BeginSend? then 1 else 0))
  {
    ChargeStep(c, item.retryCount);
  }

  lemma ItemAccountsAction(c: Settings, s: System, k: nat, a: Action)
    requires Wired(s) && k in s.senders && ActionEnabled(s.senders[k].phase, s.stopped, a)
    requires Ownership(s) && Accounts(c, s)
    ensures Wired(ApplyAction(c, s, k, a)) && ItemAccounts(c, ApplyAction(c, s, k, a))
  {
    hide ItemAccount, Delay, NextPhase, NextCounters;
    var id := s.senders[k].id;
    OwnerIsSending(s, k);
    AccountAction(c, s.stopped, s.items[id], s.senders[k].phase, s.sends[id], s.waited[id], a);
  }

  lemma OwnerAccountsAction(c: Settings, s: System, k: nat, a: Action)
    requires Wired(s) && k in s.senders && ActionEnabled(s.senders[k].phase, s.stopped, a)
    requires Ownership(s) && Accounts(c, s)
    ensures Wired(ApplyAction(c, s, k, a)) && OwnerAccounts(ApplyAction(c, s, k, a))
  {
    hide ItemAccount, Delay, Charge, NextCounters;
    var t := ApplyAction(c, s, k, a);
    var id := s.senders[k].id;
    OwnerIsSending(s, k);
    assert s.senders[k].phase.Owns() ==> OwnedBy(s, k, id);
    AccountAction(c, s.stopped, s.items[id], s.senders[k].phase, s.sends[id], s.waited[id], a);
    forall l | l in t.senders
      ensures OwnerAccount(t.senders[l].phase, t.items[t.senders[l].id], t.sends[t.senders[l].id])
    {
      if l != k && t.senders[l].id == id && t.senders[l].phase.Owns() {
        assert OwnedBy(s, l, id);
      }
    }
  }

  lemma AccountsAction(c: Settings, s: System, k: nat, a: Action)
    requires Wired(s) && k in s.senders && ActionEnabled(s.senders[k].phase, s.stopped, a)
    requires Ownership(s) && Accounts(c, s)
    ensures Wired(ApplyAction(c, s, k, a)) && Accounts(c, ApplyAction(c, s, k, a))
  {
    hide ApplyAction, Ownership, Wired, ItemAccounts, OwnerAccounts;
    ItemAccountsAction(c, s, k, a);
    OwnerAccountsAction(c, s, k, a);
  }

  lemma AccountsDispatch(c: Settings, s: System, e: DispatchEvent)
    requires Wired(s) && DispatchEnabled(c, s, e) && Ownership(s) && Accounts(c, s)
    ensures Accounts(c, ApplyDispatch(c, s, e))
  {
    hide Ownership, Pow2, ChargeBound;
    var t := ApplyDispatch(c, s, e);
    if e.Dequeue? {
      forall l | l in t.senders
        ensures OwnerAccount(t.senders[l].phase, t.items[t.senders[l].id], t.sends[t.senders[l].id])
      {
        assert OwnerAccount(s.senders[l].phase, s.items[s.senders[l].id], s.sends[s.senders[l].id]);
      }
    }
  }

  lemma AccountsCaller(c: Settings, s: System, e: CallerEvent)
    requires Wired(s) && CallerEnabled(s, e) && Ownership(s) && Accounts(c, s)
    ensures Accounts(c, ApplyCaller(s, e))
  {
    hide Ownership, Pow2;
    var t := ApplyCaller(s, e);
    forall l | l in t.senders
      ensures OwnerAccount(t.senders[l].phase, t.items[t.senders[l].id], t.sends[t.senders[l].id])
    {
      assert OwnerAccount(s.senders[l].phase, s.items[s.senders[l].id], s.sends[s.senders[l].id]);
    }
  }

  // ---- Totals ---------------------------------------------------------------------------------

  function With(items: map<Id, Item>, st: Status): set<Id> {
    set id | id in items && items[id].status == st
  }

  function Recorders(senders: map<nat, Sender>): set<nat> {
    set k | k in senders && senders[k].phase.Recording?
  }

  ghost predicate Totals(s: System) {
    && s.counters.totalSent == Sum(s.sends)
    && s.counters.totalFailed == |With(s.items, Failed)|
    && s.counters.totalAcked + |Recorders(s.senders)| == |With(s.items, Acked)|
    && s.counters.successRate <= 10000
  }

  lemma AckedAtMostSent(c: Settings, s: System)
    requires Wired(s) && Accounts(c, s)
    ensures |With(s.items, Acked)| <= Sum(s.sends)
  {
    CountAtMostSum(s.sends, With(s.items, Acked));
  }

  lemma ItemMoves(items: map<Id, Item>, id: Id, item: Item, st: Status)
    ensures |With(items[id := item], st)| + (if id in items && items[id].status == st then 1 else 0)
         == |With(items, st)| + (if item.status == st then 1 else 0)
  {
    var before, after := With(items, st), With(items[id := item], st);
    if item.status == st {
      assert after == before + {id};
    } else {
      assert after == before - {id};
    }
  }

  lemma SenderMoves(senders: map<nat, Sender>, k: nat, next: Sender)
    ensures |Recorders(senders[k := next])| + (if k in senders && senders[k].phase.Recording? then 1 else 0)
         == |Recorders(senders)| + (if next.phase.Recording? then 1 else 0)
  {
    var before, after := Recorders(senders), Recorders(senders[k := next]);
    if next.phase.Recording? {
      assert after == before + {k};
    } else {
      assert after == before - {k};
    }
  }

  lemma TotalsCaller(c: Settings, s: System, e: CallerEvent)
    requires Wired(s) && CallerEnabled(s, e) && Totals(s)
    ensures Totals(ApplyCaller(s, e))
  {
    var t := ApplyCaller(s, e);
    match e
    case Send(id, _, _) =>
      ItemMoves(s.items, id, t.items[id], Failed);
      ItemMoves(s.items, id, t.items[id], Acked);
      SumUpdate(s.sends, id, 0);
    case Cancel(id) =>
      ItemMoves(s.items, id, t.items[id], Failed);
      ItemMoves(s.items, id, t.items[id], Acked);
    case _ =>
  }

  lemma TotalsDispatch(c: Settings, s: System, e: DispatchEvent)
    requires Wired(s) && DispatchEnabled(c, s, e) && Totals(s)
    ensures Totals(ApplyDispatch(c, s, e))
  {
    var t := ApplyDispatch(c, s, e);
    match e
    case Dequeue(id, _) =>
      ItemMoves(s.items, id, t.items[id], Failed);
      ItemMoves(s.items, id, t.items[id], Acked);
    case Spawn(k) => SenderMoves(s.senders, k, t.senders[k]);
    case _ =>
  }

  lemma QuotientBound(x: nat, y: nat, bound: nat)
    requires y > 0 && x <= bound * y
    ensures x / y <= bound
  {
    var q := x / y;
    assert q * y <= x;
    assert (q - bound) * y <= 0;
  }

  lemma RateInRange(m: Counters)
    requires m.totalAcked < m.totalSent
    ensures RecordedAck(m).successRate <= 10000
  {
    QuotientBound((m.totalAcked + 1) * 10000, m.totalSent, 10000);
  }

  lemma RecordersAction(c: Settings, s: System, k: nat, a: Action)
    requires Wired(s) && k in s.senders && ActionEnabled(s.senders[k].phase, s.stopped, a)
    ensures |Recorders(ApplyAction(c, s, k, a).senders)| + (if a.Record? then 1 else 0)
         == |Recorders(s.senders)| + (if a.Ack? then 1 else 0)
  {
    if a.Exit? {
      assert Recorders(s.senders - {k}) == Recorders(s.senders);
    } else {
      SenderMoves(s.senders, k, Sender(s.senders[k].id, NextPhase(c, s.items[s.senders[k].id], a)));
    }
  }

  lemma FailedAckedAction(c: Settings, s: System, k: nat, a: Action)
    requires Wired(s) && k in s.senders && ActionEnabled(s.senders[k].phase, s.stopped, a)
    requires s.senders[k].phase.Owns() ==> s.items[s.senders[k].id].status.Sending?
    ensures var t, m := ApplyAction(c, s, k, a), NextCounters(c, s.items[s.senders[k].id], s.counters, a);
      && |With(t.items, Failed)| + s.counters.totalFailed == |With(s.items, Failed)| + m.totalFailed
      && |With(t.items, Acked)| == |With(s.items, Acked)| + (if a.Ack? then 1 else 0)
  {
    var id := s.senders[k].id;
    var next := NextItem(c, s.items[id], a);
    ItemMoves(s.items, id, next, Failed);
    ItemMoves(s.items, id, next, Acked);
  }

  lemma SentAction(c: Settings, s: System, k: nat, a: Action)
    requires Wired(s) && k in s.senders
    ensures Sum(ApplyAction(c, s, k, a).sends) == Sum(s.sends) + (if a.BeginSend? then 1 else 0)
  {
    var id := s.senders[k].id;
    SumUpdate(s.sends, id, s.sends[id] + 1);
  }

  lemma TotalsOfAction(c: Settings, s: System, k: nat, a: Action)
    requires Wired(s) && k in s.senders && ActionEnabled(s.senders[k].phase, s.stopped, a)
    requires s.senders[k].phase.Owns() ==> s.items[s.senders[k].id].status.Sending?
    requires |With(s.items, Acked)| <= Sum(s.sends)
    requires Totals(s)
    ensures Totals(ApplyAction(c, s, k, a))
  {
    FailedAckedAction(c, s, k, a);
    SentAction(c, s, k, a);
    RecordersAction(c, s, k, a);
    if a.Record? {
      assert k in Recorders(s.senders);
      RateInRange(s.counters);
    }
  }

  lemma TotalsAction(c: Settings, s: System, k: nat, a: Action)
    requires Wired(s) && k in s.senders && ActionEnabled(s.senders[k].phase, s.stopped, a)
    requires Ownership(s) && Accounts(c, s) && Totals(s)
    ensures Totals(ApplyAction(c, s, k, a))
  {
    OwnerIsSending(s, k);
    AckedAtMostSent(c, s);
    TotalsOfAction(c, s, k, a);
  }

  // ---- The invariant, over any run ------------------------------------------------------------

  ghost predicate Shutdown(s: System) {
    && (s.dispatcher.Exited? ==> s.stopped)
    && (s.stopReturned ==> s.stopped && s.dispatcher.Exited? && s.senders == map[])
  }

  ghost predicate Inv(c: Settings, s: System) {
    Wired(s) && SlotsCounted(c, s) && Ownership(s) && Accounts(c, s) && Totals(s) && Shutdown(s)
  }

  lemma InitialInv(c: Settings, s: System)
    requires Initial(s)
    ensures Inv(c, s)
  {
    assert Holders(s.senders) == {} && Recorders(s.senders) == {};
    assert With(s.items, Failed) == {} && With(s.items, Acked) == {};
    SumZero(s.sends);
  }

  lemma SlotsCountedStep(c: Settings, s: System, e: Event)
    requires Wired(s) && Enabled(c, s, e) && SlotsCounted(c, s)
    ensures SlotsCounted(c, Apply(c, s, e))
  {
    hide ApplyDispatch, ApplyAction, DispatchEnabled, Holders;
    match e
    case Dispatch(step) => SlotsCountedDispatch(c, s, step);
    case Act(k, a) => SlotsCountedAction(c, s, k, a);
    case _ =>
  }

  lemma OwnershipStep(c: Settings, s: System, e: Event)
    requires Wired(s) && Enabled(c, s, e) && Ownership(s)
    ensures Ownership(Apply(c, s, e))
  {
    match e
    case Caller(call) => OwnershipCaller(s, call);
    case Dispatch(step) =>
      if step.Spawn? { OwnershipSpawn(c, s, step.k); } else { OwnershipDispatch(c, s, step); }
    case Act(k, a) => OwnershipAction(c, s, k, a);
    case LateReply =>
      var t := Apply(c, s, e);
      SameOwners(s, t);
      forall id ensures IsSending(t, id) == IsSending(s, id) && HasOwner(t, id) == HasOwner(s, id) {}
  }

  lemma AccountsStep(c: Settings, s: System, e: Event)
    requires Wired(s) && Enabled(c, s, e) && Ownership(s) && Accounts(c, s)
    ensures Accounts(c, Apply(c, s, e))
  {
    match e
    case Caller(call) => AccountsCaller(c, s, call);
    case Dispatch(step) => AccountsDispatch(c, s, step);
    case Act(k, a) => AccountsAction(c, s, k, a);
    case LateReply =>
  }

  lemma TotalsStep(c: Settings, s: System, e: Event)
    requires Wired(s) && Enabled(c, s, e) && Ownership(s) && Accounts(c, s) && Totals(s)
    ensures Totals(Apply(c, s, e))
  {
    match e
    case Caller(call) => TotalsCaller(c, s, call);
    case Dispatch(step) => TotalsDispatch(c, s, step);
    case Act(k, a) => TotalsAction(c, s, k, a);
    case LateReply =>
  }

  lemma ShutdownStep(c: Settings, s: System, e: Event)
    requires Wired(s) && Enabled(c, s, e) && Shutdown(s)
    ensures Shutdown(Apply(c, s, e))
  {
  }

  lemma InvStep(c: Settings, s: System, e: Event)
    requires Inv(c, s) && Enabled(c, s, e)
    ensures Inv(c, Apply(c, s, e))
  {
    SlotsCountedStep(c, s, e);
    OwnershipStep(c, s, e);
    AccountsStep(c, s, e);
    TotalsStep(c, s, e);
    ShutdownStep(c, s, e);
  }

  lemma {:induction false} InvRun(c: Settings, s: System, es: seq<Event>)
    requires Inv(c, s) && IsRun(c, s, es)
    ensures Inv(c, Final(c, s, es))
    decreases |es|
  {
    if es != [] {
      InvStep(c, s, es[0]);
      InvRun(c, Apply(c, s, es[0]), es[1..]);
    }
  }

  ghost predicate Reachable(c: Settings, s: System) {
    exists s0, es :: Initial(s0) && IsRun(c, s0, es) && Final(c, s0, es) == s
  }

  lemma ReachableInv(c: Settings, s: System)
    requires Reachable(c, s)
    ensures Inv(c, s)
  {
    var s0, es :| Initial(s0) && IsRun(c, s0, es) && Final(c, s0, es) == s;
    InitialInv(c, s0);
    InvRun(c, s0, es);
  }
}
