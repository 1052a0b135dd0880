/** What every interleaving of the bus keeps: persistence before delivery, order, conservation, and a complete close. */
module BusDelivery {
  import opened Prelude
  import opened BusProtocol

  // ---- Shape ----------------------------------------------------------------------------------

  ghost predicate Shape(b: Bus) {
    && DISPATCHER in b.workers
    && (b.workers[DISPATCHER].Gone? || b.workers[DISPATCHER].rest == [])
    && (forall w | w in b.workers && b.workers[w].Gone? :: w == DISPATCHER)
    && b.active <= b.subs.Keys
    && (forall id | id in b.subs :: id < b.nextId)
    && (forall w | w in b.workers && b.workers[w].Sending? :: b.workers[w].todo <= b.subs.Keys)
    && (!b.replayed ==> b.workers.Keys == {DISPATCHER})
  }

  lemma ShapeDispatcher(b: Bus, s: Step)
    requires Shape(b) && Enabled(b, s)
    requires s.TakeChannel? || s.SeeDone? || s.Exit? || s.CloseDone? || s.CloseReturns?
    ensures Shape(Apply(b, s))
  {
  }

  lemma ShapeSnapshot(b: Bus, w: nat)
    requires Shape(b) && Enabled(b, Snapshot(w))
    ensures Shape(Apply(b, Snapshot(w)))
  {
  }

  lemma ShapeOffer(b: Bus, w: nat, id: nat)
    requires Shape(b) && Enabled(b, Offer(w, id))
    ensures Shape(Apply(b, Offer(w, id)))
  {
    hide Offered, OfferedBy;
  }

  lemma ShapeFinish(b: Bus, w: nat)
    requires Shape(b) && Enabled(b, Finish(w))
    ensures Shape(Apply(b, Finish(w)))
  {
  }

  lemma ShapeReplay(b: Bus, s: Step)
    requires Shape(b) && Enabled(b, s) && (s.BeginReplay? || s.TakeReplay? || s.EndReplay?)
    ensures Shape(Apply(b, s))
  {
  }

  lemma ShapeClients(b: Bus, s: Step)
    requires Shape(b) && Enabled(b, s)
    requires s.Check? || s.Persist? || s.Reject? || s.Enter? || s.Abort? || s.Subscribe? || s.Unsubscribe? || s.Receive?
    ensures Shape(Apply(b, s))
  {
  }

  lemma ShapeStep(b: Bus, s: Step)
    requires Shape(b) && Enabled(b, s)
    ensures Shape(Apply(b, s))
  {
    hide *;
    match s
    case Snapshot(w) => ShapeSnapshot(b, w);
    case Offer(w, id) => ShapeOffer(b, w, id);
    case Finish(w) => ShapeFinish(b, w);
    case BeginReplay(_, _) => ShapeReplay(b, s);
    case TakeReplay(_) => ShapeReplay(b, s);
    case EndReplay(_) => ShapeReplay(b, s);
    case TakeChannel => ShapeDispatcher(b, s);
    case SeeDone => ShapeDispatcher(b, s);
    case Exit => ShapeDispatcher(b, s);
    case CloseDone => ShapeDispatcher(b, s);
    case CloseReturns => ShapeDispatcher(b, s);
    case _ => ShapeClients(b, s);
  }

  // ---- Persisted before delivered -------------------------------------------------------------

  predicate AllStored(b: Bus, es: seq<Ev>) {
    forall e | e in es :: e in b.stored
  }

  predicate WorkerStored(b: Bus, k: Worker) {
    k.Gone? || (AllStored(b, k.rest) && (k.Idle? || k.e in b.stored))
  }

  ghost predicate Persisted(b: Bus) {
    && b.entered == b.dispatched + b.channel
    && AllStored(b, b.entered)
    && (forall p | p in b.publishers && b.publishers[p].Appended? :: b.publishers[p].e in b.stored)
    && (forall w | w in b.workers :: WorkerStored(b, b.workers[w]))
    && (forall id | id in b.subs :: AllStored(b, b.subs[id].stream))
  }

  lemma PersistedPublisher(b: Bus, s: Step)
    requires Persisted(b) && Enabled(b, s) && (s.Check? || s.Persist? || s.Reject? || s.Enter? || s.Abort?)
    ensures Persisted(Apply(b, s))
  {
    var t := Apply(b, s);
    assert forall e | e in b.stored :: e in t.stored;
    if s.Enter? {
      assert t.entered == t.dispatched + t.channel;
    }
    forall w | w in t.workers ensures WorkerStored(t, t.workers[w]) {
      assert WorkerStored(b, b.workers[w]);
    }
  }

  lemma PersistedTake(b: Bus)
    requires Shape(b) && Persisted(b) && Enabled(b, TakeChannel)
    ensures Persisted(Apply(b, TakeChannel))
  {
    var t := Apply(b, TakeChannel);
    assert b.channel == [b.channel[0]] + b.channel[1..];
    assert t.entered == t.dispatched + t.channel;
    assert b.entered[|b.dispatched|] == b.channel[0];
    forall w | w in t.workers ensures WorkerStored(t, t.workers[w]) {
      assert WorkerStored(b, b.workers[w]);
    }
  }

  lemma PersistedReplay(b: Bus, s: Step)
    requires Shape(b) && Persisted(b) && Enabled(b, s) && (s.TakeReplay? || s.BeginReplay? || s.EndReplay?)
    ensures Persisted(Apply(b, s))
  {
    var t := Apply(b, s);
    forall w | w in t.workers ensures WorkerStored(t, t.workers[w]) {
      if w in b.workers {
        assert WorkerStored(b, b.workers[w]);
      }
    }
  }

  /** Steps that leave the log, the channels and the streams alone. */
  lemma PersistedKept(b: Bus, t: Bus)
    requires Persisted(b)
    requires t.stored == b.stored && t.entered == b.entered && t.dispatched == b.dispatched && t.channel == b.channel
    requires t.publishers == b.publishers
    requires forall w | w in t.workers :: WorkerStored(b, t.workers[w])
    requires forall id | id in t.subs :: AllStored(b, t.subs[id].stream)
    ensures Persisted(t)
  {
    forall w | w in t.workers ensures WorkerStored(t, t.workers[w]) {
      assert WorkerStored(b, t.workers[w]);
    }
    forall id | id in t.subs ensures AllStored(t, t.subs[id].stream) {
      assert AllStored(b, t.subs[id].stream);
    }
  }

  lemma PersistedDispatcher(b: Bus, s: Step)
    requires Shape(b) && Persisted(b) && Enabled(b, s)
    requires s.Exit? || s.Finish? || s.SeeDone? || s.CloseDone? || s.CloseReturns? || s.Snapshot?
    ensures Persisted(Apply(b, s))
  {
    var t := Apply(b, s);
    forall w | w in t.workers ensures WorkerStored(b, t.workers[w]) {
      assert WorkerStored(b, b.workers[w]);
    }
    PersistedKept(b, t);
  }

  lemma PersistedSubscriber(b: Bus, s: Step)
    requires Persisted(b) && Enabled(b, s) && (s.Subscribe? || s.Unsubscribe? || s.Receive?)
    ensures Persisted(Apply(b, s))
  {
    var t := Apply(b, s);
    forall id | id in t.subs ensures AllStored(b, t.subs[id].stream) {
      if id in b.subs {
        assert AllStored(b, b.subs[id].stream);
      }
    }
    PersistedKept(b, t);
  }

  lemma PersistedOffer(b: Bus, w: nat, id: nat)
    requires Persisted(b) && Enabled(b, Offer(w, id))
    ensures Persisted(Apply(b, Offer(w, id)))
  {
    var t := Apply(b, Offer(w, id));
    assert WorkerStored(b, b.workers[w]);
    forall i | i in t.subs ensures AllStored(b, t.subs[i].stream) {
      assert AllStored(b, b.subs[i].stream);
    }
    PersistedKept(b, t);
  }

  lemma PersistedStep(b: Bus, s: Step)
    requires Shape(b) && Persisted(b) && Enabled(b, s)
    ensures Persisted(Apply(b, s))
  {
    hide *;
    match s
    case TakeChannel => PersistedTake(b);
    case Offer(w, id) => PersistedOffer(b, w, id);
    case Subscribe(_, _) => PersistedSubscriber(b, s);
    case Unsubscribe(_) => PersistedSubscriber(b, s);
    case Receive(_) => PersistedSubscriber(b, s);
    case BeginReplay(_, _) => PersistedReplay(b, s);
    case TakeReplay(_) => PersistedReplay(b, s);
    case EndReplay(_) => PersistedReplay(b, s);
    case Check(_, _) => PersistedPublisher(b, s);
    case Persist(_) => PersistedPublisher(b, s);
    case Reject(_) => PersistedPublisher(b, s);
    case Enter(_) => PersistedPublisher(b, s);
    case Abort(_) => PersistedPublisher(b, s);
    case _ => PersistedDispatcher(b, s);
  }

  // ---- Channels -------------------------------------------------------------------------------

  /** A subscriber's channel holds the end of its stream, matching events only, within its capacity. */
  predicate Channel(sub: Sub) {
    && |sub.buf| <= |sub.stream| && sub.buf == sub.stream[|sub.stream| - |sub.buf|..]
    && |sub.buf| <= sub.cap
    && forall e | e in sub.stream :: sub.Matches(e)
  }

  ghost predicate Channels(b: Bus) {
    |b.channel| <= PUBLISH_BUFFER && forall id | id in b.subs :: Channel(b.subs[id])
  }

  lemma OfferedChannel(sub: Sub, e: Ev)
    requires Channel(sub)
    ensures Channel(Offered(sub, e))
  {
  }

  lemma ReceivedChannel(sub: Sub)
    requires Channel(sub) && sub.buf != []
    ensures Channel(sub.(buf := sub.buf[1..]))
  {
  }

  lemma ChannelsDelivery(b: Bus, s: Step)
    requires Channels(b) && Enabled(b, s) && (s.Subscribe? || s.Receive? || s.Offer?)
    ensures Channels(Apply(b, s))
  {
    var t := Apply(b, s);
    match s
    case Receive(id) => ReceivedChannel(b.subs[id]);
    case Offer(w, id) => OfferedChannel(b.subs[id], b.workers[w].e);
    case Subscribe(_, _) => assert Channel(t.subs[b.nextId]);
  }

  lemma ChannelsKept(b: Bus, s: Step)
    requires Channels(b) && Enabled(b, s) && !s.Subscribe? && !s.Receive? && !s.Offer?
    ensures Channels(Apply(b, s))
  {
    var t := Apply(b, s);
    assert t.subs.Keys == b.subs.Keys;
    forall id | id in t.subs ensures Channel(t.subs[id]) {
      assert Channel(b.subs[id]);
    }
  }

  lemma ChannelsStep(b: Bus, s: Step)
    requires Channels(b) && Enabled(b, s)
    ensures Channels(Apply(b, s))
  {
    if s.Subscribe? || s.Receive? || s.Offer? {
      ChannelsDelivery(b, s);
    } else {
      ChannelsKept(b, s);
    }
  }

  // ---- Order ----------------------------------------------------------------------------------

  /** The dispatcher is working on the event it took last. */
  predicate OnLast(k: Worker, dispatched: seq<Ev>) {
    k.Took? || k.Sending? ==> dispatched != [] && dispatched[|dispatched| - 1] == k.e
  }

  /** What the dispatcher has already offered to a subscriber, given where it stands with its current event. */
  function OfferedTo(k: Worker, dispatched: seq<Ev>, id: nat): seq<Ev> {
    if dispatched != [] && (k.Took? || (k.Sending? && id in k.todo)) then dispatched[..|dispatched| - 1] else dispatched
  }

  ghost predicate Follows(k: Worker, dispatched: seq<Ev>, sub: Sub, id: nat) {
    Subsequence(sub.stream, Wanted(sub, OfferedTo(k, dispatched, id)))
  }

  ghost predicate AllFollow(k: Worker, dispatched: seq<Ev>, subs: map<nat, Sub>) {
    forall id | id in subs :: Follows(k, dispatched, subs[id], id)
  }

  ghost predicate InOrder(b: Bus)
    requires DISPATCHER in b.workers
  {
    && OnLast(b.workers[DISPATCHER], b.dispatched)
    && (!b.replayed ==> AllFollow(b.workers[DISPATCHER], b.dispatched, b.subs))
  }

  lemma OfferInOrder(sub: Sub, log: seq<Ev>, e: Ev)
    requires Subsequence(sub.stream, Wanted(sub, log))
    ensures Subsequence(Offered(sub, e).stream, Wanted(Offered(sub, e), log + [e]))
    ensures Subsequence(sub.stream, Wanted(sub, log + [e]))
  {
    var wanted := Wanted(sub, log);
    WantedAppend(sub, log, e);
    WantedSame(sub, Offered(sub, e), log + [e]);
    if sub.Matches(e) {
      SubsequenceLonger(sub.stream, wanted, e);
      assert Wanted(sub, log + [e]) == wanted + [e];
    } else {
      assert Wanted(sub, log + [e]) == wanted;
    }
  }

  /** One offer moves one subscriber past the dispatcher's event; the others stay where they were. */
  lemma FollowsOffer(k: Worker, dispatched: seq<Ev>, sub: Sub, id: nat)
    requires k.Sending? && id in k.todo && OnLast(k, dispatched) && Follows(k, dispatched, sub, id)
    ensures Follows(k.(todo := k.todo - {id}), dispatched, Offered(sub, k.e), id)
  {
    var log := dispatched[..|dispatched| - 1];
    assert dispatched == log + [k.e];
    var next := k.(todo := k.todo - {id});
    assert id !in next.todo && OfferedTo(next, dispatched, id) == dispatched;
    assert OfferedTo(k, dispatched, id) == log;
    OfferInOrder(sub, log, k.e);
  }

  /** A subscriber that joined after the event was taken is skipped; the others are still to be offered it. */
  lemma FollowsSnapshot(k: Worker, next: Worker, dispatched: seq<Ev>, sub: Sub, id: nat)
    requires k.Took? && next.Sending? && next.e == k.e && OnLast(k, dispatched) && Follows(k, dispatched, sub, id)
    ensures Follows(next, dispatched, sub, id)
  {
    var log := dispatched[..|dispatched| - 1];
    assert dispatched == log + [k.e];
    OfferInOrder(sub, log, k.e);
  }

  lemma FollowsTake(k: Worker, dispatched: seq<Ev>, e: Ev, sub: Sub, id: nat)
    requires k.Idle? && Follows(k, dispatched, sub, id)
    ensures Follows(Took(e, []), dispatched + [e], sub, id)
  {
    assert (dispatched + [e])[..|dispatched|] == dispatched;
  }

  lemma FollowsSame(k: Worker, next: Worker, dispatched: seq<Ev>, subs: map<nat, Sub>)
    requires AllFollow(k, dispatched, subs)
    requires forall id | id in subs :: OfferedTo(next, dispatched, id) == OfferedTo(k, dispatched, id)
    ensures AllFollow(next, dispatched, subs)
  {
    forall id | id in subs ensures Follows(next, dispatched, subs[id], id) {
      assert Follows(k, dispatched, subs[id], id);
    }
  }

  lemma InOrderOffer(b: Bus, w: nat, id: nat)
    requires Shape(b) && InOrder(b) && Enabled(b, Offer(w, id))
    ensures DISPATCHER in Apply(b, Offer(w, id)).workers && InOrder(Apply(b, Offer(w, id)))
  {
    var t := Apply(b, Offer(w, id));
    if !t.replayed {
      assert w == DISPATCHER;
      var k, next := b.workers[w], t.workers[w];
      forall i | i in t.subs ensures Follows(next, t.dispatched, t.subs[i], i) {
        assert Follows(k, b.dispatched, b.subs[i], i);
        if i == id {
          FollowsOffer(k, b.dispatched, b.subs[i], i);
        } else {
          assert OfferedTo(next, b.dispatched, i) == OfferedTo(k, b.dispatched, i);
        }
      }
    }
  }

  lemma InOrderSnapshot(b: Bus, w: nat)
    requires Shape(b) && InOrder(b) && Enabled(b, Snapshot(w))
    ensures DISPATCHER in Apply(b, Snapshot(w)).workers && InOrder(Apply(b, Snapshot(w)))
  {
    var t := Apply(b, Snapshot(w));
    if !t.replayed {
      assert w == DISPATCHER;
      forall i | i in t.subs ensures Follows(t.workers[w], t.dispatched, t.subs[i], i) {
        assert Follows(b.workers[w], b.dispatched, b.subs[i], i);
        FollowsSnapshot(b.workers[w], t.workers[w], b.dispatched, b.subs[i], i);
      }
    }
  }

  lemma InOrderTake(b: Bus)
    requires Shape(b) && InOrder(b) && Enabled(b, TakeChannel)
    ensures DISPATCHER in Apply(b, TakeChannel).workers && InOrder(Apply(b, TakeChannel))
  {
    var t := Apply(b, TakeChannel);
    if !t.replayed {
      forall i | i in t.subs ensures Follows(t.workers[DISPATCHER], t.dispatched, t.subs[i], i) {
        assert Follows(b.workers[DISPATCHER], b.dispatched, b.subs[i], i);
        FollowsTake(b.workers[DISPATCHER], b.dispatched, b.channel[0], b.subs[i], i);
      }
    }
  }

  lemma InOrderReceive(b: Bus, id: nat)
    requires Shape(b) && InOrder(b) && Enabled(b, Receive(id))
    ensures DISPATCHER in Apply(b, Receive(id)).workers && InOrder(Apply(b, Receive(id)))
  {
    var t := Apply(b, Receive(id));
    if !t.replayed {
      var k := b.workers[DISPATCHER];
      forall i | i in t.subs ensures Follows(k, t.dispatched, t.subs[i], i) {
        assert Follows(k, b.dispatched, b.subs[i], i);
        WantedSame(b.subs[i], t.subs[i], OfferedTo(k, b.dispatched, i));
      }
    }
  }

  lemma InOrderSubscribe(b: Bus, s: Step)
    requires Shape(b) && InOrder(b) && Enabled(b, s) && s.Subscribe?
    ensures DISPATCHER in Apply(b, s).workers && InOrder(Apply(b, s))
  {
    var t := Apply(b, s);
    if !t.replayed {
      var k := b.workers[DISPATCHER];
      forall i | i in t.subs ensures Follows(k, t.dispatched, t.subs[i], i) {
        if i in b.subs {
          assert Follows(k, b.dispatched, b.subs[i], i);
        }
      }
    }
  }

  /** The remaining steps leave the streams alone and what was offered to whom as well. */
  lemma InOrderKept(b: Bus, t: Bus)
    requires Shape(b) && InOrder(b)
    requires t.subs == b.subs && t.dispatched == b.dispatched && (t.replayed || !b.replayed)
    requires DISPATCHER in t.workers
    requires t.workers[DISPATCHER] == b.workers[DISPATCHER]
          || ((b.workers[DISPATCHER].Idle? || (b.workers[DISPATCHER].Sending? && b.workers[DISPATCHER].todo == {}))
              && (t.workers[DISPATCHER].Idle? || t.workers[DISPATCHER].Gone?))
    ensures InOrder(t)
  {
    if !t.replayed {
      FollowsSame(b.workers[DISPATCHER], t.workers[DISPATCHER], b.dispatched, b.subs);
    }
  }

  lemma InOrderDispatcher(b: Bus, s: Step)
    requires Shape(b) && InOrder(b) && Enabled(b, s)
    requires s.SeeDone? || s.Exit? || s.Finish? || s.CloseDone? || s.CloseReturns?
    ensures DISPATCHER in Apply(b, s).workers && InOrder(Apply(b, s))
  {
    InOrderKept(b, Apply(b, s));
  }

  lemma InOrderOthers(b: Bus, s: Step)
    requires Shape(b) && InOrder(b) && Enabled(b, s)
    requires s.Check? || s.Persist? || s.Reject? || s.Enter? || s.Abort? || s.Unsubscribe?
          || s.BeginReplay? || s.TakeReplay? || s.EndReplay?
    ensures DISPATCHER in Apply(b, s).workers && InOrder(Apply(b, s))
  {
    InOrderKept(b, Apply(b, s));
  }

  lemma InOrderStep(b: Bus, s: Step)
    requires Shape(b) && InOrder(b) && Enabled(b, s)
    ensures DISPATCHER in Apply(b, s).workers && InOrder(Apply(b, s))
  {
    hide *;
    match s
    case Offer(w, id) => InOrderOffer(b, w, id);
    case Snapshot(w) => InOrderSnapshot(b, w);
    case Receive(id) => InOrderReceive(b, id);
    case TakeChannel => InOrderTake(b);
    case Subscribe(_, _) => InOrderSubscribe(b, s);
    case SeeDone => InOrderDispatcher(b, s);
    case Exit => InOrderDispatcher(b, s);
    case Finish(_) => InOrderDispatcher(b, s);
    case CloseDone => InOrderDispatcher(b, s);
    case CloseReturns => InOrderDispatcher(b, s);
    case _ => InOrderOthers(b, s);
  }

  // ---- Fan-outs -------------------------------------------------------------------------------

  /** A fan-out under way has offered its event to everyone of its snapshot who is not still to come. */
  predicate RunsFan(fans: seq<Fan>, offered: map<nat, set<nat>>, k: Worker, w: nat) {
    k.Sending? ==>
      && k.fan < |fans| && k.fan in offered
      && fans[k.fan] == Fan(w, k.e, OfferedBy(offered, k.fan) + k.todo)
      && OfferedBy(offered, k.fan) !! k.todo
  }

  predicate FannedOut(b: Bus, i: nat)
    requires i < |b.fans|
  {
    OfferedBy(b.offered, i) == b.fans[i].who
  }

  predicate UnderWay(b: Bus, i: nat)
    requires i < |b.fans|
  {
    b.fans[i].worker in b.workers && b.workers[b.fans[i].worker].Sending? && b.workers[b.fans[i].worker].fan == i
  }

  ghost predicate Recorded(b: Bus) {
    && (forall w | w in b.workers :: RunsFan(b.fans, b.offered, b.workers[w], w))
    && (forall i | 0 <= i < |b.fans| :: FannedOut(b, i) || UnderWay(b, i))
    && (forall i | 0 <= i < |b.fans| :: b.fans[i].who <= b.subs.Keys)
  }

  lemma RecordedSnapshot(b: Bus, w: nat)
    requires Shape(b) && Recorded(b) && Enabled(b, Snapshot(w))
    ensures Recorded(Apply(b, Snapshot(w)))
  {
    var t := Apply(b, Snapshot(w));
    forall v | v in t.workers ensures RunsFan(t.fans, t.offered, t.workers[v], v) {
      assert RunsFan(b.fans, b.offered, b.workers[v], v);
    }
    forall i | 0 <= i < |t.fans| ensures (FannedOut(t, i) || UnderWay(t, i)) && t.fans[i].who <= t.subs.Keys {
      if i < |b.fans| {
        SnapshotKeeps(b, w, i);
      }
    }
  }

  lemma SnapshotKeeps(b: Bus, w: nat, i: nat)
    requires Recorded(b) && Enabled(b, Snapshot(w)) && i < |b.fans|
    ensures var t := Apply(b, Snapshot(w)); t.fans[i] == b.fans[i] && (FannedOut(t, i) || UnderWay(t, i))
  {
    assert FannedOut(b, i) || UnderWay(b, i);
  }

  lemma RecordedOffer(b: Bus, w: nat, id: nat)
    requires Shape(b) && Recorded(b) && Enabled(b, Offer(w, id))
    ensures Recorded(Apply(b, Offer(w, id)))
  {
    var t := Apply(b, Offer(w, id));
    var fan := b.workers[w].fan;
    assert RunsFan(b.fans, b.offered, b.workers[w], w);
    forall v | v in t.workers ensures RunsFan(t.fans, t.offered, t.workers[v], v) {
      assert RunsFan(b.fans, b.offered, b.workers[v], v);
      if v != w && b.workers[v].Sending? {
        assert b.workers[v].fan != fan;
      }
    }
    forall i | 0 <= i < |t.fans| ensures FannedOut(t, i) || UnderWay(t, i) {
      assert FannedOut(b, i) || UnderWay(b, i);
      if i == fan {
        assert UnderWay(t, i);
      }
    }
  }

  lemma RecordedFinish(b: Bus, w: nat)
    requires Shape(b) && Recorded(b) && Enabled(b, Finish(w))
    ensures Recorded(Apply(b, Finish(w)))
  {
    var t := Apply(b, Finish(w));
    assert RunsFan(b.fans, b.offered, b.workers[w], w);
    forall i | 0 <= i < |t.fans| ensures FannedOut(t, i) || UnderWay(t, i) {
      assert FannedOut(b, i) || UnderWay(b, i);
    }
  }

  /** Workers that are not fanning out before and after make no difference. */
  lemma RecordedKept(b: Bus, t: Bus)
    requires Recorded(b) && t.fans == b.fans && t.offered == b.offered && b.subs.Keys <= t.subs.Keys
    requires forall w | w in t.workers && t.workers[w].Sending? :: Is(b, w, t.workers[w])
    requires forall w | w in b.workers && b.workers[w].Sending? :: Is(t, w, b.workers[w])
    ensures Recorded(t)
  {
    forall w | w in t.workers ensures RunsFan(t.fans, t.offered, t.workers[w], w) {
      if t.workers[w].Sending? {
        assert Is(b, w, t.workers[w]) && RunsFan(b.fans, b.offered, b.workers[w], w);
      }
    }
    forall i | 0 <= i < |t.fans| ensures FannedOut(t, i) || UnderWay(t, i) {
      assert FannedOut(b, i) || UnderWay(b, i);
      if UnderWay(b, i) {
        assert Is(t, b.fans[i].worker, b.workers[b.fans[i].worker]);
      }
    }
  }

  lemma RecordedClients(b: Bus, s: Step)
    requires Recorded(b) && Enabled(b, s)
    requires s.Check? || s.Persist? || s.Reject? || s.Enter? || s.Abort? || s.Subscribe? || s.Unsubscribe? || s.Receive?
    ensures Recorded(Apply(b, s))
  {
    RecordedKept(b, Apply(b, s));
  }

  lemma RecordedWorkers(b: Bus, s: Step)
    requires Recorded(b) && Enabled(b, s)
    requires s.BeginReplay? || s.TakeReplay? || s.EndReplay? || s.TakeChannel? || s.SeeDone? || s.Exit? || s.CloseDone?
          || s.CloseReturns?
    ensures Recorded(Apply(b, s))
  {
    RecordedKept(b, Apply(b, s));
  }

  lemma RecordedStep(b: Bus, s: Step)
    requires Shape(b) && Recorded(b) && Enabled(b, s)
    ensures Recorded(Apply(b, s))
  {
    hide *;
    match s
    case Snapshot(w) => RecordedSnapshot(b, w);
    case Offer(w, id) => RecordedOffer(b, w, id);
    case Finish(w) => RecordedFinish(b, w);
    case BeginReplay(_, _) => RecordedWorkers(b, s);
    case TakeReplay(_) => RecordedWorkers(b, s);
    case EndReplay(_) => RecordedWorkers(b, s);
    case TakeChannel => RecordedWorkers(b, s);
    case SeeDone => RecordedWorkers(b, s);
    case Exit => RecordedWorkers(b, s);
    case CloseDone => RecordedWorkers(b, s);
    case CloseReturns => RecordedWorkers(b, s);
    case _ => RecordedClients(b, s);
  }

  /** The dispatcher fans out what it takes, one after the other. */
  predicate Logged(k: Worker, fans: seq<Fan>, dispatched: seq<Ev>) {
    dispatched == if k.Took? then FannedBy(fans, DISPATCHER) + [k.e] else FannedBy(fans, DISPATCHER)
  }

  lemma LoggedSnapshot(b: Bus, w: nat)
    requires Shape(b) && Logged(b.workers[DISPATCHER], b.fans, b.dispatched) && Enabled(b, Snapshot(w))
    ensures var t := Apply(b, Snapshot(w));
      DISPATCHER in t.workers && Logged(t.workers[DISPATCHER], t.fans, t.dispatched)
  {
    FansAppend(b.fans, Fan(w, b.workers[w].e, b.active));
  }

  lemma LoggedDispatcher(b: Bus, s: Step)
    requires Shape(b) && Logged(b.workers[DISPATCHER], b.fans, b.dispatched) && Enabled(b, s)
    requires s.TakeChannel? || s.SeeDone? || s.Exit? || s.CloseDone? || s.CloseReturns?
    ensures var t := Apply(b, s); DISPATCHER in t.workers && Logged(t.workers[DISPATCHER], t.fans, t.dispatched)
  {
    hide FannedBy;
  }

  lemma LoggedWorkers(b: Bus, s: Step)
    requires Shape(b) && Logged(b.workers[DISPATCHER], b.fans, b.dispatched) && Enabled(b, s)
    requires s.Offer? || s.Finish? || s.BeginReplay? || s.TakeReplay? || s.EndReplay?
    ensures var t := Apply(b, s); DISPATCHER in t.workers && Logged(t.workers[DISPATCHER], t.fans, t.dispatched)
  {
    hide FannedBy;
  }

  lemma LoggedClients(b: Bus, s: Step)
    requires Shape(b) && Logged(b.workers[DISPATCHER], b.fans, b.dispatched) && Enabled(b, s)
    requires s.Check? || s.Persist? || s.Reject? || s.Enter? || s.Abort? || s.Subscribe? || s.Unsubscribe? || s.Receive?
    ensures var t := Apply(b, s); DISPATCHER in t.workers && Logged(t.workers[DISPATCHER], t.fans, t.dispatched)
  {
    hide FannedBy;
  }

  lemma LoggedStep(b: Bus, s: Step)
    requires Shape(b) && Logged(b.workers[DISPATCHER], b.fans, b.dispatched) && Enabled(b, s)
    ensures var t := Apply(b, s); DISPATCHER in t.workers && Logged(t.workers[DISPATCHER], t.fans, t.dispatched)
  {
    hide Apply, Enabled, FannedBy, Logged;
    match s
    case Snapshot(w) => LoggedSnapshot(b, w);
    case TakeChannel => LoggedDispatcher(b, s);
    case SeeDone => LoggedDispatcher(b, s);
    case Exit => LoggedDispatcher(b, s);
    case CloseDone => LoggedDispatcher(b, s);
    case CloseReturns => LoggedDispatcher(b, s);
    case Offer(_, _) => LoggedWorkers(b, s);
    case Finish(_) => LoggedWorkers(b, s);
    case BeginReplay(_, _) => LoggedWorkers(b, s);
    case TakeReplay(_) => LoggedWorkers(b, s);
    case EndReplay(_) => LoggedWorkers(b, s);
    case _ => LoggedClients(b, s);
  }

  // ---- Conservation ---------------------------------------------------------------------------

  predicate Owes(k: Worker, sub: Sub, id: nat) {
    k.Sending? && id in k.todo && sub.Matches(k.e)
  }

  /** For each worker, one if it has yet to offer its event to the subscriber. */
  ghost function Pending(workers: map<nat, Worker>, sub: Sub, id: nat): map<nat, nat> {
    map w | w in workers :: if Owes(workers[w], sub, id) then 1 else 0
  }

  ghost function Losses(subs: map<nat, Sub>): map<nat, nat> {
    map id | id in subs :: subs[id].lost
  }

  ghost predicate Balanced(workers: map<nat, Worker>, fans: seq<Fan>, sub: Sub, id: nat) {
    |sub.stream| + sub.lost + Sum(Pending(workers, sub, id)) == Due(fans, sub, id)
  }

  ghost predicate AllBalanced(workers: map<nat, Worker>, fans: seq<Fan>, subs: map<nat, Sub>) {
    forall id | id in subs :: Balanced(workers, fans, subs[id], id)
  }

  ghost predicate Conserved(b: Bus) {
    AllBalanced(b.workers, b.fans, b.subs) && b.dropped == Sum(Losses(b.subs))
  }

  lemma PendingMoves(workers: map<nat, Worker>, w: nat, k: Worker, sub: Sub, id: nat)
    ensures Sum(Pending(workers[w := k], sub, id)) + (if w in workers && Owes(workers[w], sub, id) then 1 else 0)
         == Sum(Pending(workers, sub, id)) + (if Owes(k, sub, id) then 1 else 0)
  {
    var one := if Owes(k, sub, id) then 1 else 0;
    assert Pending(workers[w := k], sub, id) == Pending(workers, sub, id)[w := one];
    SumUpdate(Pending(workers, sub, id), w, one);
  }

  lemma PendingLeaves(workers: map<nat, Worker>, w: nat, sub: Sub, id: nat)
    requires w in workers && !Owes(workers[w], sub, id)
    ensures Sum(Pending(workers - {w}, sub, id)) == Sum(Pending(workers, sub, id))
  {
    assert Pending(workers - {w}, sub, id) == Pending(workers, sub, id) - {w};
    SumRemove(Pending(workers, sub, id), w);
  }

  lemma PendingSame(workers: map<nat, Worker>, a: Sub, b: Sub, id: nat)
    requires a.types == b.types
    ensures Pending(workers, a, id) == Pending(workers, b, id)
  {
  }

  lemma NonePending(workers: map<nat, Worker>, sub: Sub, id: nat)
    requires forall w | w in workers :: !Owes(workers[w], sub, id)
    ensures Sum(Pending(workers, sub, id)) == 0
  {
    SumZero(Pending(workers, sub, id));
  }

  /** An offer settles what the worker owed: one more delivered or one more lost. */
  lemma BalancedOffer(workers: map<nat, Worker>, fans: seq<Fan>, w: nat, sub: Sub, id: nat)
    requires w in workers && workers[w].Sending? && id in workers[w].todo && Balanced(workers, fans, sub, id)
    ensures Balanced(workers[w := workers[w].(todo := workers[w].todo - {id})], fans, Offered(sub, workers[w].e), id)
  {
    var k := workers[w].(todo := workers[w].todo - {id});
    PendingMoves(workers, w, k, sub, id);
    PendingSame(workers[w := k], sub, Offered(sub, workers[w].e), id);
    DueSame(fans, sub, Offered(sub, workers[w].e), id);
  }

  /** A step of a worker that changes nothing for a subscriber keeps its balance. */
  lemma BalancedMove(workers: map<nat, Worker>, fans: seq<Fan>, w: nat, k: Worker, sub: Sub, id: nat)
    requires Balanced(workers, fans, sub, id)
    requires Owes(k, sub, id) == (w in workers && Owes(workers[w], sub, id))
    ensures Balanced(workers[w := k], fans, sub, id)
  {
    PendingMoves(workers, w, k, sub, id);
  }

  /** A snapshot makes the event due exactly for those in it who match it. */
  lemma BalancedSnapshot(workers: map<nat, Worker>, fans: seq<Fan>, w: nat, k: Worker, sub: Sub, id: nat)
    requires w in workers && !workers[w].Sending? && k.Sending? && Balanced(workers, fans, sub, id)
    ensures Balanced(workers[w := k], fans + [Fan(w, k.e, k.todo)], sub, id)
  {
    PendingMoves(workers, w, k, sub, id);
    FansAppend(fans, Fan(w, k.e, k.todo));
  }

  lemma LossesChange(subs: map<nat, Sub>, id: nat, next: Sub)
    ensures Sum(Losses(subs[id := next])) + (if id in subs then subs[id].lost else 0) == Sum(Losses(subs)) + next.lost
  {
    assert Losses(subs[id := next]) == Losses(subs)[id := next.lost];
    SumUpdate(Losses(subs), id, next.lost);
  }

  lemma ConservedOffer(b: Bus, w: nat, id: nat)
    requires Conserved(b) && Enabled(b, Offer(w, id))
    ensures Conserved(Apply(b, Offer(w, id)))
  {
    var t := Apply(b, Offer(w, id));
    forall i | i in t.subs ensures Balanced(t.workers, t.fans, t.subs[i], i) {
      assert Balanced(b.workers, b.fans, b.subs[i], i);
      if i == id {
        BalancedOffer(b.workers, b.fans, w, b.subs[i], i);
      } else {
        BalancedMove(b.workers, b.fans, w, t.workers[w], b.subs[i], i);
      }
    }
    LossesChange(b.subs, id, t.subs[id]);
  }

  lemma ConservedSnapshot(b: Bus, w: nat)
    requires Conserved(b) && Enabled(b, Snapshot(w))
    ensures Conserved(Apply(b, Snapshot(w)))
  {
    var t := Apply(b, Snapshot(w));
    forall i | i in t.subs ensures Balanced(t.workers, t.fans, t.subs[i], i) {
      assert Balanced(b.workers, b.fans, b.subs[i], i);
      BalancedSnapshot(b.workers, b.fans, w, t.workers[w], b.subs[i], i);
    }
  }

  /** A worker that owes nothing before and after its step changes no balance. */
  lemma ConservedWorker(b: Bus, t: Bus, w: nat, k: Worker)
    requires Conserved(b) && t.subs == b.subs && t.fans == b.fans && t.dropped == b.dropped && t.workers == b.workers[w := k]
    requires !k.Sending?
    requires w in b.workers && b.workers[w].Sending? ==> b.workers[w].todo == {}
    ensures Conserved(t)
  {
    forall i | i in t.subs ensures Balanced(t.workers, t.fans, t.subs[i], i) {
      assert Balanced(b.workers, b.fans, b.subs[i], i);
      BalancedMove(b.workers, b.fans, w, k, b.subs[i], i);
    }
  }

  lemma ConservedEnd(b: Bus, w: nat)
    requires Conserved(b) && Enabled(b, EndReplay(w))
    ensures Conserved(Apply(b, EndReplay(w)))
  {
    var t := Apply(b, EndReplay(w));
    forall i | i in t.subs ensures Balanced(t.workers, t.fans, t.subs[i], i) {
      assert Balanced(b.workers, b.fans, b.subs[i], i);
      PendingLeaves(b.workers, w, b.subs[i], i);
    }
  }

  lemma ConservedSubscribe(b: Bus, s: Step)
    requires Shape(b) && Recorded(b) && Conserved(b) && Enabled(b, s) && s.Subscribe?
    ensures Conserved(Apply(b, s))
  {
    var t := Apply(b, s);
    var id := b.nextId;
    forall i | i in t.subs ensures Balanced(t.workers, t.fans, t.subs[i], i) {
      if i == id {
        forall w | w in t.workers ensures !Owes(t.workers[w], t.subs[id], id) {
          assert t.workers[w].Sending? ==> t.workers[w].todo <= b.subs.Keys;
        }
        NonePending(t.workers, t.subs[id], id);
        NoneDue(t.fans, t.subs[id], id);
      } else {
        assert Balanced(b.workers, b.fans, b.subs[i], i);
      }
    }
    LossesChange(b.subs, id, t.subs[id]);
  }

  lemma ConservedReceive(b: Bus, id: nat)
    requires Conserved(b) && Enabled(b, Receive(id))
    ensures Conserved(Apply(b, Receive(id)))
  {
    hide Sum, Due, Pending;
    var t := Apply(b, Receive(id));
    forall i | i in t.subs ensures Balanced(t.workers, t.fans, t.subs[i], i) {
      assert Balanced(b.workers, b.fans, b.subs[i], i);
      PendingSame(t.workers, b.subs[i], t.subs[i], i);
      DueSame(t.fans, b.subs[i], t.subs[i], i);
    }
    LossesChange(b.subs, id, t.subs[id]);
  }

  lemma ConservedWorkers(b: Bus, s: Step)
    requires Conserved(b) && Enabled(b, s)
    requires s.TakeReplay? || s.BeginReplay? || s.Finish? || s.Exit? || s.TakeChannel?
    ensures Conserved(Apply(b, s))
  {
    var t := Apply(b, s);
    match s
    case TakeReplay(w) => ConservedWorker(b, t, w, t.workers[w]);
    case BeginReplay(w, events) => ConservedWorker(b, t, w, Idle(events));
    case Finish(w) => ConservedWorker(b, t, w, t.workers[w]);
    case Exit => ConservedWorker(b, t, DISPATCHER, Gone);
    case TakeChannel => ConservedWorker(b, t, DISPATCHER, Took(b.channel[0], []));
  }

  lemma ConservedKept(b: Bus, s: Step)
    requires Conserved(b) && Enabled(b, s)
    requires s.Check? || s.Persist? || s.Reject? || s.Enter? || s.Abort? || s.Unsubscribe?
          || s.SeeDone? || s.CloseDone? || s.CloseReturns?
    ensures Conserved(Apply(b, s))
  {
    var t := Apply(b, s);
    assert t.workers == b.workers && t.fans == b.fans && t.subs == b.subs && t.dropped == b.dropped;
  }

  lemma ConservedStep(b: Bus, s: Step)
    requires Shape(b) && Recorded(b) && Conserved(b) && Enabled(b, s)
    ensures Conserved(Apply(b, s))
  {
    hide *;
    match s
    case Offer(w, id) => ConservedOffer(b, w, id);
    case Snapshot(w) => ConservedSnapshot(b, w);
    case Subscribe(_, _) => ConservedSubscribe(b, s);
    case Receive(id) => ConservedReceive(b, id);
    case EndReplay(w) => ConservedEnd(b, w);
    case TakeReplay(_) => ConservedWorkers(b, s);
    case BeginReplay(_, _) => ConservedWorkers(b, s);
    case Finish(_) => ConservedWorkers(b, s);
    case Exit => ConservedWorkers(b, s);
    case TakeChannel => ConservedWorkers(b, s);
    case _ => ConservedKept(b, s);
  }

  // ---- Closing --------------------------------------------------------------------------------

  ghost predicate Closing(b: Bus)
    requires DISPATCHER in b.workers
  {
    && (b.done ==> b.enteredAtClose <= |b.entered|)
    && (b.draining ==> b.done)
    && (b.workers[DISPATCHER].Gone? ==> b.done && b.enteredAtClose <= |b.dispatched|)
    && (b.closed ==> b.workers[DISPATCHER].Gone?)
  }

  lemma ClosingDispatcher(b: Bus, s: Step)
    requires DISPATCHER in b.workers && b.entered == b.dispatched + b.channel && Closing(b) && Enabled(b, s)
    requires s.TakeChannel? || s.SeeDone? || s.Exit? || s.CloseDone? || s.CloseReturns?
    ensures DISPATCHER in Apply(b, s).workers && Closing(Apply(b, s))
  {
  }

  /** Everything else leaves the flags alone and never shrinks what entered the channel. */
  lemma ClosingKept(b: Bus, t: Bus)
    requires DISPATCHER in b.workers && Closing(b)
    requires DISPATCHER in t.workers && t.workers[DISPATCHER].Gone? == b.workers[DISPATCHER].Gone?
    requires t.done == b.done && t.draining == b.draining && t.closed == b.closed && t.enteredAtClose == b.enteredAtClose
    requires |b.entered| <= |t.entered| && t.dispatched == b.dispatched
    ensures Closing(t)
  {
  }

  lemma ClosingStep(b: Bus, s: Step)
    requires DISPATCHER in b.workers && b.entered == b.dispatched + b.channel && Closing(b) && Enabled(b, s)
    ensures DISPATCHER in Apply(b, s).workers && Closing(Apply(b, s))
  {
    if s.TakeChannel? || s.SeeDone? || s.Exit? || s.CloseDone? || s.CloseReturns? {
      ClosingDispatcher(b, s);
    } else {
      ClosingKept(b, Apply(b, s));
    }
  }

  // ---- All runs -------------------------------------------------------------------------------

  ghost predicate Inv(b: Bus) {
    && Shape(b) && Persisted(b) && Channels(b) && InOrder(b) && Recorded(b)
    && Logged(b.workers[DISPATCHER], b.fans, b.dispatched) && Conserved(b) && Closing(b)
  }

  lemma InvStep(b: Bus, s: Step)
    requires Inv(b) && Enabled(b, s)
    ensures Inv(Apply(b, s))
  {
    ShapeStep(b, s);
    PersistedStep(b, s);
    ChannelsStep(b, s);
    InOrderStep(b, s);
    RecordedStep(b, s);
    LoggedStep(b, s);
    ConservedStep(b, s);
    ClosingStep(b, s);
  }

  lemma {:induction false} InvRun(b: Bus, steps: seq<Step>)
    requires Inv(b) && IsRun(b, steps)
    ensures Inv(Final(b, steps))
    decreases |steps|
  {
    if steps != [] {
      InvStep(b, steps[0]);
      InvRun(Apply(b, steps[0]), steps[1..]);
    }
  }

  lemma ReachableInv(b: Bus)
    requires Reachable(b)
    ensures Inv(b)
  {
    var steps :| IsRun(FRESH, steps) && Final(FRESH, steps) == b;
    assert Losses(FRESH.subs) == map[];
    InvRun(FRESH, steps);
  }

  // ---- Main results ---------------------------------------------------------------------------

  lemma ChannelEndsStream(sub: Sub)
    requires Channel(sub)
    ensures exists received :: received + sub.buf == sub.stream
  {
    var cut := |sub.stream| - |sub.buf|;
    assert sub.stream[..cut] + sub.buf == sub.stream;
  }

  /** Nothing reaches a subscriber that was not stored before, and nothing it did not ask for. */
  lemma DeliveredWasStored(b: Bus, id: nat)
    requires Reachable(b) && id in b.subs
    ensures forall e | e in b.subs[id].stream :: e in b.stored && b.subs[id].Matches(e)
    ensures |b.subs[id].buf| <= b.subs[id].cap
    ensures exists received :: received + b.subs[id].buf == b.subs[id].stream
  {
    ReachableInv(b);
    assert AllStored(b, b.subs[id].stream);
    ChannelEndsStream(b.subs[id]);
  }

  lemma {:induction false} WantedPrefix(sub: Sub, log: seq<Ev>, longer: seq<Ev>)
    requires log <= longer
    ensures Wanted(sub, log) <= Wanted(sub, longer)
    decreases |longer|
  {
    if |log| < |longer| {
      var init := longer[..|longer| - 1];
      assert log <= init;
      WantedPrefix(sub, log, init);
    } else {
      assert log == longer;
    }
  }

  lemma {:induction false} SubsequenceOfPrefix<T>(a: seq<T>, b: seq<T>, c: seq<T>)
    requires Subsequence(a, b) && b <= c
    ensures Subsequence(a, c)
    decreases |c|
  {
    if |b| < |c| {
      var init := c[..|c| - 1];
      assert b <= init;
      SubsequenceOfPrefix(a, b, init);
    } else {
      assert b == c;
    }
  }

  /** As long as nothing was replayed, each stream is a subsequence of the publish order, filtered by its types. */
  lemma StreamsFollowPublishOrder(b: Bus, id: nat)
    requires Reachable(b) && id in b.subs && !b.replayed
    ensures Subsequence(b.subs[id].stream, Wanted(b.subs[id], b.entered))
  {
    ReachableInv(b);
    var log := OfferedTo(b.workers[DISPATCHER], b.dispatched, id);
    assert Follows(b.workers[DISPATCHER], b.dispatched, b.subs[id], id);
    assert log <= b.dispatched <= b.entered;
    WantedPrefix(b.subs[id], log, b.entered);
    SubsequenceOfPrefix(b.subs[id].stream, Wanted(b.subs[id], log), Wanted(b.subs[id], b.entered));
  }

  ghost function Deliveries(subs: map<nat, Sub>): map<nat, nat> {
    map id | id in subs :: |subs[id].stream|
  }

  ghost function Dues(b: Bus): map<nat, nat> {
    map id | id in b.subs :: Due(b.fans, b.subs[id], id)
  }

  ghost predicate AtRest(b: Bus) {
    forall w | w in b.workers :: !b.workers[w].Sending?
  }

  /** What a subscriber got and what it lost never exceed the number of fan-outs, of events it wants, that had it in their
      snapshot, and add up to it when no fan-out is under way. */
  lemma SubscriberAddsUp(b: Bus, id: nat)
    requires Reachable(b) && id in b.subs
    ensures |b.subs[id].stream| + b.subs[id].lost <= Due(b.fans, b.subs[id], id)
    ensures AtRest(b) ==> |b.subs[id].stream| + b.subs[id].lost == Due(b.fans, b.subs[id], id)
  {
    ReachableInv(b);
    assert Balanced(b.workers, b.fans, b.subs[id], id);
    if AtRest(b) {
      NonePending(b.workers, b.subs[id], id);
    }
  }

  /** Over all subscribers: deliveries and the drop counter add up to the matching pairs of fan-outs and subscribers. */
  lemma DeliveriesAndDropsAddUp(b: Bus)
    requires Reachable(b) && AtRest(b)
    ensures Sum(Deliveries(b.subs)) + b.dropped == Sum(Dues(b))
  {
    ReachableInv(b);
    forall id | id in b.subs ensures Dues(b)[id] == Deliveries(b.subs)[id] + Losses(b.subs)[id] {
      SubscriberAddsUp(b, id);
    }
    SumPlus(Deliveries(b.subs), Losses(b.subs), Dues(b));
  }

  /** The fan-out by the dispatcher of the i-th event that entered the channel: begun, and over. */
  ghost predicate OfferedToAll(b: Bus, i: nat) {
    && i < |FansOf(b.fans, DISPATCHER)| && i < |b.entered|
    && var f := FansOf(b.fans, DISPATCHER)[i];
    f < |b.fans| && b.fans[f].worker == DISPATCHER && b.fans[f].e == b.entered[i] && FannedOut(b, f)
  }

  /** Once Close returns, every event that was on the publish channel before the bus was closed has been offered to everyone
      in the snapshot made for it; the snapshots were made in the order of the channel. */
  lemma CloseDrains(b: Bus)
    requires Reachable(b) && b.closed
    ensures DISPATCHER in b.workers && b.workers[DISPATCHER].Gone? && b.enteredAtClose <= |b.entered|
    ensures forall i | 0 <= i < b.enteredAtClose :: OfferedToAll(b, i)
    ensures forall i, j :: 0 <= i < j < |FansOf(b.fans, DISPATCHER)| ==>
      FansOf(b.fans, DISPATCHER)[i] < FansOf(b.fans, DISPATCHER)[j]
  {
    ReachableInv(b);
    FansOfPlaces(b.fans, DISPATCHER);
    assert FannedBy(b.fans, DISPATCHER) == b.dispatched <= b.entered;
    forall i | 0 <= i < b.enteredAtClose ensures OfferedToAll(b, i) {
      var f := FansOf(b.fans, DISPATCHER)[i];
      assert FannedOut(b, f) || UnderWay(b, f);
    }
  }
}
