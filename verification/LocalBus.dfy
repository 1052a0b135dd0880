/**
 The bus itself: fields updated in place by its methods. Every method is a run of the protocol, so whatever every
 interleaving keeps (BusDelivery) is kept by the code. Where publishers and replays stand is ghost state.
*/
module LocalBus {
  import opened BusProtocol
  import opened BusRuns

  datatype Sent = Accepted | BusClosed | Blocked

  class LocalBus {
    var stored: seq<Ev>
    var channel: seq<Ev>
    var subs: map<nat, Sub>
    var active: set<nat>
    var nextId: nat
    var dropped: nat
    var done: bool
    var closed: bool
    var hand: Worker
    ghost var entered: seq<Ev>
    ghost var dispatched: seq<Ev>
    ghost var fans: seq<Fan>
    ghost var offered: map<nat, set<nat>>
    ghost var publishers: map<nat, Publisher>
    ghost var workers: map<nat, Worker>
    ghost var draining: bool
    ghost var enteredAtClose: nat
    ghost var replayed: bool

    ghost function State(): Bus
      reads this
    {
      Bus(stored, channel, entered, dispatched, fans, offered, publishers, workers, subs, active, nextId, dropped, done,
          draining, closed, enteredAtClose, replayed)
    }

    ghost predicate Valid()
      reads this
    {
      active <= subs.Keys
    }

    /** hand is what the goroutine of the dispatcher has in its local variables: where it stands, and with which event. */
    ghost predicate Placed()
      reads this
    {
      Is(State(), DISPATCHER, hand)
    }

    constructor ()
      ensures State() == FRESH && Valid() && Placed()
    {
      stored, channel, subs, active, nextId, dropped, done, closed := [], [], map[], {}, 0, 0, false, false;
      entered, dispatched, fans, offered, publishers, workers := [], [], [], map[], map[], map[DISPATCHER := Idle([])];
      draining, enteredAtClose, replayed, hand := false, 0, false, Idle([]);
    }

    // ---- Publish: three segments, between which anything may happen ----------------------------

    method CheckOpen(ghost p: nat, e: Ev) returns (open: bool)
      requires p !in publishers
      modifies `publishers
      ensures open == Enabled(old(State()), Check(p, e))
      ensures State() == if open then Apply(old(State()), Check(p, e)) else old(State())
      ensures open == !done && publishers == if open then old(publishers)[p := Checked(e)] else old(publishers)
    {
      open := !done;
      if open {
        publishers := publishers[p := Checked(e)];
      }
    }

    /** ok: the event passed its schema and the store took it. */
    method Persist(ghost p: nat, e: Ev, ok: bool)
      requires p in publishers && publishers[p] == Checked(e)
      modifies `stored, `publishers
      ensures State() == Apply(old(State()), if ok then Step.Persist(p) else Reject(p))
      ensures stored == if ok then old(stored) + [e] else old(stored)
      ensures publishers == if ok then old(publishers)[p := Appended(e)] else old(publishers) - {p}
    {
      if ok {
        stored := stored + [e];
        publishers := publishers[p := Appended(e)];
      } else {
        publishers := publishers - {p};
      }
    }

    /** With room on the channel and the bus closed, either branch of the select may be taken. */
    method Send(ghost p: nat, e: Ev) returns (r: Sent)
      requires p in publishers && publishers[p] == Appended(e)
      modifies `channel, `entered, `publishers
      ensures r == Accepted ==> Enabled(old(State()), Enter(p)) && State() == Apply(old(State()), Enter(p))
      ensures r == BusClosed ==> Enabled(old(State()), Abort(p)) && State() == Apply(old(State()), Abort(p))
      ensures r == Blocked <==> !Enabled(old(State()), Enter(p)) && !Enabled(old(State()), Abort(p))
      ensures r == Blocked ==> State() == old(State())
      ensures r == Accepted ==> |old(channel)| < 1024 && channel == old(channel) + [e] && entered == old(entered) + [e]
      ensures r != Accepted ==> channel == old(channel) && entered == old(entered)
      ensures r == BusClosed ==> done
      ensures r == Blocked <==> !done && |old(channel)| >= 1024
      ensures publishers == if r == Blocked then old(publishers) else old(publishers) - {p}
    {
      var first: bool := *;
      if |channel| < PUBLISH_BUFFER && (first || !done) {
        channel := channel + [e];
        entered := entered + [e];
        publishers := publishers - {p};
        r := Accepted;
      } else if done {
        publishers := publishers - {p};
        r := BusClosed;
      } else {
        r := Blocked;
      }
    }

    // ---- Subscribers ----------------------------------------------------------------------------

    method Subscribe(types: set<string>, bufferSize: int) returns (id: nat)
      modifies `subs, `active, `nextId
      ensures id == old(nextId) && State() == Apply(old(State()), Step.Subscribe(types, bufferSize))
      ensures subs == old(subs)[id := Sub(types, if bufferSize <= 0 then 256 else bufferSize, [], [], 0)]
      ensures active == old(active) + {id} && nextId == id + 1
    {
      var cap := bufferSize;
      if bufferSize <= 0 {
        cap := DEFAULT_SUBSCRIBE_BUFFER;
      }
      id := nextId;
      nextId := nextId + 1;
      subs := subs[id := Sub(types, cap, [], [], 0)];
      active := active + {id};
    }

    method Unsubscribe(id: nat)
      requires id in subs
      modifies `active
      ensures State() == Apply(old(State()), Step.Unsubscribe(id))
      ensures active == old(active) - {id}
    {
      active := active - {id};
    }

    // ---- Fan-out --------------------------------------------------------------------------------

    /** Offers the event to everyone subscribed when it starts, in whatever order the map yields them. */
    method Fanout(ghost w: nat, e: Ev)
      requires Valid() && w in workers && workers[w].Took? && workers[w].e == e
      modifies this
      ensures State() == Fanned(old(State()), w) && Valid() && hand == old(hand)
      ensures AllServed(old(subs), subs, active, [e]) && FannedToAll(Past(old(State())), Past(State()), w, [e], active)
      ensures active == old(active)
    {
      FannedServes(State(), w);
      hide Finished;
      var who := TakeSnapshot(w, e);
      FinishFan(w, e, who);
    }

    method TakeSnapshot(ghost w: nat, e: Ev) returns (who: set<nat>)
      requires w in workers && workers[w].Took? && workers[w].e == e
      modifies this`fans, this`offered, this`workers
      ensures who == active && State() == Apply(old(State()), Snapshot(w))
    {
      ghost var t := Apply(State(), Snapshot(w));
      fans, offered, workers := t.fans, t.offered, t.workers;
      return active;
    }

    /** The loop over the snapshot, from any point of it. */
    method FinishFan(ghost w: nat, e: Ev, todo: set<nat>)
      requires Valid() && w in workers && workers[w].Sending? && workers[w].e == e && workers[w].todo == todo <= subs.Keys
      modifies this
      ensures State() == Finished(old(State()), w) && Valid() && hand == old(hand)
      ensures AllServed(old(subs), subs, todo, [e])
    {
      hide OfferedEach, Full, Finished, AllServed;
      FinishedServes(State(), w);
      FinishedIs(State(), w);
      OfferEach(e, todo);
      ghost var k := workers[w];
      offered := offered[k.fan := OfferedBy(offered, k.fan) + todo];
      workers := workers[w := Idle(k.rest)];
    }

    method OfferEach(e: Ev, who: set<nat>)
      requires who <= subs.Keys
      modifies this`subs, this`dropped
      ensures subs == OfferedEach(old(subs), who, e) && dropped == old(dropped) + |Full(old(subs), who, e)|
      ensures AllServed(old(subs), subs, who, [e])
    {
      EachIsServed(subs, who, e);
      var todo := who;
      NoneOffered(subs, e);
      assert who - todo == {};
      while todo != {}
        invariant todo <= who
        invariant subs == OfferedEach(old(subs), who - todo, e)
        invariant dropped == old(dropped) + |Full(old(subs), who - todo, e)|
        decreases todo
      {
        var id :| id in todo;
        OfferedEachNext(old(subs), who - todo, id, e);
        assert who - (todo - {id}) == who - todo + {id};
        todo := todo - {id};
        Offer(id, e);
      }
      assert who - todo == who;
    }

    /** The non-blocking send of the fan-out: a subscriber whose channel is full loses the event, and it is counted. */
    method Offer(id: nat, e: Ev)
      requires id in subs
      modifies this`subs, this`dropped
      ensures subs == old(subs)[id := Offered(old(subs[id]), e)]
      ensures dropped == old(dropped) + (Offered(old(subs[id]), e).lost - old(subs[id].lost))
      ensures subs.Keys == old(subs).Keys && Served(old(subs)[id], subs[id], [e]) && subs - {id} == old(subs) - {id}
      ensures var sub := old(subs)[id];
        if sub.types != {} && e.kind !in sub.types then subs[id] == sub && dropped == old(dropped)
        else if |sub.buf| < sub.cap then
          subs[id].buf == sub.buf + [e] && subs[id].stream == sub.stream + [e] && subs[id].lost == sub.lost && dropped == old(dropped)
        else subs[id].buf == sub.buf && subs[id].lost == sub.lost + 1 && dropped == old(dropped) + 1
    {
      ServedOne(subs[id], e);
      var sub := subs[id];
      if sub.Matches(e) {
        if |sub.buf| < sub.cap {
          subs := subs[id := sub.(buf := sub.buf + [e], stream := sub.stream + [e])];
        } else {
          subs := subs[id := sub.(lost := sub.lost + 1)];
          dropped := dropped + 1;
        }
      }
    }

    /** One turn of the dispatcher's loop on an event. */
    method Dispatch()
      requires Valid() && Enabled(State(), TakeChannel)
      modifies this
      ensures State() == Dispatched(old(State())) && Valid() && Placed()
      ensures old(channel) != [] && channel == old(channel)[1..] && AllServed(old(subs), subs, active, [old(channel)[0]])
      ensures FannedToAll(Past(old(State())), Past(State()), DISPATCHER, [old(channel)[0]], active) && active == old(active)
    {
      DispatchedServes(State());
      hide Fanned, Apply;
      TakenIs(State());
      var e := TakeFirst();
      Fanout(DISPATCHER, e);
      hand := Idle([]);
    }

    method TakeFirst() returns (e: Ev)
      requires channel != []
      modifies `channel, `dispatched, `workers, `hand
      ensures State() == Taken(old(State())) && e == old(channel)[0]
    {
      e := channel[0];
      channel := channel[1..];
      dispatched := dispatched + [e];
      hand := Took(e, []);
      workers := workers[DISPATCHER := hand];
    }

    /** What is left on the channel once the bus is closed is fanned out before the dispatcher ends. */
    method Drain()
      requires Valid() && Is(State(), DISPATCHER, Idle([]))
      modifies this
      ensures State() == Drained(old(State())) && Valid() && Placed()
      ensures channel == [] && AllServed(old(subs), subs, active, old(channel)) && active == old(active)
      ensures FannedToAll(Past(old(State())), Past(State()), DISPATCHER, old(channel), active)
    {
      hide Dispatched, Apply, AllServed, FannedToAll;
      ghost var t := Drained(State());
      DrainedServes(State());
      DrainedEmpties(State(), t);
      while channel != []
        invariant Valid() && Is(State(), DISPATCHER, Idle([])) && Drained(State()) == Drained(old(State()))
        decreases |channel|
      {
        DispatchedTakes(State());
        Dispatch();
      }
      hand := Gone;
      workers := workers[DISPATCHER := hand];
      assert State() == t && t.subs == subs && t.active == active && t.channel == channel;
    }

    method Redispatch(ghost w: nat, e: Ev, ghost rest: seq<Ev>)
      requires Valid() && w != DISPATCHER && Is(State(), w, Idle([e] + rest))
      modifies this
      ensures State() == Fanned(Apply(old(State()), TakeReplay(w)), w) && Valid() && hand == old(hand)
    {
      workers := workers[w := Took(e, rest)];
      Fanout(w, e);
    }

    method FanoutEach(ghost w: nat, events: seq<Ev>, ghost goal: Bus)
      requires Valid() && w != DISPATCHER && Is(State(), w, Idle(events)) && Refanned(State(), w) == goal
      modifies this
      ensures State() == goal && Is(State(), w, Idle([])) && Valid() && hand == old(hand)
    {
      hide Fanned;
      for i := 0 to |events|
        invariant Valid() && Is(State(), w, Idle(events[i..])) && Refanned(State(), w) == goal && hand == old(hand)
      {
        assert events[i..] == [events[i]] + events[i + 1..];
        Redispatch(w, events[i], events[i + 1..]);
      }
    }

    /** Stored events are fanned out again, one after the other, and not stored again. */
    method Replay(ghost w: nat, events: seq<Ev>)
      requires Valid() && w != DISPATCHER && Enabled(State(), BeginReplay(w, events))
      modifies this
      ensures State() == Replayed(old(State()), w, events) && Valid() && hand == old(hand)
      ensures AllServed(old(subs), subs, active, events) && FannedToAll(Past(old(State())), Past(State()), w, events, active)
      ensures active == old(active) && stored == old(stored) && channel == old(channel)
    {
      hide Refanned, AllServed, FannedToAll, Reaches;
      ghost var b := State();
      ReplayedServes(b, w, events);
      ReplayedRuns(b, w, events);
      workers := workers[w := Idle(events)];
      replayed := true;
      assert State() == Apply(old(State()), BeginReplay(w, events));
      FanoutEach(w, events, Refanned(State(), w));
      workers := workers - {w};
      ghost var t := State();
      assert t == Replayed(b, w, events) && t.subs == subs && t.active == active;
    }

    /** The dispatcher ends its turn. */
    method EndTurn()
      requires Valid() && Sound(State()) && Placed() && !hand.Gone?
      modifies this
      ensures State() == TurnOver(old(State())) && Valid() && Placed()
    {
      match hand {
        case Idle(_) =>
        case Took(e, _) => Fanout(DISPATCHER, e);
        case Sending(e, _, todo, _) => FinishFan(DISPATCHER, e, todo);
      }
      hand := Idle([]);
    }

    /** The dispatcher ends: the event in hand, what is left on the channel. */
    method EndDispatcher()
      requires Valid() && Sound(State()) && Placed() && done
      modifies this
      ensures State() == Ended(old(State())) && Valid() && Placed()
    {
      hide TurnOver, Drained, Reaches, Sound;
      if !hand.Gone? {
        TurnOverRuns(State());
        EndTurn();
        draining := true;
        Drain();
      }
    }

    /** Close: a call that finds the bus open closes it; every call waits until the dispatcher has ended, wherever it
        stands. */
    method Close()
      requires Valid() && Sound(State()) && Placed()
      modifies this
      ensures State() == Closed(old(State())) && Valid() && Placed()
      ensures closed && (!old(closed) ==> done && hand == Gone) && (!old(done) && !old(closed) ==> channel == [])
      ensures !old(closed) && !old(hand).Gone? ==>
        exists mid :: AllServed(old(subs), mid, InHand(old(State()), old(hand)), Event(old(hand)))
                      && AllServed(mid, subs, old(active), old(channel))
    {
      hide Ended, Shut, AllServed, Reaches;
      if closed {
        return;
      }
      ghost var b := State();
      ClosedRuns(b);
      ghost var mid := b.subs;
      if !hand.Gone? {
        mid := ClosedServes(b);
      }
      CloseDone();
      EndDispatcher();
      closed := true;
      ghost var t := State();
      assert t == Closed(b) && t.subs == subs && t.done == done && t.channel == channel && t.workers == workers;
    }

    method CloseDone()
      requires Sound(State())
      modifies this`done, this`enteredAtClose
      ensures State() == Shut(old(State()))
      ensures workers == old(workers)
    {
      if !done {
        done := true;
        enteredAtClose := |entered|;
      }
    }
  }
}
