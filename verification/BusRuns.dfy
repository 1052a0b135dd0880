/** Fan-outs, replays and Close with nobody interfering: what they do to each subscriber, and that they are runs. */
module BusRuns {
  import BusDelivery
  import opened BusProtocol

  // ---- What a subscriber gets -----------------------------------------------------------------

  /** How much more fits on the channel. */
  function Room(sub: Sub): nat {
    if |sub.buf| < sub.cap then sub.cap - |sub.buf| else 0
  }

  /** The events were offered one after the other while nobody received: of those of its types the first that fit were
      delivered, in order, and the others lost. */
  predicate Served(before: Sub, after: Sub, log: seq<Ev>) {
    var wanted := Wanted(before, log);
    var n := if |wanted| <= Room(before) then |wanted| else Room(before);
    && after.types == before.types && after.cap == before.cap
    && after.stream == before.stream + wanted[..n] && after.buf == before.buf + wanted[..n]
    && after.lost == before.lost + |wanted| - n
  }

  lemma {:induction false} WantedConcat(sub: Sub, a: seq<Ev>, b: seq<Ev>)
    ensures Wanted(sub, a + b) == Wanted(sub, a) + Wanted(sub, b)
    decreases |b|
  {
    if b == [] {
      assert a + b == a;
    } else {
      var init, e := b[..|b| - 1], b[|b| - 1];
      assert a + b == (a + init) + [e];
      WantedConcat(sub, a, init);
      WantedAppend(sub, a + init, e);
    }
  }

  lemma ServedNone(sub: Sub)
    ensures Served(sub, sub, [])
  {
    var none: seq<Ev> := [];
    assert sub.stream + none == sub.stream && sub.buf + none == sub.buf;
  }

  lemma ServedOne(sub: Sub, e: Ev)
    ensures Served(sub, Offered(sub, e), [e])
  {
    var none: seq<Ev> := [];
    assert none + [e] == [e];
    WantedAppend(sub, none, e);
    assert sub.stream + none == sub.stream && sub.buf + none == sub.buf;
    assert Wanted(sub, [e]) == if sub.Matches(e) then [e] else none;
  }

  lemma ServedThen(a: Sub, b: Sub, c: Sub, first: seq<Ev>, later: seq<Ev>)
    requires Served(a, b, first) && Served(b, c, later)
    ensures Served(a, c, first + later)
  {
    WantedConcat(a, first, later);
    WantedSame(a, b, later);
    var w1, w2 := Wanted(a, first), Wanted(a, later);
    var n1 := if |w1| <= Room(a) then |w1| else Room(a);
    var n2 := if |w2| <= Room(b) then |w2| else Room(b);
    assert Room(b) == Room(a) - n1;
    JoinFronts(a.stream, w1, n1, w2, n2);
    JoinFronts(a.buf, w1, n1, w2, n2);
  }

  /** Every event of its types is delivered or counted as lost; with room for all, all are delivered, in order. */
  lemma ServedMeans(before: Sub, after: Sub, log: seq<Ev>)
    requires Served(before, after, log)
    ensures |after.stream| + after.lost == |before.stream| + before.lost + |Wanted(before, log)|
    ensures |Wanted(before, log)| <= Room(before) ==>
      after.stream == before.stream + Wanted(before, log) && after.buf == before.buf + Wanted(before, log) && after.lost == before.lost
    ensures before.stream <= after.stream && before.lost <= after.lost
  {
    var wanted := Wanted(before, log);
    assert wanted[..|wanted|] == wanted;
  }

  lemma JoinFronts(s: seq<Ev>, w1: seq<Ev>, n1: nat, w2: seq<Ev>, n2: nat)
    requires n1 <= |w1| && n2 <= |w2| && (n1 < |w1| ==> n2 == 0)
    ensures s + w1[..n1] + w2[..n2] == s + (w1 + w2)[..n1 + n2]
  {
  }

  /** All of who were served, and nobody else is touched. */
  predicate AllServed(before: map<nat, Sub>, after: map<nat, Sub>, who: set<nat>, log: seq<Ev>) {
    && after.Keys == before.Keys
    && (forall id | id in before && id in who :: Served(before[id], after[id], log))
    && (forall id | id in before && id !in who :: after[id] == before[id])
  }

  lemma AllServedNone(subs: map<nat, Sub>, who: set<nat>)
    ensures AllServed(subs, subs, who, [])
  {
    forall id | id in subs && id in who ensures Served(subs[id], subs[id], []) {
      ServedNone(subs[id]);
    }
  }

  lemma AllServedThen(a: map<nat, Sub>, b: map<nat, Sub>, c: map<nat, Sub>, who: set<nat>, first: seq<Ev>, later: seq<Ev>)
    requires AllServed(a, b, who, first) && AllServed(b, c, who, later)
    ensures AllServed(a, c, who, first + later)
  {
    forall id | id in a && id in who ensures Served(a[id], c[id], first + later) {
      ServedThen(a[id], b[id], c[id], first, later);
    }
  }

  /** What is recorded of fan-outs: the snapshots, and whom each was offered to. */
  datatype History = History(fans: seq<Fan>, offered: map<nat, set<nat>>)

  function Past(b: Bus): History {
    History(b.fans, b.offered)
  }

  /** For each event in turn a fan-out to these subscribers was begun and completed. */
  ghost predicate FannedToAll(h: History, later: History, w: nat, events: seq<Ev>, who: set<nat>) {
    && |later.fans| == |h.fans| + |events| && later.fans[..|h.fans|] == h.fans
    && (forall i | 0 <= i < |events| ::
          later.fans[|h.fans| + i] == Fan(w, events[i], who) && OfferedBy(later.offered, |h.fans| + i) == who)
    && (forall f: nat | f < |h.fans| :: OfferedBy(later.offered, f) == OfferedBy(h.offered, f))
  }

  lemma FannedToAllThen(a: History, b: History, c: History, w: nat, e: Ev, rest: seq<Ev>, who: set<nat>)
    requires FannedToAll(a, b, w, [e], who) && FannedToAll(b, c, w, rest, who)
    ensures FannedToAll(a, c, w, [e] + rest, who)
  {
    assert c.fans[..|a.fans|] == c.fans[..|b.fans|][..|a.fans|];
    forall i | 0 <= i < |[e] + rest|
      ensures c.fans[|a.fans| + i] == Fan(w, ([e] + rest)[i], who) && OfferedBy(c.offered, |a.fans| + i) == who
    {
      if i == 0 {
        assert c.fans[..|b.fans|][|a.fans|] == b.fans[|a.fans| + 0];
      } else {
        assert c.fans[|b.fans| + (i - 1)] == Fan(w, rest[i - 1], who);
      }
    }
  }

  // ---- What the loops amount to, on values ----------------------------------------------------

  /** Those of who that want the event and have no room for it. */
  function Full(subs: map<nat, Sub>, who: set<nat>, e: Ev): set<nat> {
    set id | id in who && id in subs && subs[id].Matches(e) && |subs[id].buf| >= subs[id].cap
  }

  function OfferedEach(subs: map<nat, Sub>, who: set<nat>, e: Ev): map<nat, Sub> {
    map id | id in subs :: if id in who then Offered(subs[id], e) else subs[id]
  }

  /** The worker's event offered to all who are still to come. */
  function OfferedAll(b: Bus, w: nat): Bus
    requires w in b.workers && b.workers[w].Sending?
  {
    var k := b.workers[w];
    b.(subs := OfferedEach(b.subs, k.todo, k.e), dropped := b.dropped + |Full(b.subs, k.todo, k.e)|,
       offered := b.offered[k.fan := OfferedBy(b.offered, k.fan) + k.todo], workers := b.workers[w := k.(todo := {})])
  }

  /** Fan-outs touch the subscribers, the drop counter and where the workers stand, nothing else. */
  predicate Beside(b: Bus, t: Bus) {
    && t == b.(subs := t.subs, dropped := t.dropped, fans := t.fans, offered := t.offered, workers := t.workers)
    && t.subs.Keys == b.subs.Keys
  }

  /** The rest of a fan-out with nobody interfering. */
  function Finished(b: Bus, w: nat): (t: Bus)
    requires w in b.workers && b.workers[w].Sending?
    ensures Beside(b, t) && t.workers == b.workers[w := Idle(b.workers[w].rest)] && t.fans == b.fans
  {
    var all := OfferedAll(b, w);
    assert all.workers[w := Idle(b.workers[w].rest)] == b.workers[w := Idle(b.workers[w].rest)];
    Apply(all, Finish(w))
  }

  lemma FinishedIs(b: Bus, w: nat)
    requires w in b.workers && b.workers[w].Sending?
    ensures var k := b.workers[w];
      Finished(b, w) == b.(subs := OfferedEach(b.subs, k.todo, k.e), dropped := b.dropped + |Full(b.subs, k.todo, k.e)|,
        offered := b.offered[k.fan := OfferedBy(b.offered, k.fan) + k.todo], workers := b.workers[w := Idle(k.rest)])
  {
    hide OfferedEach, Full;
  }

  /** One event fanned out with nobody interfering: offered once to each subscriber of that moment. */
  function Fanned(b: Bus, w: nat): (t: Bus)
    requires w in b.workers && b.workers[w].Took?
    ensures Beside(b, t) && t.workers == b.workers[w := Idle(b.workers[w].rest)]
    ensures t.fans == b.fans + [Fan(w, b.workers[w].e, b.active)]
  {
    Finished(Apply(b, Snapshot(w)), w)
  }

  function Dispatched(b: Bus): Bus
    requires Enabled(b, TakeChannel)
  {
    Fanned(Apply(b, TakeChannel), DISPATCHER)
  }

  function Drained(b: Bus): Bus
    requires Is(b, DISPATCHER, Idle([]))
    decreases |b.channel|
  {
    if b.channel == [] then b.(workers := b.workers[DISPATCHER := Gone]) else Drained(Dispatched(b))
  }

  function Refanned(b: Bus, w: nat): Bus
    requires w in b.workers && b.workers[w].Idle? && w != DISPATCHER
    decreases |b.workers[w].rest|
  {
    if b.workers[w].rest == [] then b else Refanned(Fanned(Apply(b, TakeReplay(w)), w), w)
  }

  function Replayed(b: Bus, w: nat, events: seq<Ev>): Bus
    requires Enabled(b, BeginReplay(w, events)) && w != DISPATCHER
  {
    var t := Refanned(Apply(b, BeginReplay(w, events)), w);
    t.(workers := t.workers - {w})
  }

  /** What is known of the reachable states that the methods build on. */
  predicate Sound(b: Bus) {
    && b.active <= b.subs.Keys && DISPATCHER in b.workers
    && var k := b.workers[DISPATCHER];
    && (k.Gone? ==> b.done)
    && (!k.Gone? ==> k.rest == [])
    && (k.Sending? ==> k.todo <= b.subs.Keys && k.fan in b.offered)
  }

  lemma ReachableIsSound(b: Bus)
    requires Reachable(b)
    ensures Sound(b)
  {
    BusDelivery.ReachableInv(b);
    assert BusDelivery.RunsFan(b.fans, b.offered, b.workers[DISPATCHER], DISPATCHER);
  }

  /** The dispatcher completes the event it is working on. */
  function TurnOver(b: Bus): (t: Bus)
    requires Sound(b) && !b.workers[DISPATCHER].Gone?
    ensures Beside(b, t) && Is(t, DISPATCHER, Idle([]))
  {
    match b.workers[DISPATCHER]
    case Idle(_) => b
    case Took(_, _) => Fanned(b, DISPATCHER)
    case Sending(_, _, _, _) => Finished(b, DISPATCHER)
  }

  /** What is still to be done by the dispatcher once the bus is closed: the event in hand, then the channel. */
  function Ended(b: Bus): Bus
    requires Sound(b)
  {
    if b.workers[DISPATCHER].Gone? then b else Drained(TurnOver(b).(draining := true))
  }

  function Shut(b: Bus): (t: Bus)
    requires Sound(b)
    ensures Sound(t) && t.done
  {
    if b.done then b else Apply(b, CloseDone)
  }

  /** Wherever the dispatcher stands, and whether or not another Close is under way. */
  function Closed(b: Bus): Bus
    requires Sound(b)
  {
    if b.closed then b else Ended(Shut(b)).(closed := true)
  }

  // ---- Each of them is a run of the protocol --------------------------------------------------

  ghost predicate ClosedUnderSteps(states: iset<Bus>) {
    forall b, s | b in states && Enabled(b, s) :: Apply(b, s) in states
  }

  /** Whatever holds at b and is kept by every step of the protocol holds at t. */
  ghost predicate Reaches(b: Bus, t: Bus) {
    forall states: iset<Bus> | ClosedUnderSteps(states) && b in states :: t in states
  }

  lemma Stays(b: Bus)
    ensures Reaches(b, b)
  {
  }

  lemma Onward(b: Bus, middle: Bus, t: Bus)
    requires Reaches(b, middle) && Reaches(middle, t)
    ensures Reaches(b, t)
  {
  }

  lemma ByStep(b: Bus, s: Step, t: Bus)
    requires Enabled(b, s) && t == Apply(b, s)
    ensures Reaches(b, t)
  {
  }

  lemma {:induction false} RunThen(b: Bus, steps: seq<Step>, s: Step)
    requires IsRun(b, steps) && Enabled(Final(b, steps), s)
    ensures IsRun(b, steps + [s]) && Final(b, steps + [s]) == Apply(Final(b, steps), s)
    decreases |steps|
  {
    if steps == [] {
      assert [s][1..] == [];
    } else {
      RunThen(Apply(b, steps[0]), steps[1..], s);
      assert (steps + [s])[1..] == steps[1..] + [s];
    }
  }

  /** So the methods below never leave the reachable states, and everything proved of those applies. */
  lemma StillReachable(b: Bus, t: Bus)
    requires Reachable(b) && Reaches(b, t)
    ensures Reachable(t)
  {
    var states := iset x: Bus | Reachable(x);
    forall x, s | x in states && Enabled(x, s) ensures Apply(x, s) in states {
      var steps :| IsRun(FRESH, steps) && Final(FRESH, steps) == x;
      RunThen(FRESH, steps, s);
    }
    assert ClosedUnderSteps(states) && b in states;
  }

  lemma OfferedEachFirst(subs: map<nat, Sub>, who: set<nat>, id: nat, e: Ev)
    requires id in who && id in subs
    ensures OfferedEach(subs[id := Offered(subs[id], e)], who - {id}, e) == OfferedEach(subs, who, e)
    ensures |Full(subs[id := Offered(subs[id], e)], who - {id}, e)| + (Offered(subs[id], e).lost - subs[id].lost)
         == |Full(subs, who, e)|
  {
    var later := Full(subs[id := Offered(subs[id], e)], who - {id}, e);
    assert later == Full(subs, who, e) - {id};
    assert id in Full(subs, who, e) <==> Offered(subs[id], e).lost == subs[id].lost + 1;
  }

  lemma OfferedEachNext(subs: map<nat, Sub>, sent: set<nat>, id: nat, e: Ev)
    requires id !in sent && id in subs
    ensures OfferedEach(subs, sent, e)[id := Offered(OfferedEach(subs, sent, e)[id], e)] == OfferedEach(subs, sent + {id}, e)
    ensures |Full(subs, sent + {id}, e)| == |Full(subs, sent, e)| + (Offered(subs[id], e).lost - subs[id].lost)
  {
    var here := if Offered(subs[id], e).lost == subs[id].lost then {} else {id};
    assert Full(subs, sent + {id}, e) == Full(subs, sent, e) + here;
  }

  lemma NoneOffered(subs: map<nat, Sub>, e: Ev)
    ensures OfferedEach(subs, {}, e) == subs && Full(subs, {}, e) == {}
  {
  }

  /** Offering to one first and to the others afterwards is offering to all: the order does not matter. */
  lemma OfferFirst(b: Bus, w: nat, id: nat)
    requires Enabled(b, Offer(w, id))
    ensures OfferedAll(Apply(b, Offer(w, id)), w) == OfferedAll(b, w)
  {
    hide OfferedEach, Full, Offered;
    var k, t := b.workers[w], Apply(b, Offer(w, id));
    OfferedEachFirst(b.subs, k.todo, id, k.e);
    assert OfferedBy(t.offered, k.fan) + t.workers[w].todo == OfferedBy(b.offered, k.fan) + k.todo;
    OverwriteTwice(b.offered, k.fan, t.offered[k.fan], OfferedBy(b.offered, k.fan) + k.todo);
    OverwriteTwice(b.workers, w, t.workers[w], k.(todo := {}));
  }

  lemma OverwriteTwice<V>(m: map<nat, V>, key: nat, a: V, b: V)
    ensures m[key := a][key := b] == m[key := b]
  {
  }

  lemma OverwriteSame<V>(m: map<nat, V>, key: nat, a: V)
    requires key in m && m[key] == a
    ensures m[key := a] == m
  {
  }

  lemma NothingLeft(b: Bus, w: nat)
    requires w in b.workers && b.workers[w].Sending? && b.workers[w].todo == {} && b.workers[w].fan in b.offered
    ensures OfferedAll(b, w) == b
  {
    hide OfferedEach, Full;
    var k := b.workers[w];
    NoneOffered(b.subs, k.e);
    assert OfferedBy(b.offered, k.fan) + {} == b.offered[k.fan];
    OverwriteSame(b.offered, k.fan, b.offered[k.fan]);
    OverwriteSame(b.workers, w, k);
  }

  lemma {:induction false} OfferedAllRuns(b: Bus, w: nat)
    requires w in b.workers && b.workers[w].Sending? && b.workers[w].todo <= b.subs.Keys && b.workers[w].fan in b.offered
    ensures Reaches(b, OfferedAll(b, w))
    decreases b.workers[w].todo
  {
    hide OfferedAll, Offered, OfferedBy, Reaches;
    if b.workers[w].todo == {} {
      NothingLeft(b, w);
      Stays(b);
    } else {
      var id :| id in b.workers[w].todo;
      var t := Apply(b, Offer(w, id));
      OfferFirst(b, w, id);
      ByStep(b, Offer(w, id), t);
      OfferedAllRuns(t, w);
      Onward(b, t, OfferedAll(b, w));
    }
  }

  lemma FinishedRuns(b: Bus, w: nat)
    requires w in b.workers && b.workers[w].Sending? && b.workers[w].todo <= b.subs.Keys && b.workers[w].fan in b.offered
    ensures Reaches(b, Finished(b, w))
  {
    OfferedAllRuns(b, w);
    var all := OfferedAll(b, w);
    ByStep(all, Finish(w), Finished(b, w));
    Onward(b, all, Finished(b, w));
  }

  /** A fan-out is a run that adds one entry to the history of fan-outs, offered to its whole snapshot. */
  lemma FannedRuns(b: Bus, w: nat)
    requires w in b.workers && b.workers[w].Took? && b.active <= b.subs.Keys
    ensures Reaches(b, Fanned(b, w))
    ensures Fanned(b, w).fans == b.fans + [Fan(w, b.workers[w].e, b.active)]
    ensures OfferedBy(Fanned(b, w).offered, |b.fans|) == b.active
  {
    var t := Apply(b, Snapshot(w));
    ByStep(b, Snapshot(w), t);
    FinishedRuns(t, w);
    Onward(b, t, Fanned(b, w));
  }

  lemma DispatchedRuns(b: Bus)
    requires Enabled(b, TakeChannel) && b.active <= b.subs.Keys
    ensures Reaches(b, Dispatched(b))
  {
    hide Fanned, Reaches;
    var t := Apply(b, TakeChannel);
    ByStep(b, TakeChannel, t);
    FannedRuns(t, DISPATCHER);
    Onward(b, t, Dispatched(b));
  }

  lemma {:induction false} DrainedRuns(b: Bus)
    requires Is(b, DISPATCHER, Idle([])) && b.active <= b.subs.Keys && b.draining
    ensures Reaches(b, Drained(b))
    decreases |b.channel|
  {
    hide Fanned, Reaches;
    if b.channel == [] {
      ByStep(b, Exit, Drained(b));
    } else {
      DispatchedRuns(b);
      DrainedRuns(Dispatched(b));
      Onward(b, Dispatched(b), Drained(b));
    }
  }

  function Taken(b: Bus): Bus
    requires b.channel != []
  {
    b.(workers := b.workers[DISPATCHER := Took(b.channel[0], [])], channel := b.channel[1..],
       dispatched := b.dispatched + [b.channel[0]])
  }

  lemma TakenIs(b: Bus)
    requires Enabled(b, TakeChannel)
    ensures b.channel != [] && Apply(b, TakeChannel) == Taken(b)
  {
  }

  lemma DispatchedTakes(b: Bus)
    requires Enabled(b, TakeChannel)
    ensures Is(Dispatched(b), DISPATCHER, Idle([])) && |Dispatched(b).channel| < |b.channel|
    ensures Dispatched(b).dispatched + Dispatched(b).channel == b.dispatched + b.channel
    ensures Dispatched(b).done == b.done && Dispatched(b).closed == b.closed
  {
    hide Fanned;
    assert b.channel == [b.channel[0]] + b.channel[1..];
  }

  /** Draining dispatches the whole channel in order. */
  lemma {:induction false} DrainedEmpties(b: Bus, t: Bus)
    requires Is(b, DISPATCHER, Idle([])) && t == Drained(b)
    ensures Is(t, DISPATCHER, Gone) && t.channel == [] && t.dispatched == b.dispatched + b.channel
    ensures t.done == b.done && t.closed == b.closed && t.active == b.active
    decreases |b.channel|
  {
    if b.channel != [] {
      DispatchedTakes(b);
      DrainedEmpties(Dispatched(b), t);
    }
  }

  lemma {:induction false} RefannedRuns(b: Bus, w: nat)
    requires w in b.workers && b.workers[w].Idle? && w != DISPATCHER && b.active <= b.subs.Keys
    ensures Reaches(b, Refanned(b, w))
    decreases |b.workers[w].rest|
  {
    hide Fanned, Reaches;
    Stays(b);
    if b.workers[w].rest != [] {
      var t := Apply(b, TakeReplay(w));
      ByStep(b, TakeReplay(w), t);
      FannedRuns(t, w);
      Onward(b, t, Fanned(t, w));
      RefannedRuns(Fanned(t, w), w);
      Onward(b, Fanned(t, w), Refanned(b, w));
    }
  }

  lemma {:induction false} RefannedKeeps(b: Bus, w: nat)
    requires w in b.workers && b.workers[w].Idle? && w != DISPATCHER
    ensures Refanned(b, w).workers == b.workers[w := Idle([])]
    ensures Refanned(b, w).stored == b.stored && Refanned(b, w).channel == b.channel && Refanned(b, w).dispatched == b.dispatched
    ensures Refanned(b, w).active == b.active
    decreases |b.workers[w].rest|
  {
    hide Fanned;
    if b.workers[w].rest == [] {
      assert b.workers[w := Idle([])] == b.workers;
    } else {
      RefannedKeeps(Fanned(Apply(b, TakeReplay(w)), w), w);
    }
  }

  /** A replay is a run that stores nothing and leaves the publish channel and the other workers alone. */
  lemma ReplayedRuns(b: Bus, w: nat, events: seq<Ev>)
    requires Enabled(b, BeginReplay(w, events)) && w != DISPATCHER && b.active <= b.subs.Keys
    ensures Reaches(b, Replayed(b, w, events)) && Replayed(b, w, events).workers == b.workers
    ensures Replayed(b, w, events).stored == b.stored && Replayed(b, w, events).dispatched == b.dispatched
    ensures Replayed(b, w, events).active == b.active && Replayed(b, w, events).channel == b.channel
  {
    hide Reaches, Refanned;
    var t := Apply(b, BeginReplay(w, events));
    ByStep(b, BeginReplay(w, events), t);
    RefannedRuns(t, w);
    RefannedKeeps(t, w);
    Onward(b, t, Refanned(t, w));
    ByStep(Refanned(t, w), EndReplay(w), Replayed(b, w, events));
    Onward(b, Refanned(t, w), Replayed(b, w, events));
    assert b.workers[w := Idle([])] - {w} == b.workers;
  }

  lemma TurnOverRuns(b: Bus)
    requires Sound(b) && !b.workers[DISPATCHER].Gone?
    ensures Reaches(b, TurnOver(b))
  {
    hide Fanned, Finished, Reaches, Apply, Enabled;
    match b.workers[DISPATCHER]
    case Idle(_) => Stays(b);
    case Took(_, _) => FannedRuns(b, DISPATCHER);
    case Sending(_, _, _, _) => FinishedRuns(b, DISPATCHER);
  }

  lemma EndedRuns(b: Bus)
    requires Sound(b) && b.done
    ensures Reaches(b, Ended(b)) && Is(Ended(b), DISPATCHER, Gone) && Ended(b).done && Ended(b).closed == b.closed
    ensures !b.workers[DISPATCHER].Gone? ==> Ended(b).channel == [] && Ended(b).dispatched == b.dispatched + b.channel
  {
    hide TurnOver, Drained, Reaches;
    Stays(b);
    if !b.workers[DISPATCHER].Gone? {
      TurnOverRuns(b);
      var t := TurnOver(b);
      var u := Apply(t, SeeDone);
      ByStep(t, SeeDone, u);
      Onward(b, t, u);
      DrainedRuns(u);
      DrainedEmpties(u, Drained(u));
      Onward(b, u, Drained(u));
    }
  }

  /** Close completes the event in hand and fans out everything still on the channel; a second Close does nothing. */
  lemma ClosedRuns(b: Bus)
    requires Sound(b)
    ensures Reaches(b, Closed(b)) && Closed(b).closed
    ensures !b.closed ==> Closed(b).done && Is(Closed(b), DISPATCHER, Gone)
    ensures !b.done && !b.closed ==> Closed(b).channel == [] && Closed(b).dispatched == b.dispatched + b.channel
    ensures Sound(Closed(b)) ==> Closed(Closed(b)) == Closed(b)
  {
    hide Ended, Reaches;
    Stays(b);
    if !b.closed {
      var t := Shut(b);
      if !b.done {
        ByStep(b, CloseDone, t);
      }
      EndedRuns(t);
      Onward(b, t, Ended(t));
      ByStep(Ended(t), CloseReturns, Closed(b));
      Onward(b, Ended(t), Closed(b));
    }
  }

  // ---- What they do for the subscribers -------------------------------------------------------

  lemma EachIsServed(subs: map<nat, Sub>, who: set<nat>, e: Ev)
    ensures AllServed(subs, OfferedEach(subs, who, e), who, [e])
  {
    hide Served, Offered;
    forall id | id in subs && id in who ensures Served(subs[id], OfferedEach(subs, who, e)[id], [e]) {
      ServedOne(subs[id], e);
    }
  }

  lemma FinishedServes(b: Bus, w: nat)
    requires w in b.workers && b.workers[w].Sending?
    ensures AllServed(b.subs, Finished(b, w).subs, b.workers[w].todo, [b.workers[w].e])
  {
    hide Finished, OfferedEach, Full, AllServed;
    FinishedIs(b, w);
    EachIsServed(b.subs, b.workers[w].todo, b.workers[w].e);
  }

  /** One fan-out serves everyone active and completes one entry of the history. */
  lemma FannedServes(b: Bus, w: nat)
    requires w in b.workers && b.workers[w].Took?
    ensures AllServed(b.subs, Fanned(b, w).subs, b.active, [b.workers[w].e])
    ensures FannedToAll(Past(b), Past(Fanned(b, w)), w, [b.workers[w].e], b.active)
  {
    hide Finished, AllServed, OfferedEach, Full;
    var t := Apply(b, Snapshot(w));
    FinishedServes(t, w);
    FinishedIs(t, w);
    var f := Fanned(b, w);
    assert OfferedBy(t.offered, |b.fans|) + b.active == b.active;
    assert OfferedBy(f.offered, |b.fans|) == b.active;
    assert f.fans == b.fans + [Fan(w, b.workers[w].e, b.active)];
  }

  lemma {:induction false} RefannedServes(b: Bus, w: nat)
    requires w in b.workers && b.workers[w].Idle? && w != DISPATCHER
    ensures var t, rest := Refanned(b, w), b.workers[w].rest;
      AllServed(b.subs, t.subs, b.active, rest) && FannedToAll(Past(b), Past(t), w, rest, b.active)
    decreases |b.workers[w].rest|
  {
    hide Fanned, AllServed, FannedToAll;
    var rest := b.workers[w].rest;
    if rest == [] {
      AllServedNone(b.subs, b.active);
      NoneFanned(Past(b), w, b.active);
    } else {
      var t := Apply(b, TakeReplay(w));
      var u := Fanned(t, w);
      FannedServes(t, w);
      RefannedServes(u, w);
      AllServedThen(b.subs, u.subs, Refanned(u, w).subs, b.active, [rest[0]], rest[1..]);
        FannedToAllThen(Past(b), Past(u), Past(Refanned(u, w)), w, rest[0], rest[1..], b.active);
      assert [rest[0]] + rest[1..] == rest;
    }
  }

  lemma NoneFanned(h: History, w: nat, who: set<nat>)
    ensures FannedToAll(h, h, w, [], who)
  {
    assert h.fans[..|h.fans|] == h.fans;
  }

  /** A replay serves everyone active with the events, in their order, and nobody else. */
  lemma ReplayedServes(b: Bus, w: nat, events: seq<Ev>)
    requires Enabled(b, BeginReplay(w, events)) && w != DISPATCHER
    ensures var t := Replayed(b, w, events);
      AllServed(b.subs, t.subs, b.active, events) && FannedToAll(Past(b), Past(t), w, events, b.active)
  {
    hide Refanned, AllServed, FannedToAll;
    var t := Apply(b, BeginReplay(w, events));
    RefannedServes(t, w);
  }

  lemma DispatchedServes(b: Bus)
    requires Enabled(b, TakeChannel)
    ensures var t := Dispatched(b);
      && b.channel != [] && t.channel == b.channel[1..] && t.active == b.active
      && AllServed(b.subs, t.subs, b.active, [b.channel[0]])
      && FannedToAll(Past(b), Past(t), DISPATCHER, [b.channel[0]], b.active)
  {
    hide Fanned, AllServed, FannedToAll;
    var t := Apply(b, TakeChannel);
    FannedServes(t, DISPATCHER);
  }

  lemma {:induction false} DrainedServes(b: Bus)
    requires Is(b, DISPATCHER, Idle([]))
    ensures AllServed(b.subs, Drained(b).subs, b.active, b.channel) && FannedToAll(Past(b), Past(Drained(b)), DISPATCHER, b.channel, b.active)
    decreases |b.channel|
  {
    hide Fanned, AllServed, FannedToAll;
    if b.channel == [] {
      AllServedNone(b.subs, b.active);
      NoneFanned(Past(b), DISPATCHER, b.active);
      var t := Drained(b);
      assert t.subs == b.subs && t.fans == b.fans && t.offered == b.offered;
    } else {
      var t := Apply(b, TakeChannel);
      var u := Fanned(t, DISPATCHER);
      DispatchedTakes(b);
      FannedServes(t, DISPATCHER);
      DrainedServes(u);
      AllServedThen(b.subs, u.subs, Drained(u).subs, b.active, [b.channel[0]], b.channel[1..]);
        FannedToAllThen(Past(b), Past(u), Past(Drained(u)), DISPATCHER, b.channel[0], b.channel[1..], b.active);
      assert [b.channel[0]] + b.channel[1..] == b.channel;
    }
  }

  /** Whom the dispatcher has yet to offer the event it has in hand. */
  function InHand(b: Bus, k: Worker): set<nat> {
    match k
    case Took(_, _) => b.active
    case Sending(_, _, todo, _) => todo
    case _ => {}
  }

  function Event(k: Worker): seq<Ev> {
    if k.Took? || k.Sending? then [k.e] else []
  }

  lemma TurnOverServes(b: Bus)
    requires Sound(b) && !b.workers[DISPATCHER].Gone?
    ensures AllServed(b.subs, TurnOver(b).subs, InHand(b, b.workers[DISPATCHER]), Event(b.workers[DISPATCHER]))
  {
    hide Fanned, Finished, AllServed;
    match b.workers[DISPATCHER]
    case Idle(_) => AllServedNone(b.subs, {});
    case Took(_, _) => FannedServes(b, DISPATCHER);
    case Sending(_, _, _, _) => FinishedServes(b, DISPATCHER);
  }

  /** Close serves first those who have yet to be offered the event in hand, and then everyone active with what is on the
      channel; mid is what is between the two. */
  lemma ClosedServes(b: Bus) returns (mid: map<nat, Sub>)
    requires Sound(b) && !b.closed && !b.workers[DISPATCHER].Gone?
    ensures AllServed(b.subs, mid, InHand(b, b.workers[DISPATCHER]), Event(b.workers[DISPATCHER]))
    ensures AllServed(mid, Closed(b).subs, b.active, b.channel)
  {
    hide TurnOver, Drained, AllServed;
    var t := Shut(b);
    var u := TurnOver(t);
    TurnOverServes(t);
    mid := u.subs;
    DrainedServes(u.(draining := true));
  }
}
