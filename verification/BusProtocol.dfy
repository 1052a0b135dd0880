/**
 The in-process event bus as a state machine: publishers, the dispatcher, replays and subscribers may interleave at
 every point where the source gives up control. A worker is a goroutine running a fan-out: the dispatcher, number 0,
 or a caller of Replay.
*/
module BusProtocol {
  import opened Prelude

  datatype Ev = Ev(id: string, kind: string)

  /** types is empty for a subscriber to everything. buf is its channel; stream and lost are history: all events ever put
      on the channel, and how many were dropped because it was full. */
  datatype Sub = Sub(types: set<string>, cap: nat, buf: seq<Ev>, stream: seq<Ev>, lost: nat) {
    predicate Matches(e: Ev) {
      types == {} || e.kind in types
    }
  }

  datatype Publisher = Checked(e: Ev) | Appended(e: Ev)

  /** todo: those of the snapshot that have yet to be offered the event; fan: which fan-out this is. */
  datatype Worker =
    | Idle(rest: seq<Ev>) | Took(e: Ev, rest: seq<Ev>) | Sending(e: Ev, rest: seq<Ev>, todo: set<nat>, fan: nat) | Gone

  /** A fan-out that was begun: by whom, of what, and the snapshot of who was subscribed. */
  datatype Fan = Fan(worker: nat, e: Ev, who: set<nat>)

  const DISPATCHER := 0
  const PUBLISH_BUFFER := 1024
  const DEFAULT_SUBSCRIBE_BUFFER := 256

  /** entered, dispatched, fans and offered are history: what was ever put on the publish channel, what the dispatcher took,
      every snapshot ever made, and to whom each fan-out has offered its event. */
  datatype Bus = Bus(
    stored: seq<Ev>, channel: seq<Ev>, entered: seq<Ev>, dispatched: seq<Ev>, fans: seq<Fan>, offered: map<nat, set<nat>>,
    publishers: map<nat, Publisher>, workers: map<nat, Worker>,
    subs: map<nat, Sub>, active: set<nat>, nextId: nat, dropped: nat,
    done: bool, draining: bool, closed: bool, enteredAtClose: nat, replayed: bool)

  const FRESH := Bus([], [], [], [], [], map[], map[], map[DISPATCHER := Idle([])], map[], {}, 0, 0, false, false, false, 0, false)

  datatype Step =
    // Publish: look at done; validate and persist; put on the channel, or find the bus closed
    | Check(p: nat, e: Ev) | Persist(p: nat) | Reject(p: nat) | Enter(p: nat) | Abort(p: nat)
    | Subscribe(types: set<string>, bufferSize: int) | Unsubscribe(id: nat) | Receive(id: nat)
    // Replay queries the store and then fans out one event after the other
    | BeginReplay(w: nat, events: seq<Ev>) | TakeReplay(w: nat) | EndReplay(w: nat)
    | TakeChannel | SeeDone | Exit
    | Snapshot(w: nat) | Offer(w: nat, id: nat) | Finish(w: nat)
    | CloseDone | CloseReturns

  predicate Is(b: Bus, w: nat, worker: Worker) {
    w in b.workers && b.workers[w] == worker
  }

  predicate Enabled(b: Bus, s: Step) {
    match s
    case Check(p, _) => p !in b.publishers && !b.done
    case Persist(p) => p in b.publishers && b.publishers[p].Checked?
    case Reject(p) => p in b.publishers && b.publishers[p].Checked?
    case Enter(p) => p in b.publishers && b.publishers[p].Appended? && |b.channel| < PUBLISH_BUFFER
    case Abort(p) => p in b.publishers && b.publishers[p].Appended? && b.done
    case Subscribe(_, _) => true
    case Unsubscribe(id) => id in b.subs
    case Receive(id) => id in b.subs && b.subs[id].buf != []
    case BeginReplay(w, events) => w !in b.workers && forall e | e in events :: e in b.stored
    case TakeReplay(w) => w != DISPATCHER && w in b.workers && b.workers[w].Idle? && b.workers[w].rest != []
    case EndReplay(w) => w != DISPATCHER && Is(b, w, Idle([]))
    case TakeChannel => Is(b, DISPATCHER, Idle([])) && b.channel != []
    case SeeDone => Is(b, DISPATCHER, Idle([])) && b.done
    case Exit => Is(b, DISPATCHER, Idle([])) && b.draining && b.channel == []
    case Snapshot(w) => w in b.workers && b.workers[w].Took?
    case Offer(w, id) => w in b.workers && b.workers[w].Sending? && id in b.workers[w].todo && id in b.subs
    case Finish(w) => w in b.workers && b.workers[w].Sending? && b.workers[w].todo == {}
    case CloseDone => !b.done
    case CloseReturns => b.done && !b.closed && Is(b, DISPATCHER, Gone)
  }

  /** A non-blocking send: delivered when the channel has room, otherwise dropped. */
  function Offered(sub: Sub, e: Ev): Sub {
    if !sub.Matches(e) then sub
    else if |sub.buf| < sub.cap then sub.(buf := sub.buf + [e], stream := sub.stream + [e])
    else sub.(lost := sub.lost + 1)
  }

  function OfferedBy(offered: map<nat, set<nat>>, fan: nat): set<nat> {
    if fan in offered then offered[fan] else {}
  }

  function Apply(b: Bus, s: Step): Bus
    requires Enabled(b, s)
  {
    match s
    case Check(p, e) => b.(publishers := b.publishers[p := Checked(e)])
    case Persist(p) =>
      var e := b.publishers[p].e;
      b.(stored := b.stored + [e], publishers := b.publishers[p := Appended(e)])
    case Reject(p) => b.(publishers := b.publishers - {p})
    case Enter(p) =>
      var e := b.publishers[p].e;
      b.(channel := b.channel + [e], entered := b.entered + [e], publishers := b.publishers - {p})
    case Abort(p) => b.(publishers := b.publishers - {p})
    case Subscribe(types, size) =>
      var cap := if size <= 0 then DEFAULT_SUBSCRIBE_BUFFER else size;
      b.(subs := b.subs[b.nextId := Sub(types, cap, [], [], 0)], active := b.active + {b.nextId}, nextId := b.nextId + 1)
    case Unsubscribe(id) => b.(active := b.active - {id})
    case Receive(id) => b.(subs := b.subs[id := b.subs[id].(buf := b.subs[id].buf[1..])])
    case BeginReplay(w, events) => b.(workers := b.workers[w := Idle(events)], replayed := true)
    case TakeReplay(w) => b.(workers := b.workers[w := Took(b.workers[w].rest[0], b.workers[w].rest[1..])])
    case EndReplay(w) => b.(workers := b.workers - {w})
    case TakeChannel =>
      b.(workers := b.workers[DISPATCHER := Took(b.channel[0], [])], channel := b.channel[1..],
         dispatched := b.dispatched + [b.channel[0]])
    case SeeDone => b.(draining := true)
    case Exit => b.(workers := b.workers[DISPATCHER := Gone])
    case Snapshot(w) =>
      var k := b.workers[w];
      b.(workers := b.workers[w := Sending(k.e, k.rest, b.active, |b.fans|)],
         fans := b.fans + [Fan(w, k.e, b.active)], offered := b.offered[|b.fans| := {}])
    case Offer(w, id) =>
      var k := b.workers[w];
      var next := Offered(b.subs[id], k.e);
      b.(workers := b.workers[w := k.(todo := k.todo - {id})], subs := b.subs[id := next],
         offered := b.offered[k.fan := OfferedBy(b.offered, k.fan) + {id}],
         dropped := b.dropped + (next.lost - b.subs[id].lost))
    case Finish(w) => b.(workers := b.workers[w := Idle(b.workers[w].rest)])
    case CloseDone => b.(done := true, enteredAtClose := |b.entered|)
    case CloseReturns => b.(closed := true)
  }

  ghost predicate IsRun(b: Bus, steps: seq<Step>)
    decreases |steps|
  {
    steps == [] || (Enabled(b, steps[0]) && IsRun(Apply(b, steps[0]), steps[1..]))
  }

  ghost function Final(b: Bus, steps: seq<Step>): Bus
    requires IsRun(b, steps)
    decreases |steps|
  {
    if steps == [] then b else Final(Apply(b, steps[0]), steps[1..])
  }

  ghost predicate Reachable(b: Bus) {
    exists steps :: IsRun(FRESH, steps) && Final(FRESH, steps) == b
  }

  // ---- Subsequences ---------------------------------------------------------------------------

  predicate Subsequence<T(==)>(a: seq<T>, b: seq<T>) {
    a == [] || (b != [] && ((a[|a| - 1] == b[|b| - 1] && Subsequence(a[..|a| - 1], b[..|b| - 1])) || Subsequence(a, b[..|b| - 1])))
  }

  lemma SubsequenceLonger<T>(a: seq<T>, b: seq<T>, x: T)
    requires Subsequence(a, b)
    ensures Subsequence(a, b + [x]) && Subsequence(a + [x], b + [x])
  {
    assert (b + [x])[..|b|] == b && (a + [x])[..|a|] == a;
  }

  /** The events of a log a subscriber of these types is interested in. */
  function Wanted(sub: Sub, log: seq<Ev>): seq<Ev> {
    if log == [] then []
    else AddIf(Wanted(sub, log[..|log| - 1]), sub.Matches(log[|log| - 1]), log[|log| - 1])
  }

  ghost function OfItsTypes(sub: Sub, log: seq<Ev>): nat -> bool {
    (k: nat) => k < |log| && (sub.types == {} || log[k].kind in sub.types)
  }

  /** They stand, in order, at exactly the places with an event of its types, or at all if it names no types. */
  lemma {:induction false} WantedAt(sub: Sub, log: seq<Ev>, n: nat) returns (picks: seq<nat>)
    requires n <= |log|
    ensures PicksExactly(Wanted(sub, log[..n]), log, n, picks, OfItsTypes(sub, log))
  {
    hide PicksExactly;
    if n == 0 {
      picks := [];
      PicksNone(log, OfItsTypes(sub, log));
    } else {
      var before := WantedAt(sub, log, n - 1);
      assert log[..n] == log[..n - 1] + [log[n - 1]];
      WantedAppend(sub, log[..n - 1], log[n - 1]);
      PicksExactlyNext(Wanted(sub, log[..n - 1]), log, n - 1, before, OfItsTypes(sub, log));
      picks := AddIf(before, OfItsTypes(sub, log)(n - 1), n - 1);
    }
  }

  lemma WantedAppend(sub: Sub, log: seq<Ev>, e: Ev)
    ensures Wanted(sub, log + [e]) == AddIf(Wanted(sub, log), sub.Matches(e), e)
  {
    assert (log + [e])[..|log|] == log;
  }

  lemma {:induction false} WantedSame(a: Sub, b: Sub, log: seq<Ev>)
    requires a.types == b.types
    ensures Wanted(a, log) == Wanted(b, log)
    decreases |log|
  {
    if log != [] {
      WantedSame(a, b, log[..|log| - 1]);
    }
  }

  // ---- What was fanned out --------------------------------------------------------------------

  /** The events a worker has begun to fan out. */
  function FannedBy(fans: seq<Fan>, w: nat): seq<Ev> {
    if fans == [] then []
    else AddIf(FannedBy(fans[..|fans| - 1], w), fans[|fans| - 1].worker == w, fans[|fans| - 1].e)
  }

  /** Which fan-outs those are. */
  function FansOf(fans: seq<Fan>, w: nat): seq<nat> {
    if fans == [] then [] else AddIf(FansOf(fans[..|fans| - 1], w), fans[|fans| - 1].worker == w, |fans| - 1)
  }

  predicate Concerns(f: Fan, sub: Sub, id: nat) {
    id in f.who && sub.Matches(f.e)
  }

  /** In how many snapshots of an event it wants a subscriber is: how many events it is due. */
  function Due(fans: seq<Fan>, sub: Sub, id: nat): nat {
    if fans == [] then 0
    else Due(fans[..|fans| - 1], sub, id) + if Concerns(fans[|fans| - 1], sub, id) then 1 else 0
  }

  lemma FansAppend(fans: seq<Fan>, f: Fan)
    ensures forall w :: FannedBy(fans + [f], w) == AddIf(FannedBy(fans, w), f.worker == w, f.e)
    ensures forall sub, id :: Due(fans + [f], sub, id) == Due(fans, sub, id) + if Concerns(f, sub, id) then 1 else 0
  {
    assert (fans + [f])[..|fans|] == fans;
  }

  lemma {:induction false} DueSame(fans: seq<Fan>, a: Sub, b: Sub, id: nat)
    requires a.types == b.types
    ensures Due(fans, a, id) == Due(fans, b, id)
  {
    if fans != [] {
      DueSame(fans[..|fans| - 1], a, b, id);
    }
  }

  lemma {:induction false} NoneDue(fans: seq<Fan>, sub: Sub, id: nat)
    requires forall f | f in fans :: id !in f.who
    ensures Due(fans, sub, id) == 0
  {
    if fans != [] {
      NoneDue(fans[..|fans| - 1], sub, id);
    }
  }

  lemma {:induction false} FansOfPlaces(fans: seq<Fan>, w: nat)
    ensures |FansOf(fans, w)| == |FannedBy(fans, w)|
    ensures forall i :: 0 <= i < |FansOf(fans, w)| ==> FansOf(fans, w)[i] < |fans|
    ensures forall i :: 0 <= i < |FansOf(fans, w)| ==>
      fans[FansOf(fans, w)[i]].worker == w && fans[FansOf(fans, w)[i]].e == FannedBy(fans, w)[i]
    ensures forall i, j :: 0 <= i < j < |FansOf(fans, w)| ==> FansOf(fans, w)[i] < FansOf(fans, w)[j]
  {
    if fans != [] {
      FansOfPlaces(fans[..|fans| - 1], w);
    }
  }
}
