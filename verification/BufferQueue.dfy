/** The receive buffer: a bounded channel whose Push makes room by dropping the oldest item, in three separate
    non-blocking selects between which other goroutines may act. */
module BufferQueue {
  import opened Prelude

  const DEFAULT_SIZE := 1024

  /** Where a Push stands: the first select found the channel full, or the second is done too. */
  datatype Pusher<T> = FoundFull(item: T) | MadeRoom(item: T)

  /** What left the channel, and whether a consumer got it. */
  datatype Gone<T> = Gone(item: T, popped: bool)

  /** entered, gone, completed and refused are history: everything ever put on the channel, everything that left it, the
      finished calls of Push, and those among them whose own item was dropped. drops is the counter. */
  datatype Queue<T> = Queue(
    chan: seq<T>, maxSize: nat, pushers: map<nat, Pusher<T>>, drops: nat,
    entered: seq<T>, gone: seq<Gone<T>>, completed: nat, refused: nat)

  datatype Step<T> =
    | PushNow(p: nat, item: T) | FindFull(p: nat, item: T) | Evict(p: nat) | NothingToEvict(p: nat) | Retry(p: nat) | Pop

  predicate Enabled<T>(q: Queue<T>, s: Step<T>) {
    match s
    case PushNow(p, _) => p !in q.pushers && |q.chan| < q.maxSize
    case FindFull(p, _) => p !in q.pushers && |q.chan| >= q.maxSize
    case Evict(p) => p in q.pushers && q.pushers[p].FoundFull? && q.chan != []
    case NothingToEvict(p) => p in q.pushers && q.pushers[p].FoundFull? && q.chan == []
    case Retry(p) => p in q.pushers && q.pushers[p].MadeRoom?
    case Pop => q.chan != []
  }

  function Entering<T>(q: Queue<T>, item: T): Queue<T> {
    q.(chan := q.chan + [item], entered := q.entered + [item], completed := q.completed + 1)
  }

  function Leaving<T>(q: Queue<T>, popped: bool): Queue<T>
    requires q.chan != []
  {
    q.(chan := q.chan[1..], gone := q.gone + [Gone(q.chan[0], popped)])
  }

  function Apply<T>(q: Queue<T>, s: Step<T>): Queue<T>
    requires Enabled(q, s)
  {
    match s
    case PushNow(_, item) => Entering(q, item)
    case FindFull(p, item) => q.(pushers := q.pushers[p := FoundFull(item)])
    case Evict(p) => Leaving(q, false).(drops := q.drops + 1, pushers := q.pushers[p := MadeRoom(q.pushers[p].item)])
    case NothingToEvict(p) => q.(pushers := q.pushers[p := MadeRoom(q.pushers[p].item)])
    case Retry(p) =>
      var left := q.(pushers := q.pushers - {p});
      if |q.chan| < q.maxSize then Entering(left, q.pushers[p].item)
      else left.(drops := q.drops + 1, completed := q.completed + 1, refused := q.refused + 1)
    case Pop => Leaving(q, true)
  }

  function New<T>(maxSize: int): Queue<T> {
    Queue([], if maxSize <= 0 then DEFAULT_SIZE else maxSize, map[], 0, [], [], 0, 0)
  }

  ghost predicate IsRun<T>(q: Queue<T>, steps: seq<Step<T>>)
    decreases |steps|
  {
    steps == [] || (Enabled(q, steps[0]) && IsRun(Apply(q, steps[0]), steps[1..]))
  }

  ghost function Final<T>(q: Queue<T>, steps: seq<Step<T>>): Queue<T>
    requires IsRun(q, steps)
    decreases |steps|
  {
    if steps == [] then q else Final(Apply(q, steps[0]), steps[1..])
  }

  // ---- What every interleaving keeps ----------------------------------------------------------

  /** The items that left, in the order they left. */
  function Items<T>(gone: seq<Gone<T>>, n: nat): (r: seq<T>)
    requires n <= |gone|
    ensures |r| == n
  {
    if n == 0 then [] else Items(gone, n - 1) + [gone[n - 1].item]
  }

  /** What the consumers got, in the order they got it. */
  function Pops<T>(gone: seq<Gone<T>>, n: nat): seq<T>
    requires n <= |gone|
  {
    if n == 0 then [] else AddIf(Pops(gone, n - 1), gone[n - 1].popped, gone[n - 1].item)
  }

  function Popped<T>(q: Queue<T>): seq<T> {
    Pops(q.gone, |q.gone|)
  }

  ghost predicate Inv<T>(q: Queue<T>) {
    && |q.chan| <= q.maxSize && q.maxSize > 0
    && q.entered == Items(q.gone, |q.gone|) + q.chan
    && q.completed == |q.entered| + q.refused
    && |q.gone| + q.refused == |Popped(q)| + q.drops
  }

  lemma {:induction false} GonePrefix<T>(a: seq<Gone<T>>, g: Gone<T>, n: nat)
    requires n <= |a|
    ensures Items(a + [g], n) == Items(a, n) && Pops(a + [g], n) == Pops(a, n)
  {
    if n > 0 {
      GonePrefix(a, g, n - 1);
    }
  }

  lemma LeavingKeeps<T>(q: Queue<T>, popped: bool)
    requires q.chan != []
    ensures var t := Leaving(q, popped);
      && Items(t.gone, |t.gone|) + t.chan == Items(q.gone, |q.gone|) + q.chan
      && Popped(t) == AddIf(Popped(q), popped, q.chan[0])
  {
    GonePrefix(q.gone, Gone(q.chan[0], popped), |q.gone|);
    assert q.chan == [q.chan[0]] + q.chan[1..];
  }

  lemma InvStep<T>(q: Queue<T>, s: Step<T>)
    requires Inv(q) && Enabled(q, s)
    ensures Inv(Apply(q, s))
  {
    match s
    case Evict(_) => LeavingKeeps(q, false);
    case Pop => LeavingKeeps(q, true);
    case _ =>
  }

  lemma {:induction false} InvRun<T>(q: Queue<T>, steps: seq<Step<T>>)
    requires Inv(q) && IsRun(q, steps)
    ensures Inv(Final(q, steps))
    decreases |steps|
  {
    if steps != [] {
      InvStep(q, steps[0]);
      InvRun(Apply(q, steps[0]), steps[1..]);
    }
  }

  /** However producers and consumers interleave, every finished push is accounted for: popped, still there, or counted as
      dropped. And there are never more items than the limit. */
  lemma PushesAreAccountedFor<T>(maxSize: int, steps: seq<Step<T>>)
    requires IsRun(New(maxSize), steps)
    ensures var q := Final(New(maxSize), steps);
      q.completed == |Popped(q)| + |q.chan| + q.drops && |q.chan| <= New<T>(maxSize).maxSize
  {
    InvRun(New(maxSize), steps);
    SizeStays(New(maxSize), steps);
  }

  lemma {:induction false} SizeStays<T>(q: Queue<T>, steps: seq<Step<T>>)
    requires IsRun(q, steps)
    ensures Final(q, steps).maxSize == q.maxSize
    decreases |steps|
  {
    if steps != [] {
      SizeStays(Apply(q, steps[0]), steps[1..]);
    }
  }

  lemma {:induction false} PopsPick<T>(gone: seq<Gone<T>>, n: nat) returns (picks: seq<nat>)
    requires n <= |gone|
    ensures Picks(Pops(gone, n), Items(gone, n), n, picks)
  {
    if n == 0 {
      picks := [];
    } else {
      var before := PopsPick(gone, n - 1);
      var items := Items(gone, n);
      PicksSame(Pops(gone, n - 1), Items(gone, n - 1), items, n - 1, before);
      PicksNext(Pops(gone, n - 1), items, n - 1, before);
      picks := AddIf(before, gone[n - 1].popped, n - 1);
    }
  }

  lemma PicksSame<T>(part: seq<T>, a: seq<T>, b: seq<T>, n: nat, picks: seq<nat>)
    requires |a| == n <= |b| && a == b[..n] && Picks(part, a, n, picks)
    ensures Picks(part, b, n, picks)
  {
  }

  /** Consumers get items in the order in which they entered. */
  lemma PopsInOrder<T>(maxSize: int, steps: seq<Step<T>>) returns (picks: seq<nat>)
    requires IsRun(New(maxSize), steps)
    ensures var q := Final(New(maxSize), steps); Picks(Popped(q), q.entered, |q.entered|, picks)
  {
    InvRun(New(maxSize), steps);
    var q := Final(New(maxSize), steps);
    picks := PopsPick(q.gone, |q.gone|);
    PicksSame(Popped(q), Items(q.gone, |q.gone|), q.entered, |q.gone|, picks);
  }

  // ---- One producer ---------------------------------------------------------------------------

  ghost predicate OneProducer<T>(steps: seq<Step<T>>, p: nat) {
    forall s | s in steps :: s.Pop? || s.p == p
  }

  ghost predicate Roomy<T>(q: Queue<T>, p: nat) {
    && q.maxSize > 0 && |q.chan| <= q.maxSize && q.refused == 0
    && (forall o | o in q.pushers :: o == p && (q.pushers[o].MadeRoom? ==> |q.chan| < q.maxSize))
  }

  lemma {:induction false} RoomyRun<T>(q: Queue<T>, p: nat, steps: seq<Step<T>>)
    requires Roomy(q, p) && IsRun(q, steps) && OneProducer(steps, p)
    ensures Roomy(Final(q, steps), p)
    decreases |steps|
  {
    if steps != [] {
      assert steps[0] in steps;
      RoomyRun(Apply(q, steps[0]), p, steps[1..]);
    }
  }

  /** With a single producer it is never the new item that is lost: every finished push entered the channel, and the drop
      counter counts evicted items only. */
  lemma NewestIsKept<T>(maxSize: int, p: nat, steps: seq<Step<T>>)
    requires IsRun(New(maxSize), steps) && OneProducer(steps, p)
    ensures var q := Final(New(maxSize), steps); q.refused == 0 && q.completed == |q.entered|
  {
    InvRun(New(maxSize), steps);
    RoomyRun(New(maxSize), p, steps);
  }

  // ---- Several producers ----------------------------------------------------------------------

  lemma OneStepThen<T>(q: Queue<T>, s: Step<T>, rest: seq<Step<T>>)
    requires Enabled(q, s) && IsRun(Apply(q, s), rest)
    ensures IsRun(q, [s] + rest) && Final(q, [s] + rest) == Final(Apply(q, s), rest)
  {
    assert ([s] + rest)[1..] == rest;
  }

  /** From any full channel the second producer takes the room that the first one made. */
  lemma RoomIsTaken<T>(q: Queue<T>, p: nat, o: nat, item: T) returns (steps: seq<Step<T>>)
    requires 0 < q.maxSize == |q.chan| && p != o && p !in q.pushers && o !in q.pushers
    ensures IsRun(q, steps) && Final(q, steps).refused == q.refused + 1
    ensures forall s | s in steps :: !s.Pop? && s.p in {p, o}
  {
    var q1 := Apply(q, FindFull(p, item));
    var q2 := Apply(q1, Evict(p));
    var q3 := Apply(q2, PushNow(o, item));
    var end: seq<Step<T>> := [];
    OneStepThen(q3, Retry(p), end);
    OneStepThen(q2, PushNow(o, item), [Retry(p)] + end);
    OneStepThen(q1, Evict(p), [PushNow(o, item)] + ([Retry(p)] + end));
    OneStepThen(q, FindFull(p, item), [Evict(p)] + ([PushNow(o, item)] + ([Retry(p)] + end)));
    steps := [FindFull(p, item)] + ([Evict(p)] + ([PushNow(o, item)] + ([Retry(p)] + end)));
  }

  /** Whatever the size, two producers can fill the channel and then lose an item at its own push. */
  lemma {:induction false} NewestCanBeLost<T>(q: Queue<T>, p: nat, o: nat, item: T) returns (steps: seq<Step<T>>)
    requires 0 < q.maxSize && |q.chan| <= q.maxSize && p != o && p !in q.pushers && o !in q.pushers
    ensures IsRun(q, steps) && Final(q, steps).refused == q.refused + 1
    ensures forall s | s in steps :: !s.Pop? && s.p in {p, o}
    decreases q.maxSize - |q.chan|
  {
    if |q.chan| == q.maxSize {
      steps := RoomIsTaken(q, p, o, item);
    } else {
      var rest := NewestCanBeLost(Apply(q, PushNow(p, item)), p, o, item);
      OneStepThen(q, PushNow(p, item), rest);
      steps := [PushNow(p, item)] + rest;
    }
  }

  ghost predicate Among<T>(steps: seq<Step<T>>, producers: set<nat>) {
    forall s | s in steps :: s.Pop? || s.p in producers
  }

  /** In no run of these producers, with any consumers, does a push lose its own item. */
  ghost predicate NeverLost<T(!new)>(maxSize: int, producers: set<nat>) {
    forall steps: seq<Step<T>> | IsRun(New(maxSize), steps) && Among(steps, producers) ::
      Final(New(maxSize), steps).refused == 0
  }

  /** For every size of the channel: no push of these producers ever loses its own item if and only if there is at most one
      of them. */
  lemma NeverLostIff<T(!new)>(maxSize: int, producers: set<nat>, item: T)
    ensures NeverLost<T>(maxSize, producers) <==> |producers| <= 1
  {
    if |producers| <= 1 {
      var p := OnlyOne(producers);
      forall steps: seq<Step<T>> | IsRun(New(maxSize), steps) && Among(steps, producers)
        ensures Final(New(maxSize), steps).refused == 0
      {
        assert OneProducer(steps, p);
        NewestIsKept(maxSize, p, steps);
      }
    } else {
      var p, o := TwoOf(producers);
      var steps := NewestCanBeLost(New(maxSize), p, o, item);
      assert Among(steps, producers);
    }
  }

  lemma OnlyOne(producers: set<nat>) returns (p: nat)
    requires |producers| <= 1
    ensures forall o | o in producers :: o == p
  {
    p := 0;
    if producers != {} {
      p :| p in producers;
      assert |producers - {p}| == 0;
    }
  }

  lemma TwoOf(producers: set<nat>) returns (p: nat, o: nat)
    requires |producers| > 1
    ensures p in producers && o in producers && p != o
  {
    p :| p in producers;
    assert |producers - {p}| > 0;
    o :| o in producers - {p};
  }

  predicate Enters<T>(q: Queue<T>, s: Step<T>) {
    s.PushNow? || (s.Retry? && |q.chan| < q.maxSize)
  }

  /** The producers whose items entered during a run. */
  ghost function Entrants<T>(q: Queue<T>, steps: seq<Step<T>>): seq<nat>
    requires IsRun(q, steps)
    decreases |steps|
  {
    if steps == [] then []
    else
      var rest := Entrants(Apply(q, steps[0]), steps[1..]);
      if Enters(q, steps[0]) then [steps[0].p] + rest else rest
  }

  function Departures<T>(steps: seq<Step<T>>): nat {
    if steps == [] then 0 else (if steps[0].Pop? || steps[0].Evict? then 1 else 0) + Departures(steps[1..])
  }

  lemma {:induction false} RoomAfter<T>(q: Queue<T>, steps: seq<Step<T>>)
    requires IsRun(q, steps)
    ensures |Final(q, steps).chan| == |q.chan| + |Entrants(q, steps)| - Departures(steps)
    decreases |steps|
  {
    if steps != [] {
      RoomAfter(Apply(q, steps[0]), steps[1..]);
    }
  }

  lemma {:induction false} EntrantsAreActive<T>(q: Queue<T>, steps: seq<Step<T>>, p: nat)
    requires IsRun(q, steps) && forall s | s in steps :: s.Pop? || s.p != p
    ensures p !in Entrants(q, steps)
    decreases |steps|
  {
    if steps != [] {
      assert steps[0] in steps && forall s | s in steps[1..] :: s in steps;
      EntrantsAreActive(Apply(q, steps[0]), steps[1..], p);
    }
  }

  /** Who must act for a push to lose its own item: between the select that made room and the retry, items of other
      producers enter, one more for each item that leaves meanwhile, until the room is used up. */
  lemma RetryRefusedIff<T>(q: Queue<T>, p: nat, steps: seq<Step<T>>)
    requires Inv(q) && Enabled(q, Retry(p)) && IsRun(q, steps) && forall s | s in steps :: s.Pop? || s.p != p
    ensures Enabled(Final(q, steps), Retry(p)) && p !in Entrants(q, steps)
    ensures Apply(Final(q, steps), Retry(p)).refused == Final(q, steps).refused + 1
      <==> |Entrants(q, steps)| == q.maxSize - |q.chan| + Departures(steps)
  {
    InvRun(q, steps);
    SizeStays(q, steps);
    RoomAfter(q, steps);
    EntrantsAreActive(q, steps, p);
    StillWaiting(q, p, steps);
  }

  lemma {:induction false} StillWaiting<T>(q: Queue<T>, p: nat, steps: seq<Step<T>>)
    requires Enabled(q, Retry(p)) && IsRun(q, steps) && forall s | s in steps :: s.Pop? || s.p != p
    ensures Enabled(Final(q, steps), Retry(p))
    decreases |steps|
  {
    if steps != [] {
      assert steps[0] in steps && forall s | s in steps[1..] :: s in steps;
      StillWaiting(Apply(q, steps[0]), p, steps[1..]);
    }
  }

  /** Right after a push has made room there is some, so at least one other producer is needed. */
  lemma LossNeedsAnother<T>(q: Queue<T>, p: nat, s: Step<T>, steps: seq<Step<T>>)
    requires Inv(q) && (s == Evict(p) || s == NothingToEvict(p)) && Enabled(q, s)
    requires IsRun(Apply(q, s), steps) && forall x | x in steps :: x.Pop? || x.p != p
    requires var t := Final(Apply(q, s), steps); Enabled(t, Retry(p)) && Apply(t, Retry(p)).refused == t.refused + 1
    ensures exists o :: o in Entrants(Apply(q, s), steps) && o != p
  {
    InvStep(q, s);
    RetryRefusedIff(Apply(q, s), p, steps);
    assert |Entrants(Apply(q, s), steps)| > 0;
    assert Entrants(Apply(q, s), steps)[0] in Entrants(Apply(q, s), steps);
  }

  // ---- The queue ------------------------------------------------------------------------------

  class BufferQueue<T> {
    const maxSize: nat
    var chan: seq<T>
    var drops: nat
    ghost var pushers: map<nat, Pusher<T>>
    ghost var entered: seq<T>
    ghost var gone: seq<Gone<T>>
    ghost var completed: nat
    ghost var refused: nat

    ghost function State(): Queue<T>
      reads this
    {
      Queue(chan, maxSize, pushers, drops, entered, gone, completed, refused)
    }

    constructor (size: int)
      ensures State() == New(size)
      ensures chan == [] && drops == 0 && maxSize == if size > 0 then size else 1024
    {
      maxSize := if size <= 0 then DEFAULT_SIZE else size;
      chan, drops, pushers, entered, gone, completed, refused := [], 0, map[], [], [], 0, 0;
    }

    method First(ghost p: nat, item: T) returns (done: bool)
      requires p !in pushers
      modifies this
      ensures done == Enabled(old(State()), PushNow(p, item))
      ensures State() == Apply(old(State()), if done then PushNow(p, item) else FindFull(p, item))
      ensures done <==> |old(chan)| < maxSize
      ensures drops == old(drops) && chan == if done then old(chan) + [item] else old(chan)
    {
      done := |chan| < maxSize;
      if done {
        Enter(item);
      } else {
        pushers := pushers[p := FoundFull(item)];
      }
    }

    method Enter(item: T)
      modifies this`chan, this`entered, this`completed
      ensures State() == Entering(old(State()), item)
    {
      chan := chan + [item];
      entered := entered + [item];
      completed := completed + 1;
    }

    method Second(ghost p: nat)
      requires p in pushers && pushers[p].FoundFull?
      modifies this
      ensures State() == Apply(old(State()), if old(chan) == [] then NothingToEvict(p) else Evict(p))
      ensures old(chan) == [] ==> chan == [] && drops == old(drops)
      ensures old(chan) != [] ==> chan == old(chan)[1..] && drops == old(drops) + 1
    {
      if |chan| > 0 {
        gone := gone + [Gone(chan[0], false)];
        chan := chan[1..];
        drops := drops + 1;
      }
      pushers := pushers[p := MadeRoom(pushers[p].item)];
    }

    method Third(ghost p: nat, item: T)
      requires p in pushers && pushers[p] == MadeRoom(item)
      modifies this
      ensures State() == Apply(old(State()), Retry(p))
      ensures |old(chan)| < maxSize ==> chan == old(chan) + [item] && drops == old(drops)
      ensures |old(chan)| >= maxSize ==> chan == old(chan) && drops == old(drops) + 1
    {
      pushers := pushers - {p};
      if |chan| < maxSize {
        Enter(item);
      } else {
        drops := drops + 1;
        completed := completed + 1;
        refused := refused + 1;
      }
    }

    /** A push that nobody interferes with: the item is last, and the oldest went if there was no room. */
    method Push(ghost p: nat, item: T)
      requires p !in pushers && 0 < maxSize && |chan| <= maxSize
      modifies this
      ensures chan == (if |old(chan)| < maxSize then old(chan) else old(chan)[1..]) + [item] && |chan| <= maxSize
      ensures drops == old(drops) + (if |old(chan)| < maxSize then 0 else 1)
      ensures pushers == old(pushers) && refused == old(refused)
    {
      var done := First(p, item);
      if !done {
        Second(p);
        Third(p, item);
      }
      assert pushers == old(pushers);
    }

    method TryPop() returns (item: Option<T>)
      modifies this
      ensures item == if old(chan) == [] then None else Some(old(chan)[0])
      ensures State() == if old(chan) == [] then old(State()) else Apply(old(State()), Pop)
      ensures drops == old(drops) && chan == if old(chan) == [] then [] else old(chan)[1..]
    {
      if |chan| == 0 {
        return None;
      }
      item := Some(chan[0]);
      gone := gone + [Gone(chan[0], true)];
      chan := chan[1..];
    }
  }
}
