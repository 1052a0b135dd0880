/** The usage collector: recording, flushing in the background and by hand, and what the totals say in between. */
module UsageCollector {
  import opened Prelude
  import opened UsageTotals

  const DEFAULT_BUCKET_INTERVAL := 60 * 1000000000
  const DEFAULT_QUEUE_CAPACITY := 10000

  datatype Flusher = Collecting(records: seq<Record>) | Saving(records: seq<Record>)

  /** calls, drained, accepted, stored and lost are history: non-cancelled calls of Record, records taken off the queue,
      and the records that were queued, made it into the table, and were in a batch that failed. */
  datatype Collector = Collector(
    queue: seq<Record>, capacity: nat, flushers: map<nat, Flusher>, rows: seq<Bucket>, dropped: nat, flushed: nat,
    calls: nat, drained: nat, accepted: multiset<Record>, stored: multiset<Record>, lost: multiset<Record>)

  datatype Step =
    | Offer(r: Record) | Begin(f: nat) | Take(f: nat) | Emptied(f: nat) | Leave(f: nat)
    | Save(f: nat, buckets: seq<Bucket>) | Lose(f: nat)

  ghost predicate Enabled(c: Collector, interval: int, s: Step)
    requires interval > 0
  {
    match s
    case Offer(_) => true
    case Begin(f) => f !in c.flushers
    case Take(f) => f in c.flushers && c.flushers[f].Collecting? && c.queue != []
    case Emptied(f) => f in c.flushers && c.flushers[f].Collecting? && c.queue == []
    case Leave(f) => f in c.flushers && c.flushers[f] == Saving([])
    case Save(f, buckets) =>
      f in c.flushers && c.flushers[f].Saving? && c.flushers[f].records != []
      && Carries(buckets, multiset(c.flushers[f].records), interval)
    case Lose(f) => f in c.flushers && c.flushers[f].Saving? && c.flushers[f].records != []
  }

  function Apply(c: Collector, s: Step): Collector
    requires s.Take? || s.Emptied? || s.Save? || s.Lose? ==> s.f in c.flushers
    requires s.Take? ==> c.queue != []
  {
    match s
    case Offer(r) =>
      if |c.queue| < c.capacity then
        c.(queue := c.queue + [r], calls := c.calls + 1, accepted := c.accepted + multiset{r})
      else c.(dropped := c.dropped + 1, calls := c.calls + 1)
    case Begin(f) => c.(flushers := c.flushers[f := Collecting([])])
    case Take(f) =>
      c.(queue := c.queue[1..], drained := c.drained + 1,
         flushers := c.flushers[f := Collecting(c.flushers[f].records + [c.queue[0]])])
    case Emptied(f) => c.(flushers := c.flushers[f := Saving(c.flushers[f].records)])
    case Leave(f) => c.(flushers := c.flushers - {f})
    case Save(f, buckets) =>
      c.(rows := c.rows + buckets, flushed := c.flushed + |buckets|, flushers := c.flushers - {f},
         stored := c.stored + multiset(c.flushers[f].records))
    case Lose(f) => c.(flushers := c.flushers - {f}, lost := c.lost + multiset(c.flushers[f].records))
  }

  // ---- What the flushers hold -----------------------------------------------------------------

  ghost function Held(fs: map<nat, Flusher>): multiset<Record>
    decreases |fs.Keys|
  {
    if fs.Keys == {} then multiset{}
    else
      var f :| f in fs.Keys;
      multiset(fs[f].records) + Held(fs - {f})
  }

  lemma {:induction false} HeldWithout(fs: map<nat, Flusher>, f: nat)
    requires f in fs
    ensures Held(fs) == multiset(fs[f].records) + Held(fs - {f})
    decreases |fs.Keys|
  {
    var g :| g in fs.Keys && Held(fs) == multiset(fs[g].records) + Held(fs - {g});
    if g != f {
      HeldWithout(fs - {g}, f);
      HeldWithout(fs - {f}, g);
      MinusTwo(fs, g, f);
      SwapUnion(Held(fs), multiset(fs[g].records), multiset(fs[f].records), Held(fs - {g}), Held(fs - {f}), Held(fs - {g} - {f}));
    }
  }

  lemma SwapUnion(all: multiset<Record>, a: multiset<Record>, b: multiset<Record>,
                  withoutA: multiset<Record>, withoutB: multiset<Record>, rest: multiset<Record>)
    requires all == a + withoutA && withoutA == b + rest && withoutB == a + rest
    ensures all == b + withoutB
  {
  }

  lemma HeldWith(fs: map<nat, Flusher>, f: nat, k: Flusher)
    ensures Held(fs[f := k]) == multiset(k.records) + Held(fs - {f})
  {
    HeldWithout(fs[f := k], f);
    assert fs[f := k] - {f} == fs - {f};
  }

  lemma HeldNew(fs: map<nat, Flusher>, f: nat)
    requires f !in fs
    ensures Held(fs[f := Collecting([])]) == Held(fs)
  {
    HeldWith(fs, f, Collecting([]));
    assert fs - {f} == fs;
  }

  // ---- What every interleaving keeps ----------------------------------------------------------

  ghost predicate Balanced(queue: seq<Record>, held: multiset<Record>, c: Collector) {
    c.accepted == multiset(queue) + held + c.stored + c.lost
  }

  ghost predicate Inv(c: Collector, interval: int)
    requires interval > 0
  {
    && Balanced(c.queue, Held(c.flushers), c)
    && Carries(c.rows, c.stored, interval)
    && c.calls == c.dropped + |c.queue| + c.drained
    && |c.queue| <= c.capacity
  }

  lemma CarriesMore(rows: seq<Bucket>, stored: multiset<Record>, buckets: seq<Bucket>, batch: multiset<Record>, interval: int)
    requires interval > 0 && Carries(rows, stored, interval) && Carries(buckets, batch, interval)
    ensures Carries(rows + buckets, stored + batch, interval)
  {
    forall want: iset<Slot> ensures Stored(rows + buckets, want) == Total(stored + batch, interval, want) {
      StoredConcat(rows, buckets, want);
      TotalUnion(stored, batch, interval, want);
    }
  }

  lemma TakeKeeps(c: Collector, interval: int, f: nat)
    requires interval > 0 && Inv(c, interval) && Enabled(c, interval, Take(f))
    ensures Inv(Apply(c, Take(f)), interval)
  {
    var records, first := c.flushers[f].records, c.queue[0];
    HeldWithout(c.flushers, f);
    HeldWith(c.flushers, f, Collecting(records + [first]));
    MovesOver(c.queue, records, Held(c.flushers - {f}), c.stored, c.lost);
    assert Balanced(c.queue[1..], multiset(records + [first]) + Held(c.flushers - {f}), c);
  }

  /** The head of the queue moves to the end of what a flusher has. */
  lemma MovesOver(from: seq<Record>, to: seq<Record>, held: multiset<Record>, stored: multiset<Record>, lost: multiset<Record>)
    requires from != []
    ensures multiset(from) + (multiset(to) + held) + stored + lost
         == multiset(from[1..]) + (multiset(to + [from[0]]) + held) + stored + lost
  {
    assert from == [from[0]] + from[1..];
  }

  lemma EndKeeps(c: Collector, interval: int, s: Step)
    requires interval > 0 && Inv(c, interval) && Enabled(c, interval, s) && (s.Save? || s.Lose? || s.Leave?)
    ensures Inv(Apply(c, s), interval)
  {
    HeldWithout(c.flushers, s.f);
    if s.Save? {
      CarriesMore(c.rows, c.stored, s.buckets, multiset(c.flushers[s.f].records), interval);
    }
  }

  lemma InvStep(c: Collector, interval: int, s: Step)
    requires interval > 0 && Inv(c, interval) && Enabled(c, interval, s)
    ensures Inv(Apply(c, s), interval)
  {
    match s
    case Offer(r) => assert multiset(c.queue + [r]) == multiset(c.queue) + multiset{r};
    case Begin(f) => HeldNew(c.flushers, f);
    case Take(f) => TakeKeeps(c, interval, f);
    case Emptied(f) =>
      HeldWithout(c.flushers, f);
      HeldWith(c.flushers, f, Saving(c.flushers[f].records));
    case _ => EndKeeps(c, interval, s);
  }

  function Fresh(capacity: nat): Collector {
    Collector([], capacity, map[], [], 0, 0, 0, 0, multiset{}, multiset{}, multiset{})
  }

  ghost predicate IsRun(c: Collector, interval: int, steps: seq<Step>)
    requires interval > 0
    decreases |steps|
  {
    steps == [] || (Enabled(c, interval, steps[0]) && IsRun(Apply(c, steps[0]), interval, steps[1..]))
  }

  ghost function Final(c: Collector, interval: int, steps: seq<Step>): Collector
    requires interval > 0 && IsRun(c, interval, steps)
    decreases |steps|
  {
    if steps == [] then c else Final(Apply(c, steps[0]), interval, steps[1..])
  }

  lemma {:induction false} InvRun(c: Collector, interval: int, steps: seq<Step>)
    requires interval > 0 && Inv(c, interval) && IsRun(c, interval, steps)
    ensures Inv(Final(c, interval, steps), interval)
    decreases |steps|
  {
    if steps != [] {
      InvStep(c, interval, steps[0]);
      InvRun(Apply(c, steps[0]), interval, steps[1..]);
    }
  }

  lemma FromFresh(capacity: nat, interval: int, steps: seq<Step>)
    requires interval > 0 && IsRun(Fresh(capacity), interval, steps)
    ensures Inv(Final(Fresh(capacity), interval, steps), interval)
  {
    assert Inv(Fresh(capacity), interval);
    InvRun(Fresh(capacity), interval, steps);
  }

  /** For any flush timing, any interleaving and any bucket interval: what the table says about any set of buckets is what
      the accepted records say, short of those still queued, those a flusher is holding, and those of failed batches. */
  lemma TotalsAgree(capacity: nat, interval: int, steps: seq<Step>, want: iset<Slot>)
    requires interval > 0 && IsRun(Fresh(capacity), interval, steps)
    ensures var c := Final(Fresh(capacity), interval, steps);
      Total(c.accepted, interval, want) == Stored(c.rows, want) + Total(multiset(c.queue), interval, want)
                                         + Total(Held(c.flushers), interval, want) + Total(c.lost, interval, want)
  {
    FromFresh(capacity, interval, steps);
    var c := Final(Fresh(capacity), interval, steps);
    TotalUnion(multiset(c.queue), Held(c.flushers), interval, want);
    TotalUnion(multiset(c.queue) + Held(c.flushers), c.stored, interval, want);
    TotalUnion(multiset(c.queue) + Held(c.flushers) + c.stored, c.lost, interval, want);
  }

  /** Every call is accounted for. */
  lemma CallsAreCounted(capacity: nat, interval: int, steps: seq<Step>)
    requires interval > 0 && IsRun(Fresh(capacity), interval, steps)
    ensures var c := Final(Fresh(capacity), interval, steps);
      c.calls == c.dropped + |c.queue| + c.drained && |c.accepted| == |c.queue| + c.drained && |c.queue| <= c.capacity
  {
    FromFresh(capacity, interval, steps);
    AcceptedRun(Fresh(capacity), interval, steps);
  }

  lemma {:induction false} AcceptedRun(c: Collector, interval: int, steps: seq<Step>)
    requires interval > 0 && IsRun(c, interval, steps) && |c.accepted| == |c.queue| + c.drained
    ensures var t := Final(c, interval, steps); |t.accepted| == |t.queue| + t.drained
    decreases |steps|
  {
    if steps != [] {
      AcceptedRun(Apply(c, steps[0]), interval, steps[1..]);
    }
  }

  lemma NothingCarries(interval: int)
    requires interval > 0
    ensures Carries([], multiset{}, interval)
  {
  }

  /** In a run in which no batch is lost, nothing is: what was accepted is in the table, in the queue, or with a flusher. */
  lemma {:induction false} NothingLostWithoutLoss(c: Collector, interval: int, steps: seq<Step>)
    requires interval > 0 && IsRun(c, interval, steps) && forall s | s in steps :: !s.Lose?
    ensures Final(c, interval, steps).lost == c.lost
    decreases |steps|
  {
    if steps != [] {
      assert steps[0] in steps && forall s | s in steps[1..] :: s in steps;
      NothingLostWithoutLoss(Apply(c, steps[0]), interval, steps[1..]);
    }
  }

  lemma NoLossNoGap(capacity: nat, interval: int, steps: seq<Step>, want: iset<Slot>)
    requires interval > 0 && IsRun(Fresh(capacity), interval, steps) && forall s | s in steps :: !s.Lose?
    ensures var c := Final(Fresh(capacity), interval, steps);
      && c.lost == multiset{}
      && Total(c.accepted, interval, want)
         == Stored(c.rows, want) + Total(multiset(c.queue), interval, want) + Total(Held(c.flushers), interval, want)
  {
    NothingLostWithoutLoss(Fresh(capacity), interval, steps);
    TotalsAgree(capacity, interval, steps, want);
  }

  /** The counter of flushed buckets is the size of the table. */
  lemma {:induction false} FlushedAreRows(c: Collector, interval: int, steps: seq<Step>)
    requires interval > 0 && IsRun(c, interval, steps) && c.flushed == |c.rows|
    ensures Final(c, interval, steps).flushed == |Final(c, interval, steps).rows|
    decreases |steps|
  {
    if steps != [] {
      FlushedAreRows(Apply(c, steps[0]), interval, steps[1..]);
    }
  }

  // ---- The collector --------------------------------------------------------------------------

  /** What a flusher's collecting loop does while nobody else interferes. */
  function Collected(c: Collector, f: nat): (t: Collector)
    requires f in c.flushers
    ensures f in t.flushers
    decreases |c.queue|
  {
    if c.queue == [] then c else Collected(Apply(c, Take(f)), f)
  }

  function Gathered(c: Collector, f: nat): (t: Collector)
    ensures f in t.flushers
  {
    Apply(Collected(Apply(c, Begin(f)), f), Emptied(f))
  }

  /** How a flush ends: nothing to save, saved, or lost. */
  function Ended(c: Collector, f: nat, ok: bool, buckets: seq<Bucket>): Collector
    requires f in c.flushers
  {
    if c.flushers[f].records == [] then Apply(c, Leave(f)) else if ok then Apply(c, Save(f, buckets)) else Apply(c, Lose(f))
  }

  lemma {:induction false} CollectedTakesAll(c: Collector, f: nat)
    requires f in c.flushers && c.flushers[f].Collecting?
    ensures Collected(c, f) == c.(queue := [], drained := c.drained + |c.queue|,
                                  flushers := c.flushers[f := Collecting(c.flushers[f].records + c.queue)])
    decreases |c.queue|
  {
    if c.queue == [] {
      assert c.flushers[f].records + [] == c.flushers[f].records;
      assert c.flushers[f := c.flushers[f]] == c.flushers;
    } else {
      CollectedTakesAll(Apply(c, Take(f)), f);
      assert c.flushers[f].records + [c.queue[0]] + c.queue[1..] == c.flushers[f].records + c.queue;
    }
  }

  lemma GatheredTakesAll(c: Collector, f: nat)
    requires f !in c.flushers
    ensures Gathered(c, f) == c.(queue := [], drained := c.drained + |c.queue|, flushers := c.flushers[f := Saving(c.queue)])
  {
    CollectedTakesAll(Apply(c, Begin(f)), f);
    assert [] + c.queue == c.queue;
    var g: map<nat, Flusher> := c.flushers[f := Collecting([])];
    assert g[f := Collecting(c.queue)][f := Saving(c.queue)] == c.flushers[f := Saving(c.queue)];
  }

  class UsageCollector {
    const interval: int
    const capacity: nat
    var queue: seq<Record>
    var rows: seq<Bucket>
    var dropped: nat
    var flushed: nat
    ghost var flushers: map<nat, Flusher>
    ghost var calls: nat
    ghost var drained: nat
    ghost var accepted: multiset<Record>
    ghost var stored: multiset<Record>
    ghost var lost: multiset<Record>

    ghost function State(): Collector
      reads this
    {
      Collector(queue, capacity, flushers, rows, dropped, flushed, calls, drained, accepted, stored, lost)
    }

    /** Values that are not positive stand for the defaults. */
    constructor (bucketInterval: int, queueCapacity: int)
      ensures interval == (if bucketInterval > 0 then bucketInterval else 60_000_000_000) && interval > 0
      ensures capacity == (if queueCapacity > 0 then queueCapacity else 10000) && State() == Fresh(capacity)
      ensures queue == [] && rows == []
    {
      interval := if bucketInterval <= 0 then DEFAULT_BUCKET_INTERVAL else bucketInterval;
      capacity := if queueCapacity <= 0 then DEFAULT_QUEUE_CAPACITY else queueCapacity;
      queue, rows, dropped, flushed, calls, drained := [], [], 0, 0, 0, 0;
      flushers, accepted, stored, lost := map[], multiset{}, multiset{}, multiset{};
    }

    /** Never waits: a full queue drops the record and counts it. */
    method Record(r: UsageTotals.Record, cancelled: bool) returns (ok: bool)
      modifies this
      ensures ok == !cancelled && State() == if cancelled then old(State()) else Apply(old(State()), Offer(r))
      ensures !cancelled && |old(queue)| < capacity ==>
        queue == old(queue) + [r] && accepted == old(accepted) + multiset{r} && dropped == old(dropped)
      ensures !cancelled && |old(queue)| >= capacity ==>
        queue == old(queue) && accepted == old(accepted) && dropped == old(dropped) + 1
      ensures rows == old(rows) && lost == old(lost)
    {
      if cancelled {
        return false;
      }
      calls := calls + 1;
      if |queue| < capacity {
        queue := queue + [r];
        accepted := accepted + multiset{r};
      } else {
        dropped := dropped + 1;
      }
      return true;
    }

    /** One transaction; an insert that fails, or the commit, leaves the table as it was. */
    method InsertBatch(buckets: seq<Bucket>, fails: bool) returns (written: nat, ok: bool)
      modifies this`rows
      ensures ok == (!fails || buckets == [])
      ensures rows == if ok then old(rows) + buckets else old(rows)
      ensures ok ==> written == |buckets|
    {
      written := 0;
      if |buckets| == 0 {
        return 0, true;
      }
      var table := rows;
      for i := 0 to |buckets|
        invariant table == rows + buckets[..i] && written == i && rows == old(rows)
      {
        var hit: bool := *;
        if fails && hit {
          return written, false;
        }
        table := table + [buckets[i]];
        written := written + 1;
      }
      assert buckets[..|buckets|] == buckets;
      if fails {
        return written, false;
      }
      rows := table;
      return written, true;
    }

    /** The loop that empties the queue. */
    method Collect(ghost f: nat) returns (pending: seq<UsageTotals.Record>)
      requires f in flushers && flushers[f] == Collecting([])
      modifies this`queue, this`drained, this`flushers
      ensures pending == old(queue) && queue == [] && drained == old(drained) + |pending|
      ensures flushers == old(flushers)[f := Collecting(pending)]
    {
      pending := [];
      while |queue| > 0
        invariant flushers == old(flushers)[f := Collecting(pending)]
        invariant pending + queue == old(queue) && drained == old(drained) + |pending|
        decreases |queue|
      {
        assert pending + [queue[0]] + queue[1..] == pending + queue;
        pending := pending + [queue[0]];
        flushers := flushers[f := Collecting(pending)];
        queue := queue[1..];
        drained := drained + 1;
      }
    }

    /** A flusher starts, and is done collecting. */
    method Gather(ghost f: nat) returns (pending: seq<UsageTotals.Record>)
      requires f !in flushers
      modifies this
      ensures State() == Gathered(old(State()), f) && pending == old(queue)
      ensures f in flushers && flushers[f] == Saving(pending) && flushers - {f} == old(flushers)
      ensures queue == [] && rows == old(rows) && flushed == old(flushed) && drained == old(drained) + |pending|
      ensures accepted == old(accepted) && stored == old(stored) && lost == old(lost)
    {
      GatheredTakesAll(State(), f);
      flushers := flushers[f := Collecting([])];
      pending := Collect(f);
      flushers := flushers[f := Saving(pending)];
      assert flushers == old(flushers)[f := Saving(pending)];
      assert flushers - {f} == old(flushers);
    }

    /** Collect, aggregate, insert. */
    method FlushAll(ghost f: nat, hasStore: bool, fails: bool) returns (ghost buckets: seq<Bucket>)
      requires interval > 0 && f !in flushers
      modifies this
      ensures State() == Ended(Gathered(old(State()), f), f, hasStore && !fails, buckets)
      ensures Carries(buckets, multiset(old(queue)), interval) && (old(queue) == [] ==> buckets == [])
      ensures queue == [] && flushers == old(flushers) && accepted == old(accepted) && drained == old(drained) + |old(queue)|
      ensures hasStore && !fails ==>
        && rows == old(rows) + buckets && flushed == old(flushed) + |buckets|
        && stored == old(stored) + multiset(old(queue)) && lost == old(lost)
      ensures !hasStore || fails ==>
        && rows == old(rows) && flushed == old(flushed)
        && stored == old(stored) && lost == old(lost) + multiset(old(queue))
    {
      buckets := [];
      var pending := Gather(f);
      if |pending| == 0 {
        NothingCarries(interval);
        flushers := flushers - {f};
      } else {
        buckets := Finish(f, pending, hasStore, fails);
      }
    }

    /** Without a store, or when the insert fails, the batch is gone. */
    method Finish(ghost f: nat, pending: seq<UsageTotals.Record>, hasStore: bool, fails: bool) returns (ghost buckets: seq<Bucket>)
      requires interval > 0 && f in flushers && flushers[f] == Saving(pending) && pending != []
      modifies this
      ensures State() == Apply(old(State()), if hasStore && !fails then Save(f, buckets) else Lose(f))
      ensures Carries(buckets, multiset(pending), interval) && flushers == old(flushers) - {f}
      ensures queue == old(queue) && accepted == old(accepted) && drained == old(drained)
      ensures hasStore && !fails ==> rows == old(rows) + buckets && flushed == old(flushed) + |buckets|
      ensures hasStore && !fails ==> stored == old(stored) + multiset(pending) && lost == old(lost)
      ensures !hasStore || fails ==> rows == old(rows) && flushed == old(flushed)
      ensures !hasStore || fails ==> stored == old(stored) && lost == old(lost) + multiset(pending)
    {
      var out := Aggregate(pending, interval);
      buckets := out;
      Settle(f, pending, out, hasStore, fails);
    }

    method Settle(ghost f: nat, ghost pending: seq<UsageTotals.Record>, out: seq<Bucket>, hasStore: bool, fails: bool)
      requires out != []
      modifies this`rows, this`flushers, this`flushed, this`stored, this`lost
      ensures flushers == old(flushers) - {f}
      ensures hasStore && !fails ==> rows == old(rows) + out && flushed == old(flushed) + |out|
      ensures hasStore && !fails ==> stored == old(stored) + multiset(pending) && lost == old(lost)
      ensures !hasStore || fails ==> rows == old(rows) && flushed == old(flushed)
      ensures !hasStore || fails ==> stored == old(stored) && lost == old(lost) + multiset(pending)
    {
      var n, ok := 0, false;
      if hasStore {
        n, ok := InsertBatch(out, fails);
      }
      Book(f, pending, n, ok);
    }

    /** The insert succeeded, or its error is only logged. */
    method Book(ghost f: nat, ghost pending: seq<UsageTotals.Record>, n: nat, ok: bool)
      modifies this`flushers, this`flushed, this`stored, this`lost
      ensures flushers == old(flushers) - {f} && flushed == old(flushed) + (if ok then n else 0)
      ensures stored == old(stored) + (if ok then multiset(pending) else multiset{})
      ensures lost == old(lost) + (if ok then multiset{} else multiset(pending))
    {
      flushers := flushers - {f};
      if ok {
        flushed := flushed + n;
        stored := stored + multiset(pending);
      } else {
        lost := lost + multiset(pending);
      }
    }
  }
}
