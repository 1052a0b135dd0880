/** The in-memory event store: a slice compacted in place, its retention rules, and its queries. */
module EventStore {
  import opened Prelude
  import opened Sorting

  datatype Event = Event(id: string, kind: string, source: string, timestamp: int)

  datatype Entry = Entry(event: Event, createdAt: int)

  datatype StoreError = NilEvent | Cancelled | StoreClosed

  /** Durations are in nanoseconds. */
  datatype Config = Config(ttl: int, maxEvents: int)

  const DEFAULT_TTL := 7 * 24 * 3600 * 1000000000
  const DEFAULT_MAX_EVENTS := 1000000

  function WithDefaults(c: Config): (r: Config)
    ensures r.ttl > 0 && r.maxEvents > 0
    ensures r.ttl == (if c.ttl > 0 then c.ttl else 604_800_000_000_000)
    ensures r.maxEvents == (if c.maxEvents > 0 then c.maxEvents else 1_000_000)
  {
    Config(if c.ttl <= 0 then DEFAULT_TTL else c.ttl, if c.maxEvents <= 0 then DEFAULT_MAX_EVENTS else c.maxEvents)
  }

  // ---- Retention on values --------------------------------------------------------------------

  /** The entries not created before the cutoff, in order. */
  function Fresh(s: seq<Entry>, cutoff: int): seq<Entry> {
    if s == [] then []
    else AddIf(Fresh(s[..|s| - 1], cutoff), s[|s| - 1].createdAt >= cutoff, s[|s| - 1])
  }

  function Newest(s: seq<Entry>, max: nat): seq<Entry> {
    if |s| > max then s[|s| - max..] else s
  }

  function Kept(s: seq<Entry>, c: Config, now: int): seq<Entry>
    requires c.maxEvents > 0
  {
    Newest(Fresh(s, now - c.ttl), c.maxEvents)
  }

  lemma FreshAppend(s: seq<Entry>, x: Entry, cutoff: int)
    ensures Fresh(s + [x], cutoff) == AddIf(Fresh(s, cutoff), x.createdAt >= cutoff, x)
  {
    assert (s + [x])[..|s|] == s;
  }

  lemma {:induction false} FreshConcat(a: seq<Entry>, b: seq<Entry>, cutoff: int)
    ensures Fresh(a + b, cutoff) == Fresh(a, cutoff) + Fresh(b, cutoff)
    decreases |b|
  {
    if b == [] {
      assert a + b == a;
    } else {
      var init := b[..|b| - 1];
      FreshConcat(a, init, cutoff);
      assert (a + b)[..|a + b| - 1] == a + init && (a + b)[|a + b| - 1] == b[|b| - 1];
    }
  }

  lemma {:induction false} FreshMembers(s: seq<Entry>, cutoff: int)
    ensures forall x :: x in Fresh(s, cutoff) <==> x in s && x.createdAt >= cutoff
    decreases |s|
  {
    if s != [] {
      FreshMembers(s[..|s| - 1], cutoff);
      assert s == s[..|s| - 1] + [s[|s| - 1]];
    }
  }

  lemma {:induction false} FreshAll(s: seq<Entry>, cutoff: int)
    requires forall x | x in s :: x.createdAt >= cutoff
    ensures Fresh(s, cutoff) == s
    decreases |s|
  {
    if s != [] {
      assert s[|s| - 1] in s;
      FreshAll(s[..|s| - 1], cutoff);
    }
  }

  lemma FreshNone(s: seq<Entry>, cutoff: int)
    requires forall x | x in s :: x.createdAt < cutoff
    ensures Fresh(s, cutoff) == []
  {
    FreshMembers(s, cutoff);
    assert Fresh(s, cutoff) == [] || Fresh(s, cutoff)[0] in Fresh(s, cutoff);
  }

  lemma KeptMembers(s: seq<Entry>, c: Config, now: int)
    requires c.maxEvents > 0
    ensures |Kept(s, c, now)| <= c.maxEvents
    ensures forall x :: x in Kept(s, c, now) ==> x in s && x.createdAt >= now - c.ttl
    ensures |Kept(s, c, now)| < c.maxEvents ==> forall x :: x in s && x.createdAt >= now - c.ttl ==> x in Kept(s, c, now)
  {
    FreshMembers(s, now - c.ttl);
  }

  // ---- What a cleanup leaves ------------------------------------------------------------------

  /** Everything before position k is expired and nothing from k on is. */
  predicate ExpiresUpTo(s: seq<Entry>, cutoff: int, k: nat) {
    k <= |s| && (forall i :: 0 <= i < |s| ==> (s[i].createdAt < cutoff <==> i < k))
  }

  lemma FreshFrom(s: seq<Entry>, cutoff: int, k: nat)
    requires ExpiresUpTo(s, cutoff, k)
    ensures Fresh(s, cutoff) == s[k..]
  {
    assert s == s[..k] + s[k..];
    FreshConcat(s[..k], s[k..], cutoff);
    FreshNone(s[..k], cutoff);
    FreshAll(s[k..], cutoff);
  }

  ghost predicate IsSuffix(r: seq<Entry>, s: seq<Entry>) {
    exists k :: 0 <= k <= |s| && r == s[k..]
  }

  /** No expired entry follows a fresh one. */
  predicate ExpiredFirst(s: seq<Entry>, cutoff: int) {
    forall i, j :: 0 <= i < j < |s| && s[j].createdAt < cutoff ==> s[i].createdAt < cutoff
  }

  /** The compaction removes a prefix exactly when no expired entry follows a fresh one. */
  lemma CompactionIsSuffixIff(s: seq<Entry>, cutoff: int)
    ensures IsSuffix(Fresh(s, cutoff), s) <==> ExpiredFirst(s, cutoff)
  {
    if IsSuffix(Fresh(s, cutoff), s) {
      var k :| 0 <= k <= |s| && Fresh(s, cutoff) == s[k..];
      SuffixExpires(s, cutoff, k);
    }
    if ExpiredFirst(s, cutoff) {
      var k := Boundary(s, cutoff);
      FreshFrom(s, cutoff, k);
    }
  }

  lemma LastOfSuffix(s: seq<Entry>, k: nat)
    requires k <= |s|
    ensures k < |s| ==> s[|s| - 1] in s[k..]
  {
    assert k < |s| ==> s[k..][|s| - 1 - k] == s[|s| - 1];
  }

  lemma {:induction false} SuffixExpires(s: seq<Entry>, cutoff: int, k: nat)
    requires k <= |s| && Fresh(s, cutoff) == s[k..]
    ensures ExpiresUpTo(s, cutoff, k)
    decreases |s|
  {
    if s != [] {
      var init, last := s[..|s| - 1], s[|s| - 1];
      if last.createdAt >= cutoff {
        var r := Fresh(s, cutoff);
        assert r == Fresh(init, cutoff) + [last];
        assert r[..|r| - 1] == init[k..];
        SuffixExpires(init, cutoff, k);
      } else {
        FreshMembers(s, cutoff);
        LastOfSuffix(s, k);
        assert init[|init|..] == [];
        SuffixExpires(init, cutoff, k - 1);
      }
    }
  }

  /** Where the fresh entries start. */
  lemma Boundary(s: seq<Entry>, cutoff: int) returns (k: nat)
    requires ExpiredFirst(s, cutoff)
    ensures ExpiresUpTo(s, cutoff, k)
  {
    k := 0;
    while k < |s| && s[k].createdAt < cutoff
      invariant k <= |s| && forall i :: 0 <= i < k ==> s[i].createdAt < cutoff
    {
      k := k + 1;
    }
  }

  ghost predicate Chronological(s: seq<Entry>) {
    forall i, j :: 0 <= i < j < |s| ==> s[i].createdAt <= s[j].createdAt
  }

  /** Under a clock that never goes back, a cleanup cuts off the shortest prefix that leaves nothing expired and no more
      than the maximum: what remains is fresh and few enough, and the entry just before it was expired or one too many. */
  lemma CleanupIsExact(s: seq<Entry>, c: Config, now: int) returns (k: nat)
    requires Chronological(s) && c.maxEvents > 0
    ensures k <= |s| && Kept(s, c, now) == s[k..]
    ensures forall i :: k <= i < |s| ==> s[i].createdAt >= now - c.ttl
    ensures |s| - k <= c.maxEvents
    ensures k > 0 ==> s[k - 1].createdAt < now - c.ttl || |s| - k == c.maxEvents
  {
    assert ExpiredFirst(s, now - c.ttl);
    var first := Boundary(s, now - c.ttl);
    FreshFrom(s, now - c.ttl, first);
    k := if |s| - first > c.maxEvents then |s| - c.maxEvents else first;
  }

  // ---- Whole runs -----------------------------------------------------------------------------

  datatype Op = Append(e: Event, now: int) | Cleanup(now: int)

  /** The store's contents and everything ever appended. */
  datatype Store = Store(entries: seq<Entry>, appended: seq<Entry>, clock: int)

  function Do(s: Store, c: Config, op: Op): Store
    requires c.maxEvents > 0
  {
    match op
    case Append(e, now) => Store(s.entries + [Entry(e, now)], s.appended + [Entry(e, now)], now)
    case Cleanup(now) => Store(Kept(s.entries, c, now), s.appended, now)
  }

  function DoAll(s: Store, c: Config, ops: seq<Op>): Store
    requires c.maxEvents > 0
    decreases |ops|
  {
    if ops == [] then s else DoAll(Do(s, c, ops[0]), c, ops[1..])
  }

  predicate ClockAdvances(from: int, ops: seq<Op>)
    decreases |ops|
  {
    ops == [] || (from <= ops[0].now && ClockAdvances(ops[0].now, ops[1..]))
  }

  ghost predicate Retains(s: Store) {
    && IsSuffix(s.entries, s.appended)
    && Chronological(s.appended)
    && forall x | x in s.appended :: x.createdAt <= s.clock
  }

  lemma SuffixExtends(r: seq<Entry>, s: seq<Entry>, x: Entry)
    requires IsSuffix(r, s)
    ensures IsSuffix(r + [x], s + [x])
  {
    var k :| 0 <= k <= |s| && r == s[k..];
    assert r + [x] == (s + [x])[k..];
  }

  lemma SuffixOfSuffix(q: seq<Entry>, r: seq<Entry>, s: seq<Entry>)
    requires IsSuffix(q, r) && IsSuffix(r, s)
    ensures IsSuffix(q, s)
  {
    var j :| 0 <= j <= |r| && q == r[j..];
    var k :| 0 <= k <= |s| && r == s[k..];
    assert q == s[k + j..];
  }

  lemma RetainsStep(s: Store, c: Config, op: Op)
    requires Retains(s) && c.maxEvents > 0 && s.clock <= op.now
    ensures Retains(Do(s, c, op))
  {
    match op
    case Append(e, now) => SuffixExtends(s.entries, s.appended, Entry(e, now));
    case Cleanup(now) =>
      KeptIsSuffix(s.entries, s.appended, c, now);
      SuffixOfSuffix(Kept(s.entries, c, now), s.entries, s.appended);
  }

  lemma KeptIsSuffix(entries: seq<Entry>, appended: seq<Entry>, c: Config, now: int)
    requires IsSuffix(entries, appended) && Chronological(appended) && c.maxEvents > 0
    ensures IsSuffix(Kept(entries, c, now), entries)
  {
    var j :| 0 <= j <= |appended| && entries == appended[j..];
    var k := CleanupIsExact(entries, c, now);
  }

  /** After any run of appends and cleanups the store holds a contiguous end of the append history. */
  lemma {:induction false} RunRetains(s: Store, c: Config, ops: seq<Op>)
    requires Retains(s) && c.maxEvents > 0 && ClockAdvances(s.clock, ops)
    ensures Retains(DoAll(s, c, ops))
    decreases |ops|
  {
    if ops != [] {
      RetainsStep(s, c, ops[0]);
      RunRetains(Do(s, c, ops[0]), c, ops[1..]);
    }
  }

  lemma NewStoreRetains(c: Config, start: int, ops: seq<Op>)
    requires c.maxEvents > 0 && ClockAdvances(start, ops)
    ensures IsSuffix(DoAll(Store([], [], start), c, ops).entries, DoAll(Store([], [], start), c, ops).appended)
  {
    var s := Store([], [], start);
    assert s.entries == s.appended[0..];
    RunRetains(s, c, ops);
  }

  // ---- Queries --------------------------------------------------------------------------------

  datatype QueryOptions = QueryOptions(
    types: seq<string>, source: string, start: Option<int>, end: Option<int>, limit: int, offset: int)

  predicate Matches(e: Event, q: QueryOptions) {
    && (q.types != [] ==> e.kind in q.types)
    && (q.source != "" ==> e.source == q.source)
    && (q.start.Some? ==> q.start.value <= e.timestamp)
    && (q.end.Some? ==> e.timestamp <= q.end.value)
  }

  lemma SameFilter(types: seq<string>, filter: set<string>)
    requires forall kind :: kind in filter <==> kind in types
    ensures |filter| > 0 <==> types != []
  {
    if |filter| > 0 {
      var kind :| kind in filter;
      assert kind in types;
    }
    if types != [] {
      assert types[0] in filter;
    }
  }

  /** The checks in the source's order; an empty type filter admits every type. */
  method MatchQuery(e: Event, q: QueryOptions, filter: set<string>) returns (ok: bool)
    requires forall kind :: kind in filter <==> kind in q.types
    ensures ok == Matches(e, q)
    ensures ok <==>
      && (q.types == [] || e.kind in q.types) && (q.source == "" || e.source == q.source)
      && (q.start == None || q.start.value <= e.timestamp) && (q.end == None || e.timestamp <= q.end.value)
  {
    SameFilter(q.types, filter);
    if |filter| > 0 && e.kind !in filter {
      return false;
    }
    if q.source != "" && e.source != q.source {
      return false;
    }
    if q.start.Some? && e.timestamp < q.start.value {
      return false;
    }
    if q.end.Some? && q.end.value < e.timestamp {
      return false;
    }
    return true;
  }

  function Selected(s: seq<Event>, q: QueryOptions): seq<Event> {
    if s == [] then []
    else AddIf(Selected(s[..|s| - 1], q), Matches(s[|s| - 1], q), s[|s| - 1])
  }

  lemma SelectedAppend(s: seq<Event>, e: Event, q: QueryOptions)
    ensures Selected(s + [e], q) == AddIf(Selected(s, q), Matches(e, q), e)
  {
    assert (s + [e])[..|s|] == s;
  }

  function Events(s: seq<Entry>): (r: seq<Event>)
    ensures |r| == |s| && forall i :: 0 <= i < |s| ==> r[i] == s[i].event
  {
    seq(|s|, i requires 0 <= i < |s| => s[i].event)
  }

  /** Skip offset, then take limit; out-of-range values are clamped, and a limit of zero or less is none. */
  function Window<T>(s: seq<T>, offset: int, limit: int): seq<T> {
    var start := if offset <= 0 then 0 else if offset > |s| then |s| else offset;
    var stop := if limit > 0 && limit < |s| - start then start + limit else |s|;
    s[start..stop]
  }

  method Page(all: seq<Event>, offset: int, limit: int) returns (result: seq<Event>)
    ensures result == Window(all, offset, limit)
    ensures offset >= |all| ==> result == []
    ensures offset < |all| ==>
      var rest := |all| - if offset > 0 then offset else 0;
      |result| == if 0 < limit < rest then limit else rest
    ensures forall k :: 0 <= k < |result| ==> result[k] == all[k + if offset > 0 then offset else 0]
  {
    result := all;
    if offset > 0 && offset < |result| {
      result := result[offset..];
    } else if offset >= |result| {
      return [];
    }
    if limit > 0 && limit < |result| {
      result := result[..limit];
    }
  }

  const BY_TIME: Event -> int := (e: Event) => e.timestamp

  ghost predicate Ordered(r: seq<Event>, s: seq<Event>) {
    multiset(r) == multiset(s) && SortedBy(BY_TIME, r)
  }

  /** Moves the fresh entries among the len from off on to the front of that part of the array. */
  method Compact(buf: array<Entry>, off: nat, len: nat, cutoff: int) returns (kept: nat, deleted: nat)
    requires off + len <= buf.Length
    modifies buf
    ensures kept + deleted == len && buf[off..off + kept] == Fresh(old(buf[off..off + len]), cutoff)
  {
    ghost var was := buf[off..off + len];
    ghost var result: seq<Entry> := [];
    kept, deleted := 0, 0;
    for i := 0 to len
      invariant kept + deleted == i
      invariant result == Fresh(was[..i], cutoff) && |result| == kept
      invariant forall j :: 0 <= j < kept ==> buf[off + j] == result[j]
      invariant forall j :: i <= j < len ==> buf[off + j] == was[j]
    {
      var entry := buf[off + i];
      assert was[..i + 1] == was[..i] + [entry];
      FreshAppend(was[..i], entry, cutoff);
      if entry.createdAt < cutoff {
        deleted := deleted + 1;
      } else {
        buf[off + kept] := entry;
        kept := kept + 1;
        result := result + [entry];
      }
    }
    ghost var moved := buf[off..off + kept];
    assert forall j :: 0 <= j < kept ==> moved[j] == result[j];
    assert was[..len] == was && moved == result;
  }

  // ---- The store ------------------------------------------------------------------------------

  /** entries is the part of an array that a Go slice names: len elements from off on. */
  class MemoryEventStore {
    var buf: array<Entry>
    var off: nat
    var len: nat
    var closed: bool
    const cfg: Config

    ghost predicate Valid()
      reads this
    {
      off + len <= buf.Length && cfg.maxEvents > 0
    }

    ghost function Contents(): seq<Entry>
      reads this, buf
      requires Valid()
    {
      buf[off..off + len]
    }

    constructor (c: Config)
      ensures Valid() && fresh(buf) && Contents() == [] && !closed && cfg == WithDefaults(c)
    {
      cfg := WithDefaults(c);
      buf := new Entry[64](_ => Entry(Event("", "", "", 0), 0));
      off, len, closed := 0, 0, false;
    }

    method Append(e: Option<Event>, now: int, cancelled: bool) returns (r: Outcome<StoreError>)
      requires Valid()
      modifies this, buf
      ensures Valid() && closed == old(closed) && (buf == old(buf) || fresh(buf))
      ensures r == if e.None? then Err(NilEvent) else if cancelled then Err(Cancelled)
                   else if closed then Err(StoreClosed) else Ok
      ensures Contents() == if r == Ok then old(Contents()) + [Entry(e.value, now)] else old(Contents())
    {
      if e.None? {
        return Err(NilEvent);
      }
      if cancelled {
        return Err(Cancelled);
      }
      if closed {
        return Err(StoreClosed);
      }
      var x := Entry(e.value, now);
      if off + len == buf.Length {
        var old_, from, n := buf, off, len;
        var larger := new Entry[2 * n + 1](i requires 0 <= i reads this, old_ =>
          if i < n && from + i < old_.Length then old_[from + i] else x);
        buf, off := larger, 0;
      }
      buf[off + len] := x;
      len := len + 1;
      return Ok;
    }

    /** The result may not be sorted further than by timestamp: events of one instant come in any order. */
    method Query(q: QueryOptions, cancelled: bool) returns (events: seq<Event>, r: Outcome<StoreError>)
      requires Valid()
      ensures r == if cancelled then Err(Cancelled) else if closed then Err(StoreClosed) else Ok
      ensures r != Ok ==> events == []
      ensures r == Ok ==> exists all ::
        Ordered(all, Selected(Events(Contents()), q)) && events == Window(all, q.offset, q.limit)
    {
      if cancelled {
        return [], Err(Cancelled);
      }
      if closed {
        return [], Err(StoreClosed);
      }
      var filter := set kind | kind in q.types;
      var result: seq<Event> := [];
      ghost var entries := Contents();
      for i := 0 to len
        invariant result == Selected(Events(entries[..i]), q)
      {
        var entry := buf[off + i];
        assert Events(entries[..i + 1]) == Events(entries[..i]) + [entry.event];
        SelectedAppend(Events(entries[..i]), entry.event, q);
        var ok := MatchQuery(entry.event, q, filter);
        if ok {
          result := result + [entry.event];
        }
      }
      assert entries[..len] == entries;
      result := SortSlice(BY_TIME, result);
      events := Page(result, q.offset, q.limit);
      return events, Ok;
    }

    /** Compacts the entries in their own array, then moves the start of the slice past the surplus. */
    method Cleanup(now: int, cancelled: bool) returns (deleted: nat, r: Outcome<StoreError>)
      requires Valid()
      modifies this, buf
      ensures Valid() && buf == old(buf) && closed == old(closed)
      ensures r == if cancelled then Err(Cancelled) else if closed then Err(StoreClosed) else Ok
      ensures r == Ok ==> Contents() == Kept(old(Contents()), cfg, now) && deleted == old(len) - len
      ensures r == Ok ==> len <= cfg.maxEvents && forall x :: x in Contents() ==> x in old(Contents()) && x.createdAt >= now - cfg.ttl
      ensures r == Ok && len < cfg.maxEvents ==> forall x :: x in old(Contents()) && x.createdAt >= now - cfg.ttl ==> x in Contents()
      ensures r != Ok ==> Contents() == old(Contents()) && deleted == 0
    {
      if cancelled {
        return 0, Err(Cancelled);
      }
      if closed {
        return 0, Err(StoreClosed);
      }
      var kept;
      kept, deleted := Compact(buf, off, len, now - cfg.ttl);
      len := kept;
      assert Contents() == Fresh(old(Contents()), now - cfg.ttl);
      var excess := Trim();
      deleted := deleted + excess;
      KeptMembers(old(Contents()), cfg, now);
      r := Ok;
    }

    method Trim() returns (excess: nat)
      requires Valid()
      modifies this`off, this`len
      ensures Valid() && Contents() == Newest(old(Contents()), cfg.maxEvents) && excess == old(len) - len
    {
      excess := 0;
      if len > cfg.maxEvents {
        excess := len - cfg.maxEvents;
        off, len := off + excess, cfg.maxEvents;
        assert buf[off..off + len] == old(Contents())[excess..];
      }
    }

    method Close()
      requires Valid()
      modifies this
      ensures Valid() && closed && len == (if old(closed) then old(len) else 0)
    {
      if !closed {
        closed := true;
        off, len := 0, 0;
      }
    }
  }
}
