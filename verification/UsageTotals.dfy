/** Usage records, their time buckets, and totals over any set of buckets. */
module UsageTotals {
  datatype Key = Key(tenant: string, client: string, endpoint: string, operation: string, unit: string)

  /** A time value carries the location it is shown in. */
  datatype Record = Record(key: Key, count: int, at: int, location: string)

  /** A metering key together with a time bucket [start, end). */
  datatype Slot = Slot(key: Key, start: int, end: int)

  /** What counts are added up under: bounds in different locations are different map keys, even for the same instants. */
  datatype Cell = Cell(slot: Slot, location: string)

  /** The table keeps the instants only, so totals over it are totals over slots. */
  datatype Bucket = Bucket(slot: Slot, location: string, count: int)

  // ---- Buckets --------------------------------------------------------------------------------

  /** Rounds down to a multiple of the interval, also before the origin. */
  function Truncate(at: int, interval: int): int
    requires interval > 0
  {
    at - at % interval
  }

  function SlotOf(r: Record, interval: int): Slot
    requires interval > 0
  {
    Slot(r.key, Truncate(r.at, interval), Truncate(r.at, interval) + interval)
  }

  function CellOf(r: Record, interval: int): Cell
    requires interval > 0
  {
    Cell(SlotOf(r, interval), r.location)
  }

  lemma Apart(k: int, q: int, interval: int)
    requires interval > 0 && k < q
    ensures k * interval + interval <= q * interval
  {
    var gap := q - k - 1;
    assert gap * interval >= 0;
    assert q * interval == (gap + k + 1) * interval == gap * interval + k * interval + interval;
  }

  lemma Quotient(at: int, interval: int)
    requires interval > 0
    ensures Truncate(at, interval) == (at / interval) * interval <= at < (at / interval) * interval + interval
  {
    assert at == (at / interval) * interval + at % interval;
  }

  /** A record lies in its bucket, and in no other bucket of the grid. */
  lemma InItsBucketOnly(r: Record, interval: int, k: int)
    requires interval > 0
    ensures SlotOf(r, interval).start <= r.at < SlotOf(r, interval).end
    ensures k * interval <= r.at < k * interval + interval <==> SlotOf(r, interval).start == k * interval
    ensures SlotOf(r, interval).end - SlotOf(r, interval).start == interval && SlotOf(r, interval).key == r.key
  {
    var q := r.at / interval;
    Quotient(r.at, interval);
    if k < q {
      Apart(k, q, interval);
    } else if k > q {
      Apart(q, k, interval);
    }
  }

  // ---- Totals ---------------------------------------------------------------------------------

  ghost function Worth(slot: Slot, count: int, want: iset<Slot>): int {
    if slot in want then count else 0
  }

  /** What the records of a multiset add to the wanted buckets. */
  ghost function Total(m: multiset<Record>, interval: int, want: iset<Slot>): int
    requires interval > 0
    decreases |m|
  {
    if m == multiset{} then 0
    else
      var r :| r in m;
      Worth(SlotOf(r, interval), r.count, want) + Total(m - multiset{r}, interval, want)
  }

  lemma WithoutBoth(m: multiset<Record>, c: Record, r: Record)
    ensures m - multiset{c} - multiset{r} == m - multiset{r} - multiset{c}
  {
  }

  lemma {:induction false} TotalRemove(m: multiset<Record>, r: Record, interval: int, want: iset<Slot>)
    requires interval > 0 && r in m
    ensures Total(m, interval, want) == Worth(SlotOf(r, interval), r.count, want) + Total(m - multiset{r}, interval, want)
    decreases |m|
  {
    var c :| c in m
      && Total(m, interval, want) == Worth(SlotOf(c, interval), c.count, want) + Total(m - multiset{c}, interval, want);
    if c != r {
      TotalRemove(m - multiset{c}, r, interval, want);
      TotalRemove(m - multiset{r}, c, interval, want);
      WithoutBoth(m, c, r);
    }
  }

  lemma {:induction false} TotalUnion(a: multiset<Record>, b: multiset<Record>, interval: int, want: iset<Slot>)
    requires interval > 0
    ensures Total(a + b, interval, want) == Total(a, interval, want) + Total(b, interval, want)
    decreases |a|
  {
    if a == multiset{} {
      assert a + b == b;
    } else {
      var r :| r in a;
      TotalRemove(a, r, interval, want);
      TotalRemove(a + b, r, interval, want);
      assert a + b - multiset{r} == a - multiset{r} + b;
      TotalUnion(a - multiset{r}, b, interval, want);
    }
  }

  lemma TotalOne(r: Record, interval: int, want: iset<Slot>)
    requires interval > 0
    ensures Total(multiset{r}, interval, want) == if SlotOf(r, interval) in want then r.count else 0
  {
    TotalRemove(multiset{r}, r, interval, want);
  }

  /** What the first n rows add to the wanted buckets. */
  ghost function RowTotal(rows: seq<Bucket>, n: nat, want: iset<Slot>): int
    requires n <= |rows|
  {
    if n == 0 then 0 else RowTotal(rows, n - 1, want) + Worth(rows[n - 1].slot, rows[n - 1].count, want)
  }

  ghost function Stored(rows: seq<Bucket>, want: iset<Slot>): int {
    RowTotal(rows, |rows|, want)
  }

  lemma {:induction false} RowTotalPrefix(a: seq<Bucket>, b: seq<Bucket>, n: nat, want: iset<Slot>)
    requires n <= |a|
    ensures RowTotal(a + b, n, want) == RowTotal(a, n, want)
  {
    if n > 0 {
      RowTotalPrefix(a, b, n - 1, want);
    }
  }

  lemma {:induction false} RowTotalBehind(a: seq<Bucket>, b: seq<Bucket>, n: nat, want: iset<Slot>)
    requires n <= |b|
    ensures RowTotal(a + b, |a| + n, want) == RowTotal(a, |a|, want) + RowTotal(b, n, want)
  {
    if n == 0 {
      RowTotalPrefix(a, b, |a|, want);
    } else {
      RowTotalBehind(a, b, n - 1, want);
    }
  }

  lemma StoredConcat(a: seq<Bucket>, b: seq<Bucket>, want: iset<Slot>)
    ensures Stored(a + b, want) == Stored(a, want) + Stored(b, want)
  {
    RowTotalBehind(a, b, |b|, want);
  }

  lemma StoredOne(b: Bucket, want: iset<Slot>)
    ensures Stored([b], want) == if b.slot in want then b.count else 0
  {
    assert RowTotal([b], 0, want) == 0;
  }

  /** What the entries of the aggregation map add to the wanted buckets. */
  ghost function MapTotal(m: map<Cell, int>, want: iset<Slot>): int
    decreases |m.Keys|
  {
    if m.Keys == {} then 0
    else
      var k :| k in m.Keys;
      Worth(k.slot, m[k], want) + MapTotal(m - {k}, want)
  }

  lemma {:induction false} MapTotalRemove(m: map<Cell, int>, k: Cell, want: iset<Slot>)
    requires k in m
    ensures MapTotal(m, want) == Worth(k.slot, m[k], want) + MapTotal(m - {k}, want)
    decreases |m.Keys|
  {
    var c :| c in m.Keys && MapTotal(m, want) == Worth(c.slot, m[c], want) + MapTotal(m - {c}, want);
    if c != k {
      MapTotalRemove(m - {c}, k, want);
      MapTotalRemove(m - {k}, c, want);
      assert m - {c} - {k} == m - {k} - {c};
    }
  }

  lemma MapTotalAdd(m: map<Cell, int>, k: Cell, count: int, want: iset<Slot>)
    ensures MapTotal(m[k := (if k in m then m[k] else 0) + count], want) == MapTotal(m, want) + Worth(k.slot, count, want)
  {
    var t := m[k := (if k in m then m[k] else 0) + count];
    MapTotalRemove(t, k, want);
    if k in m {
      MapTotalRemove(m, k, want);
      assert t - {k} == m - {k};
    } else {
      assert t - {k} == m;
    }
  }

  // ---- Aggregation ----------------------------------------------------------------------------

  /** The buckets carry exactly what the records carry, over whichever buckets one adds up. */
  ghost predicate Carries(buckets: seq<Bucket>, records: multiset<Record>, interval: int)
    requires interval > 0
  {
    forall want: iset<Slot> :: Stored(buckets, want) == Total(records, interval, want)
  }

  function CellOfBucket(b: Bucket): Cell {
    Cell(b.slot, b.location)
  }

  /** What the first n records add up to in one cell of the map. */
  ghost function CellTotal(records: seq<Record>, n: nat, interval: int, cell: Cell): int
    requires interval > 0 && n <= |records|
  {
    if n == 0 then 0
    else CellTotal(records, n - 1, interval, cell) + if CellOf(records[n - 1], interval) == cell then records[n - 1].count else 0
  }

  lemma {:induction false} NoRecordInCell(records: seq<Record>, n: nat, interval: int, cell: Cell)
    requires interval > 0 && n <= |records| && forall i :: 0 <= i < n ==> CellOf(records[i], interval) != cell
    ensures CellTotal(records, n, interval, cell) == 0
  {
    if n > 0 {
      NoRecordInCell(records, n - 1, interval, cell);
    }
  }

  /** The entries that are gone from left have become buckets, one each, with their counts. */
  ghost predicate Listed(out: seq<Bucket>, left: map<Cell, int>, agg: map<Cell, int>) {
    && left.Keys <= agg.Keys
    && (forall k | k in left :: left[k] == agg[k])
    && (forall b | b in out :: CellOfBucket(b) in agg && CellOfBucket(b) !in left && b.count == agg[CellOfBucket(b)])
    && (forall k | k in agg && k !in left :: exists b :: b in out && CellOfBucket(b) == k)
    && (forall i, j :: 0 <= i < j < |out| ==> CellOfBucket(out[i]) != CellOfBucket(out[j]))
  }

  lemma ListedNext(out: seq<Bucket>, left: map<Cell, int>, agg: map<Cell, int>, k: Cell)
    requires Listed(out, left, agg) && k in left
    ensures Listed(out + [Bucket(k.slot, k.location, left[k])], left - {k}, agg)
  {
    var b := Bucket(k.slot, k.location, left[k]);
    assert CellOfBucket(b) == k;
    forall c | c in agg && c !in left - {k} ensures exists x :: x in out + [b] && CellOfBucket(x) == c {
      if c == k {
        assert b in out + [b];
      } else {
        var x :| x in out && CellOfBucket(x) == c;
        assert x in out + [b];
      }
    }
  }

  lemma TotalsNext(out: seq<Bucket>, left: map<Cell, int>, k: Cell, want: iset<Slot>)
    requires k in left
    ensures Stored(out + [Bucket(k.slot, k.location, left[k])], want) + MapTotal(left - {k}, want)
      == Stored(out, want) + MapTotal(left, want)
  {
    var b := Bucket(k.slot, k.location, left[k]);
    MapTotalRemove(left, k, want);
    StoredConcat(out, [b], want);
    StoredOne(b, want);
  }

  method Aggregate(records: seq<Record>, interval: int) returns (out: seq<Bucket>)
    requires interval > 0
    ensures Carries(out, multiset(records), interval)
    ensures forall i, j :: 0 <= i < j < |out| ==> CellOfBucket(out[i]) != CellOfBucket(out[j])
    ensures forall b | b in out :: exists r :: r in records && CellOf(r, interval) == CellOfBucket(b)
    ensures forall r | r in records :: exists b :: b in out && CellOfBucket(b) == CellOf(r, interval)
    ensures forall b | b in out :: b.count == CellTotal(records, |records|, interval, CellOfBucket(b))
    ensures records != [] ==> out != []
  {
    hide Stored, MapTotal, CellTotal, Total, Listed, SumsUp, SlotOf;
    var agg := Count(records, interval);
    out := [];
    var left := agg;
    NothingStored();
    NothingListed(agg);
    while left.Keys != {}
      invariant forall want: iset<Slot> :: Stored(out, want) + MapTotal(left, want) == MapTotal(agg, want)
      invariant Listed(out, left, agg)
      decreases |left.Keys|
    {
      var k :| k in left.Keys;
      var b := Bucket(k.slot, k.location, left[k]);
      forall want: iset<Slot> ensures Stored(out + [b], want) + MapTotal(left - {k}, want) == MapTotal(agg, want) {
        TotalsNext(out, left, k, want);
      }
      ListedNext(out, left, agg, k);
      out := out + [b];
      left := left - {k};
    }
    NothingLeft(left);
    AllListed(out, left, agg, records, interval);
  }

  lemma NothingListed(agg: map<Cell, int>)
    ensures Listed([], agg, agg)
  {
  }

  lemma AllListed(out: seq<Bucket>, left: map<Cell, int>, agg: map<Cell, int>, records: seq<Record>, interval: int)
    requires interval > 0 && Listed(out, left, agg) && left.Keys == {} && SumsUp(agg, records, |records|, interval)
    ensures forall i, j :: 0 <= i < j < |out| ==> CellOfBucket(out[i]) != CellOfBucket(out[j])
    ensures forall b | b in out :: exists r :: r in records && CellOf(r, interval) == CellOfBucket(b)
    ensures forall r | r in records :: exists b :: b in out && CellOfBucket(b) == CellOf(r, interval)
    ensures forall b | b in out :: b.count == CellTotal(records, |records|, interval, CellOfBucket(b))
    ensures records != [] ==> out != []
  {
    hide CellOf, CellTotal, SumsUp;
    SumsUpMembers(agg, records, interval);
    if records != [] {
      assert records[0] in records;
    }
  }

  lemma SumsUpMembers(agg: map<Cell, int>, records: seq<Record>, interval: int)
    requires interval > 0 && SumsUp(agg, records, |records|, interval)
    ensures forall r | r in records :: CellOf(r, interval) in agg
    ensures forall k | k in agg :: agg[k] == CellTotal(records, |records|, interval, k)
    ensures forall k | k in agg :: exists r :: r in records && CellOf(r, interval) == k
  {
    hide CellOf, CellTotal;
    forall k | k in agg ensures exists r :: r in records && CellOf(r, interval) == k {
      var i :| 0 <= i < |records| && CellOf(records[i], interval) == k;
      assert records[i] in records;
    }
  }

  lemma NothingStored()
    ensures forall want: iset<Slot> :: Stored([], want) == 0
  {
  }

  lemma NothingLeft(left: map<Cell, int>)
    requires left.Keys == {}
    ensures forall want: iset<Slot> :: MapTotal(left, want) == 0
  {
  }

  ghost predicate Counts(agg: map<Cell, int>, m: multiset<Record>, interval: int)
    requires interval > 0
  {
    forall want: iset<Slot> :: MapTotal(agg, want) == Total(m, interval, want)
  }

  function Added(agg: map<Cell, int>, k: Cell, count: int): map<Cell, int> {
    agg[k := (if k in agg then agg[k] else 0) + count]
  }

  lemma CountsOneMore(agg: map<Cell, int>, m: multiset<Record>, r: Record, interval: int)
    requires interval > 0 && Counts(agg, m, interval)
    ensures Counts(Added(agg, CellOf(r, interval), r.count), m + multiset{r}, interval)
  {
    var k := CellOf(r, interval);
    forall want: iset<Slot> ensures MapTotal(Added(agg, k, r.count), want) == Total(m + multiset{r}, interval, want) {
      MapTotalAdd(agg, k, r.count, want);
      TotalUnion(m, multiset{r}, interval, want);
      TotalOne(r, interval, want);
    }
  }

  /** The map has an entry for each cell of the first n records, with what these add up to in it. */
  ghost predicate SumsUp(agg: map<Cell, int>, records: seq<Record>, n: nat, interval: int)
    requires interval > 0 && n <= |records|
  {
    && (forall i :: 0 <= i < n ==> CellOf(records[i], interval) in agg)
    && (forall k | k in agg :: exists i :: 0 <= i < n && CellOf(records[i], interval) == k)
    && (forall k | k in agg :: agg[k] == CellTotal(records, n, interval, k))
  }

  lemma SumsUpNext(agg: map<Cell, int>, records: seq<Record>, n: nat, interval: int)
    requires interval > 0 && n < |records| && SumsUp(agg, records, n, interval)
    ensures SumsUp(Added(agg, CellOf(records[n], interval), records[n].count), records, n + 1, interval)
  {
    hide SlotOf;
    var c := CellOf(records[n], interval);
    if c !in agg {
      NoRecordInCell(records, n, interval, c);
    }
    assert CellOf(records[n], interval) == c;
    forall k | k in Added(agg, c, records[n].count) ensures exists i :: 0 <= i < n + 1 && CellOf(records[i], interval) == k {
      if k != c {
        var i :| 0 <= i < n && CellOf(records[i], interval) == k;
      }
    }
  }

  /** The loop that adds up counts per slot. */
  method Count(records: seq<Record>, interval: int) returns (agg: map<Cell, int>)
    requires interval > 0
    ensures Counts(agg, multiset(records), interval)
    ensures SumsUp(agg, records, |records|, interval)
  {
    hide Counts, SumsUp;
    agg := map[];
    assert Counts(agg, multiset([]), interval) && SumsUp(agg, records, 0, interval) by { NothingCounted(records, interval); }
    assert records[..0] == [];
    for i := 0 to |records|
      invariant Counts(agg, multiset(records[..i]), interval)
      invariant SumsUp(agg, records, i, interval)
    {
      var r := records[i];
      assert records[..i + 1] == records[..i] + [r];
      CountsOneMore(agg, multiset(records[..i]), r, interval);
      SumsUpNext(agg, records, i, interval);
      agg := Added(agg, CellOf(r, interval), r.count);
    }
    assert records[..|records|] == records;
  }

  lemma NothingCounted(records: seq<Record>, interval: int)
    requires interval > 0
    ensures Counts(map[], multiset([]), interval) && SumsUp(map[], records, 0, interval)
  {
  }

  /** With all times in one location, as from one clock, each slot has one bucket. */
  lemma OneBucketPerSlot(records: seq<Record>, interval: int, out: seq<Bucket>, location: string)
    requires interval > 0 && forall r | r in records :: r.location == location
    requires forall i, j :: 0 <= i < j < |out| ==> CellOfBucket(out[i]) != CellOfBucket(out[j])
    requires forall b | b in out :: exists r :: r in records && CellOf(r, interval) == CellOfBucket(b)
    ensures forall i, j :: 0 <= i < j < |out| ==> out[i].slot != out[j].slot
  {
    forall i, j | 0 <= i < j < |out| ensures out[i].slot != out[j].slot {
      assert out[i] in out && out[j] in out;
      assert CellOfBucket(out[i]) != CellOfBucket(out[j]);
    }
  }
}
