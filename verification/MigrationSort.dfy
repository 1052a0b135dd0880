/** The migrator's sort: an insertion sort by swaps, in place, that keeps equal versions in order. */
module MigrationSort {
  import opened Prelude
  import opened Sorting

  datatype Migration = Migration(version: int, name: string, up: string)

  const BY_VERSION: Migration -> int := (m: Migration) => m.version

  /** Where x goes among the first j: behind the last that is not greater, looking from the end. */
  function Spot(s: seq<Migration>, x: Migration, j: nat): (k: nat)
    requires j <= |s|
    ensures k <= j
  {
    if j == 0 || s[j - 1].version <= x.version then j else Spot(s, x, j - 1)
  }

  lemma {:induction false} SpotIsBetween(s: seq<Migration>, x: Migration, j: nat)
    requires j <= |s|
    ensures var k := Spot(s, x, j);
      (k > 0 ==> s[k - 1].version <= x.version) && forall i :: k <= i < j ==> s[i].version > x.version
  {
    if j > 0 && s[j - 1].version > x.version {
      SpotIsBetween(s, x, j - 1);
    }
  }

  function Place(s: seq<Migration>, x: Migration): seq<Migration> {
    InsertAt(s, Spot(s, x, |s|), x)
  }

  /** The first n elements, each placed behind those not greater. */
  function Placed(s: seq<Migration>, n: nat): (r: seq<Migration>)
    requires n <= |s|
    ensures |r| == n
  {
    if n == 0 then [] else Place(Placed(s, n - 1), s[n - 1])
  }

  function StableSort(s: seq<Migration>): seq<Migration> {
    Placed(s, |s|)
  }

  /** Those of the first n elements that have the version. */
  function WithVersion(s: seq<Migration>, n: nat, v: int): seq<Migration>
    requires n <= |s|
  {
    if n == 0 then [] else AddIf(WithVersion(s, n - 1, v), s[n - 1].version == v, s[n - 1])
  }

  lemma {:induction false} WithVersionPrefix(a: seq<Migration>, b: seq<Migration>, n: nat, v: int)
    requires n <= |a| && n <= |b| && forall i :: 0 <= i < n ==> a[i] == b[i]
    ensures WithVersion(a, n, v) == WithVersion(b, n, v)
  {
    if n > 0 {
      WithVersionPrefix(a, b, n - 1, v);
    }
  }

  /** An element put before greater ones only comes last among those of its version. */
  lemma {:induction false} InsertedLast(s: seq<Migration>, j: nat, x: Migration, n: nat, v: int)
    requires j <= n <= |s| && forall i :: j <= i < |s| ==> s[i].version > x.version
    ensures WithVersion(InsertAt(s, j, x), n + 1, v) == AddIf(WithVersion(s, n, v), x.version == v, x)
  {
    if n == j {
      WithVersionPrefix(InsertAt(s, j, x), s, j, v);
    } else {
      InsertedLast(s, j, x, n - 1, v);
      assert InsertAt(s, j, x)[n] == s[n - 1];
    }
  }

  lemma PlaceSorts(r: seq<Migration>, x: Migration, v: int)
    requires SortedBy(BY_VERSION, r)
    ensures SortedBy(BY_VERSION, Place(r, x))
    ensures WithVersion(Place(r, x), |r| + 1, v) == AddIf(WithVersion(r, |r|, v), x.version == v, x)
  {
    var j := Spot(r, x, |r|);
    SpotIsBetween(r, x, |r|);
    assert j > 0 ==> BY_VERSION(r[j - 1]) <= BY_VERSION(x);
    assert j < |r| ==> BY_VERSION(x) <= BY_VERSION(r[j]);
    InsertKeepsOrder(BY_VERSION, r, j, x);
    InsertedLast(r, j, x, |r|, v);
  }

  lemma {:induction false} PlacedInOrder(s: seq<Migration>, n: nat)
    requires n <= |s|
    ensures SortedBy(BY_VERSION, Placed(s, n))
  {
    if n > 0 {
      PlacedInOrder(s, n - 1);
      PlaceSorts(Placed(s, n - 1), s[n - 1], 0);
    }
  }

  lemma {:induction false} PlacedIsStable(s: seq<Migration>, n: nat, v: int)
    requires n <= |s|
    ensures WithVersion(Placed(s, n), n, v) == WithVersion(s, n, v)
  {
    if n > 0 {
      PlacedInOrder(s, n - 1);
      PlacedIsStable(s, n - 1, v);
      PlaceSorts(Placed(s, n - 1), s[n - 1], v);
    }
  }

  lemma PlaceKeepsElements(r: seq<Migration>, x: Migration)
    ensures multiset(Place(r, x)) == multiset(r) + multiset{x}
  {
    InsertKeepsElements(r, Spot(r, x, |r|), x);
  }

  lemma PlacedAddsOne(s: seq<Migration>, n: nat)
    requires 0 < n <= |s|
    ensures multiset(Placed(s, n)) == multiset(Placed(s, n - 1)) + multiset{s[n - 1]}
  {
    PlaceKeepsElements(Placed(s, n - 1), s[n - 1]);
  }

  /** The first n elements, counted. */
  function Front(s: seq<Migration>, n: nat): multiset<Migration>
    requires n <= |s|
  {
    if n == 0 then multiset{} else Front(s, n - 1) + multiset{s[n - 1]}
  }

  lemma {:induction false} FrontIsPrefix(s: seq<Migration>, n: nat)
    requires n <= |s|
    ensures Front(s, n) == multiset(s[..n])
  {
    if n > 0 {
      FrontIsPrefix(s, n - 1);
      assert s[..n] == s[..n - 1] + [s[n - 1]];
    }
  }

  lemma {:induction false} PlacedKeepsElements(s: seq<Migration>, n: nat)
    requires n <= |s|
    ensures multiset(Placed(s, n)) == Front(s, n)
  {
    if n > 0 {
      PlacedKeepsElements(s, n - 1);
      PlacedAddsOne(s, n);
    }
  }

  /** A stable sorting permutation: ascending, the same elements, equal versions in their old order. */
  lemma StableSortSorts(s: seq<Migration>, v: int)
    ensures SortedBy(BY_VERSION, StableSort(s)) && multiset(StableSort(s)) == multiset(s)
    ensures |StableSort(s)| == |s| && WithVersion(StableSort(s), |s|, v) == WithVersion(s, |s|, v)
  {
    PlacedInOrder(s, |s|);
    PlacedIsStable(s, |s|, v);
    PlacedKeepsElements(s, |s|);
    FrontIsPrefix(s, |s|);
    assert s[..|s|] == s;
  }

  /** Sorting what is already sorted moves nothing. */
  lemma {:induction false} PlacedStays(s: seq<Migration>, n: nat)
    requires n <= |s| && SortedBy(BY_VERSION, s)
    ensures Placed(s, n) == s[..n]
  {
    if n > 0 {
      PlacedStays(s, n - 1);
      assert n > 1 ==> BY_VERSION(s[n - 2]) <= BY_VERSION(s[n - 1]);
      assert Spot(s[..n - 1], s[n - 1], n - 1) == n - 1;
      assert InsertAt(s[..n - 1], n - 1, s[n - 1]) == s[..n];
    }
  }

  lemma SortingTwice(s: seq<Migration>)
    ensures StableSort(StableSort(s)) == StableSort(s)
  {
    var t := StableSort(s);
    StableSortSorts(s, 0);
    PlacedStays(t, |t|);
    assert t[..|t|] == t;
  }

  /** The inner loop: swaps the element at i down while its predecessor is greater. */
  method SinkDown(a: array<Migration>, i: nat)
    requires i < a.Length
    modifies a
    ensures a[..i + 1] == Place(old(a[..i]), old(a[i]))
    ensures forall k :: i < k < a.Length ==> a[k] == old(a[k])
  {
    ghost var s, x := a[..i], a[i];
    var j := i;
    while j > 0 && a[j - 1].version > a[j].version
      invariant j <= i && a[j] == x && Spot(s, x, i) == Spot(s, x, j)
      invariant forall k :: 0 <= k < j ==> a[k] == s[k]
      invariant forall k :: j < k <= i ==> a[k] == s[k - 1]
      invariant forall k :: i < k < a.Length ==> a[k] == old(a[k])
    {
      a[j - 1], a[j] := a[j], a[j - 1];
      j := j - 1;
    }
    ghost var r := InsertAt(s, j, x);
    assert forall k :: 0 <= k <= i ==> a[k] == r[k];
    assert a[..i + 1] == r;
  }

  method SortMigrations(a: array<Migration>)
    modifies a
    ensures a[..] == StableSort(old(a[..]))
  {
    ghost var s := a[..];
    var i := 0;
    if a.Length > 0 {
      i := 1;
      assert Placed(s, 1) == Place(Placed(s, 0), s[0]);
    }
    while i < a.Length
      invariant i <= a.Length
      invariant a[..i] == Placed(s, i)
      invariant forall k :: i <= k < a.Length ==> a[k] == s[k]
    {
      SinkDown(a, i);
      i := i + 1;
    }
  }
}
