/** What the sort calls of the source promise: an ordered rearrangement, with nothing said about ties. */
module Sorting {
  ghost predicate SortedBy<T>(key: T -> int, s: seq<T>) {
    forall i, j :: 0 <= i < j < |s| ==> key(s[i]) <= key(s[j])
  }

  function InsertAt<T>(s: seq<T>, j: nat, x: T): (r: seq<T>)
    requires j <= |s|
    ensures |r| == |s| + 1
    ensures forall m :: 0 <= m < |r| ==> r[m] == if m < j then s[m] else if m == j then x else s[m - 1]
  {
    s[..j] + [x] + s[j..]
  }

  lemma InsertKeepsElements<T>(s: seq<T>, j: nat, x: T)
    requires j <= |s|
    ensures multiset(InsertAt(s, j, x)) == multiset(s) + multiset{x}
  {
    assert s == s[..j] + s[j..];
  }

  lemma InsertKeepsOrder<T>(key: T -> int, s: seq<T>, j: nat, x: T)
    requires j <= |s| && SortedBy(key, s)
    requires j > 0 ==> key(s[j - 1]) <= key(x)
    requires j < |s| ==> key(x) <= key(s[j])
    ensures SortedBy(key, InsertAt(s, j, x))
  {
  }

  /** A sort by integer key that leaves the order of equal keys open. */
  method SortSlice<T>(key: T -> int, s: seq<T>) returns (r: seq<T>)
    ensures multiset(r) == multiset(s)
    ensures |r| == |s|
    ensures SortedBy(key, r)
  {
    r := [];
    for i := 0 to |s|
      invariant |r| == i
      invariant multiset(r) == multiset(s[..i])
      invariant SortedBy(key, r)
    {
      var j := i;
      while j > 0 && key(s[i]) < key(r[j - 1])
        invariant 0 <= j <= i
        invariant j < i ==> key(s[i]) <= key(r[j])
      {
        j := j - 1;
      }
      assert s[..i + 1] == s[..i] + [s[i]];
      InsertKeepsElements(r, j, s[i]);
      InsertKeepsOrder(key, r, j, s[i]);
      r := InsertAt(r, j, s[i]);
    }
    assert s[..|s|] == s;
  }

  /** Each of the first n elements is followed only by elements of greater key, or by copies of itself. */
  ghost predicate Rigid<T>(key: T -> int, s: seq<T>, n: nat) {
    forall i, j :: 0 <= i < j < |s| && i < n ==> key(s[i]) < key(s[j]) || s[i] == s[j]
  }

  lemma SortedHeads<T>(key: T -> int, a: seq<T>, b: seq<T>)
    requires multiset(a) == multiset(b) && a != [] && b != []
    requires Rigid(key, a, 1) && SortedBy(key, b)
    ensures a[0] == b[0]
  {
    assert b[0] in multiset(a) && a[0] in multiset(b);
    var i :| 0 <= i < |a| && a[i] == b[0];
    var j :| 0 <= j < |b| && b[j] == a[0];
  }

  lemma TailElements<T>(a: seq<T>)
    requires a != []
    ensures multiset(a[1..]) == multiset(a) - multiset{a[0]}
  {
    assert a == [a[0]] + a[1..];
  }

  lemma TailsAgree<T>(key: T -> int, a: seq<T>, b: seq<T>, n: nat)
    requires multiset(a) == multiset(b) && a != [] && b != [] && n > 0
    requires Rigid(key, a, n) && SortedBy(key, b)
    ensures a[0] == b[0]
    ensures multiset(a[1..]) == multiset(b[1..]) && Rigid(key, a[1..], n - 1) && SortedBy(key, b[1..])
  {
    SortedHeads(key, a, b);
    TailElements(a);
    TailElements(b);
  }

  lemma SameSize<T>(a: seq<T>, b: seq<T>)
    requires multiset(a) == multiset(b)
    ensures |a| == |b|
  {
    assert |a| == |multiset(a)| == |multiset(b)| == |b|;
  }

  /** Sorting leaves a rigid front part where it is. */
  lemma {:induction false} SortedFrontIsUnique<T>(key: T -> int, a: seq<T>, b: seq<T>, n: nat)
    requires multiset(a) == multiset(b) && n <= |a|
    requires Rigid(key, a, n) && SortedBy(key, b)
    ensures |a| == |b| && a[..n] == b[..n]
    decreases n
  {
    SameSize(a, b);
    if n > 0 {
      TailsAgree(key, a, b, n);
      SortedFrontIsUnique(key, a[1..], b[1..], n - 1);
      assert a[..n] == [a[0]] + a[1..][..n - 1];
      assert b[..n] == [b[0]] + b[1..][..n - 1];
    }
  }

  /** Where an element may be inserted, found from the end. */
  lemma Place<T>(key: T -> int, s: seq<T>, x: T) returns (j: nat)
    ensures j <= |s| && (j > 0 ==> key(s[j - 1]) <= key(x)) && (j < |s| ==> key(x) <= key(s[j]))
  {
    j := |s|;
    while j > 0 && key(x) < key(s[j - 1])
      invariant 0 <= j <= |s| && (j < |s| ==> key(x) <= key(s[j]))
    {
      j := j - 1;
    }
  }

  lemma {:induction false} SortExists<T>(key: T -> int, s: seq<T>) returns (r: seq<T>)
    ensures multiset(r) == multiset(s) && SortedBy(key, r)
    decreases |s|
  {
    if s == [] {
      r := [];
    } else {
      var x := s[|s| - 1];
      var before := SortExists(key, s[..|s| - 1]);
      var j := Place(key, before, x);
      InsertKeepsElements(before, j, x);
      InsertKeepsOrder(key, before, j, x);
      assert s == s[..|s| - 1] + [x];
      r := InsertAt(before, j, x);
    }
  }

  lemma SwapKeepsElements<T>(s: seq<T>, i: nat, j: nat)
    requires i < j < |s|
    ensures multiset(s[i := s[j]][j := s[i]]) == multiset(s)
  {
  }

  lemma SwapKeepsOrder<T>(key: T -> int, s: seq<T>, i: nat, j: nat)
    requires i < j < |s| && key(s[i]) == key(s[j]) && SortedBy(key, s)
    ensures SortedBy(key, s[i := s[j]][j := s[i]])
  {
  }

  lemma BackElements<T>(s: seq<T>, r: seq<T>, n: nat)
    requires multiset(r) == multiset(s) && |r| == |s| && n <= |s| && r[..n] == s[..n]
    ensures multiset(r[n..]) == multiset(s[n..])
  {
    assert s == s[..n] + s[n..];
    assert r == r[..n] + r[n..];
    assert multiset(s) == multiset(s[..n]) + multiset(s[n..]);
    assert multiset(r) == multiset(r[..n]) + multiset(r[n..]);
    assert multiset(r[n..]) == multiset(r) - multiset(r[..n]);
    assert multiset(s[n..]) == multiset(s) - multiset(s[..n]);
  }

  /** Where an element of s is in an arrangement of s that has the same first n elements. */
  lemma Elsewhere<T>(s: seq<T>, r: seq<T>, n: nat, j: nat) returns (k: nat)
    requires multiset(r) == multiset(s) && |r| == |s| && n <= |s| && r[..n] == s[..n] && j < |s|
    ensures k < |r| && r[k] == s[j] && (if j < n then k == j else n <= k)
  {
    if j < n {
      k := j;
      assert r[j] == r[..n][j] == s[..n][j];
    } else {
      BackElements(s, r, n);
      assert s[n..][j - n] == s[j];
      assert s[j] in multiset(s[n..]) && s[j] in multiset(r[n..]);
      var m :| 0 <= m < |r| - n && r[n..][m] == s[j];
      k := n + m;
    }
  }

  /** An element that ties with, or belongs behind, a different later one can be moved by a sort. */
  lemma SortMayMove<T>(key: T -> int, s: seq<T>, n: nat, i: nat, j: nat) returns (r: seq<T>)
    requires i < j < |s| && i < n <= |s| && key(s[i]) >= key(s[j]) && s[i] != s[j]
    ensures multiset(r) == multiset(s) && |r| == |s| && SortedBy(key, r) && r[..n] != s[..n]
  {
    r := SortExists(key, s);
    SameSize(r, s);
    if r[..n] == s[..n] {
      var k := Elsewhere(s, r, n, j);
      assert r[i] == r[..n][i] == s[..n][i];
      assert key(r[i]) == key(r[k]);
      SwapKeepsElements(r, i, k);
      SwapKeepsOrder(key, r, i, k);
      r := r[i := r[k]][k := r[i]];
      assert r[..n][i] != s[..n][i];
    }
  }

  /** Every sort agrees on the first n elements exactly when they are rigid. */
  lemma FrontIsForcedIff<T(!new)>(key: T -> int, s: seq<T>, n: nat)
    requires n <= |s|
    ensures Rigid(key, s, n) <==> forall r :: multiset(r) == multiset(s) && SortedBy(key, r) ==> |r| == |s| && r[..n] == s[..n]
  {
    if Rigid(key, s, n) {
      forall r | multiset(r) == multiset(s) && SortedBy(key, r) ensures |r| == |s| && r[..n] == s[..n] {
        SortedFrontIsUnique(key, s, r, n);
      }
    } else {
      var i, j :| 0 <= i < j < |s| && i < n && key(s[i]) >= key(s[j]) && s[i] != s[j];
      var r := SortMayMove(key, s, n, i, j);
    }
  }
}
