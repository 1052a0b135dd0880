/** Small vocabulary shared by the models: optional values, outcomes, and sums over finite maps. */
module Prelude {
  datatype Option<+T> = None | Some(value: T)

  datatype Outcome<+E> = Ok | Err(error: E)

  function AddIf<T>(s: seq<T>, wanted: bool, x: T): seq<T> {
    if wanted then s + [x] else s
  }

  /** Those of the first n elements that are wanted, in order. */
  function Keep<T>(s: seq<T>, n: nat, wanted: T -> bool): seq<T>
    requires n <= |s|
  {
    if n == 0 then [] else AddIf(Keep(s, n - 1, wanted), wanted(s[n - 1]), s[n - 1])
  }

  lemma {:induction false} KeepMembers<T>(s: seq<T>, n: nat, wanted: T -> bool)
    requires n <= |s|
    ensures forall x :: x in Keep(s, n, wanted) ==> x in s && wanted(x)
    ensures forall i :: 0 <= i < n && wanted(s[i]) ==> s[i] in Keep(s, n, wanted)
  {
    if n > 0 {
      KeepMembers(s, n - 1, wanted);
    }
  }

  /** picks names, in increasing order, positions among the first n of whole that give part. */
  ghost predicate Picks<T>(part: seq<T>, whole: seq<T>, n: nat, picks: seq<nat>)
    requires n <= |whole|
  {
    && |picks| == |part|
    && (forall i :: 0 <= i < |picks| ==> picks[i] < n && whole[picks[i]] == part[i])
    && (forall i, j :: 0 <= i < j < |picks| ==> picks[i] < picks[j])
  }

  lemma PicksNext<T>(part: seq<T>, whole: seq<T>, n: nat, picks: seq<nat>)
    requires n < |whole| && Picks(part, whole, n, picks)
    ensures Picks(part, whole, n + 1, picks) && Picks(part + [whole[n]], whole, n + 1, picks + [n])
  {
  }

  /** They are exactly the wanted ones among the first n positions. */
  ghost predicate PicksExactly<T>(part: seq<T>, whole: seq<T>, n: nat, picks: seq<nat>, wanted: nat -> bool)
    requires n <= |whole|
  {
    Picks(part, whole, n, picks) && forall k: nat :: k < n ==> (k in picks <==> wanted(k))
  }

  lemma PicksNone<T>(whole: seq<T>, wanted: nat -> bool)
    ensures PicksExactly([], whole, 0, [], wanted)
  {
  }

  lemma PicksExactlyNext<T>(part: seq<T>, whole: seq<T>, n: nat, picks: seq<nat>, wanted: nat -> bool)
    requires n < |whole| && PicksExactly(part, whole, n, picks, wanted)
    ensures PicksExactly(AddIf(part, wanted(n), whole[n]), whole, n + 1, AddIf(picks, wanted(n), n), wanted)
  {
    PicksNext(part, whole, n, picks);
    assert n !in picks;
    assert forall k: nat :: k in picks + [n] <==> k in picks || k == n;
  }

  function KeptAt<T>(s: seq<T>, n: nat, wanted: T -> bool): seq<nat>
    requires n <= |s|
  {
    if n == 0 then [] else AddIf(KeptAt(s, n - 1, wanted), wanted(s[n - 1]), n - 1)
  }

  lemma {:induction false} KeepInOrder<T>(s: seq<T>, n: nat, wanted: T -> bool)
    requires n <= |s|
    ensures Picks(Keep(s, n, wanted), s, n, KeptAt(s, n, wanted))
  {
    if n > 0 {
      KeepInOrder(s, n - 1, wanted);
      PicksNext(Keep(s, n - 1, wanted), s, n - 1, KeptAt(s, n - 1, wanted));
    }
  }

  lemma {:induction false} KeepIsComplete<T>(s: seq<T>, n: nat, wanted: T -> bool, k: nat)
    requires k < n <= |s| && wanted(s[k])
    ensures k in KeptAt(s, n, wanted)
  {
    if k < n - 1 {
      KeepIsComplete(s, n - 1, wanted, k);
    }
  }

  /** The sum of the values of a finite map. */
  ghost function Sum<K>(m: map<K, nat>): nat
    decreases |m.Keys|
  {
    if m.Keys == {} then 0
    else
      var k :| k in m.Keys;
      m[k] + Sum(m - {k})
  }

  lemma MinusTwo<K, V>(m: map<K, V>, a: K, b: K)
    ensures m - {a} - {b} == m - {b} - {a}
  {
  }

  /** Any key may be taken out first. */
  lemma {:induction false} SumRemove<K>(m: map<K, nat>, k: K)
    requires k in m
    ensures Sum(m) == m[k] + Sum(m - {k})
    decreases |m.Keys|
  {
    var c :| c in m.Keys && Sum(m) == m[c] + Sum(m - {c});
    if c != k {
      SumRemove(m - {c}, k);
      SumRemove(m - {k}, c);
      assert m - {c} - {k} == m - {k} - {c};
    }
  }

  lemma SumUpdate<K>(m: map<K, nat>, k: K, v: nat)
    ensures Sum(m[k := v]) + (if k in m then m[k] else 0) == Sum(m) + v
  {
    SumRemove(m[k := v], k);
    if k in m {
      SumRemove(m, k);
      assert m[k := v] - {k} == m - {k};
    } else {
      assert m[k := v] - {k} == m;
    }
  }

  lemma {:induction false} SumZero<K>(m: map<K, nat>)
    requires forall k | k in m :: m[k] == 0
    ensures Sum(m) == 0
    decreases |m.Keys|
  {
    if m.Keys != {} {
      var k :| k in m.Keys;
      SumRemove(m, k);
      SumZero(m - {k});
    }
  }

  lemma {:induction false} SumPlus<K>(a: map<K, nat>, b: map<K, nat>, c: map<K, nat>)
    requires a.Keys == b.Keys == c.Keys
    requires forall k | k in c :: c[k] == a[k] + b[k]
    ensures Sum(c) == Sum(a) + Sum(b)
    decreases |c.Keys|
  {
    if c.Keys == {} {
      assert a == b == c;
    } else {
      var k :| k in c.Keys;
      SumRemove(a, k);
      SumRemove(b, k);
      SumRemove(c, k);
      SumPlus(a - {k}, b - {k}, c - {k});
    }
  }

  /** A set of keys whose values are all positive is no larger than the sum. */
  lemma {:induction false} CountAtMostSum<K>(m: map<K, nat>, ks: set<K>)
    requires ks <= m.Keys
    requires forall k | k in ks :: m[k] > 0
    ensures |ks| <= Sum(m)
    decreases |ks|
  {
    if ks != {} {
      var k :| k in ks;
      SumRemove(m, k);
      CountAtMostSum(m - {k}, ks - {k});
    }
  }

  /** The image of a finite set is no larger than the set. */
  lemma {:induction false} ImageSize<A, B>(f: map<A, B>, as_: set<A>, bs: set<B>)
    requires as_ <= f.Keys
    requires forall b | b in bs :: exists a :: a in as_ && f[a] == b
    ensures |bs| <= |as_|
    decreases |as_|
  {
    if bs != {} {
      var b :| b in bs;
      var a :| a in as_ && f[a] == b;
      forall b' | b' in bs - {b} ensures exists a' :: a' in as_ - {a} && f[a'] == b' {
        var a' :| a' in as_ && f[a'] == b';
        assert a' in as_ - {a};
      }
      ImageSize(f, as_ - {a}, bs - {b});
    }
  }
}
