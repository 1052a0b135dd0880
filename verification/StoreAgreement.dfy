/** Exactly when the SQLite event store and the in-memory store may return the same for a query. */
module StoreAgreement {
  import opened EventStore
  import opened SqliteEvents
  import opened Sorting
  import opened TimeText

  function Times(r: seq<Event>): (ts: seq<int>)
    ensures |ts| == |r| && forall i :: 0 <= i < |r| ==> ts[i] == r[i].timestamp
  {
    seq(|r|, i requires 0 <= i < |r| => r[i].timestamp)
  }

  /** No time stands in front of an earlier one, whichever order earlier means. */
  ghost predicate Arranged(earlier: (int, int) -> bool, ts: seq<int>) {
    forall i, j :: 0 <= i < j < |ts| ==> !earlier(ts[j], ts[i])
  }

  ghost predicate Separates(earlier: (int, int) -> bool, r: seq<Event>) {
    forall a, b | a in r && b in r && a.timestamp != b.timestamp ::
      earlier(a.timestamp, b.timestamp) || earlier(b.timestamp, a.timestamp)
  }

  const IN_TIME: (int, int) -> bool := (a: int, b: int) => a < b
  const IN_TEXT: (int, int) -> bool := (a: int, b: int) => Writable(a) && Writable(b) && Before(Text(a), Text(b))

  lemma BothSeparate(r: seq<Event>)
    ensures Separates(IN_TIME, r) && (AllWritable(r) ==> Separates(IN_TEXT, r))
  {
    forall a, b | a in r && b in r && a.timestamp != b.timestamp && AllWritable(r)
      ensures IN_TEXT(a.timestamp, b.timestamp) || IN_TEXT(b.timestamp, a.timestamp)
    {
      SameSide(a.timestamp, b.timestamp);
      SameSide(b.timestamp, a.timestamp);
      if Clash(a.timestamp, b.timestamp) {
        ClashingDiffer(a.timestamp, b.timestamp);
      }
      if Clash(b.timestamp, a.timestamp) {
        ClashingDiffer(b.timestamp, a.timestamp);
      }
    }
  }

  lemma ArrangedIsSorted(r: seq<Event>)
    ensures SortedBy(BY_TIME, r) <==> Arranged(IN_TIME, Times(r))
    ensures AllWritable(r) ==> (TextSorted(r) <==> Arranged(IN_TEXT, Times(r)))
  {
    if SortedBy(BY_TIME, r) {
      forall i, j | 0 <= i < j < |r| ensures !IN_TIME(Times(r)[j], Times(r)[i]) {
        assert BY_TIME(r[i]) <= BY_TIME(r[j]);
      }
    }
    if Arranged(IN_TIME, Times(r)) {
      forall i, j | 0 <= i < j < |r| ensures BY_TIME(r[i]) <= BY_TIME(r[j]) {
        assert !IN_TIME(Times(r)[j], Times(r)[i]);
      }
    }
    if AllWritable(r) && Arranged(IN_TEXT, Times(r)) {
      forall i, j | 0 <= i < j < |r| ensures !Before(Text(r[j].timestamp), Text(r[i].timestamp)) {
        assert !IN_TEXT(Times(r)[j], Times(r)[i]);
      }
    }
  }

  lemma SwapSameTime(r: seq<Event>, m: nat, k: nat) returns (t: seq<Event>)
    requires m < |r| && k < |r| && r[m].timestamp == r[k].timestamp
    ensures multiset(t) == multiset(r) && Times(t) == Times(r) && |t| == |r| && t[k] == r[m]
    ensures forall i :: 0 <= i < |r| && i != m && i != k ==> t[i] == r[i]
  {
    t := r[m := r[k]][k := r[m]];
  }

  lemma SliceGrows<T>(r: seq<T>, i: nat, n: nat)
    requires i + n < |r|
    ensures r[i..i + n + 1] == r[i..i + n] + [r[i + n]]
  {
  }

  lemma FrontOf(out: seq<Event>, n: nat, b: seq<Event>)
    requires n < |out| && multiset(out) <= multiset(b)
    ensures out[..n + 1] == out[..n] + [out[n]] && multiset(out[..n + 1]) <= multiset(b)
  {
    assert out == out[..n + 1] + out[n + 1..];
  }

  lemma TimeAt(b: seq<Event>, i: nat, out: seq<Event>, k: nat)
    requires k < |out| && i + |out| <= |b| && Times(b)[i..i + |out|] == Times(out)
    ensures Times(b)[i + k] == out[k].timestamp
  {
    assert Times(b)[i..i + |out|][k] == Times(out)[k];
  }

  predicate InPlace(r: seq<Event>, i: nat, out: seq<Event>, n: nat) {
    n <= |out| && i + n <= |r| && r[i..i + n] == out[..n]
  }

  lemma NoneInPlace(r: seq<Event>, i: nat, out: seq<Event>)
    requires i <= |r|
    ensures InPlace(r, i, out, 0)
  {
  }

  /** Events of the same times may change places: the first n of out may stand from place i on. */
  lemma {:induction false} Rearranged(b: seq<Event>, i: nat, out: seq<Event>, n: nat) returns (r: seq<Event>)
    requires n <= |out| && i + |out| <= |b| && Times(b)[i..i + |out|] == Times(out) && multiset(out) <= multiset(b)
    ensures multiset(r) == multiset(b) && Times(r) == Times(b) && |r| == |b| && InPlace(r, i, out, n)
  {
    hide *;
    r := b;
    NoneInPlace(b, i, out);
    if n > 0 {
      var m := n - 1;
      var before := Rearranged(b, i, out, m);
      TimeAt(b, i, out, m);
      r := OneMoreInPlace(before, i, out, m);
    }
  }

  lemma OneMoreInPlace(b: seq<Event>, i: nat, out: seq<Event>, n: nat) returns (r: seq<Event>)
    requires n < |out| && i + n < |b| && InPlace(b, i, out, n) && Times(b)[i + n] == out[n].timestamp
    requires multiset(out) <= multiset(b)
    ensures multiset(r) == multiset(b) && Times(r) == Times(b) && |r| == |b| && InPlace(r, i, out, n + 1)
  {
    FrontOf(out, n, b);
    var m := OutsideOf(b, i, out[..n], out[n]);
    r := SwapSameTime(b, m, i + n);
    SameSlice(b, r, i, out[..n]);
    SliceGrows(r, i, n);
  }

  lemma SameSlice(b: seq<Event>, r: seq<Event>, i: nat, init: seq<Event>)
    requires |r| == |b| && i + |init| <= |b| && b[i..i + |init|] == init
    requires forall k :: i <= k < i + |init| ==> r[k] == b[k]
    ensures r[i..i + |init|] == init
  {
  }

  lemma OutsideOf(r: seq<Event>, i: nat, init: seq<Event>, x: Event) returns (m: nat)
    requires i + |init| <= |r| && r[i..i + |init|] == init && multiset(init + [x]) <= multiset(r)
    ensures m < |r| && r[m] == x && (m < i || m >= i + |init|)
  {
    var front, back := r[..i], r[i + |init|..];
    assert r == front + init + back;
    assert multiset(r)[x] >= multiset(init)[x] + 1;
    assert multiset(front)[x] + multiset(back)[x] > 0;
    if x in front {
      m :| 0 <= m < i && front[m] == x;
    } else {
      var k :| 0 <= k < |back| && back[k] == x;
      m := i + |init| + k;
    }
  }

  /** In either order the times come out in one way only. */
  lemma {:induction false} TimesAreUnique(earlier: (int, int) -> bool, a: seq<Event>, b: seq<Event>)
    requires multiset(a) == multiset(b) && Separates(earlier, a)
    requires Arranged(earlier, Times(a)) && Arranged(earlier, Times(b))
    ensures Times(a) == Times(b)
    decreases |a|
  {
    SameSize(a, b);
    if a != [] {
      SameMembers(a, b);
      var m := FirstTimesAgree(earlier, a, b);
      var c := BroughtToFront(b, m);
      TailElements(a);
      TailElements(c);
      RestSeparates(earlier, a);
      RestArranged(earlier, a);
      RestArranged(earlier, c);
      TimesAreUnique(earlier, a[1..], c[1..]);
      TimesOfRest(a, c);
    }
  }

  lemma RestArranged(earlier: (int, int) -> bool, a: seq<Event>)
    requires a != [] && Arranged(earlier, Times(a))
    ensures Arranged(earlier, Times(a[1..]))
  {
    assert Times(a[1..]) == Times(a)[1..];
  }

  lemma TimesOfRest(a: seq<Event>, c: seq<Event>)
    requires a != [] && |a| == |c| && a[0] == c[0] && Times(a[1..]) == Times(c[1..])
    ensures Times(a) == Times(c)
  {
    forall k | 1 <= k < |a| ensures Times(a)[k] == Times(c)[k] {
      assert Times(a[1..])[k - 1] == Times(c[1..])[k - 1];
    }
  }

  lemma BroughtToFront(b: seq<Event>, m: nat) returns (c: seq<Event>)
    requires m < |b| && b[m].timestamp == b[0].timestamp
    ensures multiset(c) == multiset(b) && Times(c) == Times(b) && |c| == |b| && c[0] == b[m]
  {
    c := SwapSameTime(b, m, 0);
  }

  lemma RestSeparates(earlier: (int, int) -> bool, a: seq<Event>)
    requires a != [] && Separates(earlier, a)
    ensures Separates(earlier, a[1..])
  {
    assert forall e | e in a[1..] :: e in a;
  }

  lemma FirstTimesAgree(earlier: (int, int) -> bool, a: seq<Event>, b: seq<Event>) returns (m: nat)
    requires |a| == |b| && a != [] && (forall e :: e in a <==> e in b) && Separates(earlier, a)
    requires Arranged(earlier, Times(a)) && Arranged(earlier, Times(b))
    ensures m < |b| && b[m] == a[0] && b[m].timestamp == b[0].timestamp
  {
    assert a[0] in b && b[0] in a;
    m :| 0 <= m < |b| && b[m] == a[0];
    var k :| 0 <= k < |a| && a[k] == b[0];
    assert m > 0 ==> !earlier(Times(b)[m], Times(b)[0]);
    assert k > 0 ==> !earlier(Times(a)[k], Times(a)[0]);
  }

  lemma {:induction false} SelectedCount(s: seq<Event>, q: QueryOptions, x: Event)
    requires forall e | e in s :: Written(e, q)
    ensures multiset(Selected(s, q))[x] == if Matches(x, q) then multiset(s)[x] else 0
    ensures multiset(TextSelected(s, q))[x] == if Written(x, q) && TextMatches(x, q) then multiset(s)[x] else 0
  {
    if s != [] {
      var init, e := s[..|s| - 1], s[|s| - 1];
      assert s == init + [e];
      SelectedCount(init, q, x);
    }
  }

  /** Returned is decided by the time, for events of the wanted kinds. */
  lemma TimeDecides(x: Event, y: Event, q: QueryOptions)
    requires Written(x, q) && Written(y, q) && x.timestamp == y.timestamp && KindMatches(x, q)
    ensures TextMatches(y, q) ==> TextMatches(x, q)
    ensures Matches(y, q) ==> Matches(x, q)
  {
  }

  lemma WindowTimes(r: seq<Event>, offset: int, limit: int)
    ensures Window(Times(r), offset, limit) == Times(Window(r, offset, limit))
  {
    var a, b := Window(Times(r), offset, limit), Times(Window(r, offset, limit));
    assert |a| == |b|;
    forall k | 0 <= k < |a| ensures a[k] == b[k] {
      assert b[k] == Window(r, offset, limit)[k].timestamp;
    }
  }

  /** Which part of a sequence of this length a window shows. */
  function WindowStart(length: nat, offset: int): nat {
    if offset <= 0 then 0 else if offset > length then length else offset
  }

  lemma WindowPlace<T>(r: seq<T>, offset: int, limit: int)
    ensures var w, i := Window(r, offset, limit), WindowStart(|r|, offset); i + |w| <= |r| && w == r[i..i + |w|]
  {
  }

  lemma SameWindow(r: seq<Event>, b: seq<Event>, offset: int, limit: int)
    requires |r| == |b|
    ensures var w, i := Window(b, offset, limit), WindowStart(|b|, offset);
      i + |w| <= |r| && Window(r, offset, limit) == r[i..i + |w|]
  {
  }

  /** What an arrangement b shows may be replaced by any events of the same times out of the same collection. */
  lemma ShowsInstead(b: seq<Event>, out: seq<Event>, offset: int, limit: int) returns (r: seq<Event>)
    requires Times(Window(b, offset, limit)) == Times(out) && multiset(out) <= multiset(b)
    ensures multiset(r) == multiset(b) && Times(r) == Times(b) && Window(r, offset, limit) == out
  {
    WindowPlace(b, offset, limit);
    var i := WindowStart(|b|, offset);
    var w := Window(b, offset, limit);
    assert |w| == |Times(w)| == |out|;
    assert Times(b)[i..i + |out|] == Times(w);
    r := Rearranged(b, i, out, |out|);
    assert out[..|out|] == out;
    assert |r| == |Times(r)| == |b|;
    SameWindow(r, b, offset, limit);
  }

  /** The two stores return events at the same times. */
  ghost predicate SameTimes(s: seq<Event>, q: QueryOptions)
    requires forall e | e in s :: Written(e, q)
  {
    exists a, b ::
      && Ordered(a, Selected(s, q)) && TextOrdered(b, TextSelected(s, q))
      && Times(Window(a, q.offset, q.limit)) == Times(Window(b, q.offset, q.limit))
  }

  /** Whatever one store may return, the other may return too, if it returns events at these times at all. */
  lemma MemoryThenDatabase(s: seq<Event>, q: QueryOptions, out: seq<Event>)
    requires forall e | e in s :: Written(e, q)
    requires SameTimes(s, q) && MemoryMayReturn(out, s, q)
    ensures DatabaseMayReturn(out, s, q)
  {
    var a, b :| Ordered(a, Selected(s, q)) && TextOrdered(b, TextSelected(s, q))
      && Times(Window(a, q.offset, q.limit)) == Times(Window(b, q.offset, q.limit));
    var r :| Ordered(r, Selected(s, q)) && out == Window(r, q.offset, q.limit);
    OrderedTimes(r, a, Selected(s, q));
    WindowTimes(r, q.offset, q.limit);
    WindowTimes(a, q.offset, q.limit);
    OutOfTextSelected(s, q, r, b, out);
    var t := ShowsInstead(b, out, q.offset, q.limit);
    SameMembers(t, b);
    ArrangedIsSorted(b);
    ArrangedIsSorted(t);
  }

  lemma OrderedTimes(r: seq<Event>, a: seq<Event>, s: seq<Event>)
    requires Ordered(r, s) && Ordered(a, s)
    ensures Times(r) == Times(a)
  {
    ArrangedIsSorted(r);
    ArrangedIsSorted(a);
    BothSeparate(r);
    TimesAreUnique(IN_TIME, r, a);
  }

  lemma TextOrderedTimes(r: seq<Event>, b: seq<Event>, s: seq<Event>)
    requires TextOrdered(r, s) && TextOrdered(b, s)
    ensures Times(r) == Times(b)
  {
    ArrangedIsSorted(r);
    ArrangedIsSorted(b);
    BothSeparate(r);
    TimesAreUnique(IN_TEXT, r, b);
  }

  /** A window shows part of what is there. */
  lemma WindowMembers(r: seq<Event>, offset: int, limit: int)
    ensures multiset(Window(r, offset, limit)) <= multiset(r)
  {
    WindowPlace(r, offset, limit);
    var w, i := Window(r, offset, limit), WindowStart(|r|, offset);
    assert r == r[..i] + w + r[i + |w|..];
  }

  lemma TimeShown(out: seq<Event>, b: seq<Event>, offset: int, limit: int, x: Event) returns (y: Event)
    requires Times(out) == Times(Window(b, offset, limit)) && x in out
    ensures y in b && y.timestamp == x.timestamp
  {
    var w := Window(b, offset, limit);
    var k :| 0 <= k < |out| && out[k] == x;
    assert |w| == |Times(w)| == |out|;
    assert Times(w)[k] == Times(out)[k];
    y := w[k];
    WindowMembers(b, offset, limit);
    assert y in multiset(w);
  }

  lemma OutOfTextSelected(s: seq<Event>, q: QueryOptions, r: seq<Event>, b: seq<Event>, out: seq<Event>)
    requires forall e | e in s :: Written(e, q)
    requires multiset(r) == multiset(Selected(s, q)) && multiset(b) == multiset(TextSelected(s, q))
    requires out == Window(r, q.offset, q.limit) && Times(out) == Times(Window(b, q.offset, q.limit))
    ensures multiset(out) <= multiset(b)
  {
    WindowMembers(r, q.offset, q.limit);
    forall x ensures multiset(out)[x] <= multiset(b)[x] {
      if x in out {
        SelectedCount(s, q, x);
        assert x in multiset(out);
        var y := TimeShown(out, b, q.offset, q.limit, x);
        SelectedCount(s, q, y);
        assert y in multiset(b);
        TimeDecides(x, y, q);
      }
    }
  }

  lemma OutOfSelected(s: seq<Event>, q: QueryOptions, a: seq<Event>, r: seq<Event>, out: seq<Event>)
    requires forall e | e in s :: Written(e, q)
    requires multiset(a) == multiset(Selected(s, q)) && multiset(r) == multiset(TextSelected(s, q))
    requires out == Window(r, q.offset, q.limit) && Times(out) == Times(Window(a, q.offset, q.limit))
    ensures multiset(out) <= multiset(a)
  {
    WindowMembers(r, q.offset, q.limit);
    forall x ensures multiset(out)[x] <= multiset(a)[x] {
      if x in out {
        SelectedCount(s, q, x);
        assert x in multiset(out);
        var y := TimeShown(out, a, q.offset, q.limit, x);
        SelectedCount(s, q, y);
        assert y in multiset(a);
        TimeDecides(x, y, q);
      }
    }
  }

  lemma DatabaseThenMemory(s: seq<Event>, q: QueryOptions, out: seq<Event>)
    requires forall e | e in s :: Written(e, q)
    requires SameTimes(s, q) && DatabaseMayReturn(out, s, q)
    ensures MemoryMayReturn(out, s, q)
  {
    var a, b :| Ordered(a, Selected(s, q)) && TextOrdered(b, TextSelected(s, q))
      && Times(Window(a, q.offset, q.limit)) == Times(Window(b, q.offset, q.limit));
    var r :| TextOrdered(r, TextSelected(s, q)) && out == Window(r, q.offset, q.limit);
    TextOrderedTimes(r, b, TextSelected(s, q));
    WindowTimes(r, q.offset, q.limit);
    WindowTimes(b, q.offset, q.limit);
    OutOfSelected(s, q, a, r, out);
    var t := ShowsInstead(a, out, q.offset, q.limit);
    ArrangedIsSorted(a);
    ArrangedIsSorted(t);
  }

  /** For any log and any query, offset and limit included: the stores may return the same if and only if they return events
      at the same times. Among events of one time both leave the order open. */
  lemma StoresAgreeIff(s: seq<Event>, q: QueryOptions)
    requires forall e | e in s :: Written(e, q)
    ensures SameAnswers(s, q) <==> SameTimes(s, q)
  {
    if SameTimes(s, q) {
      forall out ensures MemoryMayReturn(out, s, q) <==> DatabaseMayReturn(out, s, q) {
        if MemoryMayReturn(out, s, q) {
          MemoryThenDatabase(s, q, out);
        }
        if DatabaseMayReturn(out, s, q) {
          DatabaseThenMemory(s, q, out);
        }
      }
    }
    if SameAnswers(s, q) {
      var a := SortExists(BY_TIME, Selected(s, q));
      assert Ordered(a, Selected(s, q));
      assert MemoryMayReturn(Window(a, q.offset, q.limit), s, q);
      assert DatabaseMayReturn(Window(a, q.offset, q.limit), s, q);
    }
  }

  /** For a query without offset and limit that is the case if and only if every event is on the same side of the bounds in
      time and in text, and no two of the events asked for clash. */
  lemma WholeAnswersAgreeIff(s: seq<Event>, q: QueryOptions)
    requires (forall e | e in s :: Written(e, q)) && q.offset <= 0 && q.limit <= 0
    ensures SameAnswers(s, q) <==> (forall e | e in s :: Matches(e, q) <==> TextMatches(e, q)) && NoClash(Selected(s, q))
  {
    SelectedWritable(s, q);
    if SameAnswers(s, q) {
      SameAnswersSelectTheSame(s, q);
      forall r | multiset(r) == multiset(Selected(s, q)) && AllWritable(r) ensures SortedBy(BY_TIME, r) <==> TextSorted(r) {
        WholeAnswer(s, q, r);
      }
      OrdersAgreeIff(Selected(s, q));
    }
    if (forall e | e in s :: Matches(e, q) <==> TextMatches(e, q)) && NoClash(Selected(s, q)) {
      SelectTheSame(s, q);
      OrdersAgreeIff(Selected(s, q));
      forall r ensures Ordered(r, Selected(s, q)) <==> TextOrdered(r, Selected(s, q)) {
        if multiset(r) == multiset(Selected(s, q)) {
          SameMembers(r, Selected(s, q));
        }
      }
    }
  }

  lemma {:induction false} SelectedWritable(s: seq<Event>, q: QueryOptions)
    requires forall e | e in s :: Written(e, q)
    ensures AllWritable(Selected(s, q))
  {
    if s != [] {
      SelectedWritable(s[..|s| - 1], q);
      forall e | e in Selected(s, q) ensures Writable(e.timestamp) {
        assert e in Selected(s[..|s| - 1], q) || e == s[|s| - 1];
        assert s[|s| - 1] in s;
      }
    }
  }

  lemma {:induction false} SelectTheSame(s: seq<Event>, q: QueryOptions)
    requires (forall e | e in s :: Written(e, q)) && forall e | e in s :: Matches(e, q) <==> TextMatches(e, q)
    ensures TextSelected(s, q) == Selected(s, q)
  {
    if s != [] {
      SelectTheSame(s[..|s| - 1], q);
    }
  }

  lemma SameAnswersSelectTheSame(s: seq<Event>, q: QueryOptions)
    requires (forall e | e in s :: Written(e, q)) && q.offset <= 0 && q.limit <= 0 && SameAnswers(s, q)
    ensures multiset(Selected(s, q)) == multiset(TextSelected(s, q))
    ensures forall e | e in s :: Matches(e, q) <==> TextMatches(e, q)
  {
    var a := SortExists(BY_TIME, Selected(s, q));
    assert Ordered(a, Selected(s, q)) && Window(a, q.offset, q.limit) == a;
    assert MemoryMayReturn(a, s, q);
    assert DatabaseMayReturn(a, s, q);
    var b :| TextOrdered(b, TextSelected(s, q)) && a == Window(b, q.offset, q.limit);
    assert b == a;
    forall e | e in s ensures Matches(e, q) <==> TextMatches(e, q) {
      SelectedCount(s, q, e);
      assert e in multiset(s);
    }
  }

  lemma WholeAnswer(s: seq<Event>, q: QueryOptions, r: seq<Event>)
    requires (forall e | e in s :: Written(e, q)) && q.offset <= 0 && q.limit <= 0 && SameAnswers(s, q)
    requires multiset(r) == multiset(Selected(s, q)) == multiset(TextSelected(s, q)) && AllWritable(r)
    ensures SortedBy(BY_TIME, r) <==> TextSorted(r)
  {
    hide Selected, TextSelected, Matches, TextMatches, SortedBy, TextSorted, Written;
    assert r == Window(r, q.offset, q.limit);
    if SortedBy(BY_TIME, r) {
      assert Ordered(r, Selected(s, q));
      assert MemoryMayReturn(r, s, q);
      assert DatabaseMayReturn(r, s, q);
      var t :| TextOrdered(t, TextSelected(s, q)) && r == Window(t, q.offset, q.limit);
      assert t == r;
    }
    if TextSorted(r) {
      assert TextOrdered(r, TextSelected(s, q));
      assert DatabaseMayReturn(r, s, q);
      assert MemoryMayReturn(r, s, q);
      var t :| Ordered(t, Selected(s, q)) && r == Window(t, q.offset, q.limit);
      assert t == r;
    }
  }
}
