/**
 Queries of the SQLite event store, which keeps timestamps as text and compares and sorts them as text, against the
 in-memory store, which compares times.
*/
module SqliteEvents {
  import opened EventStore
  import opened Prelude
  import opened Sorting
  import opened TimeText

  predicate Written(e: Event, q: QueryOptions) {
    && Writable(e.timestamp)
    && (q.start.Some? ==> Writable(q.start.value))
    && (q.end.Some? ==> Writable(q.end.value))
  }

  /** The WHERE clause. */
  predicate TextMatches(e: Event, q: QueryOptions)
    requires Written(e, q)
  {
    && (q.types != [] ==> e.kind in q.types)
    && (q.source != "" ==> e.source == q.source)
    && (q.start.Some? ==> !Before(Text(e.timestamp), Text(q.start.value)))
    && (q.end.Some? ==> !Before(Text(q.end.value), Text(e.timestamp)))
  }

  predicate Bounded(e: Event, q: QueryOptions) {
    (q.start.Some? && Clash(e.timestamp, q.start.value)) || (q.end.Some? && Clash(q.end.value, e.timestamp))
  }

  /** An event the query asks for is found if and only if its time does not clash with a bound of the query. */
  lemma FoundIff(e: Event, q: QueryOptions)
    requires Written(e, q) && Matches(e, q)
    ensures TextMatches(e, q) <==> !Bounded(e, q)
  {
    if q.start.Some? {
      SameSide(e.timestamp, q.start.value);
    }
    if q.end.Some? {
      SameSide(q.end.value, e.timestamp);
    }
  }

  predicate KindMatches(e: Event, q: QueryOptions) {
    (q.types != [] ==> e.kind in q.types) && (q.source != "" ==> e.source == q.source)
  }

  /** An event that is not asked for is returned if and only if its kind and source match and it clashes with exactly those
      bounds on whose wrong side it lies. */
  lemma ReturnedOutsideIff(e: Event, q: QueryOptions)
    requires Written(e, q) && !Matches(e, q)
    ensures TextMatches(e, q) <==>
      && KindMatches(e, q)
      && (q.start.Some? ==> (e.timestamp < q.start.value <==> Clash(e.timestamp, q.start.value)))
      && (q.end.Some? ==> (q.end.value < e.timestamp <==> Clash(q.end.value, e.timestamp)))
  {
    if q.start.Some? {
      SameSide(e.timestamp, q.start.value);
    }
    if q.end.Some? {
      SameSide(q.end.value, e.timestamp);
    }
  }

  /** So one that does not clash with a bound is left out, too. */
  lemma LeftOut(e: Event, q: QueryOptions)
    requires Written(e, q) && !Matches(e, q) && !Bounded(e, q)
    ensures !TextMatches(e, q)
  {
    ReturnedOutsideIff(e, q);
  }

  /** The event of a whole second is missed by a query for everything up to a later time within that second. */
  lemma MissedEvent(e: Event, q: QueryOptions, end: int)
    requires Writable(e.timestamp) && Nanos(e.timestamp) == 0 && e.timestamp < end < e.timestamp + NANOS
    requires q.types == [] && q.source == "" && q.start == None && q.end == Some(end)
    ensures Written(e, q) && Matches(e, q) && !TextMatches(e, q)
  {
    WholeSecondComesLast(e.timestamp, end);
  }

  /** And it is returned by a query for everything from such a time on. */
  lemma ReturnedTooEarly(e: Event, q: QueryOptions, start: int)
    requires Writable(e.timestamp) && Nanos(e.timestamp) == 0 && e.timestamp < start < e.timestamp + NANOS
    requires q.types == [] && q.source == "" && q.start == Some(start) && q.end == None
    ensures Written(e, q) && !Matches(e, q) && TextMatches(e, q)
  {
    WholeSecondComesLast(e.timestamp, start);
    BeforeIsOrder(Text(e.timestamp), Text(start));
  }

  // ---- Order ----------------------------------------------------------------------------------

  ghost predicate AllWritable(s: seq<Event>) {
    forall e | e in s :: Writable(e.timestamp)
  }

  /** ORDER BY timestamp ASC, on text. */
  ghost predicate TextSorted(r: seq<Event>)
    requires AllWritable(r)
  {
    forall i, j :: 0 <= i < j < |r| ==> !Before(Text(r[j].timestamp), Text(r[i].timestamp))
  }

  ghost predicate NoClash(s: seq<Event>) {
    forall a, b | a in s && b in s :: !Clash(a.timestamp, b.timestamp)
  }

  lemma SameMembers(r: seq<Event>, s: seq<Event>)
    requires multiset(r) == multiset(s)
    ensures forall e :: e in r <==> e in s
  {
    forall e ensures e in r <==> e in s {
      assert e in r <==> e in multiset(r);
      assert e in s <==> e in multiset(s);
    }
  }

  lemma WithoutClash(r: seq<Event>)
    requires AllWritable(r) && NoClash(r)
    ensures SortedBy(BY_TIME, r) <==> TextSorted(r)
  {
    forall i, j | 0 <= i < j < |r|
      ensures !Before(Text(r[j].timestamp), Text(r[i].timestamp)) <==> BY_TIME(r[i]) <= BY_TIME(r[j])
    {
      SameSide(r[j].timestamp, r[i].timestamp);
    }
  }

  lemma ClashingPair(r: seq<Event>, a: Event, b: Event)
    requires AllWritable(r) && a in r && b in r && Clash(a.timestamp, b.timestamp) && SortedBy(BY_TIME, r)
    ensures !TextSorted(r)
  {
    var i :| 0 <= i < |r| && r[i] == a;
    var j :| 0 <= j < |r| && r[j] == b;
    ClashingDiffer(a.timestamp, b.timestamp);
    assert BY_TIME(r[i]) != BY_TIME(r[j]);
    SameSide(a.timestamp, b.timestamp);
    SameSide(b.timestamp, a.timestamp);
  }

  /** Sorting the texts is sorting by time if and only if no two of the events clash. */
  lemma OrdersAgreeIff(s: seq<Event>)
    requires AllWritable(s)
    ensures NoClash(s) <==> forall r ::
      multiset(r) == multiset(s) && AllWritable(r) ==> (SortedBy(BY_TIME, r) <==> TextSorted(r))
  {
    if NoClash(s) {
      forall r | multiset(r) == multiset(s) && AllWritable(r) ensures SortedBy(BY_TIME, r) <==> TextSorted(r) {
        SameMembers(r, s);
        WithoutClash(r);
      }
    } else {
      var a, b :| a in s && b in s && Clash(a.timestamp, b.timestamp);
      var r := SortExists(BY_TIME, s);
      SameMembers(r, s);
      ClashingPair(r, a, b);
    }
  }

  // ---- Queries --------------------------------------------------------------------------------

  function TextSelected(s: seq<Event>, q: QueryOptions): seq<Event>
    requires forall e | e in s :: Written(e, q)
  {
    if s == [] then []
    else AddIf(TextSelected(s[..|s| - 1], q), TextMatches(s[|s| - 1], q), s[|s| - 1])
  }

  lemma {:induction false} SameSelection(s: seq<Event>, q: QueryOptions)
    requires forall e | e in s :: Written(e, q) && !Bounded(e, q)
    ensures TextSelected(s, q) == Selected(s, q)
    ensures forall e | e in Selected(s, q) :: e in s
  {
    if s != [] {
      var e := s[|s| - 1];
      SameSelection(s[..|s| - 1], q);
      if Matches(e, q) {
        FoundIff(e, q);
      } else {
        LeftOut(e, q);
      }
    }
  }

  /** What the database may return before offset and limit. */
  ghost predicate TextOrdered(r: seq<Event>, s: seq<Event>) {
    multiset(r) == multiset(s) && AllWritable(r) && TextSorted(r)
  }

  ghost predicate MemoryMayReturn(out: seq<Event>, s: seq<Event>, q: QueryOptions) {
    exists r :: Ordered(r, Selected(s, q)) && out == Window(r, q.offset, q.limit)
  }

  ghost predicate DatabaseMayReturn(out: seq<Event>, s: seq<Event>, q: QueryOptions)
    requires forall e | e in s :: Written(e, q)
  {
    exists r :: TextOrdered(r, TextSelected(s, q)) && out == Window(r, q.offset, q.limit)
  }

  ghost predicate SameAnswers(s: seq<Event>, q: QueryOptions)
    requires forall e | e in s :: Written(e, q)
  {
    forall out :: MemoryMayReturn(out, s, q) <==> DatabaseMayReturn(out, s, q)
  }

  /** Over the same events, without a clash among the times in play, the two stores may return the same, whatever offset
      and limit. */
  lemma StoresAgree(s: seq<Event>, q: QueryOptions)
    requires forall e | e in s :: Written(e, q) && !Bounded(e, q)
    requires NoClash(Selected(s, q))
    ensures SameAnswers(s, q)
  {
    SameSelection(s, q);
    var selected := Selected(s, q);
    OrdersAgreeIff(selected);
    forall r ensures Ordered(r, selected) <==> TextOrdered(r, selected) {
      if multiset(r) == multiset(selected) {
        SameMembers(r, selected);
        assert AllWritable(r);
      }
    }
  }

  lemma TwoArrangements<T>(r: seq<T>, a: T, b: T)
    requires multiset(r) == multiset([a, b])
    ensures r == [a, b] || r == [b, a]
  {
    SameSize(r, [a, b]);
    assert r == [r[0], r[1]];
    assert r[0] in multiset(r) && r[1] in multiset(r);
    assert multiset(r)[r[0]] > 0 && multiset{r[0], r[1]} == multiset{a, b};
  }

  /** An event on a whole second and one less than a second later come back in the wrong order. */
  lemma LaterEventComesFirst(a: Event, b: Event, r: seq<Event>)
    requires Nanos(a.timestamp) == 0 && a.timestamp < b.timestamp < a.timestamp + NANOS && Writable(a.timestamp)
    requires TextOrdered(r, [a, b])
    ensures r == [b, a]
  {
    hide Text, Nanos, Before, Writable;
    WholeSecondComesLast(a.timestamp, b.timestamp);
    TwoArrangements(r, a, b);
    assert TextSorted(r);
  }
}
