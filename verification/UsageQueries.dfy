/**
 What usage queries see. The store keeps the bounds of a bucket as text and compares them as text with the bounds of a
 query, so that a bucket can be left out, or added, although time says otherwise.
*/
module UsageQueries {
  import opened Prelude
  import opened TimeText
  import opened UsageCollector
  import opened UsageTotals

  datatype Query = Query(tenant: string, client: string, operation: string, unit: Option<string>, start: int, end: int)

  predicate FiltersMatch(q: Query, key: Key) {
    && (q.tenant != "" ==> key.tenant == q.tenant)
    && (q.client != "" ==> key.client == q.client)
    && (q.operation != "" ==> key.operation == q.operation)
    && (q.unit.Some? ==> key.unit == q.unit.value)
  }

  predicate Written(q: Query, slot: Slot) {
    Writable(q.start) && Writable(q.end) && Writable(slot.start) && Writable(slot.end)
  }

  /** The WHERE clause of AggregateByTenant: bucket_end >= start AND bucket_start <= end, on text. */
  predicate Selects(q: Query, slot: Slot)
    requires Written(q, slot)
  {
    !Before(Text(slot.end), Text(q.start)) && !Before(Text(q.end), Text(slot.start)) && FiltersMatch(q, slot.key)
  }

  /** What the clause is meant to say: bucket and time range touch. */
  predicate Touches(q: Query, slot: Slot) {
    slot.end >= q.start && slot.start <= q.end && FiltersMatch(q, slot.key)
  }

  /** A bucket that touches the range is found if and only if neither comparison is between clashing times. */
  lemma FoundIff(q: Query, slot: Slot)
    requires Written(q, slot) && Touches(q, slot)
    ensures Selects(q, slot) <==> !Clash(slot.end, q.start) && !Clash(q.end, slot.start)
  {
    SameSide(slot.end, q.start);
    SameSide(q.end, slot.start);
  }

  /** A bucket that does not touch the range is found if and only if the comparison that should keep it out is between
      clashing times and the other one is not. */
  lemma AddedIff(q: Query, slot: Slot)
    requires Written(q, slot) && !Touches(q, slot) && FiltersMatch(q, slot.key)
    requires q.start <= q.end && slot.start <= slot.end
    ensures Selects(q, slot)
      <==> if slot.end < q.start then Clash(slot.end, q.start) && !Clash(q.end, slot.start)
           else Clash(q.end, slot.start) && !Clash(slot.end, q.start)
  {
    SameSide(slot.end, q.start);
    SameSide(q.end, slot.start);
  }

  /** The rows summed up for one group of AggregateByTenant. */
  ghost function Group(q: Query, key: Key): iset<Slot> {
    iset slot: Slot | slot.key == key && Written(q, slot) && Selects(q, slot)
  }

  /** The group as it is meant. */
  ghost function InTime(q: Query, key: Key): iset<Slot> {
    iset slot: Slot | slot.key == key && Touches(q, slot)
  }

  ghost predicate Flushed(c: Collector) {
    c.queue == [] && c.flushers == map[] && c.lost == multiset{}
  }

  /** Once everything is flushed and no batch failed, each group of a query has the sum of the accepted records whose
      bucket the query selects, however the flushes were timed. */
  lemma QueriesSeeRecords(capacity: nat, interval: int, steps: seq<Step>, q: Query, key: Key)
    requires interval > 0 && IsRun(Fresh(capacity), interval, steps) && Flushed(Final(Fresh(capacity), interval, steps))
    ensures var c := Final(Fresh(capacity), interval, steps);
      Stored(c.rows, Group(q, key)) == Total(c.accepted, interval, Group(q, key))
  {
    TotalsAgree(capacity, interval, steps, Group(q, key));
  }

  /** Text and time agree on the bucket. */
  predicate Agreed(q: Query, slot: Slot) {
    Written(q, slot) && !Clash(slot.end, q.start) && !Clash(q.end, slot.start)
  }

  lemma AgreedGroups(q: Query, key: Key, slot: Slot)
    requires Agreed(q, slot)
    ensures slot in Group(q, key) <==> slot in InTime(q, key)
  {
    SameSide(slot.end, q.start);
    SameSide(q.end, slot.start);
  }

  lemma {:induction false} SameTotal(m: multiset<Record>, interval: int, a: iset<Slot>, b: iset<Slot>)
    requires interval > 0 && forall r | r in m :: SlotOf(r, interval) in a <==> SlotOf(r, interval) in b
    ensures Total(m, interval, a) == Total(m, interval, b)
    decreases |m|
  {
    if m != multiset{} {
      var r :| r in m;
      TotalRemove(m, r, interval, a);
      TotalRemove(m, r, interval, b);
      SameTotal(m - multiset{r}, interval, a, b);
    }
  }

  /** And that is the sum of the records whose bucket touches the time range, if no bucket of theirs has a bound that
      clashes with a bound of the query. */
  lemma QueriesSeeTime(capacity: nat, interval: int, steps: seq<Step>, q: Query, key: Key)
    requires interval > 0 && IsRun(Fresh(capacity), interval, steps) && Flushed(Final(Fresh(capacity), interval, steps))
    requires forall r | r in Final(Fresh(capacity), interval, steps).accepted :: Agreed(q, SlotOf(r, interval))
    ensures var c := Final(Fresh(capacity), interval, steps);
      Stored(c.rows, Group(q, key)) == Total(c.accepted, interval, InTime(q, key))
  {
    QueriesSeeRecords(capacity, interval, steps, q, key);
    var c := Final(Fresh(capacity), interval, steps);
    forall r | r in c.accepted ensures SlotOf(r, interval) in Group(q, key) <==> SlotOf(r, interval) in InTime(q, key) {
      AgreedGroups(q, key, SlotOf(r, interval));
    }
    SameTotal(c.accepted, interval, Group(q, key), InTime(q, key));
  }

  /** A record made within the time range is seen if and only if no bound of its bucket clashes with the query. */
  lemma InRangeIsSeenIff(r: Record, interval: int, q: Query)
    requires interval > 0 && q.start <= r.at <= q.end && FiltersMatch(q, r.key) && Written(q, SlotOf(r, interval))
    ensures SlotOf(r, interval) in Group(q, r.key)
      <==> !Clash(SlotOf(r, interval).end, q.start) && !Clash(q.end, SlotOf(r, interval).start)
  {
    InItsBucketOnly(r, interval, 0);
    FoundIff(q, SlotOf(r, interval));
  }

  // ---- Buckets of whole seconds ---------------------------------------------------------------

  lemma WholeSeconds(at: int, seconds: int)
    requires seconds > 0
    ensures Nanos(Truncate(at, seconds * NANOS)) == 0 && Nanos(Truncate(at, seconds * NANOS) + seconds * NANOS) == 0
  {
    var interval := seconds * NANOS;
    var k := at / interval;
    Quotient(at, interval);
    Multiple(k * seconds);
    Multiple(k * seconds + seconds);
    assert k * interval == k * seconds * NANOS;
    assert k * interval + interval == (k * seconds + seconds) * NANOS;
  }

  lemma Multiple(k: int)
    ensures k * NANOS % NANOS == 0
  {
  }

  /** With buckets of whole seconds, as by default, a record within the time range is missed if and only if the range ends
      within the first second of its bucket, at a fraction of a second. */
  lemma MissedIff(r: Record, seconds: int, q: Query)
    requires seconds > 0 && q.start <= r.at <= q.end && FiltersMatch(q, r.key) && Written(q, SlotOf(r, seconds * NANOS))
    ensures SlotOf(r, seconds * NANOS) !in Group(q, r.key)
      <==> Second(q.end) == Second(SlotOf(r, seconds * NANOS).start) && Nanos(q.end) != 0
  {
    var slot := SlotOf(r, seconds * NANOS);
    WholeSeconds(r.at, seconds);
    InItsBucketOnly(r, seconds * NANOS, 0);
    InRangeIsSeenIff(r, seconds * NANOS, q);
    WholeSecondClash(slot.end, q.start);
    WholeSecondClash(slot.start, q.end);
    InstantOrder(q.start, slot.end);
  }

  // ---- Examples -------------------------------------------------------------------------------

  /** 12:34:00 on the first of June 2025. */
  const NOON_34 := 63884378040 * NANOS
  const MS := 1_000_000

  const A_KEY := Key("t", "c", "/nodes", "read", "calls")

  lemma HalfASecond()
    ensures Tail(0) == "Z" && Tail(500 * MS) == ".5Z"
  {
    NoFraction(0);
    ZeroIsDropped(5, 1);
    ZeroIsDropped(50, 2);
    ZeroIsDropped(500, 3);
    ZeroIsDropped(5000, 4);
    ZeroIsDropped(50000, 5);
    ZeroIsDropped(500000, 6);
    ZeroIsDropped(5000000, 7);
    ZeroIsDropped(50000000, 8);
    assert Padded(5, 1) == "5";
  }

  lemma MinuteOf(r: Record, start: int)
    requires start % (60 * NANOS) == 0 && start <= r.at < start + 60 * NANOS
    ensures SlotOf(r, DEFAULT_BUCKET_INTERVAL) == SlotOf(r, 60 * NANOS) == Slot(r.key, start, start + 60 * NANOS)
  {
    var k := start / (60 * NANOS);
    InItsBucketOnly(r, 60 * NANOS, k);
  }

  lemma HalfASecondIn()
    ensures Second(NOON_34 + 500 * MS) == Second(NOON_34) && Nanos(NOON_34 + 500 * MS) == 500 * MS
    ensures Writable(NOON_34 + 500 * MS) && Writable(NOON_34) && Nanos(NOON_34) == 0 && Writable(NOON_34 + 60 * NANOS)
    ensures Writable(NOON_34 + 500 * MS - DAY_SECONDS * NANOS)
  {
  }

  /** Times more than a second apart are in order in text, too. */
  lemma FarApart(a: int, b: int)
    requires Writable(a) && Writable(b) && a + NANOS < b
    ensures !Before(Text(b), Text(a))
  {
    SameSide(b, a);
  }

  const DATE := Civil(2025, 6, 1, 12, 34, 0)

  lemma DateOfTheMinute()
    ensures DATE.Valid() && DATE.SecondNumber() == Second(NOON_34)
  {
  }

  /** How the start of the minute and half a second later are written, and that in text the start of the minute comes
      last. */
  lemma MinuteComesLast()
    ensures Writable(NOON_34) && Text(NOON_34) == Head(DATE) + "Z"
    ensures Writable(NOON_34 + 500 * MS) && Text(NOON_34 + 500 * MS) == Head(DATE) + ".5Z"
    ensures Before(Text(NOON_34 + 500 * MS), Text(NOON_34))
  {
    HalfASecondIn();
    HalfASecond();
    DateOfTheMinute();
    HeadOrder(DATE, ToCivil(Second(NOON_34)));
    WholeSecondClash(NOON_34, NOON_34 + 500 * MS);
    TextOrder(NOON_34 + 500 * MS, NOON_34);
  }

  /** Half a second past 12:34 on the first of June 2025, with the default range of the last 24 hours: the record made 0.3
      seconds before is not seen, because its minute starts at "...Z" and the range ends at "....5Z". */
  lemma RecentRecordIsMissed(r: Record, q: Query)
    requires r == Record(A_KEY, 1, NOON_34 + 200 * MS, "UTC") && q.end == NOON_34 + 500 * MS
    requires q == Query("", "", "", None, q.end - DAY_SECONDS * NANOS, q.end)
    ensures DATE.Valid() && Second(q.end) == DATE.SecondNumber()
    ensures var slot := SlotOf(r, DEFAULT_BUCKET_INTERVAL);
      && q.start <= r.at <= q.end && Touches(q, slot) && Written(q, slot)
      && Text(slot.start) == Head(DATE) + "Z" && Text(q.end) == Head(DATE) + ".5Z"
      && !Selects(q, slot) && slot !in Group(q, A_KEY)
  {
    hide Text, Before, Head, Clash;
    MinuteOf(r, NOON_34);
    HalfASecondIn();
    DateOfTheMinute();
    MinuteComesLast();
  }

  /** A query from half a second past 12:34 on counts all of the minute before it. */
  lemma EarlierMinuteIsAdded(r: Record, q: Query)
    requires r == Record(A_KEY, 1, NOON_34 - 59000 * MS, "UTC") && q.start == NOON_34 + 500 * MS
    requires q == Query("", "", "", None, q.start, q.start + DAY_SECONDS * NANOS)
    ensures DATE.Valid() && Second(q.start) == DATE.SecondNumber()
    ensures var slot := SlotOf(r, DEFAULT_BUCKET_INTERVAL);
      && slot.end < q.start && !Touches(q, slot) && Written(q, slot)
      && Text(slot.end) == Head(DATE) + "Z" && Text(q.start) == Head(DATE) + ".5Z"
      && Selects(q, slot) && slot in Group(q, A_KEY)
  {
    hide Text, Before, Head, Clash;
    MinuteOf(r, NOON_34 - 60 * NANOS);
    HalfASecondIn();
    DateOfTheMinute();
    MinuteComesLast();
    BeforeIsOrder(Text(NOON_34 + 500 * MS), Text(NOON_34));
    FarApart(NOON_34 - 60 * NANOS, q.end);
  }
}
