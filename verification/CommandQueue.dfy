/** The map-based priority queue: its operations as the source performs them, and the order in which it drains. */
module CommandQueue {
  import opened Prelude
  import opened CommandProtocol
  import opened CommandInvariants
  import opened Sorting

  lemma OneMore<T>(all: set<T>, seen: set<T>, x: T)
    requires x !in seen
    ensures |all * (seen + {x})| == |all * seen| + (if x in all then 1 else 0)
  {
    assert all * (seen + {x}) == all * seen + (if x in all then {x} else {});
  }

  /** An item as it is handed in: its status may be empty and its arrival time zero. */
  datatype Submission = Submission(
    id: Id, priority: int, status: Option<Status>, enqueuedAt: Option<int>, sentAt: Option<int>, ackedAt: Option<int>,
    retryCount: nat, error: string)

  class PriorityQueue {
    var items: map<Id, Item>

    constructor ()
      ensures items == map[]
    {
      items := map[];
    }

    /** now is the time a clock would give. */
    method Enqueue(item: Option<Submission>, now: int) returns (r: Outcome<string>)
      modifies this
      ensures r.Ok? <==> item.Some? && item.value.id != "" && item.value.id !in old(items)
      ensures r.Err? ==> items == old(items)
      ensures r.Ok? ==>
        var x := item.value;
        var status := if x.status.Some? then x.status.value else Queued;
        var arrival := if x.enqueuedAt.Some? then x.enqueuedAt.value else now;
        items == old(items)[x.id := Item(x.priority, status, arrival, x.sentAt, x.ackedAt, x.retryCount, x.error)]
    {
      if item.None? {
        return Err("no item");
      }
      var x := item.value;
      if x.id == "" {
        return Err("empty commandId");
      }
      if x.id in items {
        return Err("command exists");
      }
      if x.status.None? {
        x := x.(status := Some(Queued));
      }
      if x.enqueuedAt.None? {
        x := x.(enqueuedAt := Some(now));
      }
      items := items[x.id := Item(x.priority, x.status.value, x.enqueuedAt.value, x.sentAt, x.ackedAt, x.retryCount, x.error)];
      r := Ok;
    }

    /** Scans the map in no particular order and marks the best queued item as sending. */
    method Dequeue(now: int) returns (best: Option<Id>)
      modifies this
      ensures best.None? ==> NoneQueued(old(items)) && items == old(items)
      ensures best.None? ==> forall id | id in items :: items[id].status != Queued
      ensures best.Some? ==>
        && IsBest(old(items), best.value)
        && old(items)[best.value].status == Queued
        && (forall id | id in old(items) && old(items)[id].status == Queued ::
              var one, other := old(items)[best.value], old(items)[id];
              other.priority < one.priority || (other.priority == one.priority && one.enqueuedAt <= other.enqueuedAt))
        && items == old(items)[best.value := old(items)[best.value].(status := Sending, sentAt := Some(now))]
    {
      best := None;
      var todo := items.Keys;
      while todo != {}
        invariant todo <= items.Keys && items == old(items)
        invariant best.None? ==> forall id | id in items && id !in todo :: !items[id].status.Queued?
        invariant best.Some? ==> best.value in items && items[best.value].status.Queued?
        invariant best.Some? ==>
          forall id | id in items && id !in todo && items[id].status.Queued? :: !Outranks(items[id], items[best.value])
        decreases |todo|
      {
        var id :| id in todo;
        todo := todo - {id};
        var item := items[id];
        if !item.status.Queued? {
          continue;
        }
        if best.None? {
          best := Some(id);
          continue;
        }
        var b := items[best.value];
        if item.priority > b.priority {
          best := Some(id);
        } else if item.priority == b.priority && item.enqueuedAt < b.enqueuedAt {
          best := Some(id);
        }
      }
      if best.Some? {
        items := items[best.value := items[best.value].(status := Sending, sentAt := Some(now))];
      }
    }

    method Update(id: Id, item: Item)
      modifies this
      ensures items == if id in old(items) then old(items)[id := item] else old(items)
    {
      if id in items {
        items := items[id := item];
      }
    }

    method PendingCount() returns (count: nat)
      ensures count == |With(items, Queued)|
    {
      count := 0;
      var todo := items.Keys;
      ghost var seen: set<Id> := {};
      while todo != {}
        invariant seen !! todo && seen + todo == items.Keys
        invariant count == |With(items, Queued) * seen|
        decreases |todo|
      {
        var id :| id in todo;
        if items[id].status.Queued? {
          count := count + 1;
        }
        OneMore(With(items, Queued), seen, id);
        todo, seen := todo - {id}, seen + {id};
      }
      assert With(items, Queued) * seen == With(items, Queued);
    }

    /** All items, earliest arrival first. */
    method List() returns (out: seq<(Id, Item)>)
      ensures multiset(out) == multiset(set id | id in items :: (id, items[id]))
      ensures SortedBy((p: (Id, Item)) => p.1.enqueuedAt, out)
    {
      var all: seq<(Id, Item)> := [];
      var todo := items.Keys;
      ghost var seen: set<Id> := {};
      while todo != {}
        invariant seen + todo == items.Keys && seen !! todo
        invariant multiset(all) == multiset(set id | id in seen :: (id, items[id]))
        decreases |todo|
      {
        var id :| id in todo;
        assert (set i | i in seen + {id} :: (i, items[i])) == (set i | i in seen :: (i, items[i])) + {(id, items[id])};
        all := all + [(id, items[id])];
        todo, seen := todo - {id}, seen + {id};
      }
      out := SortSlice((p: (Id, Item)) => p.1.enqueuedAt, all);
    }
  }

  // ---- Draining -------------------------------------------------------------------------------

  function Taken(items: map<Id, Item>, id: Id, now: int): map<Id, Item>
    requires id in items
  {
    items[id := items[id].(status := Sending, sentAt := Some(now))]
  }

  /** ids is what repeated Dequeue calls at the given times may return until one returns nothing. */
  ghost predicate Drains(items: map<Id, Item>, ids: seq<Id>, nows: seq<int>)
    requires |ids| == |nows|
    decreases |ids|
  {
    if ids == [] then NoneQueued(items)
    else IsBest(items, ids[0]) && Drains(Taken(items, ids[0], nows[0]), ids[1..], nows[1..])
  }

  predicate InRankOrder(items: map<Id, Item>, ids: seq<Id>) {
    && (forall id | id in ids :: id in items)
    && forall i, j :: 0 <= i < j < |ids| ==> !Outranks(items[ids[j]], items[ids[i]])
  }

  lemma TakenIsNotQueued(items: map<Id, Item>, id: Id, now: int)
    requires id in items && items[id].status.Queued?
    ensures With(items, Queued) == With(Taken(items, id, now), Queued) + {id} && id !in With(Taken(items, id, now), Queued)
  {
  }

  lemma RestIsQueued(items: map<Id, Item>, after: map<Id, Item>, rest: seq<Id>)
    requires multiset(rest) == multiset(With(after, Queued))
    ensures forall id | id in rest :: id in after && after[id].status.Queued?
  {
    forall id | id in rest ensures id in after && after[id].status.Queued? {
      assert id in multiset(rest);
      assert id in With(after, Queued);
    }
  }

  /** An item that nothing queued outranks goes before those in rank order. */
  lemma BestGoesFirst(items: map<Id, Item>, first: Id, rest: seq<Id>)
    requires IsBest(items, first) && InRankOrder(items, rest)
    requires forall id | id in rest :: items[id].status.Queued?
    ensures InRankOrder(items, [first] + rest)
  {
    var ids := [first] + rest;
    forall i, j | 0 <= i < j < |ids| ensures !Outranks(items[ids[j]], items[ids[i]]) {
      assert ids[j] == rest[j - 1];
      if i > 0 {
        assert ids[i] == rest[i - 1];
      }
    }
  }

  /** Whatever the map order and the clock, draining returns every queued item once and in rank order. */
  lemma {:induction false} DrainIsSorted(items: map<Id, Item>, ids: seq<Id>, nows: seq<int>)
    requires |ids| == |nows| && Drains(items, ids, nows)
    ensures multiset(ids) == multiset(With(items, Queued)) && InRankOrder(items, ids)
    decreases |ids|
  {
    if ids == [] {
      assert With(items, Queued) == {};
    } else {
      var first, rest := ids[0], ids[1..];
      var after := Taken(items, first, nows[0]);
      DrainIsSorted(after, rest, nows[1..]);
      TakenIsNotQueued(items, first, nows[0]);
      RestIsQueued(items, after, rest);
      assert ids == [first] + rest;
      BestGoesFirst(items, first, rest);
    }
  }

  /** When all priorities and arrival times differ, the drain order is unique. */
  lemma {:induction false} DrainIsUnique(items: map<Id, Item>, ids: seq<Id>, nows: seq<int>, ids': seq<Id>, nows': seq<int>)
    requires |ids| == |nows| && Drains(items, ids, nows)
    requires |ids'| == |nows'| && Drains(items, ids', nows')
    requires forall a, b :: a in items && b in items && a != b ==> Outranks(items[a], items[b]) || Outranks(items[b], items[a])
    ensures ids == ids'
    decreases |ids|
  {
    if ids != [] && ids' != [] {
      assert ids[0] == ids'[0];
      var t, t' := Taken(items, ids[0], nows[0]), Taken(items, ids[0], nows'[0]);
      DrainIgnoresClock(t', t, ids'[1..], nows'[1..]);
      forall a, b | a in t && b in t && a != b ensures Outranks(t[a], t[b]) || Outranks(t[b], t[a]) {
        assert Outranks(items[a], items[b]) || Outranks(items[b], items[a]);
      }
      DrainIsUnique(t, ids[1..], nows[1..], ids'[1..], nows'[1..]);
    }
  }

  /** Draining looks at status, priority and arrival only. */
  lemma {:induction false} DrainIgnoresClock(a: map<Id, Item>, b: map<Id, Item>, ids: seq<Id>, nows: seq<int>)
    requires |ids| == |nows| && Drains(a, ids, nows)
    requires a.Keys == b.Keys
    requires forall id | id in a :: a[id].(sentAt := None) == b[id].(sentAt := None)
    ensures Drains(b, ids, nows)
    decreases |ids|
  {
    assert forall id | id in a :: a[id].(sentAt := None).status == b[id].(sentAt := None).status;
    assert forall id | id in a :: a[id].(sentAt := None).priority == b[id].(sentAt := None).priority;
    assert forall id | id in a :: a[id].(sentAt := None).enqueuedAt == b[id].(sentAt := None).enqueuedAt;
    if ids != [] {
      assert IsBest(b, ids[0]);
      DrainIgnoresClock(Taken(a, ids[0], nows[0]), Taken(b, ids[0], nows[0]), ids[1..], nows[1..]);
    }
  }
}
