/** The two replays of history: the batch loop over a JetStream stream, and the query of the local store. */
module Replay {
  import opened Prelude
  import opened Sorting
  import opened EventStore

  datatype Message = Undecodable | Carries(e: Event)

  datatype ReplayOptions = ReplayOptions(types: seq<string>, source: string, start: Option<int>, end: Option<int>, limit: int)

  datatype ReplayError = BusClosed | ContextDone | NoConsumer

  /** How a replay came to its end: everything asked for was seen, or a fetch failed and the rest is missing. */
  datatype Ending = Complete | FetchFailed | Interrupted | NotStarted

  const FETCH_BATCH := 1000

  /** Unlike the store's query, a replay has no offset. */
  function AsQuery(o: ReplayOptions): QueryOptions {
    QueryOptions(o.types, o.source, o.start, o.end, o.limit, 0)
  }

  function Decoded(stream: seq<Message>): seq<Event> {
    if stream == [] then []
    else
      var before, last := Decoded(stream[..|stream| - 1]), stream[|stream| - 1];
      if last.Carries? then before + [last.e] else before
  }

  lemma DecodedAppend(stream: seq<Message>, m: Message)
    ensures Decoded(stream + [m]) == if m.Carries? then Decoded(stream) + [m.e] else Decoded(stream)
  {
    assert (stream + [m])[..|stream|] == stream;
  }

  /** The matching events among the first n messages, in stream order. */
  function Wanted(stream: seq<Message>, n: nat, o: ReplayOptions): seq<Event>
    requires n <= |stream|
  {
    if n == 0 then []
    else match stream[n - 1]
      case Undecodable => Wanted(stream, n - 1, o)
      case Carries(e) => AddIf(Wanted(stream, n - 1, o), Matches(e, AsQuery(o)), e)
  }

  /** Reading on only adds to the end. */
  lemma {:induction false} WantedGrows(stream: seq<Message>, m: nat, n: nat, o: ReplayOptions)
    requires m <= n <= |stream|
    ensures Wanted(stream, m, o) <= Wanted(stream, n, o)
  {
    if m < n {
      WantedGrows(stream, m, n - 1, o);
    }
  }

  /** All that a filter selects from the decoded stream. */
  lemma {:induction false} WantedIsSelected(stream: seq<Message>, n: nat, o: ReplayOptions)
    requires n <= |stream|
    ensures Wanted(stream, n, o) == Selected(Decoded(stream[..n]), AsQuery(o))
  {
    if n > 0 {
      var init, last := stream[..n - 1], stream[n - 1];
      WantedIsSelected(stream, n - 1, o);
      assert stream[..n] == init + [last];
      DecodedAppend(init, last);
      if last.Carries? {
        SelectedAppend(Decoded(init), last.e, AsQuery(o));
      }
    }
  }

  /** The message carries an event of the types, from the source and in the time range asked for. */
  ghost predicate Asked(m: Message, o: ReplayOptions) {
    && m.Carries?
    && (o.types == [] || m.e.kind in o.types) && (o.source == "" || m.e.source == o.source)
    && (o.start == None || o.start.value <= m.e.timestamp) && (o.end == None || m.e.timestamp <= o.end.value)
  }

  /** The events stand, in stream order, in exactly those of the first n messages that are asked for. */
  ghost predicate AskedAt(stream: seq<Message>, n: nat, o: ReplayOptions, events: seq<Event>, picks: seq<nat>)
    requires n <= |stream|
  {
    && |picks| == |events|
    && (forall i :: 0 <= i < |picks| ==> picks[i] < n && stream[picks[i]] == Carries(events[i]))
    && (forall i, j :: 0 <= i < j < |picks| ==> picks[i] < picks[j])
    && (forall k: nat :: k < n ==> (k in picks <==> Asked(stream[k], o)))
  }

  lemma AskedNext(stream: seq<Message>, n: nat, o: ReplayOptions, events: seq<Event>, picks: seq<nat>)
    requires n < |stream| && AskedAt(stream, n, o, events, picks)
    ensures !Asked(stream[n], o) ==> AskedAt(stream, n + 1, o, events, picks)
    ensures Asked(stream[n], o) ==> AskedAt(stream, n + 1, o, events + [stream[n].e], picks + [n])
  {
    assert n !in picks;
    assert forall k: nat :: k in picks + [n] <==> k in picks || k == n;
  }

  lemma AskedIsRelevant(m: Message, o: ReplayOptions)
    ensures Asked(m, o) <==> Relevant(m, o)
  {
  }

  /** Where the events of the filtered stream come from. */
  lemma {:induction false} WantedIsAsked(stream: seq<Message>, n: nat, o: ReplayOptions) returns (picks: seq<nat>)
    requires n <= |stream|
    ensures AskedAt(stream, n, o, Wanted(stream, n, o), picks)
  {
    hide AskedAt, Asked, AsQuery, Matches;
    if n == 0 {
      picks := [];
      assert AskedAt(stream, 0, o, [], picks) by { NothingAsked(stream, o); }
    } else {
      picks := WantedIsAsked(stream, n - 1, o);
      AskedNext(stream, n - 1, o, Wanted(stream, n - 1, o), picks);
      AskedIsRelevant(stream[n - 1], o);
      if Relevant(stream[n - 1], o) {
        picks := picks + [n - 1];
      }
    }
  }

  lemma NothingAsked(stream: seq<Message>, o: ReplayOptions)
    ensures AskedAt(stream, 0, o, [], [])
  {
  }

  /** The whole filtered stream. */
  function AllWanted(stream: seq<Message>, o: ReplayOptions): seq<Event> {
    Wanted(stream, |stream|, o)
  }

  function First<T>(s: seq<T>, limit: int): seq<T> {
    if limit > 0 && limit < |s| then s[..limit] else s
  }

  /** The linear search through the requested types. */
  method MatchReplay(e: Event, o: ReplayOptions) returns (ok: bool)
    ensures ok == Matches(e, AsQuery(o))
    ensures ok <==>
      && (o.types == [] || e.kind in o.types) && (o.source == "" || e.source == o.source)
      && (o.start == None || o.start.value <= e.timestamp) && (o.end == None || e.timestamp <= o.end.value)
  {
    if |o.types| > 0 {
      var found := false;
      for i := 0 to |o.types|
        invariant !found
        invariant e.kind !in o.types[..i]
      {
        if e.kind == o.types[i] {
          found := true;
          break;
        }
      }
      if !found {
        return false;
      }
    }
    if o.source != "" && e.source != o.source {
      return false;
    }
    if o.start.Some? && e.timestamp < o.start.value {
      return false;
    }
    if o.end.Some? && o.end.value < e.timestamp {
      return false;
    }
    return true;
  }

  /** One batch: the messages from position from to position to. Stops as soon as the limit is reached. */
  method Take(stream: seq<Message>, o: ReplayOptions, from: nat, to: nat, sofar: seq<Event>)
    returns (out: seq<Event>, full: bool)
    requires from <= to <= |stream|
    requires sofar == Wanted(stream, from, o) && (o.limit > 0 ==> |sofar| < o.limit)
    ensures out <= AllWanted(stream, o)
    ensures full ==> o.limit > 0 && |out| == o.limit
    ensures !full ==> out == Wanted(stream, to, o) && (o.limit > 0 ==> |out| < o.limit)
  {
    out := sofar;
    for i := from to to
      invariant out == Wanted(stream, i, o) && (o.limit > 0 ==> |out| < o.limit)
    {
      match stream[i] {
        case Undecodable =>
        case Carries(e) =>
          var ok := MatchReplay(e, o);
          if ok {
            out := out + [e];
            if o.limit > 0 && |out| >= o.limit {
              WantedGrows(stream, i + 1, |stream|, o);
              return out, true;
            }
          }
      }
    }
    WantedGrows(stream, to, |stream|, o);
    full := false;
  }

  /** Any split of the stream into fetches, any failure of a fetch with or without part of its batch, and a context
      cancelled between fetches, unless the connection is healthy. A failed fetch is not reported to the caller. */
  method NatsReplay(stream: seq<Message>, o: ReplayOptions, closed: bool, cancelled: bool, consumerFails: bool, healthy: bool)
    returns (out: seq<Event>, r: Outcome<ReplayError>, ghost ending: Ending, ghost read: nat)
    ensures out <= AllWanted(stream, o)
    ensures o.limit > 0 ==> |out| <= o.limit
    ensures ending.Complete? ==> r == Ok && out == First(AllWanted(stream, o), o.limit)
    ensures ending.Complete? ==> out == AllWanted(stream, o) || |out| == o.limit
    ensures closed ==> r == Err(BusClosed) && out == []
    ensures healthy && !closed && !cancelled && !consumerFails ==> ending.Complete?
    ensures ending.NotStarted? <==> closed || cancelled || consumerFails
    ensures ending.Interrupted? ==> r == Err(ContextDone)
    ensures ending.FetchFailed? ==> r == Ok
    ensures ending.Interrupted? || ending.FetchFailed? ==>
      read <= |stream| && out == Wanted(stream, read, o) && (o.limit > 0 ==> |out| < o.limit)
  {
    if closed {
      return [], Err(BusClosed), NotStarted, 0;
    }
    if cancelled {
      return [], Err(ContextDone), NotStarted, 0;
    }
    if consumerFails {
      return [], Err(NoConsumer), NotStarted, 0;
    }
    out := [];
    var batch := FETCH_BATCH;
    if o.limit > 0 && o.limit < batch {
      batch := o.limit;
    }
    var position := 0;
    while true
      invariant position <= |stream| && out == Wanted(stream, position, o) && (o.limit > 0 ==> |out| < o.limit)
      decreases |stream| - position
    {
      var done: bool :| healthy ==> !done;
      if done {
        WantedGrows(stream, position, |stream|, o);
        return out, Err(ContextDone), Interrupted, position;
      }
      var refused: bool :| healthy ==> !refused;
      if refused {
        WantedGrows(stream, position, |stream|, o);
        return out, Ok, FetchFailed, position;
      }
      // A fetch brings at most batch messages; if it does not fail it brings none only at the end of the stream.
      var failed: bool :| healthy ==> !failed;
      var n: nat :| n <= batch && position + n <= |stream| && (n == 0 ==> failed || position == |stream|);
      var full;
      out, full := Take(stream, o, position, position + n, out);
      if full {
        return out, Ok, Complete, position;
      }
      position := position + n;
      if failed {
        WantedGrows(stream, position, |stream|, o);
        return out, Ok, FetchFailed, position;
      }
      if n == 0 {
        return out, Ok, Complete, position;
      }
    }
  }

  predicate Relevant(m: Message, o: ReplayOptions) {
    m.Carries? && Matches(m.e, AsQuery(o))
  }

  lemma {:induction false} NoneWanted(stream: seq<Message>, m: nat, n: nat, o: ReplayOptions)
    requires m <= n <= |stream|
    ensures |Wanted(stream, n, o)| == |Wanted(stream, m, o)| <==> forall i :: m <= i < n ==> !Relevant(stream[i], o)
    ensures |Wanted(stream, m, o)| <= |Wanted(stream, n, o)|
  {
    if m < n {
      NoneWanted(stream, m, n - 1, o);
    }
  }

  /** What a replay returns without an error after a failed fetch is what was asked for if and only if no message from the
      failed fetch on matches. */
  lemma FailedFetchCompleteIff(stream: seq<Message>, read: nat, o: ReplayOptions)
    requires read <= |stream| && (o.limit > 0 ==> |Wanted(stream, read, o)| < o.limit)
    ensures Wanted(stream, read, o) == First(AllWanted(stream, o), o.limit)
      <==> forall i :: read <= i < |stream| ==> !Relevant(stream[i], o)
  {
    NoneWanted(stream, read, |stream|, o);
    WantedGrows(stream, read, |stream|, o);
  }

  /** One stored event, asked for without a filter, and the first fetch fails: nothing is returned, and no error. */
  lemma FailedFetchExample(e: Event)
    ensures var stream, o := [Carries(e)], ReplayOptions([], "", None, None, 0);
      Wanted(stream, 0, o) == [] && First(AllWanted(stream, o), o.limit) == [e]
  {
    var stream, o := [Carries(e)], ReplayOptions([], "", None, None, 0);
    assert Wanted(stream, 1, o) == Wanted(stream, 0, o) + [e];
  }

  /** The local bus asks its store, and would then fan the events out again. */
  method LocalReplay(store: MemoryEventStore, o: ReplayOptions, cancelled: bool)
    returns (events: seq<Event>, r: Outcome<StoreError>)
    requires store.Valid()
    ensures r == Ok <==> !cancelled && !store.closed
    ensures r == Ok ==> exists all ::
      Ordered(all, Selected(Events(store.Contents()), AsQuery(o))) && events == Window(all, 0, o.limit)
  {
    events, r := store.Query(AsQuery(o), cancelled);
  }

  lemma {:induction false} SelectedMembers(s: seq<Event>, q: QueryOptions)
    ensures forall e | e in Selected(s, q) :: e in s
    decreases |s|
  {
    if s != [] {
      var init, last := s[..|s| - 1], s[|s| - 1];
      SelectedMembers(init, q);
      assert s == init + [last];
      forall e | e in Selected(s, q) ensures e in s {
        assert e in Selected(init, q) || e == last;
      }
    }
  }

  lemma {:induction false} SelectedRigid(s: seq<Event>, q: QueryOptions)
    requires Rigid(BY_TIME, s, |s|)
    ensures Rigid(BY_TIME, Selected(s, q), |Selected(s, q)|)
    decreases |s|
  {
    if s != [] {
      var init, last := s[..|s| - 1], s[|s| - 1];
      SelectedRigid(init, q);
      SelectedMembers(init, q);
      forall e | e in Selected(init, q) ensures BY_TIME(e) < BY_TIME(last) || e == last {
        var i :| 0 <= i < |init| && init[i] == e;
        assert s[i] == e;
      }
    }
  }

  /** How many events a replay returns when all goes well. */
  function Returned(stream: seq<Message>, o: ReplayOptions): (n: nat)
    ensures n <= |AllWanted(stream, o)|
  {
    var all := |AllWanted(stream, o)|;
    if o.limit > 0 && o.limit < all then o.limit else all
  }

  lemma WindowIsFront(stream: seq<Message>, all: seq<Event>, o: ReplayOptions)
    requires |all| == |AllWanted(stream, o)|
    ensures Window(all, 0, o.limit) == all[..Returned(stream, o)]
    ensures First(AllWanted(stream, o), o.limit) == AllWanted(stream, o)[..Returned(stream, o)]
  {
  }

  /** For the same events a local replay and a complete replay from the stream must return the same if and only if the
      events that are returned come in strictly increasing time before all later matches, repeated events aside:
      otherwise some order that the local sort may produce differs from the order of the stream. */
  lemma ReplaysAgreeIff(stream: seq<Message>, entries: seq<Entry>, o: ReplayOptions)
    requires Events(entries) == Decoded(stream)
    ensures Rigid(BY_TIME, AllWanted(stream, o), Returned(stream, o))
      <==> forall all :: Ordered(all, Selected(Events(entries), AsQuery(o)))
             ==> Window(all, 0, o.limit) == First(AllWanted(stream, o), o.limit)
  {
    assert stream[..|stream|] == stream;
    WantedIsSelected(stream, |stream|, o);
    var s, n := AllWanted(stream, o), Returned(stream, o);
    FrontIsForcedIff(BY_TIME, s, n);
    forall all | Ordered(all, s)
      ensures |all| == |s| && (Window(all, 0, o.limit) == First(s, o.limit) <==> all[..n] == s[..n])
    {
      SameSize(all, s);
      WindowIsFront(stream, all, o);
    }
    forall all ensures Ordered(all, s) == (multiset(all) == multiset(s) && SortedBy(BY_TIME, all)) {}
  }

  /** In particular when the timestamps of the whole log strictly increase. */
  lemma ReplaysAgree(stream: seq<Message>, entries: seq<Entry>, all: seq<Event>, o: ReplayOptions)
    requires Events(entries) == Decoded(stream) && Rigid(BY_TIME, Events(entries), |entries|)
    requires Ordered(all, Selected(Events(entries), AsQuery(o)))
    ensures Window(all, 0, o.limit) == First(AllWanted(stream, o), o.limit)
  {
    assert stream[..|stream|] == stream;
    WantedIsSelected(stream, |stream|, o);
    SelectedRigid(Events(entries), AsQuery(o));
    ReplaysAgreeIff(stream, entries, o);
  }
}
