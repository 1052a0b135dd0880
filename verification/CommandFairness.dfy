/** Every fair run of the command pipeline finishes its commands, and fair runs exist. */
module CommandFairness {
  import opened CommandProtocol
  import opened CommandInvariants
  import opened CommandRuns

  ghost predicate NoSendOrClose(es: seq<Event>) {
    forall e | e in es :: !IsSend(e) && !IsClose(e)
  }

  ghost predicate Acts(es: seq<Event>, k: nat) {
    exists i :: 0 <= i < |es| && es[i].Act? && es[i].k == k
  }

  function DispatchSteps(es: seq<Event>): nat {
    if es == [] then 0 else (if es[0].Dispatch? then 1 else 0) + DispatchSteps(es[1..])
  }

  /** A stretch of a run, without new commands and without Stop, in which no goroutine is left out for good: each sender
      there at its start takes a step, and the dispatcher takes the five that lead once around its loop. */
  ghost predicate FairRound(c: Settings, s: System, es: seq<Event>)
    requires Wired(s)
  {
    && IsRun(c, s, es) && NoSendOrClose(es)
    && (forall k | k in s.senders :: Acts(es, k))
    && DispatchSteps(es) >= 5
  }

  ghost predicate FairRounds(c: Settings, s: System, rounds: seq<seq<Event>>)
    requires Wired(s)
    decreases |rounds|
  {
    rounds == [] || (FairRound(c, s, rounds[0]) && FairRounds(c, Final(c, s, rounds[0]), rounds[1..]))
  }

  ghost function AfterRounds(c: Settings, s: System, rounds: seq<seq<Event>>): System
    requires Wired(s) && FairRounds(c, s, rounds)
    decreases |rounds|
  {
    if rounds == [] then s else AfterRounds(c, Final(c, s, rounds[0]), rounds[1..])
  }

  // ---- What a round without Send and Stop keeps -----------------------------------------------

  lemma QuietCall(s: System, e: CallerEvent)
    requires CallerEnabled(s, e) && !e.Send? && !e.CloseStop?
    ensures ApplyCaller(s, e).items.Keys == s.items.Keys && ApplyCaller(s, e).stopped == s.stopped
  {
  }

  lemma QuietDispatch(c: Settings, s: System, e: DispatchEvent)
    requires DispatchEnabled(c, s, e)
    ensures ApplyDispatch(c, s, e).items.Keys == s.items.Keys && ApplyDispatch(c, s, e).stopped == s.stopped
  {
  }

  lemma QuietStep(c: Settings, s: System, e: Event)
    requires Wired(s) && Enabled(c, s, e) && !IsSend(e) && !IsClose(e)
    ensures Apply(c, s, e).items.Keys == s.items.Keys && Apply(c, s, e).stopped == s.stopped
  {
    match e
    case Caller(call) => QuietCall(s, call);
    case Dispatch(step) => QuietDispatch(c, s, step);
    case _ =>
  }

  lemma {:induction false} QuietRun(c: Settings, s: System, es: seq<Event>)
    requires Wired(s) && IsRun(c, s, es) && NoSendOrClose(es)
    ensures Final(c, s, es).items.Keys == s.items.Keys && Final(c, s, es).stopped == s.stopped
    decreases |es|
  {
    if es != [] {
      assert es[0] in es;
      QuietStep(c, s, es[0]);
      QuietRun(c, Apply(c, s, es[0]), es[1..]);
    }
  }

  lemma TerminalStays(c: Settings, s: System, es: seq<Event>)
    requires Inv(c, s) && IsRun(c, s, es) && NoSendOrClose(es) && AllTerminal(s)
    ensures AllTerminal(Final(c, s, es))
  {
    QuietRun(c, s, es);
    ContinuesRun(c, s, es);
  }

  // ---- A round makes progress -----------------------------------------------------------------

  lemma {:induction false} NoSends(es: seq<Event>)
    requires NoSendOrClose(es)
    ensures CountSends(es) == 0
    decreases |es|
  {
    if es != [] {
      assert es[0] in es;
      NoSends(es[1..]);
    }
  }

  /** A run without progress is idle polling of the dispatcher. */
  lemma {:induction false} NoProgressIsIdle(es: seq<Event>, i: nat)
    requires NoSendOrClose(es) && CountProgress(es) == 0 && i < |es|
    ensures Idle(es[i])
    decreases |es|
  {
    assert es[0] in es;
    if i > 0 {
      NoProgressIsIdle(es[1..], i - 1);
    }
  }

  lemma IdleStep(c: Settings, s: System, e: Event)
    requires Wired(s) && Enabled(c, s, e) && Idle(e) && !s.stopped
    requires s.dispatcher.Holding? || !NoneQueued(s.items)
    ensures !s.dispatcher.Holding? && Distance(s.dispatcher) > 1
    ensures var t := Apply(c, s, e);
      !t.stopped && t.items == s.items && !t.dispatcher.Holding? && Distance(t.dispatcher) == Distance(s.dispatcher) - 1
  {
  }

  /** With something to do, idle polling leads to it within four steps. */
  lemma {:induction false} IdlePollingEnds(c: Settings, s: System, es: seq<Event>)
    requires Wired(s) && IsRun(c, s, es) && !s.stopped && (s.dispatcher.Holding? || !NoneQueued(s.items))
    requires forall e | e in es :: Idle(e)
    ensures es == [] || |es| < Distance(s.dispatcher)
    ensures DispatchSteps(es) <= |es|
    decreases |es|
  {
    if es != [] {
      assert es[0] in es;
      IdleStep(c, s, es[0]);
      IdlePollingEnds(c, Apply(c, s, es[0]), es[1..]);
    }
  }

  lemma AllIdle(es: seq<Event>)
    requires NoSendOrClose(es) && CountProgress(es) == 0
    ensures forall e | e in es :: Idle(e)
  {
    forall e | e in es ensures Idle(e) {
      var i :| 0 <= i < |es| && es[i] == e;
      NoProgressIsIdle(es, i);
    }
  }

  lemma {:induction false} ActingIsProgress(es: seq<Event>, i: nat)
    requires i < |es| && es[i].Act?
    ensures CountProgress(es) > 0
    decreases |es|
  {
    if i > 0 {
      ActingIsProgress(es[1..], i - 1);
    }
  }

  lemma PollingOnly(c: Settings, s: System, es: seq<Event>)
    requires Inv(c, s) && !s.stopped && IsRun(c, s, es) && NoSendOrClose(es) && CountProgress(es) == 0
    requires s.senders == map[] && !AllTerminal(s)
    ensures DispatchSteps(es) < 5
  {
    AllIdle(es);
    if !s.dispatcher.Holding? {
      UnfinishedIsQueued(s);
    }
    IdlePollingEnds(c, s, es);
  }

  lemma RoundMakesProgress(c: Settings, s: System, es: seq<Event>)
    requires Inv(c, s) && !s.stopped && FairRound(c, s, es) && !AllTerminal(s)
    ensures CountProgress(es) > 0
  {
    if k :| k in s.senders {
      var i :| 0 <= i < |es| && es[i].Act? && es[i].k == k;
      ActingIsProgress(es, i);
    } else if CountProgress(es) == 0 {
      PollingOnly(c, s, es);
    }
  }

  // ---- All fair runs finish -------------------------------------------------------------------

  lemma RoundLowersWork(c: Settings, s: System, es: seq<Event>)
    requires Inv(c, s) && !s.stopped && FairRound(c, s, es)
    ensures Inv(c, Final(c, s, es)) && !Final(c, s, es).stopped
    ensures AllTerminal(s) ==> AllTerminal(Final(c, s, es))
    ensures !AllTerminal(s) ==> Work(c, Final(c, s, es)) < Work(c, s)
  {
    InvRun(c, s, es);
    QuietRun(c, s, es);
    if AllTerminal(s) {
      TerminalStays(c, s, es);
    } else {
      RoundMakesProgress(c, s, es);
      NoSends(es);
      ProgressIsBounded(c, s, es);
    }
  }

  /** Whatever the interleaving, after more fair rounds than there is work left every command is acked, failed or
      cancelled. */
  lemma {:induction false} FairRunsFinish(c: Settings, s: System, rounds: seq<seq<Event>>)
    requires Inv(c, s) && !s.stopped && FairRounds(c, s, rounds)
    requires |rounds| > Work(c, s) || AllTerminal(s)
    ensures AllTerminal(AfterRounds(c, s, rounds))
    decreases |rounds|
  {
    if rounds != [] {
      RoundLowersWork(c, s, rounds[0]);
      FairRunsFinish(c, Final(c, s, rounds[0]), rounds[1..]);
    }
  }

  // ---- Fair rounds exist ----------------------------------------------------------------------

  /** es may happen from s and ends in t; nobody sends or stops. */
  ghost predicate Leads(c: Settings, s: System, es: seq<Event>, t: System)
    requires Wired(s)
  {
    IsRun(c, s, es) && NoSendOrClose(es) && Final(c, s, es) == t
  }

  lemma LeadsByStep(c: Settings, s: System, e: Event)
    requires Wired(s) && Enabled(c, s, e) && !IsSend(e) && !IsClose(e)
    ensures Leads(c, s, [e], Apply(c, s, e))
  {
    assert [e][1..] == [];
  }

  lemma {:induction false} RunThen(c: Settings, s: System, a: seq<Event>, b: seq<Event>)
    requires Wired(s) && IsRun(c, s, a) && IsRun(c, Final(c, s, a), b)
    ensures IsRun(c, s, a + b) && Final(c, s, a + b) == Final(c, Final(c, s, a), b)
    decreases |a|
  {
    if a == [] {
      assert a + b == b;
    } else {
      var rest := a[1..] + b;
      RunThen(c, Apply(c, s, a[0]), a[1..], b);
      PrependEvent(c, s, a[0], rest);
      assert a + b == [a[0]] + rest;
    }
  }

  lemma LeadsOn(c: Settings, s: System, a: seq<Event>, t: System, b: seq<Event>, u: System)
    requires Wired(s) && Leads(c, s, a, t) && Wired(t) && Leads(c, t, b, u)
    ensures Leads(c, s, a + b, u)
  {
    RunThen(c, s, a, b);
  }

  lemma LeadsKeeps(c: Settings, s: System, es: seq<Event>, t: System)
    requires Inv(c, s) && Leads(c, s, es, t)
    ensures Inv(c, t) && t.stopped == s.stopped
  {
    InvRun(c, s, es);
    QuietRun(c, s, es);
  }

  lemma {:induction false} DispatchStepsAdd(a: seq<Event>, b: seq<Event>)
    ensures DispatchSteps(a + b) == DispatchSteps(a) + DispatchSteps(b)
    decreases |a|
  {
    if a == [] {
      assert a + b == b;
    } else {
      DispatchStepsAdd(a[1..], b);
      assert (a + b)[1..] == a[1..] + b;
    }
  }

  lemma ActsInEither(a: seq<Event>, b: seq<Event>, k: nat)
    requires Acts(a, k) || Acts(b, k)
    ensures Acts(a + b, k)
  {
    if Acts(a, k) {
      var i :| 0 <= i < |a| && a[i].Act? && a[i].k == k;
      assert (a + b)[i] == a[i];
    } else {
      var i :| 0 <= i < |b| && b[i].Act? && b[i].k == k;
      assert (a + b)[|a| + i] == b[i];
    }
  }

  lemma OthersStay(c: Settings, s: System, k: nat, a: Action)
    requires Wired(s) && k in s.senders
    ensures s.senders.Keys - {k} <= ApplyAction(c, s, k, a).senders.Keys
  {
  }

  /** Each of the given senders can take a step, one after the other. */
  lemma {:induction false} AllCanAct(c: Settings, s: System, ks: set<nat>) returns (es: seq<Event>, t: System)
    requires Wired(s) && ks <= s.senders.Keys
    ensures Leads(c, s, es, t) && forall k | k in ks :: Acts(es, k)
    decreases ks
  {
    if ks == {} {
      es, t := [], s;
    } else {
      var k :| k in ks;
      var a := Helpful(s.senders[k].phase);
      var next := Apply(c, s, Act(k, a));
      LeadsByStep(c, s, Act(k, a));
      OthersStay(c, s, k, a);
      var rest;
      rest, t := AllCanAct(c, next, ks - {k});
      LeadsOn(c, s, [Act(k, a)], next, rest, t);
      es := [Act(k, a)] + rest;
      OneMoreActs(k, a, rest, ks);
    }
  }

  lemma OneMoreActs(k: nat, a: Action, rest: seq<Event>, ks: set<nat>)
    requires forall j | j in ks - {k} :: Acts(rest, j)
    ensures forall j | j in ks :: Acts([Act(k, a)] + rest, j)
  {
    assert [Act(k, a)][0].k == k && Acts([Act(k, a)], k);
    forall j | j in ks ensures Acts([Act(k, a)] + rest, j) {
      ActsInEither([Act(k, a)], rest, j);
    }
  }

  lemma {:induction false} Unused(ks: set<nat>) returns (k: nat)
    ensures forall j | j in ks :: j < k
    decreases ks
  {
    k := 0;
    if ks != {} {
      var j :| j in ks;
      var rest := Unused(ks - {j});
      k := if j < rest then rest else j + 1;
      assert forall i | i in ks :: i in ks - {j} || i == j;
    }
  }

  function StepsToRelease(ph: Phase): nat {
    match ph
    case Started => 4
    case Waiting => 3
    case Recording | Backoff => 2
    case Finishing => 1
    case Released => 0
  }

  lemma HelpfulStep(c: Settings, s: System, k: nat)
    requires Wired(s) && k in s.senders && s.senders[k].phase.HoldsSlot()
    ensures var t := ApplyAction(c, s, k, Helpful(s.senders[k].phase));
      && t.dispatcher == s.dispatcher && k in t.senders
      && StepsToRelease(t.senders[k].phase) < StepsToRelease(s.senders[k].phase)
      && (t.senders[k].phase.HoldsSlot() || t.slots == s.slots - 1)
      && t.slots <= s.slots
  {
  }

  /** A sender can always be brought to give its slot back while the dispatcher waits for one. */
  lemma {:induction false} SlotCanBeFreed(c: Settings, s: System, k: nat) returns (es: seq<Event>, t: System)
    requires Wired(s) && s.dispatcher.WantSlot? && k in s.senders && s.senders[k].phase.HoldsSlot()
    ensures Leads(c, s, es, t) && t.dispatcher.WantSlot? && t.slots < s.slots
    decreases StepsToRelease(s.senders[k].phase)
  {
    var e := Act(k, Helpful(s.senders[k].phase));
    LeadsByStep(c, s, e);
    HelpfulStep(c, s, k);
    var next := Apply(c, s, e);
    if next.senders[k].phase.HoldsSlot() {
      var rest;
      rest, t := SlotCanBeFreed(c, next, k);
      LeadsOn(c, s, [e], next, rest, t);
      es := [e] + rest;
    } else {
      es, t := [e], next;
    }
  }

  /** Unless it waits for a slot that is not free, the dispatcher itself has a step. */
  lemma DispatcherHasStep(c: Settings, s: System) returns (e: DispatchEvent)
    requires Inv(c, s) && !s.stopped && (s.dispatcher.WantSlot? ==> s.slots < c.maxConcurrent)
    ensures DispatchEnabled(c, s, e)
  {
    match s.dispatcher
    case Top => e := Check;
    case WantSlot => e := Acquire;
    case HasSlot =>
      if NoneQueued(s.items) {
        e := DequeueNone;
      } else {
        BestExists(s.items);
        var best :| IsBest(s.items, best);
        e := Dequeue(best, 0);
      }
    case NoneFound => e := ReleaseEmpty;
    case Sleeping => e := Wake;
    case Holding(_) =>
      var k := Unused(s.senders.Keys);
      e := Spawn(k);
    case Exited => assert false;
  }

  lemma SomeHolder(c: Settings, s: System) returns (k: nat)
    requires Inv(c, s) && s.dispatcher.WantSlot? && s.slots >= c.maxConcurrent
    ensures k in s.senders && s.senders[k].phase.HoldsSlot()
  {
    assert |Holders(s.senders)| > 0;
    k :| k in Holders(s.senders);
  }

  lemma DispatcherCanStep(c: Settings, s: System) returns (es: seq<Event>, t: System)
    requires Inv(c, s) && !s.stopped
    ensures Leads(c, s, es, t) && DispatchSteps(es) >= 1
  {
    var before, u := [], s;
    if s.dispatcher.WantSlot? && s.slots >= c.maxConcurrent {
      var k := SomeHolder(c, s);
      before, u := SlotCanBeFreed(c, s, k);
      LeadsKeeps(c, s, before, u);
    }
    var step := DispatcherHasStep(c, u);
    LeadsByStep(c, u, Dispatch(step));
    t := Apply(c, u, Dispatch(step));
    LeadsOn(c, s, before, u, [Dispatch(step)], t);
    DispatchStepsAdd(before, [Dispatch(step)]);
    es := before + [Dispatch(step)];
  }

  lemma {:induction false} DispatcherCanGoOn(c: Settings, s: System, n: nat) returns (es: seq<Event>, t: System)
    requires Inv(c, s) && !s.stopped
    ensures Leads(c, s, es, t) && DispatchSteps(es) >= n
    decreases n
  {
    if n == 0 {
      es, t := [], s;
    } else {
      var first, u := DispatcherCanStep(c, s);
      LeadsKeeps(c, s, first, u);
      var rest;
      rest, t := DispatcherCanGoOn(c, u, n - 1);
      LeadsOn(c, s, first, u, rest, t);
      DispatchStepsAdd(first, rest);
      es := first + rest;
    }
  }

  /** From every state of a running scheduler there is a fair round, so there are fair runs of any length. */
  lemma FairRoundExists(c: Settings, s: System) returns (es: seq<Event>)
    requires Inv(c, s) && !s.stopped
    ensures FairRound(c, s, es)
  {
    var a, u := AllCanAct(c, s, s.senders.Keys);
    LeadsKeeps(c, s, a, u);
    var b, t := DispatcherCanGoOn(c, u, 5);
    LeadsOn(c, s, a, u, b, t);
    DispatchStepsAdd(a, b);
    es := a + b;
    forall k | k in s.senders ensures Acts(es, k) {
      ActsInEither(a, b, k);
    }
  }
}
