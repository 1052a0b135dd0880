/**
 The command pipeline as a state machine: the dispatcher goroutine, the sender goroutines that hold
 semaphore slots, Send and Cancel from callers, and Stop. One event is one atomic step; a status write,
 the queue update that follows it and its counter belong to the same step.
*/
module CommandProtocol {
  import opened Prelude

  type Id = string

  // The source also declares StatusTimeout, which no code assigns.
  datatype Status = Queued | Sending | Acked | Failed | Cancelled {
    predicate Terminal() { Acked? || Failed? || Cancelled? }
  }

  datatype Item = Item(
    priority: int, status: Status, enqueuedAt: int, sentAt: Option<int>, ackedAt: Option<int>,
    retryCount: nat, error: string)

  // ---- Configuration and back-off -------------------------------------------------------------

  datatype Config = Config(maxConcurrent: int, timeout: int, maxRetries: int, retryBackoff: int) {
    predicate Effective() {
      maxConcurrent > 0 && timeout > 0 && maxRetries > 0 && 0 < retryBackoff < TWO_TO_63
    }
  }

  type Settings = c: Config | c.Effective() witness Config(10, 30, 3, 2)

  const SECOND := 1_000_000_000
  const TWO_TO_63 := 0x8000_0000_0000_0000
  const TWO_TO_64 := 0x1_0000_0000_0000_0000

  function WithDefaults(c: Config): (r: Settings)
    requires c.retryBackoff < TWO_TO_63
    ensures c.Effective() ==> r == c
    ensures r.maxConcurrent == (if c.maxConcurrent <= 0 then 10 else c.maxConcurrent)
    ensures r.timeout == (if c.timeout <= 0 then 30 * SECOND else c.timeout)
    ensures r.maxRetries == (if c.maxRetries <= 0 then 3 else c.maxRetries)
    ensures r.retryBackoff == (if c.retryBackoff <= 0 then 2 * SECOND else c.retryBackoff)
  {
    Config(
      if c.maxConcurrent <= 0 then 10 else c.maxConcurrent,
      if c.timeout <= 0 then 30 * SECOND else c.timeout,
      if c.maxRetries <= 0 then 3 else c.maxRetries,
      if c.retryBackoff <= 0 then 2 * SECOND else c.retryBackoff)
  }

  function Pow2(n: nat): (p: int)
    ensures p >= 1
  {
    if n == 0 then 1 else 2 * Pow2(n - 1)
  }

  /** The value an int64 holds after an operation whose exact result is x. */
  function Wrap64(x: int): int {
    (x + TWO_TO_63) % TWO_TO_64 - TWO_TO_63
  }

  /** How long the n-th retry waits; a timer with a negative duration fires at once. */
  function Delay(base: int, n: nat): nat
    requires n > 0
  {
    var d := Wrap64(base * Wrap64(Pow2(n - 1)));
    if d < 0 then 0 else d
  }

  lemma WrapShift(x: int, m: int)
    ensures Wrap64(x + m * TWO_TO_64) == Wrap64(x)
  {
    var y := x + TWO_TO_63;
    assert y + m * TWO_TO_64 == TWO_TO_64 * (y / TWO_TO_64 + m) + y % TWO_TO_64;
  }

  lemma WrapProduct(base: int, p: int)
    ensures Wrap64(base * Wrap64(p)) == Wrap64(base * p)
  {
    var m := (p + TWO_TO_63) / TWO_TO_64;
    assert Wrap64(p) == p - m * TWO_TO_64;
    assert base * Wrap64(p) == base * p + (-base * m) * TWO_TO_64;
    WrapShift(base * p, -base * m);
  }

  /** A wrapped delay is never longer than the documented RetryBackoff * 2^(n-1), and it is exactly that
      if and only if the product fits an int64. */
  lemma DelayIsExponential(base: int, n: nat)
    requires base > 0 && n > 0
    ensures Delay(base, n) <= base * Pow2(n - 1)
    ensures Delay(base, n) == base * Pow2(n - 1) <==> base * Pow2(n - 1) < TWO_TO_63
  {
    var p := base * Pow2(n - 1);
    assert p > 0;
    WrapProduct(base, Pow2(n - 1));
    assert Wrap64(p) < TWO_TO_63;
  }

  /** The default base of two seconds and a 34th retry: the documented wait of more than 500 years comes out as none. */
  lemma DelayOverflows()
    ensures Delay(2 * SECOND, 34) == 0 && 2 * SECOND * Pow2(33) > 500 * 365 * 24 * 3600 * SECOND
  {
    assert Pow2(8) == 256 && Pow2(16) == 65536 && Pow2(24) == 16777216 && Pow2(33) == 8589934592;
  }

  /** Where the documented wait no longer fits, some earlier retry has already waited at least 2^62 nanoseconds, which is
      more than 146 years. */
  lemma {:induction false} OverflowComesLate(base: int, n: nat) returns (m: nat)
    requires 0 < base < TWO_TO_63 && n > 0 && base * Pow2(n - 1) >= TWO_TO_63
    ensures 0 < m < n && Delay(base, m) == base * Pow2(m - 1) >= TWO_TO_63 / 2
    ensures TWO_TO_63 / 2 > 146 * 365 * 24 * 3600 * SECOND
  {
    assert n > 1;
    assert base * Pow2(n - 1) == 2 * (base * Pow2(n - 2));
    if base * Pow2(n - 2) < TWO_TO_63 {
      m := n - 1;
      DelayIsExponential(base, m);
    } else {
      m := OverflowComesLate(base, n - 1);
    }
  }

  // ---- State ----------------------------------------------------------------------------------

  /** Where the dispatcher goroutine stands in its loop. */
  datatype Dispatcher = Top | WantSlot | HasSlot | NoneFound | Holding(id: Id) | Sleeping | Exited

  /** Where a sender goroutine stands; it gives its slot back when it leaves Finishing. */
  datatype Phase = Started | Waiting | Backoff | Recording | Finishing | Released {
    predicate Owns() { Started? || Waiting? || Backoff? }
    predicate HoldsSlot() { !Released? }
  }

  datatype Sender = Sender(id: Id, phase: Phase)

  datatype Counters = Counters(totalSent: nat, totalAcked: nat, totalFailed: nat, totalTimeout: nat, successRate: nat)

  /** sends and waited are history: how often an item was handed to sendItem, and the back-off it was charged. */
  datatype System = System(
    items: map<Id, Item>, dispatcher: Dispatcher, senders: map<nat, Sender>, slots: int,
    stopped: bool, stopReturned: bool, counters: Counters, orphans: nat,
    sends: map<Id, nat>, waited: map<Id, nat>)

  /** The state in which Scheduler.Start leaves the pipeline: earlier Send and Cancel calls may have left items. */
  ghost predicate Initial(s: System) {
    && s.dispatcher == Top && s.senders == map[] && s.slots == 0 && !s.stopped && !s.stopReturned
    && s.counters == Counters(0, 0, 0, 0, 0) && s.orphans == 0
    && (forall id | id in s.items :: (s.items[id].status.Queued? || s.items[id].status.Cancelled?) && s.items[id].retryCount == 0)
    && s.sends.Keys == s.items.Keys && s.waited.Keys == s.items.Keys
    && (forall id | id in s.items :: s.sends[id] == 0 && s.waited[id] == 0)
  }

  // ---- Queue order ----------------------------------------------------------------------------

  /** a leaves the queue before b: higher priority first, then earlier arrival. */
  predicate Outranks(a: Item, b: Item) {
    a.priority > b.priority || (a.priority == b.priority && a.enqueuedAt < b.enqueuedAt)
  }

  predicate IsBest(items: map<Id, Item>, id: Id) {
    && id in items && items[id].status.Queued?
    && forall o | o in items && items[o].status.Queued? :: !Outranks(items[o], items[id])
  }

  predicate NoneQueued(items: map<Id, Item>) {
    forall id | id in items :: !items[id].status.Queued?
  }

  // ---- Events ---------------------------------------------------------------------------------

  datatype CallerEvent = Send(id: Id, priority: int, now: int) | Cancel(id: Id) | CloseStop | StopReturns

  datatype DispatchEvent =
    | Check | Acquire | QuitWaiting | Dequeue(id: Id, now: int) | DequeueNone | ReleaseEmpty
    | Spawn(k: nat) | Wake | QuitSleeping

  datatype Action =
    | BeginSend | Fail(msg: string, timedOut: bool) | Ack(now: int) | Record
    | BackoffElapsed | BackoffStopped | ReleaseSlot | Exit

  /** LateReply is an adapter answering after the sender that called it has given up. */
  datatype Event = Caller(call: CallerEvent) | Dispatch(step: DispatchEvent) | Act(k: nat, action: Action) | LateReply

  predicate CallerEnabled(s: System, e: CallerEvent) {
    match e
    case Send(id, _, _) => id != "" && id !in s.items
    case Cancel(id) => id in s.items && s.items[id].status.Queued?
    case CloseStop => !s.stopped
    case StopReturns => s.stopped && !s.stopReturned && s.dispatcher.Exited? && s.senders == map[]
  }

  /** A select with several ready cases may take any of them, so a closed stop channel enables quitting
      without disabling the other case; only Check prefers it. */
  predicate DispatchEnabled(c: Settings, s: System, e: DispatchEvent) {
    match e
    case Check => s.dispatcher.Top?
    case Acquire => s.dispatcher.WantSlot? && s.slots < c.maxConcurrent
    case QuitWaiting => s.dispatcher.WantSlot? && s.stopped
    case Dequeue(id, _) => s.dispatcher.HasSlot? && IsBest(s.items, id)
    case DequeueNone => s.dispatcher.HasSlot? && NoneQueued(s.items)
    case ReleaseEmpty => s.dispatcher.NoneFound?
    case Spawn(k) => s.dispatcher.Holding? && k !in s.senders
    case Wake => s.dispatcher.Sleeping?
    case QuitSleeping => s.dispatcher.Sleeping? && s.stopped
  }

  predicate ActionEnabled(ph: Phase, stopped: bool, a: Action) {
    match a
    case BeginSend => ph.Started?
    case Fail(_, _) => ph.Waiting?
    case Ack(_) => ph.Waiting?
    case Record => ph.Recording?
    case BackoffElapsed => ph.Backoff?
    case BackoffStopped => ph.Backoff? && stopped
    case ReleaseSlot => ph.Finishing?
    case Exit => ph.Released?
  }

  predicate Enabled(c: Settings, s: System, e: Event) {
    match e
    case Caller(call) => CallerEnabled(s, call)
    case Dispatch(step) => DispatchEnabled(c, s, step)
    case Act(k, a) => k in s.senders && ActionEnabled(s.senders[k].phase, s.stopped, a)
    case LateReply => s.orphans > 0
  }

  // ---- What one sender action does ------------------------------------------------------------

  function NextPhase(c: Settings, item: Item, a: Action): Phase {
    match a
    case BeginSend => Waiting
    case Fail(_, _) => if item.retryCount < c.maxRetries then Backoff else Finishing
    case Ack(_) => Recording
    case Record | BackoffElapsed | BackoffStopped => Finishing
    case ReleaseSlot | Exit => Released
  }

  function NextItem(c: Settings, item: Item, a: Action): Item {
    match a
    case Fail(msg, _) =>
      if item.retryCount < c.maxRetries then item.(retryCount := item.retryCount + 1, error := msg)
      else item.(status := Failed, error := msg)
    case Ack(now) => item.(status := Acked, ackedAt := Some(now))
    case BackoffElapsed => item.(status := Queued, sentAt := None)
    case BackoffStopped => item.(status := Failed)
    case _ => item
  }

  /** RecordAck(true): one more acknowledged command, and the success rate recomputed when anything was sent. */
  function RecordedAck(m: Counters): Counters {
    var acked := m.totalAcked + 1;
    m.(totalAcked := acked,
       successRate := if m.totalSent > 0 then acked * 10000 / m.totalSent else m.successRate)
  }

  function NextCounters(c: Settings, item: Item, m: Counters, a: Action): Counters {
    match a
    case BeginSend => m.(totalSent := m.totalSent + 1)
    case Fail(_, timedOut) =>
      m.(totalTimeout := m.totalTimeout + (if timedOut then 1 else 0),
         totalFailed := m.totalFailed + (if item.retryCount < c.maxRetries then 0 else 1))
    case Record => RecordedAck(m)
    case BackoffStopped => m.(totalFailed := m.totalFailed + 1)
    case _ => m
  }

  function Charge(c: Settings, item: Item, a: Action): nat {
    if a.Fail? && item.retryCount < c.maxRetries then Delay(c.retryBackoff, item.retryCount + 1) else 0
  }

  // ---- Transitions ----------------------------------------------------------------------------

  /** Every identifier a goroutine refers to is in the queue, which never forgets an item. */
  ghost predicate Wired(s: System) {
    && s.sends.Keys == s.items.Keys && s.waited.Keys == s.items.Keys
    && (s.dispatcher.Holding? ==> s.dispatcher.id in s.items)
    && forall k | k in s.senders :: s.senders[k].id in s.items
  }

  function ApplyCaller(s: System, e: CallerEvent): System
    requires CallerEnabled(s, e)
  {
    match e
    case Send(id, priority, now) =>
      s.(items := s.items[id := Item(priority, Queued, now, None, None, 0, "")],
         sends := s.sends[id := 0], waited := s.waited[id := 0])
    case Cancel(id) => s.(items := s.items[id := s.items[id].(status := Cancelled)])
    case CloseStop => s.(stopped := true)
    case StopReturns => s.(stopReturned := true)
  }

  function ApplyDispatch(c: Settings, s: System, e: DispatchEvent): System
    requires DispatchEnabled(c, s, e)
  {
    match e
    case Check => s.(dispatcher := if s.stopped then Exited else WantSlot)
    case Acquire => s.(dispatcher := HasSlot, slots := s.slots + 1)
    case QuitWaiting => s.(dispatcher := Exited)
    case Dequeue(id, now) =>
      s.(items := s.items[id := s.items[id].(status := Sending, sentAt := Some(now))], dispatcher := Holding(id))
    case DequeueNone => s.(dispatcher := NoneFound)
    case ReleaseEmpty => s.(dispatcher := Sleeping, slots := s.slots - 1)
    case Spawn(k) => s.(dispatcher := Top, senders := s.senders[k := Sender(s.dispatcher.id, Started)])
    case Wake => s.(dispatcher := Top)
    case QuitSleeping => s.(dispatcher := Exited)
  }

  ghost function ApplyAction(c: Settings, s: System, k: nat, a: Action): System
    requires Wired(s) && k in s.senders
  {
    var id := s.senders[k].id;
    var item := s.items[id];
    System(
      s.items[id := NextItem(c, item, a)],
      s.dispatcher,
      if a.Exit? then s.senders - {k} else s.senders[k := Sender(id, NextPhase(c, item, a))],
      if a.ReleaseSlot? then s.slots - 1 else s.slots,
      s.stopped, s.stopReturned,
      NextCounters(c, item, s.counters, a),
      if a.Fail? && a.timedOut then s.orphans + 1 else s.orphans,
      if a.BeginSend? then s.sends[id := s.sends[id] + 1] else s.sends,
      if a.Fail? then s.waited[id := s.waited[id] + Charge(c, item, a)] else s.waited)
  }

  lemma WiredCaller(s: System, e: CallerEvent)
    requires Wired(s) && CallerEnabled(s, e)
    ensures Wired(ApplyCaller(s, e))
  {
  }

  lemma WiredDispatch(c: Settings, s: System, e: DispatchEvent)
    requires Wired(s) && DispatchEnabled(c, s, e)
    ensures Wired(ApplyDispatch(c, s, e))
  {
  }

  lemma WiredAction(c: Settings, s: System, k: nat, a: Action)
    requires Wired(s) && k in s.senders
    ensures Wired(ApplyAction(c, s, k, a))
  {
  }

  ghost function Apply(c: Settings, s: System, e: Event): (t: System)
    requires Wired(s) && Enabled(c, s, e)
    ensures Wired(t)
  {
    hide ApplyCaller, ApplyDispatch, ApplyAction;
    match e
    case Caller(call) =>
      WiredCaller(s, call);
      ApplyCaller(s, call)
    case Dispatch(step) =>
      WiredDispatch(c, s, step);
      ApplyDispatch(c, s, step)
    case Act(k, a) =>
      WiredAction(c, s, k, a);
      ApplyAction(c, s, k, a)
    case LateReply => s.(orphans := s.orphans - 1)
  }

  // ---- Runs -----------------------------------------------------------------------------------

  ghost predicate IsRun(c: Settings, s: System, es: seq<Event>)
    requires Wired(s)
    decreases |es|
  {
    es == [] || (Enabled(c, s, es[0]) && IsRun(c, Apply(c, s, es[0]), es[1..]))
  }

  ghost function Final(c: Settings, s: System, es: seq<Event>): (t: System)
    requires Wired(s) && IsRun(c, s, es)
    ensures Wired(t)
    decreases |es|
  {
    if es == [] then s else Final(c, Apply(c, s, es[0]), es[1..])
  }
}
