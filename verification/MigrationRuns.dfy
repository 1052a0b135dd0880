/** Runs of the migrator, each of which may stop at any migration. */
module MigrationRuns {
  import opened Prelude
  import opened Sorting
  import opened MigrationSort

  function Versions(s: seq<Migration>): set<int> {
    set m | m in s :: m.version
  }

  lemma VersionsConcat(a: seq<Migration>, b: seq<Migration>)
    ensures Versions(a + b) == Versions(a) + Versions(b)
  {
    forall v | v in Versions(a) + Versions(b) ensures v in Versions(a + b) {
      var m :| (m in a || m in b) && m.version == v;
      assert m in a + b;
    }
  }

  lemma VersionsSnoc(a: seq<Migration>, x: Migration)
    ensures Versions(a + [x]) == Versions(a) + {x.version}
  {
    VersionsConcat(a, [x]);
    assert Versions([x]) == {x.version} by {
      assert x in [x];
    }
  }

  /** Those of the first n whose version was not recorded when the run began. */
  function Pending(s: seq<Migration>, n: nat, applied: set<int>): seq<Migration>
    requires n <= |s|
  {
    if n == 0 then []
    else AddIf(Pending(s, n - 1, applied), s[n - 1].version !in applied, s[n - 1])
  }

  /** Of the first n, the first one of each version that is not recorded. */
  function Firsts(s: seq<Migration>, n: nat, applied: set<int>): seq<Migration>
    requires n <= |s|
  {
    if n == 0 then []
    else
      var before := Firsts(s, n - 1, applied);
      AddIf(before, s[n - 1].version !in applied + Versions(before), s[n - 1])
  }

  ghost predicate Distinct(s: seq<Migration>) {
    forall i, j :: 0 <= i < j < |s| ==> s[i].version != s[j].version
  }

  lemma DistinctSnoc(s: seq<Migration>, x: Migration)
    ensures Distinct(s + [x]) <==> Distinct(s) && x.version !in Versions(s)
  {
    var r := s + [x];
    assert r[|s|] == x && forall i :: 0 <= i < |s| ==> r[i] == s[i] && s[i] in s && s[i].version in Versions(s);
    forall m | m in s ensures Distinct(r) ==> m.version != x.version {
      var i :| 0 <= i < |s| && s[i] == m;
      assert r[i] == m;
    }
  }

  ghost function Unrecorded(s: seq<Migration>, applied: set<int>): nat -> bool {
    (k: nat) => k < |s| && s[k].version !in applied
  }

  /** The pending ones stand, in order, at exactly the places whose version is not recorded. */
  lemma {:induction false} PendingAt(s: seq<Migration>, n: nat, applied: set<int>) returns (picks: seq<nat>)
    requires n <= |s|
    ensures PicksExactly(Pending(s, n, applied), s, n, picks, Unrecorded(s, applied))
  {
    hide PicksExactly;
    if n == 0 {
      picks := [];
      PicksNone(s, Unrecorded(s, applied));
    } else {
      var before := PendingAt(s, n - 1, applied);
      PicksExactlyNext(Pending(s, n - 1, applied), s, n - 1, before, Unrecorded(s, applied));
      picks := AddIf(before, Unrecorded(s, applied)(n - 1), n - 1);
    }
  }

  /** No migration before place k has the same version. */
  ghost predicate ComesFirst(s: seq<Migration>, k: nat)
    requires k < |s|
  {
    forall i :: 0 <= i < k ==> s[i].version != s[k].version
  }

  /** The versions of the firsts are those among the first n that are not recorded. */
  lemma {:induction false} VersionsOfFirsts(s: seq<Migration>, n: nat, applied: set<int>, v: int)
    requires n <= |s|
    ensures v in Versions(Firsts(s, n, applied)) <==> v !in applied && exists i :: 0 <= i < n && s[i].version == v
  {
    if n > 0 {
      VersionsOfFirsts(s, n - 1, applied, v);
      VersionsSnoc(Firsts(s, n - 1, applied), s[n - 1]);
    }
  }

  ghost function FirstUnrecorded(s: seq<Migration>, applied: set<int>): nat -> bool {
    (k: nat) => k < |s| && s[k].version !in applied && ComesFirst(s, k)
  }

  /** The firsts stand, in order, at exactly the places that come first with a version not recorded. */
  lemma {:induction false} FirstsAt(s: seq<Migration>, n: nat, applied: set<int>) returns (picks: seq<nat>)
    requires n <= |s|
    ensures PicksExactly(Firsts(s, n, applied), s, n, picks, FirstUnrecorded(s, applied))
  {
    hide PicksExactly;
    if n == 0 {
      picks := [];
      PicksNone(s, FirstUnrecorded(s, applied));
    } else {
      var before := FirstsAt(s, n - 1, applied);
      VersionsOfFirsts(s, n - 1, applied, s[n - 1].version);
      PicksExactlyNext(Firsts(s, n - 1, applied), s, n - 1, before, FirstUnrecorded(s, applied));
      picks := AddIf(before, FirstUnrecorded(s, applied)(n - 1), n - 1);
    }
  }

  // ---- The firsts, and what remains of them ---------------------------------------------------

  lemma {:induction false} FirstsEmpty(s: seq<Migration>, n: nat, applied: set<int>)
    requires n <= |s|
    ensures Firsts(s, n, applied) == [] <==> Versions(s[..n]) <= applied
  {
    if n > 0 {
      var before := Firsts(s, n - 1, applied);
      FirstsEmpty(s, n - 1, applied);
      VersionsNext(s, n);
      assert before == [] ==> applied + Versions(before) == applied;
    } else {
      assert Versions(s[..0]) == {};
    }
  }

  lemma VersionsNext(s: seq<Migration>, n: nat)
    requires 0 < n <= |s|
    ensures Versions(s[..n]) == Versions(s[..n - 1]) + {s[n - 1].version}
  {
    assert s[..n] == s[..n - 1] + [s[n - 1]];
    VersionsSnoc(s[..n - 1], s[n - 1]);
  }

  /** Once the front part of the firsts is recorded, the firsts are the rest of them. */
  lemma {:induction false} FirstsAfter(s: seq<Migration>, n: nat, applied: set<int>, done: seq<Migration>, rest: seq<Migration>)
    requires n <= |s| && Firsts(s, n, applied) == done + rest
    ensures Firsts(s, n, applied + Versions(done)) == rest
  {
    if n > 0 {
      var f, last := Firsts(s, n - 1, applied), s[n - 1];
      if last.version in applied + Versions(f) {
        FirstsAfter(s, n - 1, applied, done, rest);
        VersionsConcat(done, rest);
      } else if rest == [] {
        assert done == f + [last] && f + [] == f;
        FirstsAfter(s, n - 1, applied, f, []);
        AllDone(s, n, applied, f, done);
      } else {
        var init := SplitLast(f, last, done, rest);
        FirstsAfter(s, n - 1, applied, done, init);
        VersionsConcat(done, init);
      }
    }
  }

  lemma SplitLast(f: seq<Migration>, last: Migration, done: seq<Migration>, rest: seq<Migration>) returns (init: seq<Migration>)
    requires f + [last] == done + rest && rest != []
    ensures f == done + init && rest == init + [last]
  {
    init := rest[..|rest| - 1];
    assert f == (f + [last])[..|f|];
    assert (done + rest)[..|f|] == done + init;
    assert rest[|rest| - 1] == (done + rest)[|done + rest| - 1];
  }

  lemma AllDone(s: seq<Migration>, n: nat, applied: set<int>, f: seq<Migration>, done: seq<Migration>)
    requires 0 < n <= |s| && Firsts(s, n - 1, applied + Versions(f)) == [] && done == f + [s[n - 1]]
    ensures Firsts(s, n, applied + Versions(done)) == []
  {
    FirstsEmpty(s, n - 1, applied + Versions(f));
    VersionsSnoc(f, s[n - 1]);
    VersionsNext(s, n);
    FirstsEmpty(s, n, applied + Versions(done));
  }

  /** A distinct front part of the pending ones is a front part of the firsts. */
  lemma {:induction false} DistinctFront(s: seq<Migration>, n: nat, applied: set<int>, done: seq<Migration>)
    requires n <= |s| && done <= Pending(s, n, applied) && Distinct(done)
    ensures done <= Firsts(s, n, applied)
    ensures done == Pending(s, n, applied) ==> done == Firsts(s, n, applied)
  {
    if n > 0 {
      var p, last := Pending(s, n - 1, applied), s[n - 1];
      if |done| <= |p| {
        assert done <= p;
        DistinctFront(s, n - 1, applied, done);
        if done == Pending(s, n, applied) {
          assert done == p && last.version in applied;
        }
      } else {
        assert done == p + [last];
        DistinctSnoc(p, last);
        DistinctFront(s, n - 1, applied, p);
      }
    }
  }

  lemma {:induction false} NothingPending(s: seq<Migration>, n: nat, applied: set<int>)
    requires n <= |s| && forall i :: 0 <= i < n ==> s[i].version in applied
    ensures Pending(s, n, applied) == []
  {
    if n > 0 {
      NothingPending(s, n - 1, applied);
    }
  }

  lemma {:induction false} DistinctFirsts(s: seq<Migration>, n: nat, applied: set<int>)
    requires n <= |s| && Distinct(s)
    ensures Firsts(s, n, applied) == Pending(s, n, applied)
    ensures forall m | m in Pending(s, n, applied) :: exists i :: 0 <= i < n && s[i] == m
  {
    if n > 0 {
      DistinctFirsts(s, n - 1, applied);
      assert s[n - 1].version !in Versions(Pending(s, n - 1, applied));
    }
  }

  // ---- Runs -----------------------------------------------------------------------------------

  /** The recorded versions, and every migration whose statements were committed, in order. */
  datatype Schema = Schema(versions: set<int>, log: seq<Migration>)

  function With(db: Schema, done: seq<Migration>): Schema {
    Schema(db.versions + Versions(done), db.log + done)
  }

  function ToDo(db: Schema, s: seq<Migration>): seq<Migration> {
    Pending(s, |s|, db.versions)
  }

  /** A run that ends after done: a front part of what was pending, without a version that comes twice. */
  ghost predicate IsRun(db: Schema, s: seq<Migration>, done: seq<Migration>) {
    done <= ToDo(db, s) && Distinct(done)
  }

  ghost predicate AreRuns(db: Schema, s: seq<Migration>, runs: seq<seq<Migration>>)
    decreases |runs|
  {
    runs == [] || (IsRun(db, s, runs[0]) && AreRuns(With(db, runs[0]), s, runs[1..]))
  }

  ghost function AfterRuns(db: Schema, runs: seq<seq<Migration>>): Schema
    decreases |runs|
  {
    if runs == [] then db else AfterRuns(With(db, runs[0]), runs[1..])
  }

  /** The given migrations were applied since from, and they and the firsts still left are the firsts of the start. */
  ghost predicate Progress(from: Schema, s: seq<Migration>, now: Schema, applied: seq<Migration>) {
    now == With(from, applied) && applied + Firsts(s, |s|, now.versions) == Firsts(s, |s|, from.versions)
  }

  lemma WithWith(db: Schema, a: seq<Migration>, b: seq<Migration>)
    ensures With(With(db, a), b) == With(db, a + b)
  {
    VersionsConcat(a, b);
    assert db.log + a + b == db.log + (a + b);
  }

  lemma FirstsLeft(db: Schema, s: seq<Migration>, done: seq<Migration>)
    requires IsRun(db, s, done)
    ensures done + Firsts(s, |s|, With(db, done).versions) == Firsts(s, |s|, db.versions)
  {
    var left := Firsts(s, |s|, db.versions);
    DistinctFront(s, |s|, db.versions, done);
    assert left == done + left[|done|..];
    FirstsAfter(s, |s|, db.versions, done, left[|done|..]);
  }

  lemma ProgressStep(from: Schema, s: seq<Migration>, now: Schema, applied: seq<Migration>, done: seq<Migration>)
    requires Progress(from, s, now, applied) && IsRun(now, s, done)
    ensures Progress(from, s, With(now, done), applied + done)
  {
    FirstsLeft(now, s, done);
    WithWith(from, applied, done);
    var rest := Firsts(s, |s|, With(now, done).versions);
    assert applied + (done + rest) == applied + done + rest;
  }

  /** Whatever runs there were and wherever each of them stopped, what was applied is a prefix of the firsts, each once
      and in order; of migrations that share a version only the first is ever executed. */
  lemma {:induction false} RunsApplyPrefix(from: Schema, s: seq<Migration>, now: Schema, applied: seq<Migration>,
                                           runs: seq<seq<Migration>>) returns (total: seq<Migration>)
    requires Progress(from, s, now, applied) && AreRuns(now, s, runs)
    ensures Progress(from, s, AfterRuns(now, runs), total) && applied <= total
    decreases |runs|
  {
    if runs == [] {
      total := applied;
    } else {
      ProgressStep(from, s, now, applied, runs[0]);
      total := RunsApplyPrefix(from, s, With(now, runs[0]), applied + runs[0], runs[1..]);
    }
  }

  lemma NoProgressYet(from: Schema, s: seq<Migration>)
    ensures Progress(from, s, from, [])
  {
    assert from.versions + Versions([]) == from.versions && from.log + [] == from.log;
  }

  /** A run that gets through everything pending, after any others, leaves what a single clean run leaves: the firsts,
      all applied. Nothing is pending then, so further runs do nothing. */
  lemma FinalRunCompletes(from: Schema, s: seq<Migration>, runs: seq<seq<Migration>>, done: seq<Migration>)
    requires AreRuns(from, s, runs) && IsRun(AfterRuns(from, runs), s, done) && done == ToDo(AfterRuns(from, runs), s)
    ensures With(AfterRuns(from, runs), done) == With(from, Firsts(s, |s|, from.versions))
    ensures ToDo(With(AfterRuns(from, runs), done), s) == []
  {
    NoProgressYet(from, s);
    var now := AfterRuns(from, runs);
    var applied := RunsApplyPrefix(from, s, from, [], runs);
    ProgressStep(from, s, now, applied, done);
    DistinctFront(s, |s|, now.versions, done);
    var end := With(now, done);
    FirstsAfter(s, |s|, now.versions, done, []);
    assert done + [] == done;
    assert applied + done == Firsts(s, |s|, from.versions) by {
      assert applied + done + [] == applied + done;
    }
    FirstsEmpty(s, |s|, end.versions);
    assert s[..|s|] == s && forall i :: 0 <= i < |s| ==> s[i] in s && s[i].version in Versions(s);
    NothingPending(s, |s|, end.versions);
  }

  // ---- Repeated calls -------------------------------------------------------------------------

  /** What a call of Migrate works on: its list of migrations, which it sorts in place, and the database. */
  datatype Session = Session(ms: seq<Migration>, db: Schema)

  /** A call that fails before it sorts applies nothing. */
  ghost predicate Migrated(a: Session, b: Session, done: seq<Migration>) {
    && (b.ms == StableSort(a.ms) || (b.ms == a.ms && done == []))
    && IsRun(a.db, b.ms, done) && b.db == With(a.db, done)
  }

  ghost predicate AreCalls(sessions: seq<Session>, dones: seq<seq<Migration>>) {
    && |sessions| == |dones| + 1
    && forall i :: 0 <= i < |dones| ==> Migrated(sessions[i], sessions[i + 1], dones[i])
  }

  /** Each call sorts again what earlier calls have sorted, so all of them are runs over one list. */
  lemma {:induction false} CallsAreRuns(ms: seq<Migration>, sessions: seq<Session>, dones: seq<seq<Migration>>)
    requires AreCalls(sessions, dones) && StableSort(sessions[0].ms) == ms
    ensures AreRuns(sessions[0].db, ms, dones) && AfterRuns(sessions[0].db, dones) == sessions[|dones|].db
    ensures StableSort(sessions[|dones|].ms) == ms
    decreases |dones|
  {
    if dones != [] {
      SortingTwice(sessions[0].ms);
      assert Migrated(sessions[0], sessions[1], dones[0]);
      forall i | 0 <= i < |dones[1..]| ensures Migrated(sessions[1..][i], sessions[1..][i + 1], dones[1..][i]) {
        assert Migrated(sessions[i + 1], sessions[i + 2], dones[i + 1]);
      }
      CallsAreRuns(ms, sessions[1..], dones[1..]);
      assert IsRun(sessions[0].db, ms, dones[0]);
    }
  }

  /** Whatever calls of Migrate there were and wherever each of them failed, the schema has a prefix of the firsts, each
      once and in order. */
  lemma RepeatedMigrate(sessions: seq<Session>, dones: seq<seq<Migration>>) returns (total: seq<Migration>)
    requires AreCalls(sessions, dones)
    ensures Progress(sessions[0].db, StableSort(sessions[0].ms), sessions[|dones|].db, total)
  {
    var s, from := StableSort(sessions[0].ms), sessions[0].db;
    CallsAreRuns(s, sessions, dones);
    NoProgressYet(from, s);
    total := RunsApplyPrefix(from, s, from, [], dones);
  }

  /** A call that gets through everything, after any others, leaves what one clean call would have left, and a further
      call finds nothing to do. */
  lemma FinalMigrateCompletes(sessions: seq<Session>, dones: seq<seq<Migration>>, last: Session, done: seq<Migration>)
    requires AreCalls(sessions, dones) && Migrated(sessions[|dones|], last, done)
    requires last.ms == StableSort(sessions[|dones|].ms) && done == ToDo(sessions[|dones|].db, last.ms)
    ensures var s := StableSort(sessions[0].ms);
      && last.ms == s && last.db == With(sessions[0].db, Firsts(s, |s|, sessions[0].db.versions))
      && ToDo(last.db, StableSort(last.ms)) == []
  {
    var s := StableSort(sessions[0].ms);
    CallsAreRuns(s, sessions, dones);
    SortingTwice(sessions[0].ms);
    FinalRunCompletes(sessions[0].db, s, dones, done);
  }

  lemma {:induction false} FirstsDistinct(s: seq<Migration>, n: nat, applied: set<int>)
    requires n <= |s|
    ensures Distinct(Firsts(s, n, applied))
  {
    if n > 0 {
      FirstsDistinct(s, n - 1, applied);
      DistinctSnoc(Firsts(s, n - 1, applied), s[n - 1]);
    }
  }

  /** Every pending migration is applied in the end if and only if no two pending ones share a version. */
  lemma NoneIsSkippedIff(s: seq<Migration>, applied: set<int>)
    ensures Firsts(s, |s|, applied) == Pending(s, |s|, applied) <==> Distinct(Pending(s, |s|, applied))
  {
    FirstsDistinct(s, |s|, applied);
    if Distinct(Pending(s, |s|, applied)) {
      DistinctFront(s, |s|, applied, Pending(s, |s|, applied));
    }
  }

  /** Two migrations of version 1 on an empty schema: the first run applies one and stops at the other; for the next run
      nothing is pending, and the other is never executed. */
  lemma DuplicateIsSkipped(a: Migration, b: Migration)
    requires a.version == 1 && b.version == 1 && a != b
    ensures var s, db := StableSort([a, b]), Schema({}, []);
      && IsRun(db, s, [a]) && StoppedBy(NoFault, ToDo(db, s), [a])
      && ToDo(With(db, [a]), s) == [] && b !in With(db, [a]).log
  {
    var ms := [a, b];
    assert SortedBy(BY_VERSION, ms);
    PlacedStays(ms, 2);
    assert ms[..2] == ms && StableSort(ms) == ms;
    TwoPending(ms, {});
    TwoPending(ms, {1});
    VersionsSnoc([], a);
    assert [] + [a] == [a] && Versions([]) == {};
    assert With(Schema({}, []), [a]) == Schema({1}, [a]);
  }

  lemma TwoPending(ms: seq<Migration>, applied: set<int>)
    requires |ms| == 2 && ms[0].version == 1 && ms[1].version == 1
    ensures Pending(ms, 2, applied) == if 1 in applied then [] else ms
  {
    assert Pending(ms, 0, applied) == [];
    assert Pending(ms, 1, applied) == AddIf([], 1 !in applied, ms[0]);
    assert [ms[0]] + [ms[1]] == ms;
  }

  /** With distinct versions the firsts are all the pending ones, in ascending order. */
  lemma DistinctVersions(ms: seq<Migration>, applied: set<int>)
    requires Distinct(ms)
    ensures Firsts(StableSort(ms), |ms|, applied) == Pending(StableSort(ms), |ms|, applied)
    ensures SortedBy(BY_VERSION, Pending(StableSort(ms), |ms|, applied))
  {
    StableSortSorts(ms, 0);
    DistinctByCount(ms, StableSort(ms));
    DistinctFirsts(StableSort(ms), |ms|, applied);
    PendingSorted(StableSort(ms), |ms|, applied);
  }

  lemma {:induction false} PendingSorted(s: seq<Migration>, n: nat, applied: set<int>)
    requires n <= |s| && SortedBy(BY_VERSION, s)
    ensures SortedBy(BY_VERSION, Pending(s, n, applied))
    ensures n > 0 ==> forall m | m in Pending(s, n, applied) :: m.version <= s[n - 1].version
  {
    if n > 0 {
      PendingSorted(s, n - 1, applied);
      assert n > 1 ==> BY_VERSION(s[n - 2]) <= BY_VERSION(s[n - 1]);
    }
  }

  lemma DistinctByCount(a: seq<Migration>, b: seq<Migration>)
    requires Distinct(a) && multiset(a) == multiset(b)
    ensures Distinct(b)
  {
    forall i, j | 0 <= i < j < |b| ensures b[i].version != b[j].version {
      assert b[i] in multiset(b) && b[j] in multiset(b);
      assert b[i] in a && b[j] in a;
      if b[i] == b[j] {
        Twice(b, i, j);
        OnceOnly(a, b[i]);
      }
    }
  }

  lemma Twice(b: seq<Migration>, i: nat, j: nat)
    requires i < j < |b| && b[i] == b[j]
    ensures multiset(b)[b[i]] >= 2
  {
    assert b == b[..j] + [b[j]] + b[j + 1..];
    assert b[..j][i] == b[i];
  }

  lemma {:induction false} OnceOnly(a: seq<Migration>, m: Migration)
    requires Distinct(a)
    ensures multiset(a)[m] <= 1
    decreases |a|
  {
    if a != [] {
      var init, last := a[..|a| - 1], a[|a| - 1];
      assert a == init + [last];
      OnceOnly(init, m);
      DistinctSnoc(init, last);
      if last == m {
        assert m !in init;
      }
    }
  }

  // ---- The migrator ---------------------------------------------------------------------------

  /** Where a run is hit from outside: nowhere, before the first migration, or at the k-th pending one. */
  datatype Fault = NoFault | AtSetup | At(k: nat)

  class Migrator {
    const migrations: array<Migration>
    var db: Schema

    constructor (ms: array<Migration>, start: Schema)
      ensures migrations == ms && db == start
    {
      migrations, db := ms, start;
    }

    /** One transaction: the statements, then the version, whose column is a primary key. */
    method Apply(m: Migration, fails: bool) returns (ok: bool)
      modifies this`db
      ensures ok == (!fails && m.version !in old(db).versions)
      ensures db == if ok then With(old(db), [m]) else old(db)
      ensures db == if ok then Schema(old(db).versions + {m.version}, old(db).log + [m]) else old(db)
    {
      VersionsSnoc([], m);
      assert [] + [m] == [m];
      if fails || m.version in db.versions {
        return false;
      }
      db := Schema(db.versions + {m.version}, db.log + [m]);
      return true;
    }

    /** A run sorts, then applies what is pending until one fails. It is stopped by the fault, or by a version that
        comes a second time among the pending ones, and by nothing else. */
    method Migrate(fault: Fault) returns (ok: bool, done: seq<Migration>)
      modifies this`db, migrations
      ensures migrations[..] == if fault.AtSetup? then old(migrations[..]) else StableSort(old(migrations[..]))
      ensures fault.AtSetup? ==> !ok && done == []
      ensures Migrated(Session(old(migrations[..]), old(db)), Session(migrations[..], db), done)
      ensures db == Schema(old(db).versions + (set m | m in done :: m.version), old(db).log + done)
      ensures ok ==> done == ToDo(old(db), migrations[..])
      ensures !ok && !fault.AtSetup? ==> StoppedBy(fault, ToDo(old(db), migrations[..]), done)
      ensures fault.At? ==> |done| <= fault.k
    {
      if fault.AtSetup? {
        NoProgressYet(db, []);
        return false, [];
      }
      SortMigrations(migrations);
      ok, done := ApplyPending(fault, migrations[..]);
    }

    method ApplyPending(fault: Fault, s: seq<Migration>) returns (ok: bool, done: seq<Migration>)
      modifies this`db
      ensures db == With(old(db), done) && IsRun(old(db), s, done)
      ensures if ok then done == ToDo(old(db), s) else StoppedBy(fault, ToDo(old(db), s), done)
      ensures fault.At? ==> |done| <= fault.k
    {
      done := [];
      NoProgressYet(db, []);
      var applied := db.versions;
      ghost var start := db;
      for i := 0 to |s|
        invariant start == old(db) && applied == start.versions
        invariant done == Pending(s, i, applied) && Distinct(done)
        invariant db == With(start, done) && (fault.At? ==> |done| <= fault.k)
      {
        var m := s[i];
        if m.version in applied {
          continue;
        }
        ok := Apply(m, fault == At(|done|));
        PendingPrefix(s, i + 1, |s|, applied);
        if !ok {
          return;
        }
        DistinctSnoc(done, m);
        WithWith(start, done, [m]);
        done := done + [m];
      }
      ok := true;
    }
  }

  /** The next pending migration was hit, or has a version this run has already recorded. */
  ghost predicate StoppedBy(fault: Fault, todo: seq<Migration>, done: seq<Migration>) {
    |done| < |todo| && (fault == At(|done|) || todo[|done|].version in Versions(done))
  }

  lemma {:induction false} PendingPrefix(s: seq<Migration>, i: nat, n: nat, applied: set<int>)
    requires i <= n <= |s|
    ensures Pending(s, i, applied) <= Pending(s, n, applied)
  {
    if i < n {
      PendingPrefix(s, i, n - 1, applied);
    }
  }
}
