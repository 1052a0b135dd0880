/** The import of nodes and relationships from SQLite into PostgreSQL, one transaction per batch of rows. */
module Import {
  datatype Row<V> = Row(key: string, value: V)

  /** The columns of a relationship that name its endpoints, and the others as one text. */
  datatype Rel = Rel(from: string, to: string, rest: string)

  const DEFAULT_BATCH := 500

  // ---- The simple form: one row after the other, existing keys win ------------------------------

  function Insert<V>(dst: map<string, V>, row: Row<V>): map<string, V> {
    if row.key in dst then dst else dst[row.key := row.value]
  }

  /** The table after the first n rows. */
  function Merge<V>(dst: map<string, V>, rows: seq<Row<V>>, n: nat): map<string, V>
    requires n <= |rows|
  {
    if n == 0 then dst else Insert(Merge(dst, rows, n - 1), rows[n - 1])
  }

  /** One of the first n rows has the key. */
  ghost predicate HasKey<V>(rows: seq<Row<V>>, n: nat, k: string)
    requires n <= |rows|
  {
    exists i :: 0 <= i < n && rows[i].key == k
  }

  /** A merge keeps what was there, and has the keys that were there or that a row brings, and no others. */
  lemma {:induction false} MergeIsUnion<V>(dst: map<string, V>, rows: seq<Row<V>>, n: nat)
    requires n <= |rows|
    ensures forall k | k in dst :: k in Merge(dst, rows, n) && Merge(dst, rows, n)[k] == dst[k]
    ensures forall k :: k in Merge(dst, rows, n) <==> k in dst || HasKey(rows, n, k)
  {
    if n > 0 {
      MergeIsUnion(dst, rows, n - 1);
      forall k ensures HasKey(rows, n, k) <==> HasKey(rows, n - 1, k) || rows[n - 1].key == k {
      }
    }
  }

  /** Where a key is new, the first row with that key decides. */
  lemma {:induction false} FirstRowWins<V>(dst: map<string, V>, rows: seq<Row<V>>, n: nat, i: nat)
    requires i < n <= |rows| && rows[i].key !in dst && !HasKey(rows, i, rows[i].key)
    ensures rows[i].key in Merge(dst, rows, n) && Merge(dst, rows, n)[rows[i].key] == rows[i].value
  {
    if i < n - 1 {
      FirstRowWins(dst, rows, n - 1, i);
    } else {
      MergeIsUnion(dst, rows, i);
    }
  }

  /** Going through the first n rows again, after done of them are there. */
  lemma {:induction false} MergeAgain<V>(dst: map<string, V>, rows: seq<Row<V>>, done: nat, n: nat)
    requires done <= |rows| && n <= |rows|
    ensures Merge(Merge(dst, rows, done), rows, n) == Merge(dst, rows, if n < done then done else n)
  {
    if n > 0 {
      MergeAgain(dst, rows, done, n - 1);
      if n <= done {
        MergeIsUnion(dst, rows, done);
        assert HasKey(rows, done, rows[n - 1].key);
      }
    }
  }

  /** The table after attempts that got as far as the given numbers of rows. */
  function Attempts<V>(dst: map<string, V>, rows: seq<Row<V>>, reached: seq<nat>): map<string, V>
    requires forall i :: 0 <= i < |reached| ==> reached[i] <= |rows|
    decreases |reached|
  {
    if reached == [] then dst
    else Merge(Attempts(dst, rows, reached[..|reached| - 1]), rows, reached[|reached| - 1])
  }

  /** However often the import stopped on the way, the table is the first one merged with a prefix of the rows. */
  lemma {:induction false} AttemptsReachPrefix<V>(dst: map<string, V>, rows: seq<Row<V>>, reached: seq<nat>) returns (n: nat)
    requires forall i :: 0 <= i < |reached| ==> reached[i] <= |rows|
    ensures n <= |rows| && Attempts(dst, rows, reached) == Merge(dst, rows, n)
    decreases |reached|
  {
    if reached == [] {
      n := 0;
    } else {
      var far := reached[|reached| - 1];
      var before := AttemptsReachPrefix(dst, rows, reached[..|reached| - 1]);
      MergeAgain(dst, rows, before, far);
      n := if far < before then before else far;
    }
  }

  /** A complete run after any failed ones gives what one complete run would have given, and one more changes nothing. */
  lemma AttemptsConverge<V>(dst: map<string, V>, rows: seq<Row<V>>, reached: seq<nat>)
    requires forall i :: 0 <= i < |reached| ==> reached[i] <= |rows|
    ensures Merge(Attempts(dst, rows, reached), rows, |rows|) == Merge(dst, rows, |rows|)
    ensures Merge(Merge(dst, rows, |rows|), rows, |rows|) == Merge(dst, rows, |rows|)
  {
    var n := AttemptsReachPrefix(dst, rows, reached);
    MergeAgain(dst, rows, n, |rows|);
    MergeAgain(dst, rows, |rows|, |rows|);
  }

  // ---- The batched form -----------------------------------------------------------------------

  /** A table behind transactions: what is committed, and what the open transaction sees. Unless it is healthy, any
      call may fail, and so may reading the rows meant for it. */
  class Table<V> {
    const healthy: bool
    var committed: map<string, V>
    var working: map<string, V>
    var open: bool
    /** How many rows were inserted so far, whatever became of them. */
    ghost var inserted: nat

    constructor (rows: map<string, V>, healthy: bool)
      ensures committed == rows && !open && this.healthy == healthy && inserted == 0
    {
      inserted := 0;
      this.healthy := healthy;
      committed, working, open := rows, rows, false;
    }

    /** Begins a transaction and prepares the insert; a failure to prepare rolls back. */
    method Begin() returns (ok: bool)
      modifies this
      ensures committed == old(committed) && open == ok && (ok ==> working == committed) && (healthy ==> ok)
      ensures inserted == old(inserted)
    {
      ok :| healthy ==> ok;
      working, open := committed, ok;
    }

    method Exec(row: Row<V>) returns (ok: bool, affected: nat)
      requires open
      modifies this`working, this`inserted
      ensures inserted == old(inserted) + if ok then 1 else 0
      ensures ok ==> working == Insert(old(working), row) && affected == |working| - |old(working)|
      ensures (!ok ==> affected == 0) && (healthy ==> ok)
    {
      ok :| healthy ==> ok;
      affected := 0;
      if ok && row.key !in working {
        working := working[row.key := row.value];
        affected := 1;
      }
      inserted := inserted + if ok then 1 else 0;
    }

    method Commit() returns (ok: bool)
      requires open
      modifies this
      ensures !open && (committed == if ok then old(working) else old(committed)) && (healthy ==> ok)
      ensures inserted == old(inserted)
    {
      ok :| healthy ==> ok;
      open := false;
      if ok {
        committed := working;
      }
    }

    method Rollback()
      modifies this`open
      ensures !open
    {
      open := false;
    }
  }

  /** n is a multiple of batch. */
  ghost predicate WholeBatches(n: nat, batch: nat)
    decreases n
  {
    n == 0 || (1 <= batch <= n && WholeBatches(n - batch, batch))
  }

  /** Commits and opens the next transaction; the commit may succeed and the opening fail. */
  method CommitBatch<V>(db: Table<V>) returns (committed: bool, ok: bool)
    requires db.open
    modifies db
    ensures db.committed == if committed then old(db.working) else old(db.committed)
    ensures db.open == ok && (ok ==> committed && db.working == db.committed) && (db.healthy ==> ok)
    ensures db.inserted == old(db.inserted)
  {
    committed := db.Commit();
    ok := committed;
    if ok {
      ok := db.Begin();
    }
  }

  /** Reads and inserts one row; any failure rolls the transaction back. */
  method CopyRow<V>(db: Table<V>, row: Row<V>) returns (ok: bool, affected: nat)
    requires db.open
    modifies db`working, db`open, db`inserted
    ensures db.inserted == old(db.inserted) + if ok then 1 else 0
    ensures db.open == ok && (db.healthy ==> ok)
    ensures ok ==> db.working == Insert(old(db.working), row) && affected == |db.working| - |old(db.working)|
  {
    // the cursor ends early, or the row cannot be read
    ok :| db.healthy ==> ok;
    affected := 0;
    if ok {
      ok, affected := db.Exec(row);
    }
    if !ok {
      db.Rollback();
    }
  }

  lemma NothingCopied<V>(dst: map<string, V>, rows: seq<Row<V>>, batch: nat)
    ensures Merge(dst, rows, 0) == dst && WholeBatches(0, batch)
  {
  }

  lemma OneRowMore<V>(dst: map<string, V>, rows: seq<Row<V>>, n: nat)
    requires n < |rows|
    ensures Merge(dst, rows, n + 1) == Insert(Merge(dst, rows, n), rows[n])
  {
  }

  lemma OneBatchMore(done: nat, batch: nat)
    requires batch >= 1 && WholeBatches(done, batch)
    ensures WholeBatches(done + batch, batch)
  {
  }

  /** After the last row: the cursor may have ended early, and an unfinished batch is committed. */
  method LastCommit<V>(db: Table<V>, rowInTx: nat) returns (ok: bool, committed: bool)
    requires db.open
    modifies db
    ensures !db.open && (db.healthy ==> ok) && (committed ==> ok) && (ok && rowInTx > 0 ==> committed)
    ensures db.inserted == old(db.inserted)
    ensures db.committed == if committed then old(db.working) else old(db.committed)
  {
    ok :| db.healthy ==> ok;
    committed := false;
    if ok && rowInTx > 0 {
      ok := db.Commit();
      committed := ok;
    } else {
      db.Rollback();
    }
  }

  lemma {:induction false} WholeBatchesIff(n: nat, batch: nat)
    requires batch >= 1
    ensures WholeBatches(n, batch) <==> n % batch == 0
    decreases n
  {
    if n >= batch {
      WholeBatchesIff(n - batch, batch);
      assert (n - batch) % batch == 0 <==> n % batch == 0 by { OneLess(n, batch); }
    }
  }

  lemma WholeBatchesFacts(batch: nat)
    requires batch >= 1
    ensures forall n: nat :: WholeBatches(n, batch) ==> n % batch == 0
  {
    forall n: nat ensures WholeBatches(n, batch) ==> n % batch == 0 {
      WholeBatchesIff(n, batch);
    }
  }

  lemma OneLess(n: nat, batch: nat)
    requires 1 <= batch <= n
    ensures (n - batch) % batch == n % batch
  {
    var q, r := (n - batch) / batch, (n - batch) % batch;
    assert n == batch * (q + 1) + r;
    Remainder(n, batch, q + 1, r);
  }

  lemma Remainder(n: nat, batch: nat, q: nat, r: nat)
    requires batch >= 1 && n == batch * q + r && r < batch
    ensures n % batch == r
  {
    var d := n / batch - q;
    Distribute(batch, n / batch, q);
    assert batch * d == r - n % batch;
    if d != 0 {
      FarFromZero(batch, d);
    }
  }

  lemma Distribute(batch: nat, a: int, b: int)
    ensures batch * (a - b) == batch * a - batch * b
  {
  }

  lemma FarFromZero(batch: nat, d: int)
    requires d != 0
    ensures batch * d >= batch || batch * d + batch <= 0
  {
  }

  /** Whatever fails, the rows committed are a prefix in whole batches, and of those inserted no more than one batch is
      missing; success means all of them. */
  method CopyRows<V>(db: Table<V>, rows: seq<Row<V>>, batch: nat)
    returns (newCount: nat, skipped: nat, ok: bool, ghost done: nat)
    requires batch >= 1 && !db.open
    modifies db
    ensures !db.open
    ensures done <= |rows| && db.committed == Merge(old(db.committed), rows, done)
    ensures if ok then done == |rows| else WholeBatches(done, batch)
    ensures done % batch == 0 || done == |rows|
    ensures done <= db.inserted - old(db.inserted) <= done + batch
    ensures ok ==> db.inserted == old(db.inserted) + |rows|
    ensures db.healthy ==> ok
    ensures ok ==> newCount + skipped == |rows| && newCount == |db.committed| - |old(db.committed)|
  {
    hide Merge, WholeBatches;
    WholeBatchesFacts(batch);
    ghost var dst := db.committed;
    newCount, skipped, done := 0, 0, 0;
    NothingCopied(dst, rows, batch);
    ok := db.Begin();
    if !ok {
      return;
    }
    var rowInTx, i := 0, 0;
    while i < |rows|
      invariant i <= |rows| && db.open && i == done + rowInTx && rowInTx < batch && WholeBatches(done, batch)
      invariant db.committed == Merge(dst, rows, done)
      invariant db.working == Merge(dst, rows, i)
      invariant db.inserted == old(db.inserted) + i
      invariant newCount + skipped == i && newCount == |db.working| - |dst|
    {
      var affected;
      OneRowMore(dst, rows, i);
      ok, affected := CopyRow(db, rows[i]);
      if !ok {
        return;
      }
      if affected > 0 {
        newCount := newCount + 1;
      } else {
        skipped := skipped + 1;
      }
      i := i + 1;
      rowInTx := rowInTx + 1;
      if rowInTx >= batch {
        var committed;
        committed, ok := CommitBatch(db);
        if committed {
          OneBatchMore(done, batch);
          done := i;
        }
        if !ok {
          return;
        }
        rowInTx := 0;
      }
    }
    var last;
    ok, last := LastCommit(db, rowInTx);
    done := if last then i else done;
  }

  datatype Stats = Stats(nodesNew: nat, nodesSkipped: nat, relsNew: nat, relsSkipped: nat)

  function BatchOf(batchSize: int): (batch: nat)
    ensures batch >= 1
  {
    if batchSize < 1 then DEFAULT_BATCH else batchSize
  }

  /** Nodes first, then relationships; a failure in the nodes leaves the relationships alone. */
  method Migrate<N>(nodeRows: seq<Row<N>>, relRows: seq<Row<Rel>>, nodes: Table<N>, rels: Table<Rel>, batchSize: int)
    returns (stats: Stats, ok: bool, ghost nodesDone: nat, ghost relsDone: nat)
    requires !nodes.open && !rels.open && (nodes as object) != (rels as object)
    modifies nodes, rels
    ensures !nodes.open && !rels.open
    ensures nodesDone <= |nodeRows| && nodes.committed == Merge(old(nodes.committed), nodeRows, nodesDone)
    ensures relsDone <= |relRows| && rels.committed == Merge(old(rels.committed), relRows, relsDone)
    ensures nodesDone == |nodeRows| || (WholeBatches(nodesDone, BatchOf(batchSize)) && relsDone == 0)
    ensures relsDone == |relRows| || WholeBatches(relsDone, BatchOf(batchSize))
    ensures var batch := if batchSize >= 1 then batchSize else 500;
      && (nodesDone % batch == 0 || nodesDone == |nodeRows|) && (relsDone % batch == 0 || relsDone == |relRows|)
      && nodesDone <= nodes.inserted - old(nodes.inserted) <= nodesDone + batch
      && relsDone <= rels.inserted - old(rels.inserted) <= relsDone + batch
    ensures ok ==> nodesDone == |nodeRows| && relsDone == |relRows|
    ensures nodes.healthy && rels.healthy ==> ok
    ensures ok ==> stats.nodesNew + stats.nodesSkipped == |nodeRows| && stats.relsNew + stats.relsSkipped == |relRows|
    ensures ok ==> stats.nodesNew == |nodes.committed| - |old(nodes.committed)|
    ensures ok ==> stats.relsNew == |rels.committed| - |old(rels.committed)|
  {
    stats, nodesDone, relsDone := Stats(0, 0, 0, 0), 0, 0;
    var batch := BatchOf(batchSize);
    // reading either table of the source may fail
    ok :| nodes.healthy ==> ok;
    if !ok {
      return;
    }
    var created, skipped;
    created, skipped, ok, nodesDone := CopyRows(nodes, nodeRows, batch);
    if !ok {
      return;
    }
    stats := Stats(created, skipped, 0, 0);
    ok :| rels.healthy ==> ok;
    if !ok {
      return;
    }
    created, skipped, ok, relsDone := CopyRows(rels, relRows, batch);
    if !ok {
      return;
    }
    stats := Stats(stats.nodesNew, stats.nodesSkipped, created, skipped);
  }

  lemma {:induction false} NothingReached<V>(dst: map<string, V>, rows: seq<Row<V>>, reached: seq<nat>)
    requires forall i :: 0 <= i < |reached| ==> reached[i] == 0
    ensures Attempts(dst, rows, reached) == dst
    decreases |reached|
  {
    if reached != [] {
      NothingReached(dst, rows, reached[..|reached| - 1]);
    }
  }

  lemma {:induction false} AllReached<V>(dst: map<string, V>, rows: seq<Row<V>>, reached: seq<nat>, i: nat)
    requires (forall j :: 0 <= j < |reached| ==> reached[j] <= |rows|) && i < |reached| && reached[i] == |rows|
    ensures Attempts(dst, rows, reached) == Merge(dst, rows, |rows|)
    decreases |reached|
  {
    var init, far := reached[..|reached| - 1], reached[|reached| - 1];
    if i == |init| {
      var n := AttemptsReachPrefix(dst, rows, init);
      MergeAgain(dst, rows, n, far);
    } else {
      AllReached(dst, rows, init, i);
      MergeAgain(dst, rows, |rows|, far);
    }
  }

  /** If no relationship of the source lacks an endpoint, then after any sequence of imports, each stopped wherever it was,
      none that they brought in does. */
  lemma ImportedHaveEndpoints<N>(nodeRows: seq<Row<N>>, relRows: seq<Row<Rel>>, nodes: map<string, N>, rels: map<string, Rel>,
                                 nodesDone: seq<nat>, relsDone: seq<nat>, id: string)
    requires forall i :: 0 <= i < |relRows| ==>
      HasKey(nodeRows, |nodeRows|, relRows[i].value.from) && HasKey(nodeRows, |nodeRows|, relRows[i].value.to)
    requires |nodesDone| == |relsDone|
    requires forall i :: 0 <= i < |nodesDone| ==> nodesDone[i] <= |nodeRows|
    requires forall i :: 0 <= i < |relsDone| ==> relsDone[i] <= |relRows| && (relsDone[i] > 0 ==> nodesDone[i] == |nodeRows|)
    requires id !in rels && id in Attempts(rels, relRows, relsDone)
    ensures Attempts(rels, relRows, relsDone)[id].from in Attempts(nodes, nodeRows, nodesDone)
    ensures Attempts(rels, relRows, relsDone)[id].to in Attempts(nodes, nodeRows, nodesDone)
  {
    var n := AttemptsReachPrefix(rels, relRows, relsDone);
    var i := ComesFromRow(rels, relRows, n, id);
    if forall j :: 0 <= j < |relsDone| ==> relsDone[j] == 0 {
      NothingReached(rels, relRows, relsDone);
    } else {
      var j :| 0 <= j < |relsDone| && relsDone[j] > 0;
      AllReached(nodes, nodeRows, nodesDone, j);
      MergeIsUnion(nodes, nodeRows, |nodeRows|);
    }
  }

  lemma {:induction false} ComesFromRow<V>(dst: map<string, V>, rows: seq<Row<V>>, n: nat, k: string) returns (i: nat)
    requires n <= |rows| && k in Merge(dst, rows, n) && k !in dst
    ensures i < n && rows[i] == Row(k, Merge(dst, rows, n)[k])
  {
    if k in Merge(dst, rows, n - 1) {
      i := ComesFromRow(dst, rows, n - 1, k);
    } else {
      i := n - 1;
    }
  }
}
