/**
 The knowledge graph service as an object over its two tables. Which table calls fail, and what the bus makes of each
 event, are arguments: for every choice of them the methods do exactly what the operations of KnowledgeGraph say.
*/
module KnowledgeGraphService {
  import opened KnowledgeGraph

  /** Name, status, shard and federation take a text under their key, the properties an object; a value of another type, any
      other key, the kind and the owner change nothing. */
  ghost predicate Takes(before: Node, after: Node, changes: map<string, Value>) {
    && after.kind == before.kind && after.owner == before.owner
    && (if "name" in changes && changes["name"].Text? then changes["name"] == Text(after.name) else after.name == before.name)
    && (if "status" in changes && changes["status"].Text? then changes["status"] == Text(after.status)
        else after.status == before.status)
    && (if "shardKey" in changes && changes["shardKey"].Text? then changes["shardKey"] == Text(after.shardKey)
        else after.shardKey == before.shardKey)
    && (if "federationId" in changes && changes["federationId"].Text? then changes["federationId"] == Text(after.federation)
        else after.federation == before.federation)
    && (if "properties" in changes && changes["properties"].Object? then changes["properties"] == Object(after.properties)
        else after.properties == before.properties)
  }

  /** The loop over the change map; its order does not matter because every key sets its own field. */
  method ApplyAll(node: Node, changes: map<string, Value>) returns (n: Node)
    ensures n == ApplyChanges(node, changes)
    ensures Takes(node, n, changes)
  {
    n := node;
    var todo := changes.Keys;
    ghost var applied: map<string, Value> := map[];
    while todo != {}
      invariant todo <= changes.Keys
      invariant applied == map k | k in changes && k !in todo :: changes[k]
      invariant n == ApplyChanges(node, applied)
      decreases |todo|
    {
      var k :| k in todo;
      todo := todo - {k};
      applied := applied[k := changes[k]];
      var v := changes[k];
      match k {
        case "name" => if v.Text? { n := n.(name := v.s); }
        case "status" => if v.Text? { n := n.(status := v.s); }
        case "shardKey" => if v.Text? { n := n.(shardKey := v.s); }
        case "federationId" => if v.Text? { n := n.(federation := v.s); }
        case "properties" => if v.Object? { n := n.(properties := v.o); }
        case _ =>
      }
    }
    assert applied == changes;
  }

  /** The checks that precede the insert of a node, in their order. */
  method ValidateNode(id: Id, node: Node) returns (ok: bool)
    ensures ok == ValidNode(id, node)
    ensures var kinds :=
        {"Satellite", "GroundStation", "Task", "Community", "Mission", "Antenna", "Payload", "Telemetry", "Command", "Alarm"};
      ok <==> "" !in [id, node.name, node.status, node.owner] && node.kind in kinds
  {
    var given := [id, node.name, node.status, node.owner];
    assert given[0] == id && given[1] == node.name && given[2] == node.status && given[3] == node.owner;
    if id == "" {
      return false;
    }
    if node.kind !in NODE_KINDS {
      return false;
    }
    if node.name == "" {
      return false;
    }
    if node.status == "" {
      return false;
    }
    return node.owner != "";
  }

  /** And of a relationship. */
  method ValidateRel(rid: Id, rel: Rel) returns (ok: bool)
    ensures ok == ValidRel(rid, rel)
    ensures var kinds :=
        {"belongsTo", "controlledBy", "owns", "providesServiceTo", "executedBy", "usesResource", "memberOf", "contains", "targets"};
      ok <==> "" !in [rid, rel.from, rel.to] && rel.kind in kinds
  {
    var given := [rid, rel.from, rel.to];
    assert given[0] == rid && given[1] == rel.from && given[2] == rel.to;
    if rid == "" {
      return false;
    }
    if rel.from == "" {
      return false;
    }
    if rel.to == "" {
      return false;
    }
    return rel.kind in REL_KINDS;
  }

  /** Where a deletion without a transaction is hit: at either list query, at the k-th row, at the node row. */
  datatype Fault = NoFault | FirstList | SecondList | AtRow(k: nat) | AtNode

  /** The first n of some identifiers. */
  ghost function Front(ids: seq<Id>, n: nat): set<Id>
    requires n <= |ids|
  {
    set i | 0 <= i < n :: ids[i]
  }

  lemma FrontOfBoth(a: seq<Id>, b: seq<Id>, n: nat)
    requires n <= |a + b|
    ensures Front(a + b, n) == if n <= |a| then Front(a, n) else Front(a, |a|) + Front(b, n - |a|)
  {
    if n > |a| {
      forall r ensures r in Front(a + b, n) <==> r in Front(a, |a|) + Front(b, n - |a|) {
        if i :| 0 <= i < n - |a| && b[i] == r {
          assert (a + b)[|a| + i] == r;
        }
        if i :| 0 <= i < |a| && a[i] == r {
          assert (a + b)[i] == r;
        }
      }
    } else {
      forall r ensures r in Front(a + b, n) <==> r in Front(a, n) {
        if i :| 0 <= i < n && a[i] == r {
          assert (a + b)[i] == r;
        }
      }
    }
  }

  /** The rows that start at a node, or those that end there, each once. */
  ghost predicate Lists(ids: seq<Id>, rels: map<Id, Rel>, n: Id, outgoing: bool) {
    && (forall i, j :: 0 <= i < j < |ids| ==> ids[i] != ids[j])
    && (forall r :: r in ids <==> r in rels && n == if outgoing then rels[r].from else rels[r].to)
  }

  ghost function Leaving(rels: map<Id, Rel>, n: Id): set<Id> {
    set r | r in rels && rels[r].from == n
  }

  ghost function Arriving(rels: map<Id, Rel>, n: Id): set<Id> {
    set r | r in rels && rels[r].to == n
  }

  /** A deletion meets the fault; a row fault is met when there are more than k rows to delete, loops counted twice. */
  ghost predicate Hits(fault: Fault, rels: map<Id, Rel>, n: Id) {
    match fault
    case NoFault => false
    case FirstList => true
    case SecondList => true
    case AtRow(k) => k < |Leaving(rels, n)| + |Arriving(rels, n)|
    case AtNode => true
  }

  /** What the fault leaves of the rows: all, none that touches the node, or all but the first k listed. */
  ghost predicate LeftAt(fault: Fault, before: map<Id, Rel>, after: map<Id, Rel>, n: Id) {
    match fault
    case NoFault => false
    case FirstList => after == before
    case SecondList => after == before
    case AtNode => after == map r | r in before && before[r].from != n && before[r].to != n :: before[r]
    case AtRow(k) =>
      exists outs, ins :: Lists(outs, before, n, true) && Lists(ins, before, n, false)
        && k < |outs| + |ins| && after == before - Front(outs + ins, k)
  }

  lemma {:induction false} SizeOfDistinct(ids: seq<Id>, all: set<Id>)
    requires forall i, j :: 0 <= i < j < |ids| ==> ids[i] != ids[j]
    requires forall r :: r in ids <==> r in all
    ensures |ids| == |all|
    decreases |ids|
  {
    if ids == [] {
      assert all == {};
    } else {
      var init, last := ids[..|ids| - 1], ids[|ids| - 1];
      assert forall r :: r in ids <==> r in init || r == last;
      SizeOfDistinct(init, all - {last});
    }
  }

  lemma SizeOfLists(ids: seq<Id>, rels: map<Id, Rel>, n: Id, outgoing: bool)
    requires Lists(ids, rels, n, outgoing)
    ensures |ids| == if outgoing then |Leaving(rels, n)| else |Arriving(rels, n)|
  {
    SizeOfDistinct(ids, if outgoing then Leaving(rels, n) else Arriving(rels, n));
  }

  /** Only rows of the node itself are ever removed. */
  lemma MineOnly(s: Service, id: Id, rows: set<Id>)
    requires rows <= Incident(s.graph, id)
    ensures rows * Incident(s.graph, id) == rows
  {
  }

  class KGService {
    var nodes: map<Id, Node>
    var rels: map<Id, Rel>
    var log: seq<Event>
    ghost var clean: bool
    ghost var untold: map<Id, Rel>

    ghost function State(): Service
      reads this
    {
      Service(Graph(nodes, rels), log, clean, untold)
    }

    constructor ()
      ensures State() == EMPTY
      ensures nodes == map[] && rels == map[] && log == []
    {
      nodes, rels, log, clean, untold := map[], map[], [], true, map[];
    }

    method PublishEvent(e: Event, p: Publish) returns (ok: bool)
      modifies `log, `clean, `untold
      ensures State() == Emit(old(State()), e, p)
      ensures ok <==> SchemaValid(e) && p.Delivered?
      ensures log == if SchemaValid(e) && !p.Refused? then old(log) + [e] else old(log)
      ensures clean <==> old(clean) && ok
    {
      if !SchemaValid(e) || p.Refused? {
        clean := false;
        return false;
      }
      log := log + [e];
      untold := StillUntold(untold, e);
      if p.StoredOnly? {
        clean := false;
        return false;
      }
      return true;
    }

    method RegisterNode(id: Id, node: Node, repoOk: bool, p1: Publish, p2: Publish) returns (ok: bool)
      modifies this
      ensures State() == RegisterSpec(old(State()), id, node, repoOk, p1, p2)
      ensures ok <==> ValidNode(id, node) && id !in old(nodes) && repoOk && p1.Delivered? && p2.Delivered?
      ensures rels == old(rels)
      ensures ValidNode(id, node) && id !in old(nodes) && repoOk ==>
        && nodes == old(nodes)[id := node]
        && log == old(log) + (if p1.Refused? then [] else [NodeRegistered(id, node.kind)])
                  + (if !p1.Delivered? || p2.Refused? then [] else [StateUpdated(id, "", node.status)])
      ensures !(ValidNode(id, node) && id !in old(nodes) && repoOk) ==> nodes == old(nodes) && log == old(log)
    {
      var valid := ValidateNode(id, node);
      if !valid {
        return false;
      }
      if id in nodes || !repoOk {
        return false;
      }
      nodes := nodes[id := node];
      ok := PublishEvent(NodeRegistered(id, node.kind), p1);
      if !ok {
        return;
      }
      ok := PublishEvent(StateUpdated(id, "", node.status), p2);
    }

    /** What an update stores: the change of status if there is one, and unless that failed the update itself. */
    ghost function Told(id: Id, was: string, now: string, p1: Publish, p2: Publish): seq<Event> {
      var update := if p2.Refused? then [] else [NodeUpdated(id)];
      if was == now then update
      else if now == "" || p1.Refused? then []
      else if p1.StoredOnly? then [StateUpdated(id, was, now)]
      else [StateUpdated(id, was, now)] + update
    }

    method UpdateNode(id: Id, changes: map<string, Value>, repoOk: bool, p1: Publish, p2: Publish) returns (ok: bool)
      modifies this
      ensures State() == UpdateSpec(old(State()), id, changes, repoOk, p1, p2)
      ensures ok <==>
        && changes != map[] && id in old(nodes) && repoOk && id != "" && p2.Delivered?
        && (nodes[id].status != old(nodes)[id].status ==> nodes[id].status != "" && p1.Delivered?)
      ensures rels == old(rels)
      ensures changes != map[] && id in old(nodes) && repoOk ==>
        id in nodes && nodes == old(nodes)[id := nodes[id]] && Takes(old(nodes)[id], nodes[id], changes)
      ensures changes != map[] && id in old(nodes) && repoOk && id != "" ==>
        log == old(log) + Told(id, old(nodes)[id].status, nodes[id].status, p1, p2)
      ensures !(changes != map[] && id in old(nodes) && repoOk) ==> nodes == old(nodes) && log == old(log)
    {
      if changes == map[] {
        return false;
      }
      if id !in nodes {
        return false;
      }
      var node := nodes[id];
      var oldStatus := node.status;
      node := ApplyAll(node, changes);
      if !repoOk {
        return false;
      }
      nodes := nodes[id := node];
      if node.status != oldStatus {
        ok := PublishEvent(StateUpdated(id, oldStatus, node.status), p1);
        if !ok {
          return;
        }
      }
      ok := PublishEvent(NodeUpdated(id), p2);
    }

    /** Changes go to a private copy that replaces the tables at commit; any earlier return is the rollback. */
    method DeleteNodeInTx(id: Id, relsOk: bool, nodeOk: bool, commitOk: bool, p: Publish) returns (ok: bool)
      modifies this
      ensures State() == DeleteTxSpec(old(State()), id, relsOk && nodeOk && commitOk, p)
      ensures ok <==> relsOk && nodeOk && commitOk && id in old(nodes) && id != "" && p.Delivered?
      ensures relsOk && nodeOk && commitOk && id in old(nodes) ==>
        && nodes == old(nodes) - {id}
        && rels == (map r | r in old(rels) && old(rels)[r].from != id && old(rels)[r].to != id :: old(rels)[r])
        && log == if id == "" || p.Refused? then old(log) else old(log) + [NodeDeleted(id)]
      ensures !(relsOk && nodeOk && commitOk && id in old(nodes)) ==> nodes == old(nodes) && rels == old(rels) && log == old(log)
    {
      var txNodes, txRels := nodes, rels;
      if !relsOk {
        return false;
      }
      txRels := map r | r in txRels && !txRels[r].Touches(id) :: txRels[r];
      if !nodeOk {
        return false;
      }
      txNodes := txNodes - {id};
      if id !in nodes {
        return false;
      }
      if !commitOk {
        return false;
      }
      assert txRels == rels - Incident(Graph(nodes, rels), id);
      nodes, rels := txNodes, txRels;
      ok := PublishEvent(NodeDeleted(id), p);
    }

    /** Without a transaction a failure leaves behind what was done before it. */
    method DeleteNodeNoTx(id: Id, fault: Fault, p: Publish) returns (ok: bool, ghost progress: Progress)
      modifies this
      ensures State() == DeleteNoTxSpec(old(State()), id, progress)
      ensures Explains(fault, progress) || progress == Finished(p)
      ensures fault.NoFault? ==> progress == Finished(p)
      ensures fault.FirstList? || fault.SecondList? ==> progress == ListFailed
      ensures fault.AtNode? ==> progress == NodeFailed
      ensures ok <==> progress == Finished(p) && id != "" && p.Delivered?
      ensures progress == Finished(p) <==> !Hits(fault, old(rels), id)
      ensures progress == Finished(p) ==>
        && nodes == old(nodes) - {id}
        && rels == (map r | r in old(rels) && old(rels)[r].from != id && old(rels)[r].to != id :: old(rels)[r])
        && log == if id == "" || p.Refused? then old(log) else old(log) + [NodeDeleted(id)]
      ensures progress != Finished(p) ==> nodes == old(nodes) && log == old(log) && LeftAt(fault, old(rels), rels, id)
    {
      ok, progress := DeleteRelationshipsOfNode(id, fault);
      if !ok {
        return;
      }
      if fault.AtNode? {
        return false, NodeFailed;
      }
      nodes := nodes - {id};
      untold := old(untold);
      progress := Finished(p);
      ok := PublishEvent(NodeDeleted(id), p);
    }

    /** What a fault makes of a deletion that it stops; a row fault stops it after at most k rows. */
    ghost predicate Explains(fault: Fault, progress: Progress) {
      match fault
      case NoFault => false
      case FirstList | SecondList => progress == ListFailed
      case AtRow(k) => progress.RowFailed? && |progress.removed| <= k
      case AtNode => progress == NodeFailed
    }

    method List(id: Id, outgoing: bool) returns (ids: seq<Id>)
      ensures Lists(ids, rels, id, outgoing)
    {
      ids := [];
      var todo := rels.Keys;
      while todo != {}
        invariant todo <= rels.Keys
        invariant forall r :: r in ids <==> r in rels && r !in todo && id == if outgoing then rels[r].from else rels[r].to
        invariant forall i, j :: 0 <= i < j < |ids| ==> ids[i] != ids[j]
        decreases |todo|
      {
        var r :| r in todo;
        todo := todo - {r};
        if id == if outgoing then rels[r].from else rels[r].to {
          ids := ids + [r];
        }
      }
    }

    /** Outgoing rows first, then incoming; a self-loop is in both lists, and deleting it twice is harmless. */
    method DeleteRelationshipsOfNode(id: Id, fault: Fault) returns (ok: bool, ghost progress: Progress)
      modifies `rels, `untold
      ensures State() == DeleteNoTxSpec(old(State()), id, progress)
      ensures if ok then progress == NodeFailed else Explains(fault, progress)
      ensures ok ==> !fault.FirstList? && !fault.SecondList?
      ensures fault.NoFault? || fault.AtNode? ==> ok
      ensures ok <==> fault.AtNode? || !Hits(fault, old(rels), id)
      ensures ok ==> rels == map r | r in old(rels) && old(rels)[r].from != id && old(rels)[r].to != id :: old(rels)[r]
      ensures !ok ==> LeftAt(fault, old(rels), rels, id)
    {
      progress := ListFailed;
      if fault.FirstList? {
        return false, progress;
      }
      var outs := List(id, true);
      if fault.SecondList? {
        return false, progress;
      }
      var ins := List(id, false);
      ghost var removed;
      SizeOfLists(outs, rels, id, true);
      SizeOfLists(ins, rels, id, false);
      ok, removed := DeleteListed(outs, ins, fault);
      MineOnly(old(State()), id, removed);
      untold := untold + Rows(old(rels), removed);
      progress := if ok then NodeFailed else RowFailed(removed);
      assert ok ==> removed == Incident(old(State().graph), id);
    }

    /** The two loops over the listed rows. */
    method DeleteListed(outs: seq<Id>, ins: seq<Id>, fault: Fault) returns (ok: bool, ghost removed: set<Id>)
      modifies `rels
      ensures rels == old(rels) - removed
      ensures forall r :: r in removed ==> r in outs || r in ins
      ensures ok ==> forall r :: r in outs || r in ins ==> r in removed
      ensures ok == (fault.AtRow? ==> fault.k >= |outs| + |ins|)
      ensures fault.AtRow? ==> |removed| <= fault.k
      ensures !ok ==> fault.k <= |outs + ins| && removed == Front(outs + ins, fault.k)
    {
      ghost var more: set<Id> := {};
      ok, removed := DeleteRows(outs, if fault.AtRow? then fault.k else |outs|);
      if ok {
        ok, more := DeleteRows(ins, if fault.AtRow? then fault.k - |outs| else |ins|);
      }
      assert rels == old(rels) - (removed + more);
      removed := removed + more;
      if !ok {
        FrontOfBoth(outs, ins, fault.k);
      }
    }

    /** The call number failAt fails, if it comes to that. */
    method DeleteRows(ids: seq<Id>, failAt: nat) returns (ok: bool, ghost removed: set<Id>)
      modifies `rels
      ensures rels == old(rels) - removed
      ensures ok == (failAt >= |ids|)
      ensures removed == Front(ids, if ok then |ids| else failAt)
      ensures |removed| <= |ids| && |removed| <= failAt
    {
      removed := {};
      for i := 0 to |ids|
        invariant rels == old(rels) - removed && i <= failAt
        invariant removed == Front(ids, i) && |removed| <= i
      {
        if i == failAt {
          return false, removed;
        }
        removed := removed + {ids[i]};
        rels := rels - {ids[i]};
      }
      ok := true;
    }

    /** The service looks both nodes up, and the repository checks them again before it inserts. */
    method CreateRelationship(rid: Id, rel: Rel, getOk: bool, repoOk: bool, p: Publish) returns (ok: bool)
      modifies this
      ensures State() == RelateSpec(old(State()), rid, rel, getOk && repoOk, p)
      ensures ok <==>
        && ValidRel(rid, rel) && rel.from in nodes && rel.to in nodes && rid !in old(rels)
        && getOk && repoOk && p.Delivered?
      ensures nodes == old(nodes)
      ensures ValidRel(rid, rel) && rel.from in nodes && rel.to in nodes && rid !in old(rels) && getOk && repoOk ==>
        && rels == old(rels)[rid := rel]
        && log == old(log) + if p.Refused? then [] else [RelationshipCreated(rid, rel.from, rel.to, rel.kind)]
      ensures !(ValidRel(rid, rel) && rel.from in nodes && rel.to in nodes && rid !in old(rels) && getOk && repoOk) ==>
        rels == old(rels) && log == old(log)
    {
      var valid := ValidateRel(rid, rel);
      if !valid {
        return false;
      }
      if !getOk || rel.from !in nodes || rel.to !in nodes {
        return false;
      }
      ok := Create(rid, rel, repoOk);
      if ok {
        ok := PublishEvent(RelationshipCreated(rid, rel.from, rel.to, rel.kind), p);
      }
    }

    /** The repository's insert, for which both endpoints must exist. */
    method Create(rid: Id, rel: Rel, repoOk: bool) returns (ok: bool)
      modifies `rels
      ensures ok <==> rel.from in nodes && rel.to in nodes && rid !in old(rels) && repoOk
      ensures rels == if ok then old(rels)[rid := rel] else old(rels)
    {
      if rel.from !in nodes || rel.to !in nodes {
        return false;
      }
      if rid in rels || !repoOk {
        return false;
      }
      rels := rels[rid := rel];
      ok := true;
    }

    method DeleteRelationship(rid: Id, repoOk: bool, p: Publish) returns (ok: bool)
      modifies this
      ensures State() == UnrelateSpec(old(State()), rid, repoOk, p)
      ensures ok <==> repoOk && rid != "" && p.Delivered?
      ensures nodes == old(nodes)
      ensures rels == if repoOk then old(rels) - {rid} else old(rels)
      ensures log == if repoOk && rid != "" && !p.Refused? then old(log) + [RelationshipDeleted(rid)] else old(log)
    {
      if !repoOk {
        return false;
      }
      rels := rels - {rid};
      ok := PublishEvent(RelationshipDeleted(rid), p);
    }
  }
}
