/**
 The knowledge graph service: nodes and relationships in two tables, and the event log the bus keeps.
 Failures of the tables and of the bus are part of each operation, so runs cover every place one can strike.
*/
module KnowledgeGraph {
  type Id = string

  /** A JSON object, by its canonical text. */
  type Json = string

  datatype Node = Node(
    kind: string, name: string, status: string, owner: string, shardKey: string, federation: string, properties: Json)

  datatype Rel = Rel(from: Id, to: Id, kind: string) {
    predicate Touches(n: Id) { from == n || to == n }
  }

  datatype Graph = Graph(nodes: map<Id, Node>, rels: map<Id, Rel>)

  const NODE_KINDS: set<string> :=
    {"Satellite", "GroundStation", "Task", "Community", "Mission", "Antenna", "Payload", "Telemetry", "Command", "Alarm"}

  const REL_KINDS: set<string> :=
    {"belongsTo", "controlledBy", "owns", "providesServiceTo", "executedBy", "usesResource", "memberOf", "contains", "targets"}

  predicate ValidNode(id: Id, n: Node) {
    id != "" && n.kind in NODE_KINDS && n.name != "" && n.status != "" && n.owner != ""
  }

  predicate ValidRel(id: Id, r: Rel) {
    id != "" && r.from != "" && r.to != "" && r.kind in REL_KINDS
  }

  /** Every stored relationship has both its ends among the stored nodes. */
  predicate NoDangling(g: Graph) {
    forall r | r in g.rels :: g.rels[r].from in g.nodes && g.rels[r].to in g.nodes
  }

  function Incident(g: Graph, n: Id): set<Id> {
    set r | r in g.rels && g.rels[r].Touches(n)
  }

  function WithoutNode(g: Graph, n: Id): Graph {
    Graph(g.nodes - {n}, g.rels - Incident(g, n))
  }

  // ---- Changes --------------------------------------------------------------------------------

  /** A value of a change request: strings go to string fields, objects to the properties, anything else is ignored. */
  datatype Value = Text(s: string) | Object(o: Json) | Other

  function Changed(current: string, changes: map<string, Value>, key: string): string {
    if key in changes && changes[key].Text? then changes[key].s else current
  }

  function ApplyChanges(n: Node, changes: map<string, Value>): Node {
    Node(n.kind, Changed(n.name, changes, "name"), Changed(n.status, changes, "status"), n.owner,
         Changed(n.shardKey, changes, "shardKey"), Changed(n.federation, changes, "federationId"),
         if "properties" in changes && changes["properties"].Object? then changes["properties"].o else n.properties)
  }

  // ---- Events and the log ---------------------------------------------------------------------

  datatype Event =
    | NodeRegistered(node: Id, kind: string)
    | StateUpdated(node: Id, oldStatus: string, newStatus: string)
    | NodeUpdated(node: Id)
    | NodeDeleted(node: Id)
    | RelationshipCreated(rel: Id, from: Id, to: Id, kind: string)
    | RelationshipDeleted(rel: Id)

  /** The bus validates before it stores: required payload fields must be there and not empty. */
  predicate SchemaValid(e: Event) {
    match e
    case NodeRegistered(n, k) => n != "" && k != ""
    case StateUpdated(n, _, s) => n != "" && s != ""
    case NodeUpdated(n) => n != ""
    case NodeDeleted(n) => n != ""
    case RelationshipCreated(r, f, t, k) => r != "" && f != "" && t != "" && k != ""
    case RelationshipDeleted(r) => r != ""
  }

  datatype Brief = Brief(kind: string, status: string)
  datatype Picture = Picture(nodes: map<Id, Brief>, rels: map<Id, Rel>)

  function NotTouching(rels: map<Id, Rel>, n: Id): map<Id, Rel> {
    map r | r in rels && !rels[r].Touches(n) :: rels[r]
  }

  function Fold1(p: Picture, e: Event): Picture {
    match e
    case NodeRegistered(n, k) => p.(nodes := p.nodes[n := Brief(k, "")])
    case StateUpdated(n, _, s) => if n in p.nodes then p.(nodes := p.nodes[n := p.nodes[n].(status := s)]) else p
    case NodeUpdated(_) => p
    case NodeDeleted(n) => Picture(p.nodes - {n}, NotTouching(p.rels, n))
    case RelationshipCreated(r, f, t, k) => p.(rels := p.rels[r := Rel(f, t, k)])
    case RelationshipDeleted(r) => p.(rels := p.rels - {r})
  }

  function Fold(log: seq<Event>): Picture {
    if log == [] then Picture(map[], map[]) else Fold1(Fold(log[..|log| - 1]), log[|log| - 1])
  }

  function View(g: Graph): Picture {
    Picture(map n | n in g.nodes :: Brief(g.nodes[n].kind, g.nodes[n].status), g.rels)
  }

  lemma FoldAppend(log: seq<Event>, e: Event)
    ensures Fold(log + [e]) == Fold1(Fold(log), e)
  {
    assert (log + [e])[..|log|] == log;
  }

  /** What the fold shows, read off the log. A node is there exactly when some event registers it and no later one deletes it. */
  lemma {:induction false} NodeShownIff(log: seq<Event>, n: Id)
    ensures n in Fold(log).nodes <==>
      exists i :: 0 <= i < |log| && RegistersAt(log, i, n) && forall j :: i < j < |log| ==> log[j] != NodeDeleted(n)
    decreases |log|
  {
    if log != [] {
      var init, last := log[..|log| - 1], log[|log| - 1];
      NodeShownIff(init, n);
      if last.NodeRegistered? && last.node == n {
        assert RegistersAt(log, |log| - 1, n);
      } else if i :| 0 <= i < |init| && RegistersAt(init, i, n) && forall j :: i < j < |init| ==> init[j] != NodeDeleted(n) {
        assert RegistersAt(log, i, n);
        assert last == NodeDeleted(n) || forall j :: i < j < |log| ==> log[j] != NodeDeleted(n);
      }
      if i :| 0 <= i < |log| - 1 && RegistersAt(log, i, n) && forall j :: i < j < |log| ==> log[j] != NodeDeleted(n) {
        assert RegistersAt(init, i, n);
        assert forall j :: i < j < |init| ==> init[j] == log[j];
      }
    }
  }

  ghost predicate RegistersAt(log: seq<Event>, i: int, n: Id)
    requires 0 <= i < |log|
  {
    log[i].NodeRegistered? && log[i].node == n
  }

  /** It is shown as the last event about it said: with the kind of its registration and no status, or with a new status. */
  lemma {:induction false} NodeShownAs(log: seq<Event>, n: Id, i: nat)
    requires i < |log| && n in Fold(log).nodes && Sets(log[i], n) && forall j :: i < j < |log| ==> !Sets(log[j], n)
    ensures log[i].NodeRegistered? ==> Fold(log).nodes[n] == Brief(log[i].kind, "")
    ensures log[i].StateUpdated? ==>
      n in Fold(log[..i]).nodes && Fold(log).nodes[n] == Brief(Fold(log[..i]).nodes[n].kind, log[i].newStatus)
    decreases |log|
  {
    var init := log[..|log| - 1];
    if i < |log| - 1 {
      assert forall j :: i < j < |init| ==> init[j] == log[j];
      NodeShownAs(init, n, i);
      assert init[..i] == log[..i];
    } else {
      assert log[..i] == init;
    }
  }

  ghost predicate Sets(e: Event, n: Id) {
    (e.NodeRegistered? || e.StateUpdated?) && e.node == n
  }

  /** A relationship is shown exactly when some event tells of its creation and no later one of its deletion, of another
      creation under its identifier, or of the deletion of one of its ends. */
  lemma {:induction false} RelShownIff(log: seq<Event>, r: Id, rel: Rel)
    ensures (r in Fold(log).rels && Fold(log).rels[r] == rel) <==> exists i :: RelatedSince(log, i, r, rel)
    decreases |log|
  {
    hide RelatedSince, Fold1, Fold;
    if log == [] {
      NothingShown(r, rel);
    } else {
      var init, last := log[..|log| - 1], log[|log| - 1];
      assert log == init + [last];
      FoldAppend(init, last);
      RelShownIff(init, r, rel);
      FoldOneRel(Fold(init), last, r, rel);
      if i :| RelatedSince(log, i, r, rel) {
        RelatedSinceOneMore(init, last, i, r, rel);
      }
      RelatedSinceOneMore(init, last, |init|, r, rel);
      if last == RelationshipCreated(r, rel.from, rel.to, rel.kind) {
        assert RelatedSince(log, |init|, r, rel);
      } else if i :| RelatedSince(init, i, r, rel) {
        RelatedSinceOneMore(init, last, i, r, rel);
        assert i < |init| by { RelatedInside(init, i, r, rel); }
      }
    }
  }

  /** Event i tells of the creation, and none after it of an end. */
  ghost predicate RelatedSince(log: seq<Event>, i: int, r: Id, rel: Rel) {
    && 0 <= i < |log| && log[i] == RelationshipCreated(r, rel.from, rel.to, rel.kind)
    && forall j :: i < j < |log| ==> !Ends(log[j], r, rel)
  }

  lemma NothingShown(r: Id, rel: Rel)
    ensures Fold([]).rels == map[] && forall i :: !RelatedSince([], i, r, rel)
  {
  }

  lemma RelatedInside(log: seq<Event>, i: int, r: Id, rel: Rel)
    requires RelatedSince(log, i, r, rel)
    ensures i < |log|
  {
  }

  lemma RelatedSinceOneMore(log: seq<Event>, e: Event, i: int, r: Id, rel: Rel)
    ensures RelatedSince(log + [e], i, r, rel)
      <==> if i == |log| then e == RelationshipCreated(r, rel.from, rel.to, rel.kind)
           else RelatedSince(log, i, r, rel) && !Ends(e, r, rel)
  {
    if i < |log| && RelatedSince(log + [e], i, r, rel) {
      assert (log + [e])[|log|] == e;
      assert forall j :: 0 <= j < |log| ==> log[j] == (log + [e])[j];
    }
  }

  lemma FoldOneRel(p: Picture, e: Event, r: Id, rel: Rel)
    ensures var q := Fold1(p, e);
      (r in q.rels && q.rels[r] == rel)
      <==> e == RelationshipCreated(r, rel.from, rel.to, rel.kind) || (r in p.rels && p.rels[r] == rel && !Ends(e, r, rel))
  {
  }

  ghost predicate Ends(e: Event, r: Id, rel: Rel) {
    || e == RelationshipDeleted(r)
    || (e.RelationshipCreated? && e.rel == r)
    || e == NodeDeleted(rel.from) || e == NodeDeleted(rel.to)
  }

  // ---- Operations -----------------------------------------------------------------------------

  /** What the bus does with a valid event: deliver it, refuse it, or store it and still report an error. */
  datatype Publish = Delivered | Refused | StoredOnly

  /** clean and untold are history: no publish has failed so far; and the relationships that deletions without a transaction
      removed before they failed, as long as no event tells of them. */
  datatype Service = Service(graph: Graph, log: seq<Event>, clean: bool, untold: map<Id, Rel>)

  /** Which of them are left after an event. */
  function StillUntold(untold: map<Id, Rel>, e: Event): map<Id, Rel> {
    match e
    case NodeDeleted(n) => NotTouching(untold, n)
    case RelationshipCreated(r, _, _, _) => untold - {r}
    case RelationshipDeleted(r) => untold - {r}
    case _ => untold
  }

  predicate Published(e: Event, p: Publish) {
    SchemaValid(e) && p.Delivered?
  }

  function Emit(s: Service, e: Event, p: Publish): Service {
    s.(log := if SchemaValid(e) && !p.Refused? then s.log + [e] else s.log,
       untold := if SchemaValid(e) && !p.Refused? then StillUntold(s.untold, e) else s.untold,
       clean := s.clean && Published(e, p))
  }

  /** How far a deletion without a transaction gets. */
  datatype Progress =
    | ListFailed
    | RowFailed(removed: set<Id>)
    | NodeFailed
    | Finished(p: Publish)

  datatype Op =
    | Register(id: Id, node: Node, repoOk: bool, p1: Publish, p2: Publish)
    | Update(id: Id, changes: map<string, Value>, repoOk: bool, p1: Publish, p2: Publish)
    | DeleteTx(id: Id, dbOk: bool, p1: Publish)
    | DeleteNoTx(id: Id, progress: Progress)
    | Relate(rid: Id, rel: Rel, repoOk: bool, p1: Publish)
    | Unrelate(rid: Id, repoOk: bool, p1: Publish)

  function RegisterSpec(s: Service, id: Id, node: Node, repoOk: bool, p1: Publish, p2: Publish): Service {
    if !ValidNode(id, node) || id in s.graph.nodes || !repoOk then s
    else
      var e1, e2 := NodeRegistered(id, node.kind), StateUpdated(id, "", node.status);
      var t := Emit(s.(graph := s.graph.(nodes := s.graph.nodes[id := node])), e1, p1);
      if Published(e1, p1) then Emit(t, e2, p2) else t
  }

  function UpdateSpec(s: Service, id: Id, changes: map<string, Value>, repoOk: bool, p1: Publish, p2: Publish): Service {
    if changes == map[] || id !in s.graph.nodes || !repoOk then s
    else
      var before := s.graph.nodes[id];
      var after := ApplyChanges(before, changes);
      var t := s.(graph := s.graph.(nodes := s.graph.nodes[id := after]));
      var e1 := StateUpdated(id, before.status, after.status);
      if after.status == before.status then Emit(t, NodeUpdated(id), p2)
      else if Published(e1, p1) then Emit(Emit(t, e1, p1), NodeUpdated(id), p2)
      else Emit(t, e1, p1)
  }

  function DeleteTxSpec(s: Service, id: Id, dbOk: bool, p: Publish): Service {
    if !dbOk || id !in s.graph.nodes then s
    else Emit(s.(graph := WithoutNode(s.graph, id)), NodeDeleted(id), p)
  }

  function Rows(rels: map<Id, Rel>, rows: set<Id>): map<Id, Rel> {
    map r | r in rows && r in rels :: rels[r]
  }

  function RemoveRows(s: Service, rows: set<Id>): Service {
    s.(graph := s.graph.(rels := s.graph.rels - rows),
       untold := s.untold + Rows(s.graph.rels, rows))
  }

  function DeleteNoTxSpec(s: Service, id: Id, progress: Progress): Service {
    match progress
    case ListFailed => s
    case RowFailed(removed) => RemoveRows(s, removed * Incident(s.graph, id))
    case NodeFailed => RemoveRows(s, Incident(s.graph, id))
    case Finished(p) => Emit(s.(graph := WithoutNode(s.graph, id)), NodeDeleted(id), p)
  }

  function RelateSpec(s: Service, rid: Id, rel: Rel, repoOk: bool, p: Publish): Service {
    if !ValidRel(rid, rel) || rel.from !in s.graph.nodes || rel.to !in s.graph.nodes || rid in s.graph.rels || !repoOk then s
    else Emit(s.(graph := s.graph.(rels := s.graph.rels[rid := rel])), RelationshipCreated(rid, rel.from, rel.to, rel.kind), p)
  }

  function UnrelateSpec(s: Service, rid: Id, repoOk: bool, p: Publish): Service {
    if !repoOk then s
    else Emit(s.(graph := s.graph.(rels := s.graph.rels - {rid})), RelationshipDeleted(rid), p)
  }

  function Perform(s: Service, op: Op): Service {
    match op
    case Register(id, node, ok, p1, p2) => RegisterSpec(s, id, node, ok, p1, p2)
    case Update(id, changes, ok, p1, p2) => UpdateSpec(s, id, changes, ok, p1, p2)
    case DeleteTx(id, ok, p) => DeleteTxSpec(s, id, ok, p)
    case DeleteNoTx(id, progress) => DeleteNoTxSpec(s, id, progress)
    case Relate(rid, rel, ok, p) => RelateSpec(s, rid, rel, ok, p)
    case Unrelate(rid, ok, p) => UnrelateSpec(s, rid, ok, p)
  }

  function PerformAll(s: Service, ops: seq<Op>): Service
    decreases |ops|
  {
    if ops == [] then s else PerformAll(Perform(s, ops[0]), ops[1..])
  }

  const EMPTY := Service(Graph(map[], map[]), [], true, map[])

  // ---- Invariants -----------------------------------------------------------------------------

  /** The tables as they would be with the untold removals not made. */
  function Whole(g: Graph, untold: map<Id, Rel>): Picture {
    Picture(View(g).nodes, g.rels + untold)
  }

  /** The log says exactly what the tables hold. */
  ghost predicate InStep(s: Service) {
    Fold(s.log) == View(s.graph)
  }

  /** The log says what the tables hold and, beyond that, exactly the relationships that went without an event. */
  ghost predicate Synced(s: Service) {
    Fold(s.log) == Whole(s.graph, s.untold) && s.untold.Keys !! s.graph.rels.Keys
  }

  /** Every StateUpdated names as old status the one the log before it leads to. */
  ghost predicate Chained(log: seq<Event>) {
    forall i :: 0 <= i < |log| && log[i].StateUpdated? ==>
      log[i].node in Fold(log[..i]).nodes && Fold(log[..i]).nodes[log[i].node].status == log[i].oldStatus
  }

  predicate Named(g: Graph) {
    (forall n | n in g.nodes :: n != "") && forall r | r in g.rels :: ValidRel(r, g.rels[r])
  }

  ghost predicate Faithful(s: Service) {
    && Synced(s) && Chained(s.log)
    && forall n | n in s.graph.nodes :: s.graph.nodes[n].status != "" && s.graph.nodes[n].kind != ""
  }

  ghost predicate Inv(s: Service) {
    NoDangling(s.graph) && Named(s.graph) && (s.clean ==> Faithful(s))
  }

  lemma ChainedAppend(log: seq<Event>, e: Event)
    requires Chained(log)
    requires e.StateUpdated? ==> e.node in Fold(log).nodes && Fold(log).nodes[e.node].status == e.oldStatus
    ensures Chained(log + [e])
  {
    forall i | 0 <= i < |log + [e]| && (log + [e])[i].StateUpdated?
      ensures var x := (log + [e])[i]; var p := Fold((log + [e])[..i]);
        x.node in p.nodes && p.nodes[x.node].status == x.oldStatus
    {
      if i < |log| {
        assert (log + [e])[..i] == log[..i];
        assert (log + [e])[i] == log[i];
      } else {
        assert (log + [e])[..i] == log;
      }
    }
  }

  /** Storing an event that matches what was done to the tables keeps the log faithful. */
  lemma EmitMatches(s: Service, g: Graph, e: Event)
    requires Synced(s) && Chained(s.log) && SchemaValid(e)
    requires Whole(g, StillUntold(s.untold, e)) == Fold1(Whole(s.graph, s.untold), e)
    requires StillUntold(s.untold, e).Keys !! g.rels.Keys
    requires e.StateUpdated? ==> e.node in s.graph.nodes && s.graph.nodes[e.node].status == e.oldStatus
    ensures var t := Emit(s.(graph := g), e, Delivered); Synced(t) && Chained(t.log)
  {
    FoldAppend(s.log, e);
    ChainedAppend(s.log, e);
  }

  /** Registering as two changes: the node without a status, then its status. */
  lemma RegisterInTwo(g: Graph, untold: map<Id, Rel>, id: Id, node: Node)
    requires id !in g.nodes
    ensures var shell := g.(nodes := g.nodes[id := node.(status := "")]);
      && Whole(shell, untold) == Fold1(Whole(g, untold), NodeRegistered(id, node.kind))
      && Whole(g.(nodes := g.nodes[id := node]), untold) == Fold1(Whole(shell, untold), StateUpdated(id, "", node.status))
  {
  }

  predicate AboutNode(e: Event) {
    e.NodeRegistered? || e.StateUpdated? || e.NodeUpdated?
  }

  /** Two events for one change of a node, by way of an intermediate graph. */
  lemma EmitTwo(s: Service, mid: Graph, g: Graph, e1: Event, e2: Event)
    requires Synced(s) && Chained(s.log) && SchemaValid(e1) && SchemaValid(e2) && AboutNode(e1) && AboutNode(e2)
    requires mid.rels == g.rels == s.graph.rels
    requires Whole(mid, s.untold) == Fold1(Whole(s.graph, s.untold), e1) && Whole(g, s.untold) == Fold1(Whole(mid, s.untold), e2)
    requires e1.StateUpdated? ==> e1.node in s.graph.nodes && s.graph.nodes[e1.node].status == e1.oldStatus
    requires e2.StateUpdated? ==> e2.node in mid.nodes && mid.nodes[e2.node].status == e2.oldStatus
    ensures var t := Emit(Emit(s.(graph := g), e1, Delivered), e2, Delivered); Synced(t) && Chained(t.log)
  {
    hide Fold, Chained;
    EmitMatches(s, mid, e1);
    EmitMatches(Emit(s.(graph := mid), e1, Delivered), g, e2);
  }

  lemma RegisterKeepsFaithful(s: Service, id: Id, node: Node)
    requires Faithful(s) && ValidNode(id, node) && id !in s.graph.nodes
    ensures Faithful(RegisterSpec(s, id, node, true, Delivered, Delivered))
  {
    hide Fold, Chained;
    var shell := s.graph.(nodes := s.graph.nodes[id := node.(status := "")]);
    var full := s.graph.(nodes := s.graph.nodes[id := node]);
    RegisterInTwo(s.graph, s.untold, id, node);
    EmitTwo(s, shell, full, NodeRegistered(id, node.kind), StateUpdated(id, "", node.status));
  }

  lemma RegisterKeeps(s: Service, id: Id, node: Node, ok: bool, p1: Publish, p2: Publish)
    requires Inv(s)
    ensures Inv(RegisterSpec(s, id, node, ok, p1, p2))
  {
    var t := RegisterSpec(s, id, node, ok, p1, p2);
    if t != s && t.clean {
      RegisterKeepsFaithful(s, id, node);
    }
  }

  lemma DetailsChangeFaithfully(s: Service, id: Id, after: Node)
    requires Faithful(s) && id in s.graph.nodes && id != ""
    requires after.kind == s.graph.nodes[id].kind && after.status == s.graph.nodes[id].status
    ensures Faithful(Emit(s.(graph := s.graph.(nodes := s.graph.nodes[id := after])), NodeUpdated(id), Delivered))
  {
    hide Fold, Chained;
    var g := s.graph.(nodes := s.graph.nodes[id := after]);
    assert Whole(g, s.untold) == Whole(s.graph, s.untold);
    EmitMatches(s, g, NodeUpdated(id));
  }

  lemma StatusChangesFaithfully(s: Service, id: Id, after: Node)
    requires Faithful(s) && id in s.graph.nodes && id != ""
    requires after.kind == s.graph.nodes[id].kind && after.status != ""
    ensures var e1 := StateUpdated(id, s.graph.nodes[id].status, after.status);
      var t := s.(graph := s.graph.(nodes := s.graph.nodes[id := after]));
      Faithful(Emit(Emit(t, e1, Delivered), NodeUpdated(id), Delivered))
  {
    hide Fold, Chained;
    var g := s.graph.(nodes := s.graph.nodes[id := after]);
    var e1 := StateUpdated(id, s.graph.nodes[id].status, after.status);
    assert Whole(g, s.untold) == Fold1(Whole(s.graph, s.untold), e1);
    EmitTwo(s, g, g, e1, NodeUpdated(id));
  }

  lemma NodeChanges(g: Graph, id: Id, after: Node)
    requires NoDangling(g) && Named(g) && id in g.nodes
    ensures NoDangling(g.(nodes := g.nodes[id := after])) && Named(g.(nodes := g.nodes[id := after]))
  {
  }

  lemma UpdateKeeps(s: Service, id: Id, changes: map<string, Value>, ok: bool, p1: Publish, p2: Publish)
    requires Inv(s)
    ensures Inv(UpdateSpec(s, id, changes, ok, p1, p2))
  {
    hide Fold, StillUntold, Faithful, NoDangling, ApplyChanges;
    var t := UpdateSpec(s, id, changes, ok, p1, p2);
    if t != s {
      NodeChanges(s.graph, id, ApplyChanges(s.graph.nodes[id], changes));
      if t.clean {
        KindStays(s, id, changes);
        var after := ApplyChanges(s.graph.nodes[id], changes);
        if after.status == s.graph.nodes[id].status {
          DetailsChangeFaithfully(s, id, after);
        } else {
          StatusChangesFaithfully(s, id, after);
        }
      }
    }
  }

  lemma KindStays(s: Service, id: Id, changes: map<string, Value>)
    requires Faithful(s) && id in s.graph.nodes
    ensures var n := s.graph.nodes[id]; ApplyChanges(n, changes).kind == n.kind && n.status != ""
  {
  }

  lemma DeletionIsTold(g: Graph, untold: map<Id, Rel>, id: Id)
    requires untold.Keys !! g.rels.Keys
    ensures Whole(WithoutNode(g, id), NotTouching(untold, id)) == Fold1(Whole(g, untold), NodeDeleted(id))
    ensures NotTouching(untold, id).Keys !! WithoutNode(g, id).rels.Keys
  {
  }

  lemma DeleteKeeps(s: Service, id: Id, p: Publish)
    requires Inv(s)
    ensures Inv(Emit(s.(graph := WithoutNode(s.graph, id)), NodeDeleted(id), p))
  {
    if s.clean && Published(NodeDeleted(id), p) {
      DeletionIsTold(s.graph, s.untold, id);
      EmitMatches(s, WithoutNode(s.graph, id), NodeDeleted(id));
    }
  }

  lemma RemovedIsUntold(rels: map<Id, Rel>, untold: map<Id, Rel>, rows: set<Id>)
    requires untold.Keys !! rels.Keys
    ensures (rels - rows) + (untold + Rows(rels, rows)) == rels + untold
    ensures (untold + Rows(rels, rows)).Keys !! (rels - rows).Keys
  {
  }

  lemma RemovalKeeps(s: Service, rows: set<Id>)
    requires Inv(s)
    ensures Inv(RemoveRows(s, rows))
  {
    hide Rows, Chained, Fold;
    if s.clean {
      RemovedIsUntold(s.graph.rels, s.untold, rows);
    }
  }

  lemma DeleteNoTxKeeps(s: Service, id: Id, progress: Progress)
    requires Inv(s)
    ensures Inv(DeleteNoTxSpec(s, id, progress))
  {
    match progress
    case ListFailed =>
    case RowFailed(removed) => RemovalKeeps(s, removed * Incident(s.graph, id));
    case NodeFailed => RemovalKeeps(s, Incident(s.graph, id));
    case Finished(p) => DeleteKeeps(s, id, p);
  }

  lemma RelationIsTold(g: Graph, untold: map<Id, Rel>, rid: Id, rel: Rel)
    requires untold.Keys !! g.rels.Keys
    ensures var h := g.(rels := g.rels[rid := rel]);
      && Whole(h, untold - {rid}) == Fold1(Whole(g, untold), RelationshipCreated(rid, rel.from, rel.to, rel.kind))
      && (untold - {rid}).Keys !! h.rels.Keys
  {
  }

  lemma RelateKeeps(s: Service, rid: Id, rel: Rel, ok: bool, p: Publish)
    requires Inv(s)
    ensures Inv(RelateSpec(s, rid, rel, ok, p))
  {
    hide Fold, Fold1, Chained;
    var t := RelateSpec(s, rid, rel, ok, p);
    if t != s && t.clean {
      RelationIsTold(s.graph, s.untold, rid, rel);
      EmitMatches(s, t.graph, RelationshipCreated(rid, rel.from, rel.to, rel.kind));
    }
  }

  lemma UnrelationIsTold(g: Graph, untold: map<Id, Rel>, rid: Id)
    requires untold.Keys !! g.rels.Keys
    ensures var h := g.(rels := g.rels - {rid});
      && Whole(h, untold - {rid}) == Fold1(Whole(g, untold), RelationshipDeleted(rid))
      && (untold - {rid}).Keys !! h.rels.Keys
  {
  }

  lemma UnrelateKeeps(s: Service, rid: Id, ok: bool, p: Publish)
    requires Inv(s)
    ensures Inv(UnrelateSpec(s, rid, ok, p))
  {
    hide Fold, Fold1, Chained;
    var t := UnrelateSpec(s, rid, ok, p);
    if ok && t.clean {
      UnrelationIsTold(s.graph, s.untold, rid);
      EmitMatches(s, t.graph, RelationshipDeleted(rid));
    }
  }

  lemma PerformKeeps(s: Service, op: Op)
    requires Inv(s)
    ensures Inv(Perform(s, op))
  {
    match op
    case Register(id, node, ok, p1, p2) => RegisterKeeps(s, id, node, ok, p1, p2);
    case Update(id, changes, ok, p1, p2) => UpdateKeeps(s, id, changes, ok, p1, p2);
    case DeleteTx(id, ok, p) => DeleteKeeps(s, id, p);
    case DeleteNoTx(id, progress) => DeleteNoTxKeeps(s, id, progress);
    case Relate(rid, rel, ok, p) => RelateKeeps(s, rid, rel, ok, p);
    case Unrelate(rid, ok, p) => UnrelateKeeps(s, rid, ok, p);
  }

  lemma {:induction false} InvAlways(s: Service, ops: seq<Op>)
    requires Inv(s)
    ensures Inv(PerformAll(s, ops))
    decreases |ops|
  {
    if ops != [] {
      PerformKeeps(s, ops[0]);
      InvAlways(Perform(s, ops[0]), ops[1..]);
    }
  }

  // ---- Main results ---------------------------------------------------------------------------

  lemma EmptyInv()
    ensures Inv(EMPTY)
  {
  }

  /** Whatever fails and wherever, no stored relationship is left without its nodes. */
  lemma NeverDangling(ops: seq<Op>)
    ensures NoDangling(PerformAll(EMPTY, ops).graph)
  {
    InvAlways(EMPTY, ops);
  }

  /** In a run in which every publish succeeded, the log rebuilds the graph and, beyond it, exactly the relationships that
      deletions removed without telling. */
  lemma LogAccountsForGraph(ops: seq<Op>)
    ensures var s := PerformAll(EMPTY, ops);
      s.clean ==> Fold(s.log) == Picture(View(s.graph).nodes, s.graph.rels + s.untold) && s.untold.Keys !! s.graph.rels.Keys
                  && Chained(s.log)
  {
    InvAlways(EMPTY, ops);
  }

  lemma InStepIff(s: Service)
    requires Synced(s)
    ensures InStep(s) <==> s.untold == map[]
  {
    if s.untold == map[] {
      assert s.graph.rels + s.untold == s.graph.rels;
    } else {
      var r :| r in s.untold.Keys;
      assert r in Whole(s.graph, s.untold).rels && r !in View(s.graph).rels;
    }
  }

  /** So in such a run the log alone rebuilds the graph if and only if no such removal is left. */
  lemma LogDeterminesGraph(ops: seq<Op>)
    ensures var s := PerformAll(EMPTY, ops); s.clean ==> (Fold(s.log) == View(s.graph) <==> s.untold == map[])
  {
    InvAlways(EMPTY, ops);
    var s := PerformAll(EMPTY, ops);
    if s.clean {
      InStepIff(s);
    }
  }

  predicate Mentions(e: Event, n: Id) {
    match e
    case NodeRegistered(m, _) => m == n
    case StateUpdated(m, _, _) => m == n
    case NodeDeleted(m) => m == n
    case _ => false
  }

  lemma {:induction false} StatusStays(log: seq<Event>, n: Id, i: nat, j: nat)
    requires i <= j <= |log|
    requires forall k :: i <= k < j ==> !Mentions(log[k], n)
    ensures n in Fold(log[..i]).nodes <==> n in Fold(log[..j]).nodes
    ensures n in Fold(log[..i]).nodes ==> Fold(log[..i]).nodes[n] == Fold(log[..j]).nodes[n]
    decreases j - i
  {
    if i < j {
      StatusStays(log, n, i, j - 1);
      assert log[..j] == log[..j - 1] + [log[j - 1]];
      FoldAppend(log[..j - 1], log[j - 1]);
    }
  }

  /** Within one lifetime of a node each StateUpdated starts from the status the previous one set, the first from "". */
  lemma StatusesChain(log: seq<Event>, n: Id, i: nat, j: nat)
    requires Chained(log) && i < j < |log|
    requires log[j].StateUpdated? && log[j].node == n
    requires forall k :: i < k < j ==> !Mentions(log[k], n)
    ensures log[i].StateUpdated? && log[i].node == n ==> log[j].oldStatus == log[i].newStatus
    ensures log[i].NodeRegistered? && log[i].node == n ==> log[j].oldStatus == ""
    ensures !(log[i].NodeDeleted? && log[i].node == n)
  {
    StatusStays(log, n, i + 1, j);
    assert log[..i + 1] == log[..i] + [log[i]];
    FoldAppend(log[..i], log[i]);
  }

  /** On a healthy bus an update keeps the log accounting for the graph unless, and only unless, it sets the status to "":
      the stored node changes, but the event announcing it fails validation. */
  lemma UpdateInStepIff(s: Service, id: Id, changes: map<string, Value>)
    requires Inv(s) && s.clean && id in s.graph.nodes
    ensures Synced(UpdateSpec(s, id, changes, true, Delivered, Delivered))
      <==> !("status" in changes && changes["status"] == Text(""))
  {
    var t := UpdateSpec(s, id, changes, true, Delivered, Delivered);
    UpdateKeeps(s, id, changes, true, Delivered, Delivered);
    if "status" in changes && changes["status"] == Text("") {
      assert Whole(t.graph, t.untold).nodes[id].status == "";
      assert t.log == s.log;
      assert Whole(s.graph, s.untold).nodes[id].status != "";
    }
  }

  /** A deletion without a transaction that fails halfway keeps log and graph in step exactly when they were in step and it
      removed no row. */
  lemma TornDeleteInStepIff(s: Service, id: Id, removed: set<Id>)
    requires Inv(s) && s.clean
    ensures InStep(DeleteNoTxSpec(s, id, RowFailed(removed))) <==> InStep(s) && removed * Incident(s.graph, id) == {}
    ensures InStep(DeleteNoTxSpec(s, id, NodeFailed)) <==> InStep(s) && Incident(s.graph, id) == {}
  {
    RemovalShows(s, removed * Incident(s.graph, id));
    RemovalShows(s, Incident(s.graph, id));
  }

  lemma RemovalShows(s: Service, rows: set<Id>)
    requires Inv(s) && s.clean && rows <= s.graph.rels.Keys
    ensures InStep(RemoveRows(s, rows)) <==> InStep(s) && rows == {}
  {
    var t := RemoveRows(s, rows);
    RemovalKeeps(s, rows);
    InStepIff(s);
    InStepIff(t);
    if r :| r in rows {
      assert r in t.untold.Keys;
    } else {
      assert t.untold == s.untold;
    }
  }

  /** Repeating such a deletion until it succeeds has the same effect as one that succeeds at once: what the earlier attempt
      removed without telling is told by the last. So log and graph are in step again if they were before. */
  lemma RepeatedDeleteIsTold(s: Service, id: Id, progress: Progress)
    requires Inv(s) && s.clean && !progress.Finished? && id != ""
    ensures var t := DeleteNoTxSpec(DeleteNoTxSpec(s, id, progress), id, Finished(Delivered));
      t == DeleteNoTxSpec(s, id, Finished(Delivered)) && (InStep(s) ==> InStep(t))
  {
    hide Rows, Fold, Chained;
    match progress {
      case ListFailed =>
      case RowFailed(removed) => RemovedThenDeleted(s, id, removed * Incident(s.graph, id));
      case NodeFailed => RemovedThenDeleted(s, id, Incident(s.graph, id));
    }
    DeletionStaysInStep(s, id);
  }

  lemma DeletionStaysInStep(s: Service, id: Id)
    requires Inv(s) && s.clean && id != ""
    ensures InStep(s) ==> InStep(DeleteNoTxSpec(s, id, Finished(Delivered)))
  {
    var t := DeleteNoTxSpec(s, id, Finished(Delivered));
    DeleteKeeps(s, id, Delivered);
    InStepIff(s);
    InStepIff(t);
    assert s.untold == map[] ==> NotTouching(s.untold, id) == map[];
  }

  lemma RemovedThenDeleted(s: Service, id: Id, rows: set<Id>)
    requires s.untold.Keys !! s.graph.rels.Keys && rows <= Incident(s.graph, id) && id != ""
    ensures DeleteNoTxSpec(RemoveRows(s, rows), id, Finished(Delivered)) == DeleteNoTxSpec(s, id, Finished(Delivered))
  {
    var u := RemoveRows(s, rows);
    assert WithoutNode(u.graph, id) == WithoutNode(s.graph, id);
    assert NotTouching(u.untold, id) == NotTouching(s.untold, id);
  }

  const EXAMPLE_NODE := Node("Task", "t", "Active", "o", "", "", "{}")
  const EXAMPLE_LOG := [NodeRegistered("a", "Task"), StateUpdated("a", "", "Active"), RelationshipCreated("e", "a", "a", "owns")]
  const EXAMPLE := Service(Graph(map["a" := EXAMPLE_NODE], map["e" := Rel("a", "a", "owns")]), EXAMPLE_LOG, true, map[])

  lemma ExampleIsReached()
    ensures Perform(Perform(EMPTY, Register("a", EXAMPLE_NODE, true, Delivered, Delivered)),
                    Relate("e", Rel("a", "a", "owns"), true, Delivered)) == EXAMPLE
  {
  }

  /** Such a deletion can happen with every publish successful: register a node, relate it to itself, and let the
      node row fail to go; the log still has the edge the table lost. */
  lemma TornDeleteExample()
    ensures var s := PerformAll(EMPTY, [Register("a", EXAMPLE_NODE, true, Delivered, Delivered),
                                        Relate("e", Rel("a", "a", "owns"), true, Delivered), DeleteNoTx("a", NodeFailed)]);
      s.clean && Fold(s.log) != View(s.graph)
  {
    var a := Register("a", EXAMPLE_NODE, true, Delivered, Delivered);
    var e := Relate("e", Rel("a", "a", "owns"), true, Delivered);
    var d := DeleteNoTx("a", NodeFailed);
    hide Fold, Incident, Chained;
    EmptyInv();
    ExampleIsReached();
    InvAlways(EMPTY, [a, e]);
    PerformThree(EMPTY, a, e, d);
    ExampleIsTorn();
  }

  lemma ExampleIsTorn()
    requires Inv(EXAMPLE)
    ensures var s := DeleteNoTxSpec(EXAMPLE, "a", NodeFailed); s.clean && !InStep(s)
  {
    assert "e" in Incident(EXAMPLE.graph, "a");
    TornDeleteInStepIff(EXAMPLE, "a", {});
  }

  const ONE_NODE := Service(
    Graph(map["a" := EXAMPLE_NODE], map[]), [NodeRegistered("a", "Task"), StateUpdated("a", "", "Active")], true, map[])
  const CLEARED: map<string, Value> := map["status" := Text("")]

  lemma OneNodeIsReached()
    ensures Perform(EMPTY, Register("a", EXAMPLE_NODE, true, Delivered, Delivered)) == ONE_NODE
  {
  }

  /** The update of UpdateInStepIff can be made: register a node and clear its status. The bus takes every event that is
      valid, and still the log does not show what the node has become. */
  lemma EmptyStatusExample()
    ensures var s := PerformAll(EMPTY, [Register("a", EXAMPLE_NODE, true, Delivered, Delivered),
                                        Update("a", CLEARED, true, Delivered, Delivered)]);
      s.untold == map[] && Fold(s.log) != View(s.graph)
  {
    var a, u := Register("a", EXAMPLE_NODE, true, Delivered, Delivered), Update("a", CLEARED, true, Delivered, Delivered);
    OneNodeIsReached();
    PerformThree(EMPTY, a, u, u);
    InvAlways(EMPTY, [a, u]);
    InvAlways(EMPTY, [a]);
    PerformCons(EMPTY, a, []);
    assert [a] + [] == [a];
    ClearedIsNotInStep();
  }

  lemma ClearedIsNotInStep()
    requires Inv(ONE_NODE)
    ensures var s := UpdateSpec(ONE_NODE, "a", CLEARED, true, Delivered, Delivered); s.untold == map[] && !InStep(s)
  {
    UpdateInStepIff(ONE_NODE, "a", CLEARED);
    var s := UpdateSpec(ONE_NODE, "a", CLEARED, true, Delivered, Delivered);
    assert s.untold == map[] && Whole(s.graph, s.untold).rels == View(s.graph).rels;
  }

  lemma PerformCons(s: Service, op: Op, rest: seq<Op>)
    ensures PerformAll(s, [op] + rest) == PerformAll(Perform(s, op), rest)
  {
    assert ([op] + rest)[1..] == rest;
  }

  lemma PerformThree(s: Service, a: Op, b: Op, c: Op)
    ensures PerformAll(s, [a, b]) == Perform(Perform(s, a), b)
    ensures PerformAll(s, [a, b, c]) == Perform(Perform(Perform(s, a), b), c)
  {
    PerformCons(s, a, [b]);
    PerformCons(Perform(s, a), b, []);
    PerformCons(s, a, [b, c]);
    PerformCons(Perform(s, a), b, [c]);
    PerformCons(Perform(Perform(s, a), b), c, []);
    assert [a, b] == [a] + [b] && [b] == [b] + [] && [a, b, c] == [a] + [b, c] && [b, c] == [b] + [c] && [c] == [c] + [];
  }

  /** For a stored node both ways of deleting end in the same service state; for a missing one only the way without a
      transaction publishes. */
  lemma DeletePathsAgree(s: Service, id: Id, p: Publish)
    requires id != ""
    ensures id in s.graph.nodes ==> DeleteTxSpec(s, id, true, p) == DeleteNoTxSpec(s, id, Finished(p))
    ensures id !in s.graph.nodes && NoDangling(s.graph) ==>
      DeleteTxSpec(s, id, true, p) == s && DeleteNoTxSpec(s, id, Finished(p)) == Emit(s, NodeDeleted(id), p)
  {
    if id !in s.graph.nodes && NoDangling(s.graph) {
      assert Incident(s.graph, id) == {};
      assert WithoutNode(s.graph, id) == s.graph;
    }
  }
}
