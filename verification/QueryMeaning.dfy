/**
 What the built queries ask for: the WHERE part that a driver reads, each mark replaced by its argument, is the writing of
 some conditions, and a row meets these exactly when the models of the queries say that it is selected.
*/
module QueryMeaning {
  import opened QueryBuilders
  import opened TimeText
  import KnowledgeGraph
  import Traversal
  import UsageQueries
  import UsageTotals

  datatype Condition =
    | Equal(column: string, a: Arg)
    | AtLeast(column: string, a: Arg)
    | AtMost(column: string, a: Arg)
    | Either(left: Condition, right: Condition)

  function Write(c: Condition): seq<Piece> {
    match c
    case Equal(column, a) => Chars(column + " = ") + [Val(a)]
    case AtLeast(column, a) => Chars(column + " >= ") + [Val(a)]
    case AtMost(column, a) => Chars(column + " <= ") + [Val(a)]
    case Either(l, r) => Chars("(") + Write(l) + Chars(" OR ") + Write(r) + Chars(")")
  }

  function WriteAll(cs: seq<Condition>): seq<Piece> {
    if cs == [] then []
    else if |cs| == 1 then Write(cs[0])
    else WriteAll(cs[..|cs| - 1]) + Chars(" AND ") + Write(cs[|cs| - 1])
  }

  /** The text columns of a row by name. */
  type Row = string -> string

  /** Texts compare character by character. */
  predicate Holds(row: Row, c: Condition) {
    match c
    case Equal(column, a) => S(row(column)) == a
    case AtLeast(column, a) => a.S? && !Before(row(column), a.s)
    case AtMost(column, a) => a.S? && !Before(a.s, row(column))
    case Either(l, r) => Holds(row, l) || Holds(row, r)
  }

  predicate AllHold(row: Row, cs: seq<Condition>) {
    forall i :: 0 <= i < |cs| ==> Holds(row, cs[i])
  }

  /** The fragments are the written conditions. */
  ghost predicate Says(fs: seq<Fragment>, cs: seq<Condition>) {
    |fs| == |cs| && forall i :: 0 <= i < |fs| ==> fs[i].Valid() && fs[i].Bound() == Write(cs[i])
  }

  lemma {:induction false} SaysAll(fs: seq<Fragment>, cs: seq<Condition>)
    requires Says(fs, cs)
    ensures AllValid(fs) && Conjunction(fs) == WriteAll(cs)
    decreases |fs|
  {
    hide Write;
    if |fs| > 1 {
      SaysAll(fs[..|fs| - 1], cs[..|cs| - 1]);
    }
  }

  function AddWhen(cs: seq<Condition>, set_: bool, c: Condition): seq<Condition> {
    if set_ then cs + [c] else cs
  }

  lemma SaysNothing()
    ensures Says([], [])
  {
  }

  lemma SaysMore(fs: seq<Fragment>, cs: seq<Condition>, set_: bool, f: Fragment, c: Condition)
    requires Says(fs, cs) && f.Valid() && f.Bound() == Write(c)
    ensures Says(With(fs, set_, f), AddWhen(cs, set_, c))
  {
    hide Write;
  }

  lemma SaysOneMore(fs: seq<Fragment>, cs: seq<Condition>, set_: bool, column: string, a: Arg)
    requires Says(fs, cs) && Plain(column)
    ensures Says(With(fs, set_, Equals(column, a)), AddWhen(cs, set_, Equal(column, a)))
  {
    EqualsIsValid(column, a);
    SaysMore(fs, cs, set_, Equals(column, a), Equal(column, a));
  }

  lemma SaysOne(column: string, a: Arg)
    requires Plain(column)
    ensures Says([Equals(column, a)], [Equal(column, a)])
  {
    EqualsIsValid(column, a);
  }

  lemma HoldsOneMore(row: Row, cs: seq<Condition>, set_: bool, c: Condition)
    ensures AllHold(row, AddWhen(cs, set_, c)) <==> AllHold(row, cs) && (set_ ==> Holds(row, c))
  {
    var all := AddWhen(cs, set_, c);
    assert forall i :: 0 <= i < |cs| ==> all[i] == cs[i];
    assert set_ ==> all[|cs|] == c;
  }

  // ---- The traversal query --------------------------------------------------------------------

  function RelRow(r: Traversal.Rel): Row {
    (column: string) => match column
      case "rel_id" => r.id
      case "from_node_id" => r.from
      case "to_node_id" => r.to
      case "rel_type" => r.kind
      case _ => ""
  }

  function EndCondition(nodeId: string, direction: string): Condition {
    var left, right := Equal("from_node_id", S(nodeId)), Equal("to_node_id", S(nodeId));
    match direction case "in" => right case "both" => Either(left, right) case _ => left
  }

  lemma EitherIsSaid(a: Arg)
    ensures REL_WORDS.EitherEnd(a).Valid()
    ensures REL_WORDS.EitherEnd(a).Bound() == Write(Either(Equal("from_node_id", a), Equal("to_node_id", a)))
  {
    hide Flat, Bind;
    RelWordsFit();
    EitherEndIsValid(REL_WORDS, a);
    CharsSplit("(", "from_node_id = ");
    assert "(" + "from_node_id" + " = " == "(" + "from_node_id = ";
    assert "from_node_id" + " = " == "from_node_id = ";
    var l, r := Write(Equal("from_node_id", a)), Write(Equal("to_node_id", a));
    assert Chars("(" + "from_node_id = ") + [Val(a)] == Chars("(") + l;
  }

  lemma EndIsSaid(nodeId: string, direction: string)
    ensures Says(REL_WORDS.Conditions(nodeId, direction, ""), [EndCondition(nodeId, direction)])
  {
    hide Flat, Bind, Write, Chars;
    RelWordsFit();
    if direction == "both" {
      EitherIsSaid(S(nodeId));
    } else {
      SaysOne("from_node_id", S(nodeId));
      SaysOne("to_node_id", S(nodeId));
    }
  }

  lemma EndHolds(r: Traversal.Rel, nodeId: string, direction: string)
    ensures AllHold(RelRow(r), [EndCondition(nodeId, direction)]) <==> Traversal.AtNode(r, nodeId, direction)
  {
    var row, left, right := RelRow(r), Equal("from_node_id", S(nodeId)), Equal("to_node_id", S(nodeId));
    assert [EndCondition(nodeId, direction)][0] == EndCondition(nodeId, direction);
    assert Holds(row, left) <==> r.from == nodeId;
    assert Holds(row, right) <==> r.to == nodeId;
    assert Holds(row, Either(left, right)) <==> r.from == nodeId || r.to == nodeId;
  }

  lemma KindHolds(r: Traversal.Rel, relType: string)
    ensures Holds(RelRow(r), Equal("rel_type", S(relType))) <==> r.kind == relType
  {
  }

  /** The query of a traversal asks for the rows of the type, if one is given, that are at the node in the direction. */
  lemma TraversalAsksFor(nodeId: string, direction: string, relType: string) returns (cs: seq<Condition>)
    ensures AllValid(REL_WORDS.Conditions(nodeId, direction, relType))
    ensures Conjunction(REL_WORDS.Conditions(nodeId, direction, relType)) == WriteAll(cs)
    ensures forall r :: AllHold(RelRow(r), cs) <==> Traversal.OfType(r, relType) && Traversal.AtNode(r, nodeId, direction)
  {
    hide Flat, Bind, Write, WriteAll, Conjunction, Holds;
    var end := [EndCondition(nodeId, direction)];
    var kind := Equal("rel_type", S(relType));
    cs := AddWhen(end, relType != "", kind);
    RelWordsFit();
    EndIsSaid(nodeId, direction);
    SaysOneMore(REL_WORDS.Conditions(nodeId, direction, ""), end, relType != "", "rel_type", S(relType));
    SaysAll(REL_WORDS.Conditions(nodeId, direction, relType), cs);
    forall r ensures AllHold(RelRow(r), cs) <==> Traversal.OfType(r, relType) && Traversal.AtNode(r, nodeId, direction) {
      EndHolds(r, nodeId, direction);
      HoldsOneMore(RelRow(r), end, relType != "", kind);
      KindHolds(r, relType);
    }
  }

  // ---- The node list query --------------------------------------------------------------------

  function NodeRow(id: string, n: KnowledgeGraph.Node): Row {
    (column: string) => match column
      case "node_id" => id
      case "node_type" => n.kind
      case "name" => n.name
      case "status" => n.status
      case "owner_community_id" => n.owner
      case _ => ""
  }

  predicate Wants(o: ListOptions, n: KnowledgeGraph.Node) {
    && (o.nodeType == "" || n.kind == o.nodeType)
    && (o.owner == "" || n.owner == o.owner)
    && (o.status == "" || n.status == o.status)
  }

  /** The list query asks for the nodes of the type, the owner and the status, as far as these are given. */
  lemma ListAsksFor(o: ListOptions) returns (cs: seq<Condition>)
    ensures AllValid(LIST_WORDS.Conditions(o)) && Conjunction(LIST_WORDS.Conditions(o)) == WriteAll(cs)
    ensures cs == [] <==> o.nodeType == "" && o.owner == "" && o.status == ""
    ensures forall id, n :: AllHold(NodeRow(id, n), cs) <==> Wants(o, n)
  {
    cs := ListConditions(o);
    ListIsSaid(o);
    SaysAll(LIST_WORDS.Conditions(o), cs);
    forall id, n ensures AllHold(NodeRow(id, n), cs) <==> Wants(o, n)
    {
      NodeListed(o, id, n);
    }
  }

  function ListConditions(o: ListOptions): seq<Condition> {
    var one := AddWhen([], o.nodeType != "", Equal("node_type", S(o.nodeType)));
    var two := AddWhen(one, o.owner != "", Equal("owner_community_id", S(o.owner)));
    AddWhen(two, o.status != "", Equal("status", S(o.status)))
  }

  lemma ListIsSaid(o: ListOptions)
    ensures Says(LIST_WORDS.Conditions(o), ListConditions(o))
  {
    hide Flat, Says;
    ListWordsFit();
    SaysNothing();
    var one := AddWhen([], o.nodeType != "", Equal("node_type", S(o.nodeType)));
    var two := AddWhen(one, o.owner != "", Equal("owner_community_id", S(o.owner)));
    var f1 := With([], o.nodeType != "", Equals("node_type", S(o.nodeType)));
    var f2 := With(f1, o.owner != "", Equals("owner_community_id", S(o.owner)));
    SaysOneMore([], [], o.nodeType != "", "node_type", S(o.nodeType));
    SaysOneMore(f1, one, o.owner != "", "owner_community_id", S(o.owner));
    SaysOneMore(f2, two, o.status != "", "status", S(o.status));
  }

  lemma NodeListed(o: ListOptions, id: string, n: KnowledgeGraph.Node)
    ensures AllHold(NodeRow(id, n), ListConditions(o)) <==> Wants(o, n)
  {
    hide AllHold;
    var kind, owner := Equal("node_type", S(o.nodeType)), Equal("owner_community_id", S(o.owner));
    var status := Equal("status", S(o.status));
    var one := AddWhen([], o.nodeType != "", kind);
    var two := AddWhen(one, o.owner != "", owner);
    var row := NodeRow(id, n);
    assert AllHold(row, []) by { NothingToHold(row); }
    HoldsOneMore(row, [], o.nodeType != "", kind);
    HoldsOneMore(row, one, o.owner != "", owner);
    HoldsOneMore(row, two, o.status != "", status);
  }

  lemma NothingToHold(row: Row)
    ensures AllHold(row, [])
  {
  }

  // ---- The usage query ------------------------------------------------------------------------

  function SlotRow(slot: UsageTotals.Slot): Row
    requires Writable(slot.start) && Writable(slot.end)
  {
    (column: string) => match column
      case "tenant_id" => slot.key.tenant
      case "client_id" => slot.key.client
      case "endpoint" => slot.key.endpoint
      case "operation" => slot.key.operation
      case "unit" => slot.key.unit
      case "bucket_start" => Text(slot.start)
      case "bucket_end" => Text(slot.end)
      case _ => ""
  }

  /** The call of the builder for a query: its bounds as the texts they are written as. */
  function Asked(q: UsageQueries.Query): UsageQuery
    requires Writable(q.start) && Writable(q.end)
  {
    UsageQuery(Text(q.start), Text(q.end), q.tenant, q.client, q.operation, q.unit.Some?,
               if q.unit.Some? then q.unit.value else "")
  }

  lemma RangeIsSaid(start: string, end: string)
    ensures Says([Compares("bucket_end >=", S(start)), Compares("bucket_start <=", S(end))],
                 [AtLeast("bucket_end", S(start)), AtMost("bucket_start", S(end))])
  {
    hide Flat;
    UsageWordsFit();
    ComparesIsValid(USAGE_WORDS.ends, S(start));
    ComparesIsValid(USAGE_WORDS.starts, S(end));
    assert "bucket_end >=" + " " == "bucket_end" + " >= ";
    assert "bucket_start <=" + " " == "bucket_start" + " <= ";
  }

  function RangeConditions(q: UsageQuery): seq<Condition> {
    [AtLeast("bucket_end", S(q.start)), AtMost("bucket_start", S(q.end))]
  }

  function FilterConditions(cs: seq<Condition>, q: UsageQuery): seq<Condition> {
    var byTenant := AddWhen(cs, q.tenant != "", Equal("tenant_id", S(q.tenant)));
    var byClient := AddWhen(byTenant, q.client != "", Equal("client_id", S(q.client)));
    var byOperation := AddWhen(byClient, q.operation != "", Equal("operation", S(q.operation)));
    AddWhen(byOperation, q.hasUnit, Equal("unit", S(q.unit)))
  }

  lemma UsageIsSaid(q: UsageQuery)
    ensures Says(USAGE_WORDS.Conditions(q), FilterConditions(RangeConditions(q), q))
  {
    hide Flat, Says;
    UsageWordsFit();
    RangeIsSaid(q.start, q.end);
    var w := USAGE_WORDS;
    var f0, c0 := [Compares(w.ends, S(q.start)), Compares(w.starts, S(q.end))], RangeConditions(q);
    assert f0 == With([Compares(w.ends, S(q.start))], true, Compares(w.starts, S(q.end)));
    var f1 := With(f0, q.tenant != "", Equals("tenant_id", S(q.tenant)));
    var c1 := AddWhen(c0, q.tenant != "", Equal("tenant_id", S(q.tenant)));
    var f2 := With(f1, q.client != "", Equals("client_id", S(q.client)));
    var c2 := AddWhen(c1, q.client != "", Equal("client_id", S(q.client)));
    var f3 := With(f2, q.operation != "", Equals("operation", S(q.operation)));
    var c3 := AddWhen(c2, q.operation != "", Equal("operation", S(q.operation)));
    SaysOneMore(f0, c0, q.tenant != "", "tenant_id", S(q.tenant));
    SaysOneMore(f1, c1, q.client != "", "client_id", S(q.client));
    SaysOneMore(f2, c2, q.operation != "", "operation", S(q.operation));
    SaysOneMore(f3, c3, q.hasUnit, "unit", S(q.unit));
  }

  lemma RangeHolds(slot: UsageTotals.Slot, q: UsageQuery)
    requires Writable(slot.start) && Writable(slot.end)
    ensures AllHold(SlotRow(slot), RangeConditions(q)) <==> !Before(Text(slot.end), q.start) && !Before(q.end, Text(slot.start))
  {
    hide Text, Before;
    var row, cs := SlotRow(slot), RangeConditions(q);
    assert Holds(row, cs[0]) <==> !Before(Text(slot.end), q.start);
    assert Holds(row, cs[1]) <==> !Before(q.end, Text(slot.start));
  }

  lemma FiltersHold(row: Row, cs: seq<Condition>, q: UsageQuery)
    ensures AllHold(row, FilterConditions(cs, q)) <==>
      && AllHold(row, cs)
      && (q.tenant == "" || row("tenant_id") == q.tenant) && (q.client == "" || row("client_id") == q.client)
      && (q.operation == "" || row("operation") == q.operation) && (q.hasUnit ==> row("unit") == q.unit)
  {
    hide AllHold;
    var byTenant := AddWhen(cs, q.tenant != "", Equal("tenant_id", S(q.tenant)));
    var byClient := AddWhen(byTenant, q.client != "", Equal("client_id", S(q.client)));
    var byOperation := AddWhen(byClient, q.operation != "", Equal("operation", S(q.operation)));
    HoldsOneMore(row, cs, q.tenant != "", Equal("tenant_id", S(q.tenant)));
    HoldsOneMore(row, byTenant, q.client != "", Equal("client_id", S(q.client)));
    HoldsOneMore(row, byClient, q.operation != "", Equal("operation", S(q.operation)));
    HoldsOneMore(row, byOperation, q.hasUnit, Equal("unit", S(q.unit)));
  }

  /** The aggregation query asks for exactly the buckets that the model of its WHERE clause selects. */
  lemma UsageAsksFor(q: UsageQueries.Query) returns (cs: seq<Condition>)
    requires Writable(q.start) && Writable(q.end)
    ensures AllValid(USAGE_WORDS.Conditions(Asked(q))) && Conjunction(USAGE_WORDS.Conditions(Asked(q))) == WriteAll(cs)
    ensures forall slot :: UsageQueries.Written(q, slot) ==> (AllHold(SlotRow(slot), cs) <==> UsageQueries.Selects(q, slot))
  {
    cs := FilterConditions(RangeConditions(Asked(q)), Asked(q));
    UsageIsSaid(Asked(q));
    SaysAll(USAGE_WORDS.Conditions(Asked(q)), cs);
    forall slot | UsageQueries.Written(q, slot) ensures AllHold(SlotRow(slot), cs) <==> UsageQueries.Selects(q, slot) {
      SlotSelected(q, slot);
    }
  }

  lemma SlotSelected(q: UsageQueries.Query, slot: UsageTotals.Slot)
    requires UsageQueries.Written(q, slot)
    ensures AllHold(SlotRow(slot), FilterConditions(RangeConditions(Asked(q)), Asked(q))) <==> UsageQueries.Selects(q, slot)
  {
    hide Text, Before, AllHold, FilterConditions, RangeConditions;
    FiltersHold(SlotRow(slot), RangeConditions(Asked(q)), Asked(q));
    RangeHolds(slot, Asked(q));
  }
}
