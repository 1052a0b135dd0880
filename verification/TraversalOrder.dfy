/**
 The order in which a traversal returns edges: nodes are searched in the order in which they were discovered, and the edges
 found at a node come in the order of the table.
*/
module TraversalOrder {
  import opened Prelude
  import opened Traversal

  /** The nodes in the order in which the edges of a result, one after the other, lead to them. */
  ghost function Discovered(start: NodeId, result: seq<Rel>): (nodes: seq<NodeId>)
    ensures nodes != [] && nodes[0] == start && Distinct(nodes)
    decreases |result|
  {
    if result == [] then [start]
    else
      var nodes, r := Discovered(start, result[..|result| - 1]), result[|result| - 1];
      if r.from !in nodes then nodes + [r.from] else if r.to !in nodes then nodes + [r.to] else nodes
  }

  lemma DiscoveredNext(start: NodeId, result: seq<Rel>, r: Rel)
    ensures Discovered(start, result + [r]) ==
      var nodes := Discovered(start, result);
      if r.from !in nodes then nodes + [r.from] else if r.to !in nodes then nodes + [r.to] else nodes
  {
    assert (result + [r])[..|result|] == result;
  }

  /** Node f is the first one that the edge is at. */
  ghost predicate FirstAt(g: Graph, nodes: seq<NodeId>, f: int, r: Rel) {
    0 <= f < |nodes| && g.Incident(nodes[f], r) && forall l :: 0 <= l < f ==> !g.Incident(nodes[l], r)
  }

  ghost predicate RowBefore(table: Table, p: Rel, q: Rel) {
    exists a, b :: 0 <= a < b < |table| && table[a] == p && table[b] == q
  }

  ghost predicate FoundBefore(g: Graph, nodes: seq<NodeId>, p: Rel, q: Rel) {
    exists e, f :: FirstAt(g, nodes, e, p) && FirstAt(g, nodes, f, q) && (e < f || (e == f && RowBefore(g.table, p, q)))
  }

  ghost predicate InOrder(g: Graph, nodes: seq<NodeId>, result: seq<Rel>) {
    forall i, j :: 0 <= i < j < |result| ==> FoundBefore(g, nodes, result[i], result[j])
  }

  /** Edge r was found at one of the first m nodes, or at node m among the first n rows. */
  ghost predicate FoundBy(g: Graph, nodes: seq<NodeId>, m: nat, n: nat, r: Rel) {
    exists f :: FirstAt(g, nodes, f, r) && (f < m || (f == m && exists a :: 0 <= a < n && a < |g.table| && g.table[a] == r))
  }

  /** The first m nodes were searched, and the first n rows at node m. */
  ghost predicate Searched(g: Graph, s: Search, start: NodeId, m: nat, n: nat) {
    var nodes := Discovered(start, s.result);
    && m <= |nodes| && n <= |g.table|
    && Elements(nodes) == s.visited && s.collected == Ids(s.result)
    && (forall r :: r in s.result ==> r in g.table && FoundBy(g, nodes, m, n, r))
    && (forall l, r :: 0 <= l < m && g.Incident(nodes[l], r) ==> r in s.result)
    && (m < |nodes| ==> forall a :: 0 <= a < n && g.Incident(nodes[m], g.table[a]) ==> g.table[a] in s.result)
    && InOrder(g, nodes, s.result)
  }

  // ---- More nodes change nothing of what was found ---------------------------------------------

  lemma FirstAtGrows(g: Graph, nodes: seq<NodeId>, more: seq<NodeId>, f: int, r: Rel)
    requires FirstAt(g, nodes, f, r)
    ensures FirstAt(g, nodes + more, f, r)
  {
    assert forall l :: 0 <= l <= f ==> (nodes + more)[l] == nodes[l];
  }

  lemma InOrderGrows(g: Graph, nodes: seq<NodeId>, more: seq<NodeId>, result: seq<Rel>)
    requires InOrder(g, nodes, result)
    ensures InOrder(g, nodes + more, result)
  {
    hide FirstAt, RowBefore;
    forall i, j | 0 <= i < j < |result| ensures FoundBefore(g, nodes + more, result[i], result[j]) {
      var e, f :| FirstAt(g, nodes, e, result[i]) && FirstAt(g, nodes, f, result[j])
        && (e < f || (e == f && RowBefore(g.table, result[i], result[j])));
      FirstAtGrows(g, nodes, more, e, result[i]);
      FirstAtGrows(g, nodes, more, f, result[j]);
    }
  }

  lemma FoundByGrows(g: Graph, nodes: seq<NodeId>, more: seq<NodeId>, m: nat, n: nat, r: Rel)
    requires FoundBy(g, nodes, m, n, r) && n < |g.table|
    ensures FoundBy(g, nodes + more, m, n + 1, r)
  {
    hide FirstAt;
    var f :| FirstAt(g, nodes, f, r) && (f < m || (f == m && exists a :: 0 <= a < n && a < |g.table| && g.table[a] == r));
    FirstAtGrows(g, nodes, more, f, r);
  }

  // ---- One row --------------------------------------------------------------------------------

  /** What was found by node m and its first n rows comes before row n at node m. */
  lemma ComesBefore(g: Graph, nodes: seq<NodeId>, m: nat, n: nat, r: Rel)
    requires n < |g.table| && FoundBy(g, nodes, m, n, r) && FirstAt(g, nodes, m, g.table[n])
    ensures FoundBefore(g, nodes, r, g.table[n])
  {
    hide FirstAt;
    var f :| FirstAt(g, nodes, f, r) && (f < m || (f == m && exists a :: 0 <= a < n && a < |g.table| && g.table[a] == r));
    if f == m {
      var a :| 0 <= a < n && a < |g.table| && g.table[a] == r;
      assert RowBefore(g.table, r, g.table[n]);
    }
  }

  lemma InOrderNext(g: Graph, nodes: seq<NodeId>, result: seq<Rel>, m: nat, n: nat)
    requires n < |g.table| && InOrder(g, nodes, result) && FirstAt(g, nodes, m, g.table[n])
    requires forall r :: r in result ==> FoundBy(g, nodes, m, n, r)
    ensures InOrder(g, nodes, result + [g.table[n]])
  {
    hide FirstAt, FoundBy, FoundBefore;
    var all := result + [g.table[n]];
    forall i, j | 0 <= i < j < |all| ensures FoundBefore(g, nodes, all[i], all[j]) {
      if j == |result| {
        assert all[i] in result;
        ComesBefore(g, nodes, m, n, all[i]);
      }
    }
  }

  lemma NewNodes(start: NodeId, s: Search, v: NodeId, r: Rel, g: Graph) returns (more: seq<NodeId>)
    requires Elements(Discovered(start, s.result)) == s.visited && v in s.visited && g.Incident(v, r) && r.id !in s.collected
    ensures Discovered(start, Visit(s, v, r).result) == Discovered(start, s.result) + more
    ensures Visit(s, v, r).next == s.next + more
    ensures Elements(Discovered(start, s.result) + more) == Visit(s, v, r).visited
  {
    var nodes, other := Discovered(start, s.result), Other(v, r);
    DiscoveredNext(start, s.result, r);
    assert forall x :: x in nodes <==> x in s.visited by { assert forall x :: x in nodes <==> x in Elements(nodes); }
    more := if other in s.visited then [] else [other];
    assert nodes + [] == nodes && s.next + [] == s.next;
    assert Elements(nodes + more) == Elements(nodes) + {other};
  }

  lemma NotFoundYet(g: Graph, s: Search, start: NodeId, m: nat, n: nat)
    requires UniqueIds(g.table) && Searched(g, s, start, m, n) && m < |Discovered(start, s.result)| && n < |g.table|
    requires g.Incident(Discovered(start, s.result)[m], g.table[n]) && g.table[n] !in s.result
    ensures FirstAt(g, Discovered(start, s.result), m, g.table[n])
  {
  }

  lemma CollectedIffFound(g: Graph, s: Search, r: Rel)
    requires UniqueIds(g.table) && s.collected == Ids(s.result) && r in g.table && forall q :: q in s.result ==> q in g.table
    ensures r.id in s.collected <==> r in s.result
  {
    if r.id in s.collected {
      var q :| q in s.result && q.id == r.id;
      SameIdSameRel(g.table, q, r);
    }
  }

  ghost function VisitRow(g: Graph, s: Search, v: NodeId, n: nat): Search
    requires n < |g.table|
  {
    if g.Incident(v, g.table[n]) then Visit(s, v, g.table[n]) else s
  }

  lemma RowFound(g: Graph, s: Search, start: NodeId, m: nat, n: nat) returns (more: seq<NodeId>)
    requires UniqueIds(g.table) && Searched(g, s, start, m, n) && m < |Discovered(start, s.result)| && n < |g.table|
    requires g.Incident(Discovered(start, s.result)[m], g.table[n]) && g.table[n] !in s.result
    ensures var t := Visit(s, Discovered(start, s.result)[m], g.table[n]);
      && Searched(g, t, start, m, n + 1) && t.next == s.next + more
      && Discovered(start, t.result) == Discovered(start, s.result) + more
  {
    hide InOrder, FirstAt, Visit, Discovered, UniqueIds, Graph.Incident, FoundBy;
    var nodes, r := Discovered(start, s.result), g.table[n];
    var t := Visit(s, nodes[m], r);
    CollectedIffFound(g, s, r);
    VisitAdds(s, nodes[m], r);
    NotFoundYet(g, s, start, m, n);
    InOrderNext(g, nodes, s.result, m, n);
    assert nodes[m] in Elements(nodes);
    more := NewNodes(start, s, nodes[m], r, g);
    InOrderGrows(g, nodes, more, t.result);
    FirstAtGrows(g, nodes, more, m, r);
    RowIsFoundBy(g, nodes + more, m, n);
    forall q | q in t.result ensures q in g.table && FoundBy(g, nodes + more, m, n + 1, q) {
      if q in s.result {
        FoundByGrows(g, nodes, more, m, n, q);
      }
    }
  }

  lemma RowIsFoundBy(g: Graph, nodes: seq<NodeId>, m: nat, n: nat)
    requires n < |g.table| && FirstAt(g, nodes, m, g.table[n])
    ensures FoundBy(g, nodes, m, n + 1, g.table[n])
  {
  }

  lemma VisitAdds(s: Search, v: NodeId, r: Rel)
    requires r.id !in s.collected
    ensures Visit(s, v, r).result == s.result + [r] && Visit(s, v, r).collected == s.collected + {r.id}
    ensures Ids(s.result + [r]) == Ids(s.result) + {r.id}
  {
    assert forall q :: q in s.result + [r] <==> q in s.result || q == r;
  }

  lemma RowSkipped(g: Graph, s: Search, start: NodeId, m: nat, n: nat)
    requires Searched(g, s, start, m, n) && m < |Discovered(start, s.result)| && n < |g.table|
    requires g.Incident(Discovered(start, s.result)[m], g.table[n]) ==> g.table[n] in s.result
    ensures Searched(g, s, start, m, n + 1)
  {
    hide InOrder, FirstAt, Discovered, Graph.Incident, FoundBy;
    var nodes := Discovered(start, s.result);
    forall r | r in s.result ensures FoundBy(g, nodes, m, n + 1, r) {
      FoundByGrows(g, nodes, [], m, n, r);
      assert nodes + [] == nodes;
    }
  }

  lemma RowStep(g: Graph, s: Search, start: NodeId, m: nat, n: nat) returns (more: seq<NodeId>)
    requires UniqueIds(g.table) && Searched(g, s, start, m, n) && m < |Discovered(start, s.result)| && n < |g.table|
    ensures var t := VisitRow(g, s, Discovered(start, s.result)[m], n);
      && Searched(g, t, start, m, n + 1) && t.next == s.next + more
      && Discovered(start, t.result) == Discovered(start, s.result) + more
  {
    var v, r := Discovered(start, s.result)[m], g.table[n];
    CollectedIffFound(g, s, r);
    if g.Incident(v, r) && r !in s.result {
      more := RowFound(g, s, start, m, n);
    } else {
      RowSkipped(g, s, start, m, n);
      more := [];
    }
  }

  // ---- One node -------------------------------------------------------------------------------

  lemma {:induction false} VisitAllSnoc(s: Search, v: NodeId, rels: seq<Rel>, r: Rel)
    ensures VisitAll(s, v, rels + [r]) == Visit(VisitAll(s, v, rels), v, r)
    decreases |rels|
  {
    if rels == [] {
      assert ([] + [r])[1..] == [];
    } else {
      assert (rels + [r])[1..] == rels[1..] + [r];
      VisitAllSnoc(Visit(s, v, rels[0]), v, rels[1..], r);
    }
  }

  ghost function RowsKept(g: Graph, v: NodeId, n: nat): seq<Rel>
    requires n <= |g.table|
  {
    Keep(g.table, n, r => g.Incident(v, r))
  }

  lemma KeptNext(g: Graph, s: Search, v: NodeId, n: nat)
    requires n < |g.table|
    ensures VisitAll(s, v, RowsKept(g, v, n + 1)) == VisitRow(g, VisitAll(s, v, RowsKept(g, v, n)), v, n)
  {
    VisitAllSnoc(s, v, RowsKept(g, v, n), g.table[n]);
  }

  lemma {:induction false} RowsStep(g: Graph, s: Search, start: NodeId, m: nat, n: nat) returns (more: seq<NodeId>)
    requires UniqueIds(g.table) && Searched(g, s, start, m, 0) && m < |Discovered(start, s.result)| && n <= |g.table|
    ensures var t := VisitAll(s, Discovered(start, s.result)[m], RowsKept(g, Discovered(start, s.result)[m], n));
      && Searched(g, t, start, m, n) && t.next == s.next + more
      && Discovered(start, t.result) == Discovered(start, s.result) + more
    decreases n
  {
    hide Searched, Discovered, VisitRow, UniqueIds;
    if n == 0 {
      more := [];
      assert Discovered(start, s.result) + [] == Discovered(start, s.result);
    } else {
      var v := Discovered(start, s.result)[m];
      var before := RowsStep(g, s, start, m, n - 1);
      var t := VisitAll(s, v, RowsKept(g, v, n - 1));
      assert Discovered(start, t.result)[m] == v;
      var last := RowStep(g, t, start, m, n - 1);
      KeptNext(g, s, v, n - 1);
      more := before + last;
      assert Discovered(start, s.result) + before + last == Discovered(start, s.result) + more;
    }
  }

  /** Node m done, the next one begins. */
  lemma NextNode(g: Graph, s: Search, start: NodeId, m: nat)
    requires Searched(g, s, start, m, |g.table|) && m < |Discovered(start, s.result)|
    ensures Searched(g, s, start, m + 1, 0)
  {
    hide InOrder, FirstAt, Discovered;
    var nodes := Discovered(start, s.result);
    forall r | r in s.result ensures FoundBy(g, nodes, m + 1, 0, r) {
      var f :| FirstAt(g, nodes, f, r) && (f < m || (f == m && exists a :: 0 <= a < |g.table| && a < |g.table| && g.table[a] == r));
      assert f < m + 1;
    }
    forall l, r | 0 <= l < m + 1 && g.Incident(nodes[l], r) ensures r in s.result {
      if l == m {
        var a :| 0 <= a < |g.table| && g.table[a] == r;
      }
    }
  }

  lemma NodeStep(g: Graph, s: Search, start: NodeId, m: nat) returns (more: seq<NodeId>)
    requires UniqueIds(g.table) && Searched(g, s, start, m, 0) && m < |Discovered(start, s.result)|
    ensures var v := Discovered(start, s.result)[m];
      var t := VisitAll(s, v, g.Query(v));
      && Searched(g, t, start, m + 1, 0) && t.next == s.next + more
      && Discovered(start, t.result) == Discovered(start, s.result) + more
  {
    hide Searched, Discovered, UniqueIds;
    var v := Discovered(start, s.result)[m];
    more := RowsStep(g, s, start, m, |g.table|);
    assert RowsKept(g, v, |g.table|) == g.Query(v);
    NextNode(g, VisitAll(s, v, g.Query(v)), start, m);
  }

  // ---- One level, and all of them -------------------------------------------------------------

  lemma {:induction false} FrontierStep(g: Graph, s: Search, start: NodeId, m: nat, frontier: seq<NodeId>) returns (more: seq<NodeId>)
    requires UniqueIds(g.table) && Searched(g, s, start, m, 0)
    requires m + |frontier| <= |Discovered(start, s.result)|
    requires frontier == Discovered(start, s.result)[m..m + |frontier|]
    ensures var t := Expand(g, s, frontier);
      && Searched(g, t, start, m + |frontier|, 0) && t.next == s.next + more
      && Discovered(start, t.result) == Discovered(start, s.result) + more
    decreases |frontier|
  {
    hide Searched, Discovered, UniqueIds, VisitAll;
    if frontier == [] {
      more := [];
      assert Discovered(start, s.result) + [] == Discovered(start, s.result);
    } else {
      var nodes := Discovered(start, s.result);
      assert frontier[0] == nodes[m];
      var first := NodeStep(g, s, start, m);
      var t := VisitAll(s, frontier[0], g.Query(frontier[0]));
      SliceTail(nodes, first, m, frontier);
      var rest := FrontierStep(g, t, start, m + 1, frontier[1..]);
      more := first + rest;
      assert nodes + first + rest == nodes + more;
    }
  }

  lemma SliceTail(nodes: seq<NodeId>, more: seq<NodeId>, m: nat, frontier: seq<NodeId>)
    requires frontier != [] && m + |frontier| <= |nodes| && frontier == nodes[m..m + |frontier|]
    ensures frontier[1..] == (nodes + more)[m + 1..m + 1 + |frontier[1..]|]
  {
  }

  /** Between levels: all nodes discovered so far were searched but the next frontier, which is the end of them. */
  ghost predicate BetweenLevels(g: Graph, s: Search, start: NodeId) {
    var nodes := Discovered(start, s.result);
    |s.next| <= |nodes| && s.next == nodes[|nodes| - |s.next|..] && Searched(g, s, start, |nodes| - |s.next|, 0)
  }

  lemma NextIsIrrelevant(g: Graph, s: Search, start: NodeId, m: nat, n: nat)
    requires Searched(g, s, start, m, n)
    ensures Searched(g, s.(next := []), start, m, n)
  {
  }

  lemma LevelKeepsOrder(g: Graph, s: Search, start: NodeId)
    requires UniqueIds(g.table) && BetweenLevels(g, s, start)
    ensures BetweenLevels(g, NextLevel(g, s), start)
  {
    hide Searched, Discovered, UniqueIds, Expand;
    var nodes := Discovered(start, s.result);
    var m := |nodes| - |s.next|;
    NextIsIrrelevant(g, s, start, m, 0);
    assert nodes[m..m + |s.next|] == s.next;
    var more := FrontierStep(g, s.(next := []), start, m, s.next);
    assert (nodes + more)[|nodes|..] == more;
  }

  lemma BeginsInOrder(g: Graph, start: NodeId)
    ensures BetweenLevels(g, Begin(start), start)
  {
    assert Elements(Discovered(start, [])) == {start};
    assert Begin(start).next == Discovered(start, [])[0..];
  }

  lemma {:induction false} LevelsInOrder(g: Graph, start: NodeId, levels: nat)
    requires UniqueIds(g.table)
    ensures BetweenLevels(g, After(g, Begin(start), levels), start)
    decreases levels
  {
    hide BetweenLevels, UniqueIds;
    if levels == 0 {
      BeginsInOrder(g, start);
    } else {
      LevelsInOrder(g, start, levels - 1);
      LevelKeepsOrder(g, After(g, Begin(start), levels - 1), start);
    }
  }

  // ---- In the words of the call ---------------------------------------------------------------

  /** Node f is the first of the nodes that has the edge in the direction asked for. */
  ghost predicate FirstWith(nodes: seq<NodeId>, f: int, r: Rel, direction: string) {
    0 <= f < |nodes| && AtNode(r, nodes[f], direction) && forall l :: 0 <= l < f ==> !AtNode(r, nodes[l], direction)
  }

  lemma FirstInWords(table: Table, direction: string, relType: string, nodes: seq<NodeId>, f: int, r: Rel)
    requires FirstAt(GraphOf(table, direction, relType), nodes, f, r)
    ensures f >= 0 && FirstWith(nodes, f, r, direction)
  {
    forall l | 0 <= l <= f
      ensures GraphOf(table, direction, relType).Incident(nodes[l], r) <==> r in table && OfType(r, relType) && AtNode(r, nodes[l], direction)
    {
      IncidentInWords(table, direction, relType, nodes[l], r);
    }
  }

  /** Of two edges in the result of a traversal the first is the one found at the node discovered first or, if that is the
      same, the one that stands first in the table. */
  lemma DiscoveryOrder(table: Table, start: NodeId, direction: string, relType: string, maxDepth: int, i: nat, j: nat)
    returns (e: nat, f: nat)
    requires UniqueIds(table) && i < j < |Levels(Graph(table, ParseDirection(direction), relType), Begin(start), EffectiveDepth(maxDepth))|
    ensures var res := Levels(Graph(table, ParseDirection(direction), relType), Begin(start), EffectiveDepth(maxDepth));
      var nodes := Discovered(start, res);
      && FirstWith(nodes, e, res[i], direction) && FirstWith(nodes, f, res[j], direction)
      && (e < f || (e == f && RowBefore(table, res[i], res[j])))
  {
    hide Levels, After, Discovered, FirstAt, FirstWith, RowBefore, UniqueIds, FoundBy;
    var g, depth := GraphOf(table, direction, relType), EffectiveDepth(maxDepth);
    LevelsIsAfter(g, Begin(start), depth);
    LevelsInOrder(g, start, depth);
    var res := Levels(g, Begin(start), depth);
    var nodes := Discovered(start, res);
    assert FoundBefore(g, nodes, res[i], res[j]);
    var x, y :| FirstAt(g, nodes, x, res[i]) && FirstAt(g, nodes, y, res[j]) && (x < y || (x == y && RowBefore(g.table, res[i], res[j])));
    FirstInWords(table, direction, relType, nodes, x, res[i]);
    FirstInWords(table, direction, relType, nodes, y, res[j]);
    e, f := x, y;
  }
}
