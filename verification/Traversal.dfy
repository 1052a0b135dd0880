/** Breadth-first traversal of the relationship table, and what it returns in terms of paths. */
module Traversal {
  import opened Prelude

  type NodeId = string
  type RelId = string

  datatype Rel = Rel(id: RelId, from: NodeId, to: NodeId, kind: string)

  datatype Direction = Outgoing | Incoming | Both

  /** The relationships table in the order the query sorts it, by creation time and then id. */
  type Table = seq<Rel>

  predicate UniqueIds(table: Table) {
    forall i, j :: 0 <= i < j < |table| ==> table[i].id != table[j].id
  }

  function ParseDirection(s: string): Direction {
    if s == "in" then Incoming else if s == "both" then Both else Outgoing
  }

  function EffectiveDepth(maxDepth: int): nat {
    if maxDepth <= 0 then 1 else maxDepth
  }

  /** What one traversal looks at: the table, a direction, and a type filter ("" for any). */
  datatype Graph = Graph(table: Table, dir: Direction, kind: string) {
    predicate Selects(r: Rel) {
      r in table && (kind == "" || r.kind == kind)
    }

    predicate Touches(v: NodeId, r: Rel) {
      match dir
      case Outgoing => r.from == v
      case Incoming => r.to == v
      case Both => r.from == v || r.to == v
    }

    predicate Incident(v: NodeId, r: Rel) {
      Selects(r) && Touches(v, r)
    }

    /** The rows the traversal query returns for one node. */
    function Query(v: NodeId): (rels: seq<Rel>)
      ensures forall r :: r in rels <==> Incident(v, r)
    {
      KeepMembers(table, |table|, r => Incident(v, r));
      Keep(table, |table|, r => Incident(v, r))
    }
  }

  function Other(v: NodeId, r: Rel): NodeId {
    if r.from != v then r.from else r.to
  }

  // ---- Distance, independently of any search --------------------------------------------------

  ghost predicate Step(g: Graph, u: NodeId, v: NodeId) {
    exists r :: g.Incident(u, r) && Other(u, r) == v
  }

  ghost predicate IsPath(g: Graph, p: seq<NodeId>) {
    p != [] && forall i :: 0 <= i < |p| - 1 ==> Step(g, p[i], p[i + 1])
  }

  ghost predicate PathFromTo(g: Graph, p: seq<NodeId>, u: NodeId, v: NodeId) {
    IsPath(g, p) && p[0] == u && p[|p| - 1] == v
  }

  /** v lies at distance at most n from start. */
  ghost predicate Within(g: Graph, start: NodeId, v: NodeId, n: nat) {
    exists p :: PathFromTo(g, p, start, v) && |p| <= n + 1
  }

  ghost function Successors(g: Graph, nodes: set<NodeId>): set<NodeId> {
    set u, r | u in nodes && r in g.table && g.Incident(u, r) :: Other(u, r)
  }

  ghost function Grow(g: Graph, ball: set<NodeId>): set<NodeId> {
    ball + Successors(g, ball)
  }

  ghost function Ball(g: Graph, start: NodeId, n: nat): set<NodeId> {
    if n == 0 then {start} else Grow(g, Ball(g, start, n - 1))
  }

  lemma StepIsSuccessor(g: Graph, nodes: set<NodeId>, v: NodeId)
    ensures v in Successors(g, nodes) <==> exists u :: u in nodes && Step(g, u, v)
  {
    if v in Successors(g, nodes) {
      var u, r :| u in nodes && r in g.table && g.Incident(u, r) && Other(u, r) == v;
      assert Step(g, u, v);
    }
    if u :| u in nodes && Step(g, u, v) {
      var r :| g.Incident(u, r) && Other(u, r) == v;
      assert r in g.table;
    }
  }

  lemma ExtendPath(g: Graph, p: seq<NodeId>, start: NodeId, u: NodeId, v: NodeId)
    requires PathFromTo(g, p, start, u) && Step(g, u, v)
    ensures PathFromTo(g, p + [v], start, v)
  {
  }

  lemma WithinOneMore(g: Graph, start: NodeId, u: NodeId, v: NodeId, n: nat)
    requires Within(g, start, u, n) && (u == v || Step(g, u, v))
    ensures Within(g, start, v, n + 1)
  {
    var p :| PathFromTo(g, p, start, u) && |p| <= n + 1;
    if u == v {
      assert PathFromTo(g, p, start, v);
    } else {
      ExtendPath(g, p, start, u, v);
    }
  }

  lemma BallOrigin(g: Graph, start: NodeId, v: NodeId, n: nat) returns (u: NodeId)
    requires v in Ball(g, start, n + 1)
    ensures u in Ball(g, start, n) && (u == v || Step(g, u, v))
  {
    var inner := Ball(g, start, n);
    if v in inner {
      u := v;
    } else {
      StepIsSuccessor(g, inner, v);
      u :| u in inner && Step(g, u, v);
    }
  }

  lemma StartWithin(g: Graph, start: NodeId)
    ensures Within(g, start, start, 0)
  {
    assert PathFromTo(g, [start], start, start);
  }

  lemma {:induction false} BallHasPath(g: Graph, start: NodeId, v: NodeId, n: nat)
    requires v in Ball(g, start, n)
    ensures Within(g, start, v, n)
    decreases n
  {
    hide Within, Step;
    if n == 0 {
      StartWithin(g, start);
    } else {
      var u := BallOrigin(g, start, v, n - 1);
      BallHasPath(g, start, u, n - 1);
      WithinOneMore(g, start, u, v, n - 1);
    }
  }

  lemma {:induction false} PathEndsInBall(g: Graph, p: seq<NodeId>, start: NodeId, v: NodeId, n: nat)
    requires PathFromTo(g, p, start, v) && |p| <= n + 1
    ensures v in Ball(g, start, n)
    decreases n
  {
    if n > 0 {
      if |p| <= n {
        PathEndsInBall(g, p, start, v, n - 1);
      } else {
        var u := p[|p| - 2];
        assert PathFromTo(g, p[..|p| - 1], start, u);
        PathEndsInBall(g, p[..|p| - 1], start, u, n - 1);
        assert Step(g, u, p[|p| - 1]);
        StepIsSuccessor(g, Ball(g, start, n - 1), v);
      }
    }
  }

  /** The ball grown by successor sets is exactly the set of nodes a short enough path leads to. */
  lemma BallIsWithin(g: Graph, start: NodeId, v: NodeId, n: nat)
    ensures v in Ball(g, start, n) <==> Within(g, start, v, n)
  {
    if v in Ball(g, start, n) {
      BallHasPath(g, start, v, n);
    }
    if Within(g, start, v, n) {
      var p :| PathFromTo(g, p, start, v) && |p| <= n + 1;
      PathEndsInBall(g, p, start, v, n);
    }
  }

  // ---- The search as folds --------------------------------------------------------------------

  datatype Search = Search(visited: set<NodeId>, collected: set<RelId>, result: seq<Rel>, next: seq<NodeId>)

  function Visit(s: Search, v: NodeId, r: Rel): Search {
    if r.id in s.collected then s
    else
      var other := Other(v, r);
      Search(s.visited + {other}, s.collected + {r.id}, s.result + [r],
             if other in s.visited then s.next else s.next + [other])
  }

  function VisitAll(s: Search, v: NodeId, rels: seq<Rel>): Search
    decreases |rels|
  {
    if rels == [] then s else VisitAll(Visit(s, v, rels[0]), v, rels[1..])
  }

  function Expand(g: Graph, s: Search, frontier: seq<NodeId>): Search
    decreases |frontier|
  {
    if frontier == [] then s else Expand(g, VisitAll(s, frontier[0], g.Query(frontier[0])), frontier[1..])
  }

  function Levels(g: Graph, s: Search, depth: nat): seq<Rel>
    decreases depth
  {
    if depth == 0 || s.next == [] then s.result
    else Levels(g, Expand(g, s.(next := []), s.next), depth - 1)
  }

  function Begin(start: NodeId): Search {
    Search({start}, {}, [], [start])
  }

  /** The traversal as the repository runs it: three nested loops over levels, nodes and rows. */
  method Traverse(table: Table, start: NodeId, direction: string, relType: string, maxDepth: int) returns (result: seq<Rel>)
    ensures result == Levels(Graph(table, ParseDirection(direction), relType), Begin(start), EffectiveDepth(maxDepth))
    ensures UniqueIds(table) ==> Distinct(result)
    ensures UniqueIds(table) ==>
      forall r :: r in result <==> Found(table, start, direction, relType, r, if maxDepth <= 0 then 1 else maxDepth)
    ensures UniqueIds(table) ==>
      forall i, j, n: nat :: 0 <= i < j < |result| && Found(table, start, direction, relType, result[j], n) ==>
        Found(table, start, direction, relType, result[i], n)
  {
    if UniqueIds(table) {
      ResultIsFound(table, start, direction, relType, maxDepth);
    }
    var g := Graph(table, ParseDirection(direction), relType);
    var limit := EffectiveDepth(maxDepth);
    var visited, collected := {start}, {};
    result := [];
    var frontier := [start];
    var depth := 0;
    ghost var whole := Levels(g, Begin(start), limit);
    while depth < limit && |frontier| > 0
      invariant depth <= limit
      invariant Levels(g, Search(visited, collected, result, frontier), limit - depth) == whole
      decreases limit - depth
    {
      var nextFrontier := [];
      ghost var level := Expand(g, Search(visited, collected, result, []), frontier);
      for j := 0 to |frontier|
        invariant Expand(g, Search(visited, collected, result, nextFrontier), frontier[j..]) == level
      {
        var node := frontier[j];
        var rels := g.Query(node);
        ghost var expanded := VisitAll(Search(visited, collected, result, nextFrontier), node, rels);
        for i := 0 to |rels|
          invariant VisitAll(Search(visited, collected, result, nextFrontier), node, rels[i..]) == expanded
        {
          var rel := rels[i];
          assert rels[i..][0] == rel && rels[i..][1..] == rels[i + 1..];
          if rel.id in collected {
            continue;
          }
          collected := collected + {rel.id};
          result := result + [rel];
          var other := rel.to;
          if rel.from != node {
            other := rel.from;
          }
          if other !in visited {
            visited := visited + {other};
            nextFrontier := nextFrontier + [other];
          } else {
            assert visited == visited + {other};
          }
        }
        assert frontier[j..][0] == node && frontier[j..][1..] == frontier[j + 1..];
      }
      frontier := nextFrontier;
      depth := depth + 1;
    }
  }

  // ---- What the folds do ----------------------------------------------------------------------

  ghost function Elements<T>(s: seq<T>): set<T> {
    set x | x in s
  }

  ghost predicate Distinct<T>(s: seq<T>) {
    forall i, j :: 0 <= i < j < |s| ==> s[i] != s[j]
  }

  ghost function Ids(rels: seq<Rel>): set<RelId> {
    set r | r in rels :: r.id
  }

  /** base is what was visited when the current level began. */
  ghost predicate Good(g: Graph, s: Search, base: set<NodeId>) {
    && s.collected == Ids(s.result)
    && Distinct(s.result)
    && (forall r :: r in s.result ==> r in g.table && r.from in s.visited && r.to in s.visited)
    && base <= s.visited
    && Elements(s.next) == s.visited - base
    && Distinct(s.next)
  }

  lemma SameIdSameRel(table: Table, a: Rel, b: Rel)
    requires UniqueIds(table) && a in table && b in table && a.id == b.id
    ensures a == b
  {
    var i :| 0 <= i < |table| && table[i] == a;
    var j :| 0 <= j < |table| && table[j] == b;
    assert i == j;
  }

  /** Skipping a collected edge loses nothing: both its ends have been visited. */
  lemma VisitStep(g: Graph, s: Search, base: set<NodeId>, v: NodeId, r: Rel)
    requires UniqueIds(g.table) && Good(g, s, base) && v in s.visited && g.Incident(v, r)
    ensures Good(g, Visit(s, v, r), base)
    ensures Visit(s, v, r).visited == s.visited + {Other(v, r)}
    ensures Elements(Visit(s, v, r).result) == Elements(s.result) + {r}
    ensures s.result <= Visit(s, v, r).result
  {
    var t := Visit(s, v, r);
    if r.id in s.collected {
      var q :| q in s.result && q.id == r.id;
      SameIdSameRel(g.table, q, r);
    } else {
      assert r !in s.result;
      assert forall q :: q in t.result <==> q in s.result || q == r;
      var other := Other(v, r);
      if other in s.visited {
        assert t.visited == s.visited;
      } else {
        assert other !in Elements(s.next);
        assert Elements(t.next) == Elements(s.next) + {other};
      }
    }
  }

  ghost function Reached(v: NodeId, rels: seq<Rel>): set<NodeId> {
    set r | r in rels :: Other(v, r)
  }

  lemma FirstOfAll(v: NodeId, rels: seq<Rel>)
    requires rels != []
    ensures Reached(v, rels) == {Other(v, rels[0])} + Reached(v, rels[1..])
    ensures Elements(rels) == {rels[0]} + Elements(rels[1..])
  {
    assert rels == [rels[0]] + rels[1..];
  }

  lemma {:induction false} VisitAllStep(g: Graph, s: Search, base: set<NodeId>, v: NodeId, rels: seq<Rel>)
    requires UniqueIds(g.table) && Good(g, s, base) && v in s.visited
    requires forall r :: r in rels ==> g.Incident(v, r)
    ensures Good(g, VisitAll(s, v, rels), base)
    ensures VisitAll(s, v, rels).visited == s.visited + Reached(v, rels)
    ensures Elements(VisitAll(s, v, rels).result) == Elements(s.result) + Elements(rels)
    ensures s.result <= VisitAll(s, v, rels).result
    decreases |rels|
  {
    if rels != [] {
      VisitStep(g, s, base, v, rels[0]);
      VisitAllStep(g, Visit(s, v, rels[0]), base, v, rels[1..]);
      FirstOfAll(v, rels);
    }
  }

  /** The edges incident to some node of the set. */
  ghost function EdgesOf(g: Graph, nodes: set<NodeId>): set<Rel> {
    set r, u | r in g.table && u in nodes && g.Incident(u, r) :: r
  }

  lemma FirstOfFrontier(g: Graph, frontier: seq<NodeId>)
    requires frontier != []
    ensures Elements(frontier) == {frontier[0]} + Elements(frontier[1..])
    ensures Successors(g, Elements(frontier)) == Reached(frontier[0], g.Query(frontier[0])) + Successors(g, Elements(frontier[1..]))
    ensures EdgesOf(g, Elements(frontier)) == Elements(g.Query(frontier[0])) + EdgesOf(g, Elements(frontier[1..]))
  {
    assert frontier == [frontier[0]] + frontier[1..];
  }

  lemma {:induction false} ExpandStep(g: Graph, s: Search, base: set<NodeId>, frontier: seq<NodeId>)
    requires UniqueIds(g.table) && Good(g, s, base) && Elements(frontier) <= base
    ensures Good(g, Expand(g, s, frontier), base)
    ensures Expand(g, s, frontier).visited == s.visited + Successors(g, Elements(frontier))
    ensures Elements(Expand(g, s, frontier).result) == Elements(s.result) + EdgesOf(g, Elements(frontier))
    ensures s.result <= Expand(g, s, frontier).result
    decreases |frontier|
  {
    if frontier != [] {
      var v := frontier[0];
      var rels := g.Query(v);
      FirstOfFrontier(g, frontier);
      VisitAllStep(g, s, base, v, rels);
      ExpandStep(g, VisitAll(s, v, rels), base, frontier[1..]);
    }
  }

  // ---- Level by level -------------------------------------------------------------------------

  /** Between levels: ball is visited, the frontier is its rim outside inner, the result the edges met inside inner. */
  ghost predicate AtRadius(g: Graph, s: Search, inner: set<NodeId>, ball: set<NodeId>) {
    && s.collected == Ids(s.result)
    && Distinct(s.result)
    && (forall r :: r in s.result ==> r in g.table && r.from in s.visited && r.to in s.visited)
    && inner <= ball && Successors(g, inner) <= ball
    && s.visited == ball
    && Elements(s.next) == ball - inner
    && Elements(s.result) == EdgesOf(g, inner)
  }

  function NextLevel(g: Graph, s: Search): Search {
    Expand(g, s.(next := []), s.next)
  }

  function After(g: Graph, s: Search, levels: nat): Search
    decreases levels
  {
    if levels == 0 then s else NextLevel(g, After(g, s, levels - 1))
  }

  lemma {:induction false} AfterShifts(g: Graph, s: Search, levels: nat)
    requires levels > 0
    ensures After(g, s, levels) == After(g, NextLevel(g, s), levels - 1)
    decreases levels
  {
    if levels > 1 {
      AfterShifts(g, s, levels - 1);
    }
  }

  lemma {:induction false} DryStaysDry(g: Graph, s: Search, levels: nat)
    requires s.next == []
    ensures After(g, s, levels) == s
    decreases levels
  {
    if levels > 0 {
      DryStaysDry(g, s, levels - 1);
    }
  }

  /** Stopping at an empty frontier changes nothing, because expanding it changes nothing. */
  lemma {:induction false} LevelsIsAfter(g: Graph, s: Search, depth: nat)
    ensures Levels(g, s, depth) == After(g, s, depth).result
    decreases depth
  {
    if s.next == [] {
      DryStaysDry(g, s, depth);
    } else if depth > 0 {
      LevelsIsAfter(g, NextLevel(g, s), depth - 1);
      AfterShifts(g, s, depth);
    }
  }

  lemma SplitBall(g: Graph, inner: set<NodeId>, rim: set<NodeId>)
    ensures Successors(g, inner + rim) == Successors(g, inner) + Successors(g, rim)
    ensures EdgesOf(g, inner + rim) == EdgesOf(g, inner) + EdgesOf(g, rim)
  {
  }

  lemma LevelStep(g: Graph, s: Search, inner: set<NodeId>, ball: set<NodeId>)
    requires UniqueIds(g.table) && AtRadius(g, s, inner, ball)
    ensures AtRadius(g, NextLevel(g, s), ball, Grow(g, ball))
    ensures s.result <= NextLevel(g, s).result
  {
    ExpandStep(g, s.(next := []), ball, s.next);
    SplitBall(g, inner, Elements(s.next));
    assert ball == inner + Elements(s.next);
  }

  ghost function Inside(g: Graph, start: NodeId, d: nat): set<NodeId> {
    if d == 0 then {} else Ball(g, start, d - 1)
  }

  lemma {:induction false} LevelsReach(g: Graph, start: NodeId, d: nat)
    requires UniqueIds(g.table)
    ensures AtRadius(g, After(g, Begin(start), d), Inside(g, start, d), Ball(g, start, d))
    decreases d
  {
    if d == 0 {
      assert Elements(Begin(start).next) == {start};
    } else {
      LevelsReach(g, start, d - 1);
      LevelStep(g, After(g, Begin(start), d - 1), Inside(g, start, d - 1), Ball(g, start, d - 1));
    }
  }

  lemma EdgesOfBall(g: Graph, start: NodeId, n: nat, r: Rel)
    ensures r in EdgesOf(g, Ball(g, start, n)) <==> exists v :: Within(g, start, v, n) && g.Incident(v, r)
  {
    if r in EdgesOf(g, Ball(g, start, n)) {
      var v :| v in Ball(g, start, n) && g.Incident(v, r);
      BallIsWithin(g, start, v, n);
    }
    if v :| Within(g, start, v, n) && g.Incident(v, r) {
      BallIsWithin(g, start, v, n);
    }
  }

  ghost function TraverseSpec(g: Graph, start: NodeId, maxDepth: int): seq<Rel> {
    Levels(g, Begin(start), EffectiveDepth(maxDepth))
  }

  lemma ResultIsEdges(g: Graph, start: NodeId, maxDepth: int)
    requires UniqueIds(g.table)
    ensures Distinct(TraverseSpec(g, start, maxDepth))
    ensures Elements(TraverseSpec(g, start, maxDepth)) == EdgesOf(g, Ball(g, start, EffectiveDepth(maxDepth) - 1))
  {
    LevelsReach(g, start, EffectiveDepth(maxDepth));
    LevelsIsAfter(g, Begin(start), EffectiveDepth(maxDepth));
  }

  /** The result holds, without duplicates, exactly the selected edges that touch, in the chosen direction, a node
      nearer than the depth. */
  lemma TraverseExact(g: Graph, start: NodeId, maxDepth: int)
    requires UniqueIds(g.table)
    ensures Distinct(TraverseSpec(g, start, maxDepth))
    ensures forall r :: r in TraverseSpec(g, start, maxDepth) <==>
      exists v :: Within(g, start, v, EffectiveDepth(maxDepth) - 1) && g.Incident(v, r)
  {
    ResultIsEdges(g, start, maxDepth);
    var res := TraverseSpec(g, start, maxDepth);
    forall r
      ensures r in res <==> exists v :: Within(g, start, v, EffectiveDepth(maxDepth) - 1) && g.Incident(v, r)
    {
      assert r in res <==> r in Elements(res);
      EdgesOfBall(g, start, EffectiveDepth(maxDepth) - 1, r);
    }
  }

  /** Looking deeper only appends. */
  lemma DeeperExtends(g: Graph, start: NodeId, maxDepth: int)
    requires UniqueIds(g.table) && maxDepth > 0
    ensures TraverseSpec(g, start, maxDepth) <= TraverseSpec(g, start, maxDepth + 1)
  {
    LevelsReach(g, start, maxDepth);
    LevelStep(g, After(g, Begin(start), maxDepth), Inside(g, start, maxDepth), Ball(g, start, maxDepth));
    LevelsIsAfter(g, Begin(start), maxDepth);
    LevelsIsAfter(g, Begin(start), maxDepth + 1);
  }

  lemma {:induction false} PathStaysInside(g: Graph, p: seq<NodeId>, start: NodeId, v: NodeId, d: nat)
    requires PathFromTo(g, p, start, v)
    requires forall a, b :: Within(g, start, a, d) && Step(g, a, b) ==> Within(g, start, b, d)
    ensures Within(g, start, v, d)
    decreases |p|
  {
    if |p| == 1 {
      assert PathFromTo(g, [start], start, start);
    } else {
      var u := p[|p| - 2];
      assert PathFromTo(g, p[..|p| - 1], start, u);
      PathStaysInside(g, p[..|p| - 1], start, u, d);
      assert Step(g, u, p[|p| - 1]);
    }
  }

  lemma WithinMonotone(g: Graph, start: NodeId, v: NodeId, d: nat, n: nat)
    requires d <= n && Within(g, start, v, d)
    ensures Within(g, start, v, n)
  {
    var p :| PathFromTo(g, p, start, v) && |p| <= d + 1;
  }

  lemma ClosedRadius(g: Graph, start: NodeId, maxDepth: int, d: nat)
    requires UniqueIds(g.table) && maxDepth > d
    requires forall a, b :: Within(g, start, a, d) && Step(g, a, b) ==> Within(g, start, b, d)
    ensures forall r :: r in TraverseSpec(g, start, maxDepth) <==>
      exists v, n :: Within(g, start, v, n) && g.Incident(v, r)
  {
    TraverseExact(g, start, maxDepth);
    forall v, n: nat | Within(g, start, v, n) ensures Within(g, start, v, maxDepth - 1) {
      var p :| PathFromTo(g, p, start, v) && |p| <= n + 1;
      PathStaysInside(g, p, start, v, d);
      WithinMonotone(g, start, v, d, maxDepth - 1);
    }
  }

  // ---- How deep is deep enough ----------------------------------------------------------------

  function Nodes(table: Table): set<NodeId> {
    (set r | r in table :: r.from) + (set r | r in table :: r.to)
  }

  lemma {:induction false} BallInNodes(g: Graph, start: NodeId, n: nat)
    ensures Ball(g, start, n) <= {start} + Nodes(g.table)
  {
    if n > 0 {
      BallInNodes(g, start, n - 1);
    }
  }

  lemma ProperSubsetIsSmaller<T>(a: set<T>, b: set<T>)
    requires a <= b && a != b
    ensures |a| < |b|
  {
    assert b == a + (b - a);
  }

  lemma BallOnlyGrows(g: Graph, start: NodeId, n: nat)
    ensures Ball(g, start, n) <= Ball(g, start, n + 1)
  {
  }

  lemma BallStaysStopped(g: Graph, start: NodeId, n: nat)
    requires Ball(g, start, n) == Ball(g, start, n + 1)
    ensures Ball(g, start, n + 1) == Ball(g, start, n + 2)
  {
  }

  /** Sets that only grow, and do not grow again once they stopped. */
  ghost predicate Chain<T>(sets: nat -> set<T>) {
    && sets(0) != {}
    && (forall i: nat :: sets(i) <= sets(i + 1))
    && (forall i: nat :: sets(i) == sets(i + 1) ==> sets(i + 1) == sets(i + 2))
  }

  lemma {:induction false} GrowOrStop<T>(sets: nat -> set<T>, n: nat)
    requires Chain(sets)
    ensures |sets(n)| > n || sets(n + 1) == sets(n)
  {
    if n > 0 {
      GrowOrStop(sets, n - 1);
      if sets(n - 1) != sets(n) {
        ProperSubsetIsSmaller(sets(n - 1), sets(n));
      }
    }
  }

  ghost function Balls(g: Graph, start: NodeId): nat -> set<NodeId> {
    (n: nat) => Ball(g, start, n)
  }

  lemma BallsChain(g: Graph, start: NodeId)
    ensures Chain(Balls(g, start))
  {
    var balls := Balls(g, start);
    forall i: nat ensures balls(i) <= balls(i + 1) {
      BallOnlyGrows(g, start, i);
    }
    forall i: nat | balls(i) == balls(i + 1) ensures balls(i + 1) == balls(i + 2) {
      BallStaysStopped(g, start, i);
    }
  }

  /** A ball that can still grow has a node for each radius. */
  lemma BallsGrowOrStop(g: Graph, start: NodeId, n: nat)
    ensures |Ball(g, start, n)| > n || Ball(g, start, n + 1) == Ball(g, start, n)
  {
    BallsChain(g, start);
    GrowOrStop(Balls(g, start), n);
    assert Balls(g, start)(n) == Ball(g, start, n) && Balls(g, start)(n + 1) == Ball(g, start, n + 1);
  }

  lemma FullSetStops<T>(ball: set<T>, next: set<T>, all: set<T>)
    requires ball <= next <= all && |ball| >= |all|
    ensures next == ball
  {
    if ball != all {
      ProperSubsetIsSmaller(ball, all);
    }
  }

  lemma BallStops(g: Graph, start: NodeId, n: nat)
    requires |{start} + Nodes(g.table)| == n + 1
    ensures Ball(g, start, n + 1) == Ball(g, start, n)
  {
    BallsGrowOrStop(g, start, n);
    BallOnlyGrows(g, start, n);
    BallInNodes(g, start, n + 1);
    if |Ball(g, start, n)| > n {
      FullSetStops(Ball(g, start, n), Ball(g, start, n + 1), {start} + Nodes(g.table));
    }
  }

  lemma StoppedBallIsClosed(g: Graph, start: NodeId, n: nat, a: NodeId, b: NodeId)
    requires Ball(g, start, n + 1) == Ball(g, start, n) && Within(g, start, a, n) && Step(g, a, b)
    ensures Within(g, start, b, n)
  {
    BallIsWithin(g, start, a, n);
    StepIsSuccessor(g, Ball(g, start, n), b);
    BallIsWithin(g, start, b, n);
  }

  /** Cycles or not: with a depth of at least the number of distinct nodes, the start among them, every edge that can be
      reached at all is returned. */
  lemma DeepEnough(g: Graph, start: NodeId, maxDepth: int)
    requires UniqueIds(g.table) && maxDepth >= |{start} + Nodes(g.table)|
    ensures forall r :: r in TraverseSpec(g, start, maxDepth) <==>
      exists v, n :: Within(g, start, v, n) && g.Incident(v, r)
  {
    assert start in {start} + Nodes(g.table);
    var d := |{start} + Nodes(g.table)| - 1;
    BallStops(g, start, d);
    forall a, b | Within(g, start, a, d) && Step(g, a, b) ensures Within(g, start, b, d) {
      StoppedBallIsClosed(g, start, d, a, b);
    }
    ClosedRadius(g, start, maxDepth, d);
  }

  /** The query keeps the order of the table and names each incident row once. */
  lemma QueryInOrder(g: Graph, v: NodeId) returns (picks: seq<nat>)
    ensures Picks(g.Query(v), g.table, |g.table|, picks)
    ensures forall k :: 0 <= k < |g.table| && g.Incident(v, g.table[k]) ==> k in picks
  {
    var wanted := r => g.Incident(v, r);
    picks := KeptAt(g.table, |g.table|, wanted);
    KeepInOrder(g.table, |g.table|, wanted);
    forall k | 0 <= k < |g.table| && g.Incident(v, g.table[k]) ensures k in picks {
      KeepIsComplete(g.table, |g.table|, wanted, k);
    }
  }

  // ---- The result in the words of the call ----------------------------------------------------

  ghost predicate OfType(r: Rel, relType: string) {
    relType == "" || r.kind == relType
  }

  /** "in" asks for the edges that end at the node, "both" for those with either end there, and anything else, the empty
      word included, for those that start there. */
  ghost predicate AtNode(r: Rel, v: NodeId, direction: string) {
    if direction == "in" then r.to == v
    else if direction == "both" then r.from == v || r.to == v
    else r.from == v
  }

  /** An edge leads along its arrow unless the direction is "in", against it for "in" and "both". */
  ghost predicate Leads(r: Rel, u: NodeId, v: NodeId, direction: string) {
    || (direction != "in" && r.from == u && r.to == v)
    || ((direction == "in" || direction == "both") && r.to == u && r.from == v)
  }

  ghost predicate LeadsTo(table: Table, u: NodeId, v: NodeId, direction: string, relType: string) {
    exists r :: r in table && OfType(r, relType) && Leads(r, u, v, direction)
  }

  ghost predicate IsWalk(table: Table, p: seq<NodeId>, direction: string, relType: string) {
    forall i :: 0 <= i < |p| - 1 ==> LeadsTo(table, p[i], p[i + 1], direction, relType)
  }

  /** A row of the table, of the type, at a node that fewer than n steps lead to. */
  ghost predicate Found(table: Table, start: NodeId, direction: string, relType: string, r: Rel, n: nat) {
    && r in table && OfType(r, relType)
    && exists p :: 0 < |p| <= n && p[0] == start && IsWalk(table, p, direction, relType) && AtNode(r, p[|p| - 1], direction)
  }

  ghost function GraphOf(table: Table, direction: string, relType: string): Graph {
    Graph(table, ParseDirection(direction), relType)
  }

  lemma IncidentInWords(table: Table, direction: string, relType: string, v: NodeId, r: Rel)
    ensures GraphOf(table, direction, relType).Incident(v, r) <==> r in table && OfType(r, relType) && AtNode(r, v, direction)
  {
  }

  lemma StepInWords(table: Table, direction: string, relType: string, u: NodeId, v: NodeId)
    ensures Step(GraphOf(table, direction, relType), u, v) <==> LeadsTo(table, u, v, direction, relType)
  {
    var g := GraphOf(table, direction, relType);
    if r :| g.Incident(u, r) && Other(u, r) == v {
      assert r in table && OfType(r, relType);
    }
    if r :| r in table && OfType(r, relType) && Leads(r, u, v, direction) {
      assert g.Incident(u, r) && Other(u, r) == v;
    }
  }

  lemma PathInWords(table: Table, direction: string, relType: string, p: seq<NodeId>)
    ensures IsPath(GraphOf(table, direction, relType), p) <==> p != [] && IsWalk(table, p, direction, relType)
  {
    hide Step, LeadsTo;
    forall i | 0 <= i < |p| - 1
      ensures Step(GraphOf(table, direction, relType), p[i], p[i + 1]) <==> LeadsTo(table, p[i], p[i + 1], direction, relType)
    {
      StepInWords(table, direction, relType, p[i], p[i + 1]);
    }
  }

  lemma FoundInWords(table: Table, start: NodeId, direction: string, relType: string, r: Rel, n: nat)
    ensures Found(table, start, direction, relType, r, n + 1) <==>
      exists v :: Within(GraphOf(table, direction, relType), start, v, n) && GraphOf(table, direction, relType).Incident(v, r)
  {
    hide IsPath, IsWalk, AtNode, OfType, Graph.Incident;
    var g := GraphOf(table, direction, relType);
    if v :| Within(g, start, v, n) && g.Incident(v, r) {
      var p :| PathFromTo(g, p, start, v) && |p| <= n + 1;
      PathInWords(table, direction, relType, p);
      IncidentInWords(table, direction, relType, v, r);
    }
    if Found(table, start, direction, relType, r, n + 1) {
      var p :| 0 < |p| <= n + 1 && p[0] == start && IsWalk(table, p, direction, relType) && AtNode(r, p[|p| - 1], direction);
      PathInWords(table, direction, relType, p);
      IncidentInWords(table, direction, relType, p[|p| - 1], r);
      assert PathFromTo(g, p, start, p[|p| - 1]);
    }
  }

  lemma FoundExactly(table: Table, start: NodeId, direction: string, relType: string, maxDepth: int)
    requires UniqueIds(table)
    ensures Distinct(TraverseSpec(GraphOf(table, direction, relType), start, maxDepth))
    ensures forall r :: r in TraverseSpec(GraphOf(table, direction, relType), start, maxDepth) <==>
      Found(table, start, direction, relType, r, if maxDepth <= 0 then 1 else maxDepth)
  {
    hide Within, Found, Graph.Incident, Levels, UniqueIds;
    var g := GraphOf(table, direction, relType);
    var depth := EffectiveDepth(maxDepth);
    TraverseExact(g, start, maxDepth);
    forall r
      ensures Found(table, start, direction, relType, r, depth) <==> exists v :: Within(g, start, v, depth - 1) && g.Incident(v, r)
    {
      FoundInWords(table, start, direction, relType, r, depth - 1);
    }
  }

  lemma {:induction false} DeeperByAny(g: Graph, start: NodeId, n: nat, maxDepth: nat)
    requires UniqueIds(g.table) && 0 < n <= maxDepth
    ensures TraverseSpec(g, start, n) <= TraverseSpec(g, start, maxDepth)
    decreases maxDepth
  {
    hide TraverseSpec, UniqueIds;
    if n < maxDepth {
      DeeperByAny(g, start, n, maxDepth - 1);
      DeeperExtends(g, start, maxDepth - 1);
    }
  }

  lemma PrefixHasEarlier<T>(whole: seq<T>, front: seq<T>, i: nat, j: nat)
    requires Distinct(whole) && front <= whole && i < j < |whole| && whole[j] in front
    ensures whole[i] in front
  {
    var k :| 0 <= k < |front| && front[k] == whole[j];
    assert whole[k] == whole[j];
    assert front[i] == whole[i];
  }

  /** Nearer edges come first: whatever a search of depth n finds stands before what it does not find. */
  lemma NearerFirst(table: Table, start: NodeId, direction: string, relType: string, maxDepth: int, i: nat, j: nat, n: nat)
    requires UniqueIds(table) && i < j < |TraverseSpec(GraphOf(table, direction, relType), start, maxDepth)|
    requires Found(table, start, direction, relType, TraverseSpec(GraphOf(table, direction, relType), start, maxDepth)[j], n)
    ensures Found(table, start, direction, relType, TraverseSpec(GraphOf(table, direction, relType), start, maxDepth)[i], n)
  {
    hide TraverseSpec, UniqueIds;
    var g := GraphOf(table, direction, relType);
    var depth := EffectiveDepth(maxDepth);
    SameDepth(g, start, maxDepth);
    var whole := TraverseSpec(g, start, depth);
    FoundExactly(table, start, direction, relType, depth);
    assert whole[i] in whole;
    if n < depth {
      SomeDepth(table, start, direction, relType, whole[j], n);
      FoundExactly(table, start, direction, relType, n);
      DeeperByAny(g, start, n, depth);
      PrefixHasEarlier(whole, TraverseSpec(g, start, n), i, j);
    } else {
      FoundFarther(table, start, direction, relType, whole[i], depth, n);
    }
  }

  lemma SameDepth(g: Graph, start: NodeId, maxDepth: int)
    ensures TraverseSpec(g, start, maxDepth) == TraverseSpec(g, start, EffectiveDepth(maxDepth))
  {
  }

  lemma SomeDepth(table: Table, start: NodeId, direction: string, relType: string, r: Rel, n: nat)
    requires Found(table, start, direction, relType, r, n)
    ensures n > 0
  {
  }

  lemma FoundFarther(table: Table, start: NodeId, direction: string, relType: string, r: Rel, n: nat, m: nat)
    requires n <= m && Found(table, start, direction, relType, r, n)
    ensures Found(table, start, direction, relType, r, m)
  {
    var p :| 0 < |p| <= n && p[0] == start && IsWalk(table, p, direction, relType) && AtNode(r, p[|p| - 1], direction);
    assert |p| <= m;
  }

  /** What Traverse returns, in the words of its call: without duplicates the rows found within the depth, the nearer ones
      first. */
  lemma ResultIsFound(table: Table, start: NodeId, direction: string, relType: string, maxDepth: int)
    requires UniqueIds(table)
    ensures var res := Levels(Graph(table, ParseDirection(direction), relType), Begin(start), EffectiveDepth(maxDepth));
      && Distinct(res)
      && (forall r :: r in res <==> Found(table, start, direction, relType, r, if maxDepth <= 0 then 1 else maxDepth))
      && (forall i, j, n: nat :: 0 <= i < j < |res| && Found(table, start, direction, relType, res[j], n) ==>
            Found(table, start, direction, relType, res[i], n))
  {
    hide Levels, Found, UniqueIds;
    FoundExactly(table, start, direction, relType, maxDepth);
    var res := TraverseSpec(GraphOf(table, direction, relType), start, maxDepth);
    forall i, j, n: nat | 0 <= i < j < |res| && Found(table, start, direction, relType, res[j], n)
      ensures Found(table, start, direction, relType, res[i], n)
    {
      NearerFirst(table, start, direction, relType, maxDepth, i, j, n);
    }
  }
}
