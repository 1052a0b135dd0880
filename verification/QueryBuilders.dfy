/**
 The query builders that grow text and arguments side by side. What they build is described by the pieces a driver
 sees once every mark is replaced by its argument, so a swapped or missing argument shows.
*/
module QueryBuilders {
  import opened Placeholders

  datatype Arg = S(s: string) | N(n: int)

  datatype Piece = Chr(c: char) | Val(a: Arg)

  /** The text with its marks replaced by the arguments, left to right. */
  function Bind(sql: string, args: seq<Arg>): seq<Piece>
    requires CountMarks(sql) == |args|
  {
    if sql == "" then []
    else if sql[0] == '?' then [Val(args[0])] + Bind(sql[1..], args[1..])
    else [Chr(sql[0])] + Bind(sql[1..], args)
  }

  /** What a driver makes of tokens: parameter i is argument i, counted from one. */
  function Fill(tokens: seq<Token>, args: seq<Arg>): seq<Piece>
    requires forall t :: t in tokens && t.Param? ==> 1 <= t.index <= |args|
  {
    seq(|tokens|, i requires 0 <= i < |tokens| =>
      assert tokens[i] in tokens;
      match tokens[i]
      case Lit(c) => Chr(c)
      case Param(n) => Val(args[n - 1]))
  }

  lemma FillCons(head: Token, rest: seq<Token>, args: seq<Arg>)
    requires forall t :: t in rest && t.Param? ==> 1 <= t.index <= |args|
    requires head.Param? ==> 1 <= head.index <= |args|
    ensures forall t :: t in [head] + rest && t.Param? ==> 1 <= t.index <= |args|
    ensures Fill([head] + rest, args)
      == [match head case Lit(c) => Chr(c) case Param(n) => Val(args[n - 1])] + Fill(rest, args)
  {
  }

  lemma {:induction false} PositionalFills(sql: string, args: seq<Arg>, seen: nat)
    requires CountMarks(sql) + seen == |args|
    ensures forall t :: t in Positional(sql, seen) && t.Param? ==> 1 <= t.index <= |args|
    ensures Fill(Positional(sql, seen), args) == Bind(sql, args[seen..])
    decreases |sql|
  {
    if sql != "" {
      var next := if sql[0] == '?' then seen + 1 else seen;
      PositionalFills(sql[1..], args, next);
      var head := if sql[0] == '?' then Param(seen + 1) else Lit(sql[0]);
      assert Positional(sql, seen) == [head] + Positional(sql[1..], next);
      FillCons(head, Positional(sql[1..], next), args);
      assert args[seen..][(next - seen)..] == args[next..];
    }
  }

  lemma BindHead(c: char, sql: string, xs: seq<Arg>, args: seq<Arg>)
    requires CountMarks(sql) == |args| && |xs| == (if c == '?' then 1 else 0)
    ensures CountMarks([c] + sql) == |xs + args|
    ensures Bind([c] + sql, xs + args) == [if c == '?' then Val(xs[0]) else Chr(c)] + Bind(sql, args)
  {
    assert ([c] + sql)[1..] == sql;
    if c == '?' {
      assert (xs + args)[1..] == args;
    } else {
      assert xs + args == args;
    }
  }

  lemma MarksOfTail(sql: string, args: seq<Arg>)
    requires sql != "" && CountMarks(sql) == |args|
    ensures var n := if sql[0] == '?' then 1 else 0; n <= |args| && CountMarks(sql[1..]) == |args[n..]|
  {
  }

  lemma BindEmpty()
    ensures CountMarks("") == 0 && Bind("", []) == []
  {
  }

  lemma {:induction false} BindSplit(a: string, b: string, xs: seq<Arg>, ys: seq<Arg>)
    requires CountMarks(a) == |xs| && CountMarks(b) == |ys|
    ensures CountMarks(a + b) == |xs + ys|
    ensures Bind(a + b, xs + ys) == Bind(a, xs) + Bind(b, ys)
    decreases |a|
  {
    hide Bind, CountMarks;
    CountSplit(a, b);
    if a == "" {
      BindEmpty();
      assert a + b == b && xs + ys == ys;
    } else {
      var n := if a[0] == '?' then 1 else 0;
      MarksOfTail(a, xs);
      BindSplit(a[1..], b, xs[n..], ys);
      BindHead(a[0], a[1..], xs[..n], xs[n..]);
      BindHead(a[0], a[1..] + b, xs[..n], xs[n..] + ys);
      Rejoin(a, b, 1);
      Rejoin(xs, ys, n);
    }
  }

  lemma Rejoin<T>(s: seq<T>, t: seq<T>, n: nat)
    requires n <= |s|
    ensures s[..n] + s[n..] == s && s[..n] + (s[n..] + t) == s + t
    ensures n == 1 ==> [s[0]] + s[1..] == s && [s[0]] + (s[1..] + t) == s + t
  {
  }

  // ---- Fragments ------------------------------------------------------------------------------

  /** A piece of SQL with the arguments of its own marks. */
  datatype Fragment = Fragment(text: string, args: seq<Arg>) {
    predicate Valid() {
      CountMarks(text) == |args| && Safe(text)
    }

    function Bound(): seq<Piece>
      requires Valid()
    {
      Bind(text, args)
    }
  }

  /** Clean wherever it is appended to: no dollar sign, no digit in front, and none after a mark. */
  predicate Safe(sql: string) {
    '$' !in sql && Clean(sql) && (sql != "" ==> !IsDigit(sql[0]))
  }

  lemma SafeSplit(a: string, b: string)
    requires Safe(a) && Safe(b)
    ensures Safe(a + b)
  {
    var s := a + b;
    forall i | 0 <= i < |s| - 1 && (s[i] == '?' || s[i] == '$') ensures !IsDigit(s[i + 1]) {
      if i + 1 < |a| {
        assert a[i] == s[i] && a[i + 1] == s[i + 1];
      } else if i + 1 == |a| {
        assert s[i + 1] == b[0];
      } else {
        assert b[i - |a|] == s[i] && b[i + 1 - |a|] == s[i + 1];
      }
    }
  }

  lemma Append(f: Fragment, g: Fragment)
    requires f.Valid() && g.Valid()
    ensures Fragment(f.text + g.text, f.args + g.args).Valid()
    ensures Fragment(f.text + g.text, f.args + g.args).Bound() == f.Bound() + g.Bound()
  {
    SafeSplit(f.text, g.text);
    BindSplit(f.text, g.text, f.args, g.args);
  }

  function Join(parts: seq<string>, sep: string): string {
    if parts == [] then ""
    else if |parts| == 1 then parts[0]
    else Join(parts[..|parts| - 1], sep) + sep + parts[|parts| - 1]
  }

  function Texts(fs: seq<Fragment>): (ts: seq<string>)
    ensures |ts| == |fs|
  {
    if fs == [] then [] else Texts(fs[..|fs| - 1]) + [fs[|fs| - 1].text]
  }

  function Args(fs: seq<Fragment>): seq<Arg> {
    if fs == [] then [] else Args(fs[..|fs| - 1]) + fs[|fs| - 1].args
  }

  predicate AllValid(fs: seq<Fragment>) {
    forall f :: f in fs ==> f.Valid()
  }

  /** The bound fragments with the word AND between neighbours. */
  function Conjunction(fs: seq<Fragment>): seq<Piece>
    requires AllValid(fs)
  {
    if fs == [] then []
    else if |fs| == 1 then fs[0].Bound()
    else Conjunction(fs[..|fs| - 1]) + Chars(" AND ") + fs[|fs| - 1].Bound()
  }

  function Chars(s: string): seq<Piece> {
    seq(|s|, i requires 0 <= i < |s| => Chr(s[i]))
  }

  predicate Plain(s: string) {
    forall i :: 0 <= i < |s| ==> s[i] != '?' && s[i] != '$' && (i == 0 ==> !IsDigit(s[i]))
  }

  lemma {:induction false} BindPlain(s: string)
    requires '?' !in s
    ensures CountMarks(s) == 0 && Bind(s, []) == Chars(s)
  {
    if s != "" {
      BindPlain(s[1..]);
      assert Chars(s) == [Chr(s[0])] + Chars(s[1..]);
    }
  }

  lemma PlainIsValid(s: string)
    requires Plain(s)
    ensures Fragment(s, []).Valid() && Fragment(s, []).Bound() == Chars(s)
  {
    BindPlain(s);
  }

  lemma PlainSplit(a: string, b: string)
    requires Plain(a) && Plain(b)
    ensures Plain(a + b)
  {
  }

  /** A text written down piece by piece. */
  function Flat(parts: seq<string>): string {
    if parts == [] then "" else Flat(parts[..|parts| - 1]) + parts[|parts| - 1]
  }

  predicate AllPlain(parts: seq<string>) {
    forall part | part in parts :: Plain(part)
  }

  lemma {:induction false} FlatIsPlain(parts: seq<string>)
    requires AllPlain(parts)
    ensures Plain(Flat(parts))
  {
    if parts != [] {
      FlatIsPlain(parts[..|parts| - 1]);
      PlainSplit(Flat(parts[..|parts| - 1]), parts[|parts| - 1]);
    }
  }

  /** A condition added when its option is set. */
  function With(fs: seq<Fragment>, set_: bool, f: Fragment): seq<Fragment> {
    if set_ then fs + [f] else fs
  }

  /** Joining texts and concatenating arguments keeps every mark with its own argument. */
  lemma {:induction false} JoinPairs(fs: seq<Fragment>)
    requires AllValid(fs)
    ensures Fragment(Join(Texts(fs), " AND "), Args(fs)).Valid()
    ensures Fragment(Join(Texts(fs), " AND "), Args(fs)).Bound() == Conjunction(fs)
    decreases |fs|
  {
    if |fs| == 1 {
      assert Args(fs) == [] + fs[0].args == fs[0].args;
    } else if |fs| > 1 {
      var init, last := fs[..|fs| - 1], fs[|fs| - 1];
      JoinPairs(init);
      assert Texts(fs)[..|fs| - 1] == Texts(init);
      var joined := Fragment(Join(Texts(init), " AND "), Args(init));
      assert Plain(" AND ");
      PlainIsValid(" AND ");
      Append(joined, Fragment(" AND ", []));
      Append(Fragment(joined.text + " AND ", joined.args + []), last);
      assert joined.args + [] == joined.args;
    }
  }

  /** The text "column = ?". */
  function Is(column: string): string {
    column + " = ?"
  }

  /** A condition "column = ?" with its value. */
  function Equals(column: string, a: Arg): Fragment {
    Fragment(Is(column), [a])
  }

  lemma EqualsIsValid(column: string, a: Arg)
    requires Plain(column)
    ensures Equals(column, a).Valid() && Equals(column, a).Bound() == Chars(column + " = ") + [Val(a)]
  {
    var sign := " = ";
    assert Plain(sign);
    PlainSplit(column, sign);
    TextThenMark(column + sign, a);
    assert column + " = ?" == column + sign + "?";
  }

  lemma MarkIsValid(a: Arg)
    ensures Fragment("?", [a]).Valid() && Fragment("?", [a]).Bound() == [Val(a)]
  {
    assert "?"[1..] == "";
    assert [a][1..] == [];
    assert Bind("", []) == [];
  }

  /** A plain text with one mark after it. */
  lemma TextThenMark(text: string, a: Arg)
    requires Plain(text)
    ensures Fragment(text + "?", [a]).Valid() && Fragment(text + "?", [a]).Bound() == Chars(text) + [Val(a)]
  {
    PlainIsValid(text);
    MarkIsValid(a);
    Append(Fragment(text, []), Fragment("?", [a]));
    assert [] + [a] == [a];
  }

  /** Whatever was assembled from valid fragments reads the same after the rewriting. */
  lemma BoundByNumber(q: Fragment)
    requires q.Valid()
    ensures forall t :: t in Numbered(Rebind(q.text, 0)) && t.Param? ==> 1 <= t.index <= |q.args|
    ensures Fill(Numbered(Rebind(q.text, 0)), q.args) == q.Bound()
  {
    RebindKeepsMeaningIff(q.text);
    PositionalFills(q.text, q.args, 0);
    assert q.args[0..] == q.args;
  }

  /** The lists a builder has grown so far are the texts and the arguments of the same fragments. */
  ghost predicate Paired(where: seq<string>, args: seq<Arg>, fs: seq<Fragment>) {
    where == Texts(fs) && args == Args(fs) && AllValid(fs)
  }

  lemma Push(where: seq<string>, args: seq<Arg>, fs: seq<Fragment>, f: Fragment)
    requires Paired(where, args, fs) && f.Valid()
    ensures Paired(where + [f.text], args + f.args, fs + [f])
  {
    assert (fs + [f])[..|fs|] == fs;
  }

  lemma PushFirst(f: Fragment)
    requires f.Valid()
    ensures Paired([f.text], f.args, [f])
  {
    Push([], [], [], f);
    assert [] + [f.text] == [f.text] && [] + f.args == f.args && [] + [f] == [f];
  }

  /** The step all builders repeat: a filter that is set adds its condition and its value. */
  method AddFilter(where: seq<string>, args: seq<Arg>, set_: bool, column: string, a: Arg, ghost fs: seq<Fragment>)
    returns (conditions: seq<string>, values: seq<Arg>, ghost gs: seq<Fragment>)
    requires Paired(where, args, fs) && Plain(column)
    ensures conditions == (if set_ then where + [Is(column)] else where) && values == (if set_ then args + [a] else args)
    ensures gs == With(fs, set_, Equals(column, a)) && Paired(conditions, values, gs)
  {
    conditions, values, gs := where, args, fs;
    if set_ {
      EqualsIsValid(column, a);
      Push(where, args, fs, Equals(column, a));
      conditions, values, gs := where + [Is(column)], args + [a], fs + [Equals(column, a)];
    }
  }

  /** Builds the text around a conjunction: a head, the joined conditions, a tail. */
  lemma Around(head: string, fs: seq<Fragment>, tail: string)
    requires Plain(head) && Plain(tail) && AllValid(fs)
    ensures var q := Fragment(head + Join(Texts(fs), " AND ") + tail, Args(fs));
      q.Valid() && q.Bound() == Chars(head) + Conjunction(fs) + Chars(tail)
  {
    var body := Fragment(Join(Texts(fs), " AND "), Args(fs));
    JoinPairs(fs);
    PlainIsValid(head);
    PlainIsValid(tail);
    Append(Fragment(head, []), body);
    Append(Fragment(head + body.text, [] + body.args), Fragment(tail, []));
    assert [] + body.args + [] == body.args;
  }

  // ---- Traversal query ------------------------------------------------------------------------

  /** The fixed words of the traversal query. */
  datatype RelWords = RelWords(
    head: string, from: string, to: string, open: string, or: string, close: string, kind: string, tail: string)
  {
    predicate Fits() {
      && Plain(head) && Plain(from) && Plain(to) && Plain(open + from) && Plain(or) && Plain(close)
      && Plain(kind) && Plain(tail)
    }

    function EitherEnd(a: Arg): Fragment {
      var left, right := Equals(open + from, a), Equals(to, a);
      Fragment(left.text + or + right.text + close, [a, a])
    }

    /** The conditions a traversal query must state. */
    function Conditions(nodeId: string, direction: string, relType: string): seq<Fragment> {
      var end := if direction == "in" then Equals(to, S(nodeId))
        else if direction == "both" then EitherEnd(S(nodeId))
        else Equals(from, S(nodeId));
      With([end], relType != "", Equals(kind, S(relType)))
    }
  }

  const RELS_HEAD := ["SELECT rel_id, from_node_id, ", "to_node_id, rel_type, ", "properties, created_at ",
    "FROM relationships WHERE "]
  const RELS_TAIL := [" ORDER BY created_at ASC, ", "rel_id ASC"]
  const REL_WORDS := RelWords(Flat(RELS_HEAD), "from_node_id", "to_node_id", "(", " OR ", ")", "rel_type", Flat(RELS_TAIL))

  lemma RelsHeadIsPlain()
    ensures AllPlain(RELS_HEAD)
  {
    assert Plain(RELS_HEAD[0]) && Plain(RELS_HEAD[1]) && Plain(RELS_HEAD[2]) && Plain(RELS_HEAD[3]);
  }

  lemma RelsTailIsPlain()
    ensures AllPlain(RELS_TAIL)
  {
    assert Plain(RELS_TAIL[0]) && Plain(RELS_TAIL[1]);
  }

  lemma RelWordsFit()
    ensures REL_WORDS.Fits()
  {
    hide Flat, AllPlain;
    RelsHeadIsPlain();
    RelsTailIsPlain();
    FlatIsPlain(RELS_HEAD);
    FlatIsPlain(RELS_TAIL);
    assert Plain("(") && Plain("from_node_id");
  }

  lemma EitherEndIsValid(w: RelWords, a: Arg)
    requires w.Fits()
    ensures w.EitherEnd(a).Valid()
    ensures w.EitherEnd(a).Bound()
      == Chars(w.open + w.from + " = ") + [Val(a)] + Chars(w.or) + (Chars(w.to + " = ") + [Val(a)]) + Chars(w.close)
  {
    var left, right := Equals(w.open + w.from, a), Equals(w.to, a);
    EqualsIsValid(w.open + w.from, a);
    EqualsIsValid(w.to, a);
    PlainIsValid(w.or);
    PlainIsValid(w.close);
    var first := Fragment(left.text + w.or, left.args + []);
    var second := Fragment(first.text + right.text, first.args + right.args);
    Append(left, Fragment(w.or, []));
    Append(first, right);
    Append(second, Fragment(w.close, []));
    assert second.args + [] == [a, a];
  }

  method QueryForTraversal(w: RelWords, nodeId: string, direction: string, relType: string)
    returns (query: string, args: seq<Arg>)
    requires w.Fits()
    ensures Fragment(query, args).Valid()
    ensures AllValid(w.Conditions(nodeId, direction, relType))
    ensures Bind(query, args) == Chars(w.head) + Conjunction(w.Conditions(nodeId, direction, relType)) + Chars(w.tail)
  {
    EqualsIsValid(w.to, S(nodeId));
    EqualsIsValid(w.from, S(nodeId));
    EitherEndIsValid(w, S(nodeId));
    var where: seq<string>;
    ghost var first := Equals(w.from, S(nodeId));
    if direction == "in" {
      where, args := [Is(w.to)], [S(nodeId)];
      first := Equals(w.to, S(nodeId));
    } else if direction == "both" {
      where, args := [Is(w.open + w.from) + w.or + Is(w.to) + w.close], [S(nodeId), S(nodeId)];
      first := w.EitherEnd(S(nodeId));
    } else {
      where, args := [Is(w.from)], [S(nodeId)];
    }
    PushFirst(first);
    ghost var fs;
    where, args, fs := AddFilter(where, args, relType != "", w.kind, S(relType), [first]);
    Around(w.head, fs, w.tail);
    query := w.head + Join(where, " AND ") + w.tail;
  }

  // ---- Node list query ------------------------------------------------------------------------

  datatype ListOptions = ListOptions(nodeType: string, owner: string, status: string, limit: int, offset: int)

  const DEFAULT_LIST_LIMIT := 100

  /** The fixed words of the node list query. */
  datatype ListWords = ListWords(
    head: string, where: string, kind: string, owner: string, status: string, tail: string, limit: string, offset: string)
  {
    predicate Fits() {
      && Plain(head) && Plain(where) && Plain(kind) && Plain(owner) && Plain(status)
      && Plain(tail) && Plain(limit) && Plain(offset)
    }

    function Conditions(o: ListOptions): seq<Fragment> {
      var byKind := With([], o.nodeType != "", Equals(kind, S(o.nodeType)));
      var byOwner := With(byKind, o.owner != "", Equals(owner, S(o.owner)));
      With(byOwner, o.status != "", Equals(status, S(o.status)))
    }

    function Text(fs: seq<Fragment>): string {
      head + (if fs == [] then "" else where + Join(Texts(fs), " AND ")) + tail
    }

    ghost function Pieces(fs: seq<Fragment>): seq<Piece>
      requires AllValid(fs)
    {
      Chars(head) + (if fs == [] then [] else Chars(where) + Conjunction(fs)) + Chars(tail)
    }
  }

  const NODES_HEAD := ["SELECT node_id, node_type, name, ", "status, owner_community_id, ", "created_at, updated_at, ",
    "shard_key, federation_id, ", "properties FROM nodes"]
  const NODES_TAIL := [" ORDER BY created_at ASC, ", "node_id ASC"]
  const LIST_WORDS := ListWords(
    Flat(NODES_HEAD), " WHERE ", "node_type", "owner_community_id", "status", Flat(NODES_TAIL), " LIMIT ", " OFFSET ")

  lemma NodesHeadIsPlain()
    ensures AllPlain(NODES_HEAD)
  {
    assert Plain(NODES_HEAD[0]) && Plain(NODES_HEAD[1]) && Plain(NODES_HEAD[2]) && Plain(NODES_HEAD[3]) && Plain(NODES_HEAD[4]);
  }

  lemma NodesTailIsPlain()
    ensures AllPlain(NODES_TAIL)
  {
    assert Plain(NODES_TAIL[0]) && Plain(NODES_TAIL[1]);
  }

  lemma ListWordsFit()
    ensures LIST_WORDS.Fits()
  {
    hide Flat, AllPlain;
    NodesHeadIsPlain();
    NodesTailIsPlain();
    FlatIsPlain(NODES_HEAD);
    FlatIsPlain(NODES_TAIL);
  }

  method ListFilters(w: ListWords, o: ListOptions) returns (where: seq<string>, args: seq<Arg>)
    requires w.Fits()
    ensures Paired(where, args, w.Conditions(o))
  {
    ghost var fs;
    where, args, fs := AddFilter([], [], o.nodeType != "", w.kind, S(o.nodeType), []);
    where, args, fs := AddFilter(where, args, o.owner != "", w.owner, S(o.owner), fs);
    where, args, fs := AddFilter(where, args, o.status != "", w.status, S(o.status), fs);
  }

  method ListQuery(w: ListWords, o: ListOptions) returns (query: string, args: seq<Arg>)
    requires w.Fits()
    ensures Fragment(query, args).Valid()
    ensures AllValid(w.Conditions(o))
    ensures Bind(query, args) == w.Pieces(w.Conditions(o))
      + (Chars(w.limit) + [Val(N(if o.limit <= 0 then 100 else o.limit))])
      + (Chars(w.offset) + [Val(N(o.offset))])
  {
    var where;
    where, args := ListFilters(w, o);
    query := w.head;
    if |where| > 0 {
      query := query + (w.where + Join(where, " AND "));
    } else {
      query := query + "";
    }
    query := query + w.tail;
    var limit := o.limit;
    if limit <= 0 {
      limit := DEFAULT_LIST_LIMIT;
    }
    ListPaged(w, w.Conditions(o), limit, o.offset);
    query := query + (w.limit + "?") + (w.offset + "?");
    args := args + [N(limit)] + [N(o.offset)];
  }

  lemma CharsSplit(a: string, b: string)
    ensures Chars(a + b) == Chars(a) + Chars(b)
  {
  }

  lemma Regroup<T>(a: seq<T>, b: seq<T>, c: seq<T>)
    ensures a + (b + c) == a + b + c
  {
  }

  lemma UnfilteredText(w: ListWords)
    requires w.Fits()
    ensures Fragment(w.Text([]), Args([])).Valid()
    ensures Fragment(w.Text([]), Args([])).Bound() == w.Pieces([])
  {
    Around(w.head, [], w.tail);
    assert w.head + "" + w.tail == w.head + Join(Texts([]), " AND ") + w.tail;
  }

  lemma FilteredText(w: ListWords, fs: seq<Fragment>)
    requires w.Fits() && AllValid(fs) && fs != []
    ensures Fragment(w.Text(fs), Args(fs)).Valid()
    ensures Fragment(w.Text(fs), Args(fs)).Bound() == w.Pieces(fs)
  {
    PlainSplit(w.head, w.where);
    Around(w.head + w.where, fs, w.tail);
    CharsSplit(w.head, w.where);
    Regroup(w.head, w.where, Join(Texts(fs), " AND "));
    Regroup(Chars(w.head), Chars(w.where), Conjunction(fs));
  }

  lemma ListText(w: ListWords, fs: seq<Fragment>)
    requires w.Fits() && AllValid(fs)
    ensures Fragment(w.Text(fs), Args(fs)).Valid()
    ensures Fragment(w.Text(fs), Args(fs)).Bound() == w.Pieces(fs)
  {
    if fs == [] { UnfilteredText(w); } else { FilteredText(w, fs); }
  }

  lemma ListPaged(w: ListWords, fs: seq<Fragment>, limit: int, offset: int)
    requires w.Fits() && AllValid(fs)
    ensures var q := Fragment(w.Text(fs) + (w.limit + "?") + (w.offset + "?"), Args(fs) + [N(limit)] + [N(offset)]);
      q.Valid() && q.Bound() == w.Pieces(fs) + (Chars(w.limit) + [Val(N(limit))]) + (Chars(w.offset) + [Val(N(offset))])
  {
    ListText(w, fs);
    TextThenMark(w.limit, N(limit));
    TextThenMark(w.offset, N(offset));
    var q := Fragment(w.Text(fs), Args(fs));
    Append(q, Fragment(w.limit + "?", [N(limit)]));
    Append(Fragment(q.text + (w.limit + "?"), q.args + [N(limit)]), Fragment(w.offset + "?", [N(offset)]));
  }

  // ---- Usage aggregation query ----------------------------------------------------------------

  /** Times are the texts the store writes. */
  datatype UsageQuery = UsageQuery(
    start: string, end: string, tenant: string, client: string, operation: string, hasUnit: bool, unit: string)

  function Mark(column: string): string {
    column + " ?"
  }

  function Compares(column: string, a: Arg): Fragment {
    Fragment(Mark(column), [a])
  }

  lemma ComparesIsValid(column: string, a: Arg)
    requires Plain(column)
    ensures Compares(column, a).Valid() && Compares(column, a).Bound() == Chars(column + " ") + [Val(a)]
  {
    var blank := " ";
    assert Plain(blank);
    PlainSplit(column, blank);
    TextThenMark(column + blank, a);
    assert column + " ?" == column + blank + "?";
  }

  /** The fixed words of the aggregation query; head and tail are the lines around its conditions. */
  datatype UsageWords = UsageWords(
    head: string, ends: string, starts: string, tenant: string, client: string, operation: string, unit: string, tail: string)
  {
    predicate Fits() {
      && Plain(head) && Plain(ends) && Plain(starts) && Plain(tenant) && Plain(client)
      && Plain(operation) && Plain(unit) && Plain(tail)
    }

    function Conditions(q: UsageQuery): seq<Fragment> {
      var range := With([Compares(ends, S(q.start))], true, Compares(starts, S(q.end)));
      var byTenant := With(range, q.tenant != "", Equals(tenant, S(q.tenant)));
      var byClient := With(byTenant, q.client != "", Equals(client, S(q.client)));
      var byOperation := With(byClient, q.operation != "", Equals(operation, S(q.operation)));
      With(byOperation, q.hasUnit, Equals(unit, S(q.unit)))
    }
  }

  const USAGE_HEAD := ["\nSELECT tenant_id, client_id, ", "endpoint, operation, unit,\n", "       MIN(bucket_start) AS ",
    "bucket_start,\n       "]
  const USAGE_SUMS := ["MAX(bucket_end)   AS ", "bucket_end,\n       ", "SUM(count)        AS ",
    "total_count\nFROM usage\nWHERE "]
  const USAGE_TAIL := ["\nGROUP BY tenant_id, ", "client_id, endpoint, ", "operation, unit\n", "ORDER BY total_count DESC"]
  const USAGE_WORDS := UsageWords(
    Flat(USAGE_HEAD) + Flat(USAGE_SUMS), "bucket_end >=", "bucket_start <=", "tenant_id", "client_id", "operation", "unit",
    Flat(USAGE_TAIL))

  lemma UsageHeadIsPlain()
    ensures AllPlain(USAGE_HEAD)
  {
    assert Plain(USAGE_HEAD[0]) && Plain(USAGE_HEAD[1]) && Plain(USAGE_HEAD[2]) && Plain(USAGE_HEAD[3]);
  }

  lemma UsageSumsArePlain()
    ensures AllPlain(USAGE_SUMS)
  {
    assert Plain(USAGE_SUMS[0]) && Plain(USAGE_SUMS[1]) && Plain(USAGE_SUMS[2]) && Plain(USAGE_SUMS[3]);
  }

  lemma UsageTailIsPlain()
    ensures AllPlain(USAGE_TAIL)
  {
    assert Plain(USAGE_TAIL[0]) && Plain(USAGE_TAIL[1]) && Plain(USAGE_TAIL[2]) && Plain(USAGE_TAIL[3]);
  }

  lemma UsageWordsFit()
    ensures USAGE_WORDS.Fits()
  {
    hide Flat, AllPlain;
    UsageHeadIsPlain();
    UsageSumsArePlain();
    UsageTailIsPlain();
    FlatIsPlain(USAGE_HEAD);
    FlatIsPlain(USAGE_SUMS);
    PlainSplit(Flat(USAGE_HEAD), Flat(USAGE_SUMS));
    FlatIsPlain(USAGE_TAIL);
  }

  method UsageAggregateQuery(w: UsageWords, q: UsageQuery) returns (query: string, args: seq<Arg>)
    requires w.Fits()
    ensures Fragment(query, args).Valid()
    ensures AllValid(w.Conditions(q))
    ensures Bind(query, args) == Chars(w.head) + Conjunction(w.Conditions(q)) + Chars(w.tail)
  {
    ComparesIsValid(w.ends, S(q.start));
    ComparesIsValid(w.starts, S(q.end));
    var conditions := [Mark(w.ends)];
    args := [S(q.start)];
    ghost var fs := [Compares(w.ends, S(q.start))];
    PushFirst(fs[0]);
    Push(conditions, args, fs, Compares(w.starts, S(q.end)));
    conditions, args, fs := conditions + [Mark(w.starts)], args + [S(q.end)], fs + [Compares(w.starts, S(q.end))];
    conditions, args, fs := AddFilter(conditions, args, q.tenant != "", w.tenant, S(q.tenant), fs);
    conditions, args, fs := AddFilter(conditions, args, q.client != "", w.client, S(q.client), fs);
    conditions, args, fs := AddFilter(conditions, args, q.operation != "", w.operation, S(q.operation), fs);
    conditions, args, fs := AddFilter(conditions, args, q.hasUnit, w.unit, S(q.unit), fs);
    Around(w.head, fs, w.tail);
    query := w.head + Join(conditions, " AND ") + w.tail;
  }
}
