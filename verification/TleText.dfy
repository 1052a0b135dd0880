/** Splitting the text of several two-line element sets into groups of lines, and picking the two lines out of a group. */
module TleText {
  /** White space as Unicode defines it. */
  predicate IsSpace(c: char) {
    var x := c as int;
    9 <= x <= 13 || x == 32 || x == 0x85 || x == 0xA0 || x == 0x1680 || 0x2000 <= x <= 0x200A
    || x == 0x2028 || x == 0x2029 || x == 0x202F || x == 0x205F || x == 0x3000
  }

  function TrimLeft(s: string): (r: string)
    ensures r == "" || !IsSpace(r[0])
  {
    if s == "" || !IsSpace(s[0]) then s else TrimLeft(s[1..])
  }

  function TrimRight(s: string): (r: string)
    ensures r == "" || !IsSpace(r[|r| - 1])
  {
    if s == "" || !IsSpace(s[|s| - 1]) then s else TrimRight(s[..|s| - 1])
  }

  function Trim(s: string): string {
    TrimRight(TrimLeft(s))
  }

  /** Neither empty nor with white space at either end, and on one line. */
  predicate IsLine(s: string) {
    s != "" && !IsSpace(s[0]) && !IsSpace(s[|s| - 1]) && '\n' !in s
  }

  lemma {:induction false} LeftPart(s: string)
    ensures forall c | c in TrimLeft(s) :: c in s
    decreases |s|
  {
    if s != "" && IsSpace(s[0]) {
      LeftPart(s[1..]);
      assert forall c | c in s[1..] :: c in s;
    }
  }

  lemma {:induction false} RightPart(s: string)
    ensures forall c | c in TrimRight(s) :: c in s
    ensures TrimRight(s) != "" ==> TrimRight(s)[0] == s[0]
    decreases |s|
  {
    if s != "" && IsSpace(s[|s| - 1]) {
      RightPart(s[..|s| - 1]);
      assert forall c | c in s[..|s| - 1] :: c in s;
    }
  }

  lemma TrimmedIsPart(s: string)
    ensures Trim(s) != "" ==> !IsSpace(Trim(s)[0]) && !IsSpace(Trim(s)[|Trim(s)| - 1])
    ensures forall c | c in Trim(s) :: c in s
  {
    LeftPart(s);
    RightPart(TrimLeft(s));
  }

  lemma LineIsTrimmed(s: string)
    requires s == "" || IsLine(s)
    ensures Trim(s) == s && '\n' !in s
  {
    assert TrimLeft(s) == s;
    assert TrimRight(s) == s;
  }

  ghost predicate IsWhite(s: string) {
    forall c | c in s :: IsSpace(c)
  }

  /** Some character of the line is not white space. */
  ghost predicate HasInk(line: string) {
    exists i :: 0 <= i < |line| && !IsSpace(line[i])
  }

  lemma {:induction false} LeftRest(s: string) returns (a: string)
    ensures s == a + TrimLeft(s) && IsWhite(a)
    decreases |s|
  {
    if s == "" || !IsSpace(s[0]) {
      a := "";
    } else {
      var rest := LeftRest(s[1..]);
      a := [s[0]] + rest;
    }
  }

  lemma {:induction false} RightRest(s: string) returns (b: string)
    ensures s == TrimRight(s) + b && IsWhite(b)
    decreases |s|
  {
    if s == "" || !IsSpace(s[|s| - 1]) {
      b := "";
    } else {
      var rest := RightRest(s[..|s| - 1]);
      b := rest + [s[|s| - 1]];
      assert s == s[..|s| - 1] + [s[|s| - 1]];
    }
  }

  /** Trimming takes white space from the two ends and nothing else. */
  lemma TrimTakesWhiteEnds(s: string)
    ensures exists a, b :: s == a + Trim(s) + b && IsWhite(a + b)
    ensures Trim(s) == "" || (!IsSpace(Trim(s)[0]) && !IsSpace(Trim(s)[|Trim(s)| - 1]))
  {
    TrimmedIsPart(s);
    var a := LeftRest(s);
    var b := RightRest(TrimLeft(s));
    assert s == a + Trim(s) + b && IsWhite(a + b);
  }

  /** What is left when white space is taken from both ends until none is there is what trimming gives. */
  lemma TrimIsDetermined(a: string, middle: string, b: string)
    requires IsWhite(a) && IsWhite(b)
    requires middle == "" || (!IsSpace(middle[0]) && !IsSpace(middle[|middle| - 1]))
    ensures Trim(a + middle + b) == middle
  {
    assert a + middle + b == a + (middle + b);
    WhiteLeft(a, middle + b);
    if middle == "" {
      assert middle + b == b + "";
      WhiteLeft(b, "");
    } else {
      WhiteRight(middle, b);
    }
  }

  lemma {:induction false} WhiteLeft(a: string, s: string)
    requires IsWhite(a)
    ensures TrimLeft(a + s) == TrimLeft(s)
    decreases |a|
  {
    if a != "" {
      assert (a + s)[1..] == a[1..] + s;
      assert a[0] in a;
      WhiteLeft(a[1..], s);
    } else {
      assert a + s == s;
    }
  }

  lemma {:induction false} WhiteRight(s: string, b: string)
    requires IsWhite(b) && s != "" && !IsSpace(s[0]) && !IsSpace(s[|s| - 1])
    ensures TrimLeft(s + b) == s + b && TrimRight(s + b) == s
    decreases |b|
  {
    if b != "" {
      assert (s + b)[..|s + b| - 1] == s + b[..|b| - 1];
      assert b[|b| - 1] in b;
      WhiteRight(s, b[..|b| - 1]);
    } else {
      assert s + b == s;
    }
  }

  /** A line is trimmed away altogether exactly when it holds nothing but white space. */
  lemma BlankIff(s: string)
    ensures Trim(s) == "" <==> !HasInk(s)
  {
    TrimTakesWhiteEnds(s);
    var a, b :| s == a + Trim(s) + b && IsWhite(a + b);
    if Trim(s) == "" {
      assert s == a + b;
      assert forall i :: 0 <= i < |s| ==> s[i] in a + b;
    } else {
      assert s[|a|] == Trim(s)[0];
    }
  }

  function TrimAll(lines: seq<string>): (r: seq<string>)
    ensures |r| == |lines| && forall i :: 0 <= i < |lines| ==> r[i] == Trim(lines[i])
  {
    seq(|lines|, i requires 0 <= i < |lines| => Trim(lines[i]))
  }

  // ---- Lines ----------------------------------------------------------------------------------

  /** The pieces between newlines; there is always at least one. */
  function Lines(text: string): (r: seq<string>)
    ensures |r| > 0
    decreases |text|
  {
    if text == "" then [""]
    else
      var before, c := Lines(text[..|text| - 1]), text[|text| - 1];
      if c == '\n' then before + [""] else before[|before| - 1 := before[|before| - 1] + [c]]
  }

  function JoinLines(lines: seq<string>): string
    decreases |lines|
  {
    if lines == [] then "" else if |lines| == 1 then lines[0] else JoinLines(lines[..|lines| - 1]) + "\n" + lines[|lines| - 1]
  }

  lemma {:induction false} LinesHaveNoNewline(text: string)
    ensures forall i :: 0 <= i < |Lines(text)| ==> '\n' !in Lines(text)[i]
    decreases |text|
  {
    if text != "" {
      LinesHaveNoNewline(text[..|text| - 1]);
    }
  }

  /** Joining undoes splitting: no character is lost, and the pieces are those between the newlines. */
  lemma {:induction false} JoinOfLines(text: string)
    ensures JoinLines(Lines(text)) == text
    decreases |text|
  {
    if text != "" {
      var before := Lines(text[..|text| - 1]);
      JoinOfLines(text[..|text| - 1]);
      LastPiece(before, text[|text| - 1]);
      assert text == text[..|text| - 1] + [text[|text| - 1]];
    }
  }

  lemma LastPiece(pieces: seq<string>, c: char)
    requires pieces != []
    ensures JoinLines(pieces + [""]) == JoinLines(pieces) + "\n"
    ensures JoinLines(pieces[|pieces| - 1 := pieces[|pieces| - 1] + [c]]) == JoinLines(pieces) + [c]
  {
    var init, last := pieces[..|pieces| - 1], pieces[|pieces| - 1];
    assert (pieces + [""])[..|pieces|] == pieces;
    var longer := pieces[|pieces| - 1 := last + [c]];
    assert longer[..|pieces| - 1] == init;
    if |pieces| > 1 {
      assert JoinLines(init) + "\n" + (last + [c]) == JoinLines(init) + "\n" + last + [c];
    }
  }

  lemma LinesOneMore(text: string, c: char)
    requires c != '\n'
    ensures var r := Lines(text); Lines(text + [c]) == r[|r| - 1 := r[|r| - 1] + [c]]
  {
    assert (text + [c])[..|text|] == text;
  }

  lemma LastTwice(r: seq<string>, x: string, y: string)
    requires r != []
    ensures r[|r| - 1 := x][|r| - 1 := y] == r[|r| - 1 := y]
  {
  }

  lemma {:induction false} LinesGrow(text: string, more: string)
    requires '\n' !in more
    ensures var r := Lines(text); Lines(text + more) == r[|r| - 1 := r[|r| - 1] + more]
    decreases |more|
  {
    hide Lines;
    var r := Lines(text);
    if more == "" {
      assert text + more == text && r[|r| - 1] + more == r[|r| - 1];
    } else {
      var init, c := more[..|more| - 1], more[|more| - 1];
      LinesGrow(text, init);
      LinesOneMore(text + init, c);
      LastTwice(r, r[|r| - 1] + init, r[|r| - 1] + init + [c]);
      assert init + [c] == more;
      assert text + more == text + init + [c] && r[|r| - 1] + more == r[|r| - 1] + init + [c];
    }
  }

  lemma LinesBreak(text: string, more: string)
    requires '\n' !in more
    ensures Lines(text + "\n" + more) == Lines(text) + [more]
  {
    assert (text + "\n")[..|text|] == text;
    assert Lines(text + "\n") == Lines(text) + [""];
    LinesGrow(text + "\n", more);
    assert "" + more == more;
  }

  /** Splitting undoes joining. */
  lemma {:induction false} SplitJoined(lines: seq<string>)
    requires lines != [] && forall i :: 0 <= i < |lines| ==> '\n' !in lines[i]
    ensures Lines(JoinLines(lines)) == lines
    decreases |lines|
  {
    var init, last := lines[..|lines| - 1], lines[|lines| - 1];
    if |lines| == 1 {
      LinesGrow("", last);
      assert "" + last == last && lines == [last];
    } else {
      SplitJoined(init);
      LinesBreak(JoinLines(init), last);
      assert lines == init + [last];
    }
  }

  // ---- Groups ---------------------------------------------------------------------------------

  datatype Grouping = Grouping(groups: seq<seq<string>>, current: seq<string>) {
    function Closed(): seq<seq<string>> {
      if current != [] then groups + [current] else groups
    }

    /** The next line, already trimmed. */
    function Add(line: string): Grouping {
      if line == "" then Grouping(Closed(), []) else Grouping(groups, current + [line])
    }
  }

  function Grouped(lines: seq<string>, n: nat): Grouping
    requires n <= |lines|
  {
    if n == 0 then Grouping([], []) else Grouped(lines, n - 1).Add(lines[n - 1])
  }

  function Groups(text: string): seq<seq<string>> {
    Grouped(TrimAll(Lines(text)), |Lines(text)|).Closed()
  }

  method SplitGroups(text: string) returns (groups: seq<seq<string>>)
    ensures groups == Groups(text)
    ensures Concatenated(groups) == InkedLines(Lines(text), |Lines(text)|)
    ensures exists starts :: AreRuns(Lines(text), groups, starts)
  {
    hide AreRuns, Concatenated, InkedLines, Lines, Trim;
    GroupsAreInked(text);
    ghost var starts := GroupsAreRuns(text);
    var lines := Lines(text);
    var current: seq<string> := [];
    groups := [];
    for i := 0 to |lines|
      invariant Grouping(groups, current) == Grouped(TrimAll(lines), i)
    {
      var line := Trim(lines[i]);
      if line == "" {
        if |current| > 0 {
          groups := groups + [current];
          current := [];
        }
        continue;
      }
      current := current + [line];
    }
    if |current| > 0 {
      groups := groups + [current];
    }
  }

  predicate IsGroup(g: seq<string>) {
    g != [] && forall i :: 0 <= i < |g| ==> IsLine(g[i])
  }

  predicate AreGroups(gs: seq<seq<string>>) {
    forall i :: 0 <= i < |gs| ==> IsGroup(gs[i])
  }

  /** The groups one below the other with a blank line between them. */
  function Stacked(gs: seq<seq<string>>): seq<string>
    decreases |gs|
  {
    if gs == [] then []
    else if |gs| == 1 then gs[0]
    else Stacked(gs[..|gs| - 1]) + [""] + gs[|gs| - 1]
  }

  /** The text of some groups. */
  function Join(gs: seq<seq<string>>): string {
    JoinLines(Stacked(gs))
  }

  lemma {:induction false} GroupedPrefix(a: seq<string>, b: seq<string>, n: nat)
    requires n <= |a|
    ensures Grouped(a + b, n) == Grouped(a, n)
  {
    if n > 0 {
      GroupedPrefix(a, b, n - 1);
    }
  }

  predicate IsBlock(g: seq<string>) {
    g != [] && forall i :: 0 <= i < |g| ==> g[i] != ""
  }

  /** The lines of a block all go to the current group. */
  lemma {:induction false} GroupedBlock(before: seq<string>, g: seq<string>, n: nat, groups: seq<seq<string>>)
    requires IsBlock(g) && n <= |g| && Grouped(before, |before|) == Grouping(groups, [])
    ensures Grouped(before + g, |before| + n) == Grouping(groups, g[..n])
  {
    if n == 0 {
      GroupedPrefix(before, g, |before|);
    } else {
      GroupedBlock(before, g, n - 1, groups);
      assert g[..n] == g[..n - 1] + [g[n - 1]];
      assert (before + g)[|before| + n - 1] == g[n - 1];
    }
  }

  lemma GroupedNext(s: seq<string>, groups: seq<seq<string>>, current: seq<string>, g: seq<string>)
    requires Grouped(s, |s|) == Grouping(groups, current) && current != [] && IsBlock(g)
    ensures Grouped(s + [""] + g, |s + [""] + g|) == Grouping(groups + [current], g)
  {
    GroupedPrefix(s, [""], |s|);
    assert Grouped(s + [""], |s| + 1) == Grouping(groups + [current], []);
    GroupedBlock(s + [""], g, |g|, groups + [current]);
    assert g[..|g|] == g;
  }

  lemma {:induction false} GroupedStack(gs: seq<seq<string>>)
    requires gs != [] && forall i :: 0 <= i < |gs| ==> IsBlock(gs[i])
    ensures Grouped(Stacked(gs), |Stacked(gs)|) == Grouping(gs[..|gs| - 1], gs[|gs| - 1])
    decreases |gs|
  {
    var last := gs[|gs| - 1];
    if |gs| == 1 {
      GroupedBlock([], last, |last|, []);
      assert [] + last == last && last[..|last|] == last;
    } else {
      var init := gs[..|gs| - 1];
      GroupedStack(init);
      GroupedNext(Stacked(init), init[..|init| - 1], init[|init| - 1], last);
      assert init[..|init| - 1] + [init[|init| - 1]] == init;
    }
  }

  /** Every line of the stacked groups is a line of a group or blank. */
  lemma {:induction false} StackedLines(gs: seq<seq<string>>)
    requires AreGroups(gs)
    ensures forall i :: 0 <= i < |Stacked(gs)| ==> Stacked(gs)[i] == "" || IsLine(Stacked(gs)[i])
    ensures gs != [] ==> Stacked(gs) != []
    decreases |gs|
  {
    if |gs| > 1 {
      StackedLines(gs[..|gs| - 1]);
      assert IsGroup(gs[|gs| - 1]);
    } else if |gs| == 1 {
      assert IsGroup(gs[0]);
    }
  }

  lemma GroupsOf(text: string, lines: seq<string>)
    requires Lines(text) == lines && forall i :: 0 <= i < |lines| ==> Trim(lines[i]) == lines[i]
    ensures Groups(text) == Grouped(lines, |lines|).Closed()
  {
    assert TrimAll(lines) == lines;
  }

  lemma GroupsOfLines(lines: seq<string>)
    requires lines != [] && forall i :: 0 <= i < |lines| ==> lines[i] == "" || IsLine(lines[i])
    ensures Groups(JoinLines(lines)) == Grouped(lines, |lines|).Closed()
  {
    forall i | 0 <= i < |lines| ensures Trim(lines[i]) == lines[i] && '\n' !in lines[i] {
      LineIsTrimmed(lines[i]);
    }
    SplitJoined(lines);
    GroupsOf(JoinLines(lines), lines);
  }

  lemma BlocksOfGroups(gs: seq<seq<string>>)
    requires AreGroups(gs)
    ensures forall i :: 0 <= i < |gs| ==> IsBlock(gs[i])
  {
    forall i | 0 <= i < |gs| ensures IsBlock(gs[i]) {
      assert IsGroup(gs[i]);
    }
  }

  /** Joining groups of trimmed non-empty lines and splitting again gives the same groups. */
  lemma SplitOfJoin(gs: seq<seq<string>>)
    requires AreGroups(gs)
    ensures Groups(Join(gs)) == gs
  {
    if gs == [] {
      NoGroups();
    } else {
      StackedLines(gs);
      BlocksOfGroups(gs);
      GroupedStack(gs);
      GroupsOfLines(Stacked(gs));
      assert gs[..|gs| - 1] + [gs[|gs| - 1]] == gs;
    }
  }

  lemma NoGroups()
    ensures Groups("") == []
  {
    var lines := TrimAll(Lines(""));
    assert lines == [""];
    assert Grouped(lines, 0) == Grouping([], []);
    assert Grouped(lines, 1) == Grouping([], []);
  }

  lemma {:induction false} GroupedWell(lines: seq<string>, n: nat)
    requires n <= |lines| && forall i :: 0 <= i < |lines| ==> lines[i] == "" || IsLine(lines[i])
    ensures AreGroups(Grouped(lines, n).groups) && (Grouped(lines, n).current != [] ==> IsGroup(Grouped(lines, n).current))
  {
    if n > 0 {
      GroupedWell(lines, n - 1);
      var g := Grouped(lines, n - 1);
      AddWell(g, lines[n - 1]);
    }
  }

  lemma AddWell(g: Grouping, line: string)
    requires AreGroups(g.groups) && (g.current != [] ==> IsGroup(g.current)) && (line == "" || IsLine(line))
    ensures AreGroups(g.Closed()) && AreGroups(g.Add(line).groups)
    ensures g.Add(line).current != [] ==> IsGroup(g.Add(line).current)
  {
  }

  /** Whatever the text, splitting gives non-empty groups of trimmed non-empty lines, and joining those is a normal form:
      splitting it gives the same groups. */
  lemma JoinIsNormalForm(text: string)
    ensures AreGroups(Groups(text)) && Groups(Join(Groups(text))) == Groups(text)
  {
    var lines := TrimAll(Lines(text));
    LinesHaveNoNewline(text);
    forall i | 0 <= i < |lines| ensures lines[i] == "" || IsLine(lines[i]) {
      TrimmedIsPart(Lines(text)[i]);
    }
    GroupedWell(lines, |lines|);
    AddWell(Grouped(lines, |lines|), "");
    SplitOfJoin(Groups(text));
  }

  // ---- What the groups are --------------------------------------------------------------------

  ghost function Concatenated(gs: seq<seq<string>>): seq<string>
    decreases |gs|
  {
    if gs == [] then [] else Concatenated(gs[..|gs| - 1]) + gs[|gs| - 1]
  }

  /** The lines with some ink among the first n, trimmed, in order. */
  ghost function InkedLines(lines: seq<string>, n: nat): seq<string>
    requires n <= |lines|
  {
    if n == 0 then []
    else if HasInk(lines[n - 1]) then InkedLines(lines, n - 1) + [Trim(lines[n - 1])]
    else InkedLines(lines, n - 1)
  }

  /** The group is a stretch of inked lines, trimmed, that goes on as far as it can in both directions. */
  ghost predicate IsRun(lines: seq<string>, start: nat, g: seq<string>) {
    && g != [] && start + |g| <= |lines|
    && (forall k :: 0 <= k < |g| ==> g[k] == Trim(lines[start + k]))
    && (forall i :: start <= i < start + |g| ==> HasInk(lines[i]))
    && (start == 0 || !HasInk(lines[start - 1]))
    && (start + |g| == |lines| || !HasInk(lines[start + |g|]))
  }

  /** The groups are all those stretches, in order, from the first line numbers given. */
  ghost predicate AreRuns(lines: seq<string>, gs: seq<seq<string>>, starts: seq<nat>) {
    && |starts| == |gs|
    && (forall g :: 0 <= g < |gs| ==> IsRun(lines, starts[g], gs[g]))
    && (forall g, h :: 0 <= g < h < |gs| ==> starts[g] + |gs[g]| < starts[h])
    && (forall i :: 0 <= i < |lines| && HasInk(lines[i]) ==> exists g :: InRun(gs, starts, g, i))
  }

  /** Line i is one of group g. */
  ghost predicate InRun(gs: seq<seq<string>>, starts: seq<nat>, g: int, i: int) {
    0 <= g < |gs| && g < |starts| && starts[g] <= i < starts[g] + |gs[g]|
  }

  lemma ConcatenatedOneMore(gs: seq<seq<string>>, g: seq<string>)
    ensures Concatenated(gs + [g]) == Concatenated(gs) + g
  {
    assert (gs + [g])[..|gs|] == gs;
  }

  lemma ClosedConcatenated(g: Grouping)
    ensures Concatenated(g.Closed()) == Concatenated(g.groups) + g.current
  {
    if g.current != [] {
      ConcatenatedOneMore(g.groups, g.current);
    }
  }

  lemma {:induction false} GroupedInked(lines: seq<string>, n: nat)
    requires n <= |lines|
    ensures var g := Grouped(TrimAll(lines), n); Concatenated(g.groups) + g.current == InkedLines(lines, n)
  {
    hide Trim, HasInk, Concatenated;
    if n == 0 {
      assert Concatenated([]) == [] by { ClosedConcatenated(Grouping([], [])); NothingConcatenated(); }
    } else {
      GroupedInked(lines, n - 1);
      BlankIff(lines[n - 1]);
      var g := Grouped(TrimAll(lines), n - 1);
      ClosedConcatenated(g);
      assert Concatenated(g.groups) + (g.current + [Trim(lines[n - 1])]) == Concatenated(g.groups) + g.current + [Trim(lines[n - 1])];
    }
  }

  lemma NothingConcatenated()
    ensures Concatenated([]) == []
  {
  }

  /** Laid end to end the groups are exactly the lines with ink, trimmed, in order. */
  lemma GroupsAreInked(text: string)
    ensures Concatenated(Groups(text)) == InkedLines(Lines(text), |Lines(text)|)
  {
    GroupedInked(Lines(text), |Lines(text)|);
    ClosedConcatenated(Grouped(TrimAll(Lines(text)), |Lines(text)|));
  }

  /** After n lines: the closed groups are the stretches that ended before, the current one goes on up to line n. */
  ghost predicate RunsSoFar(lines: seq<string>, n: nat, g: Grouping, starts: seq<nat>) {
    && n <= |lines| && |g.current| <= n
    && |starts| == |g.groups|
    && (forall k :: 0 <= k < |starts| ==> IsRun(lines, starts[k], g.groups[k]) && starts[k] + |g.groups[k]| < n - |g.current|)
    && (forall k, h :: 0 <= k < h < |starts| ==> starts[k] + |g.groups[k]| < starts[h])
    && (forall i :: 0 <= i < n - |g.current| && HasInk(lines[i]) ==> exists k :: InRun(g.groups, starts, k, i))
    && (forall i :: n - |g.current| <= i < n ==> HasInk(lines[i]))
    && (forall k :: 0 <= k < |g.current| ==> g.current[k] == Trim(lines[n - |g.current| + k]))
    && (n == |g.current| || !HasInk(lines[n - |g.current| - 1]))
  }

  lemma CloseRun(lines: seq<string>, n: nat, g: Grouping, starts: seq<nat>) returns (more: seq<nat>)
    requires RunsSoFar(lines, n, g, starts) && (n == |lines| || !HasInk(lines[n]))
    ensures |more| == |g.Closed()|
    ensures forall k :: 0 <= k < |more| ==> IsRun(lines, more[k], g.Closed()[k]) && more[k] + |g.Closed()[k]| <= n
    ensures forall k, h :: 0 <= k < h < |more| ==> more[k] + |g.Closed()[k]| < more[h]
    ensures forall i :: 0 <= i < n && HasInk(lines[i]) ==> exists k :: InRun(g.Closed(), more, k, i)
  {
    hide HasInk, Trim;
    if g.current == [] {
      more := starts;
    } else {
      var start := n - |g.current|;
      more := starts + [start];
      assert IsRun(lines, start, g.current);
      forall i | 0 <= i < n && HasInk(lines[i]) ensures exists k :: InRun(g.Closed(), more, k, i) {
        if i < start {
          var k :| InRun(g.groups, starts, k, i);
          assert InRun(g.Closed(), more, k, i);
        } else {
          assert InRun(g.Closed(), more, |starts|, i);
        }
      }
    }
  }

  lemma LongerRun(lines: seq<string>, n: nat, g: Grouping, starts: seq<nat>)
    requires RunsSoFar(lines, n, g, starts) && n < |lines| && HasInk(lines[n])
    ensures RunsSoFar(lines, n + 1, Grouping(g.groups, g.current + [Trim(lines[n])]), starts)
  {
    hide HasInk, Trim, IsRun;
  }

  lemma BlankLine(lines: seq<string>, n: nat, g: Grouping, starts: seq<nat>) returns (more: seq<nat>)
    requires RunsSoFar(lines, n, g, starts) && n < |lines| && !HasInk(lines[n])
    ensures RunsSoFar(lines, n + 1, Grouping(g.Closed(), []), more)
  {
    hide HasInk, Trim, IsRun;
    more := CloseRun(lines, n, g, starts);
  }

  lemma {:induction false} GroupedRuns(lines: seq<string>, n: nat) returns (starts: seq<nat>)
    requires n <= |lines|
    ensures RunsSoFar(lines, n, Grouped(TrimAll(lines), n), starts)
  {
    hide HasInk, Trim, RunsSoFar;
    if n == 0 {
      starts := [];
      NoRuns(lines);
    } else {
      var before := GroupedRuns(lines, n - 1);
      BlankIff(lines[n - 1]);
      var g := Grouped(TrimAll(lines), n - 1);
      if HasInk(lines[n - 1]) {
        starts := before;
        LongerRun(lines, n - 1, g, before);
      } else {
        starts := BlankLine(lines, n - 1, g, before);
      }
    }
  }

  lemma NoRuns(lines: seq<string>)
    ensures RunsSoFar(lines, 0, Grouping([], []), [])
  {
  }

  /** The groups are the longest stretches of lines with ink, each from one blank line or end of the text to the next. */
  lemma GroupsAreRuns(text: string) returns (starts: seq<nat>)
    ensures AreRuns(Lines(text), Groups(text), starts)
  {
    var so := GroupedRuns(Lines(text), |Lines(text)|);
    starts := CloseRun(Lines(text), |Lines(text)|, Grouped(TrimAll(Lines(text)), |Lines(text)|), so);
  }

  /** Two lines with ink share a group exactly when no blank line stands between them. */
  lemma SharedIff(text: string, starts: seq<nat>, i: nat, j: nat)
    requires AreRuns(Lines(text), Groups(text), starts) && i < j < |Lines(text)|
    requires HasInk(Lines(text)[i]) && HasInk(Lines(text)[j])
    ensures (exists g :: InRun(Groups(text), starts, g, i) && InRun(Groups(text), starts, g, j))
      <==> forall k :: i < k < j ==> HasInk(Lines(text)[k])
  {
    hide Groups, Lines, HasInk;
    var g :| InRun(Groups(text), starts, g, i);
    var h :| InRun(Groups(text), starts, h, j);
    assert IsRun(Lines(text), starts[g], Groups(text)[g]) && IsRun(Lines(text), starts[h], Groups(text)[h]);
    var stop := starts[g] + |Groups(text)[g]|;
    if j >= stop {
      assert i < stop < j || stop == j;
      assert !HasInk(Lines(text)[stop]);
    }
  }

  // ---- The two lines of a group ---------------------------------------------------------------

  datatype Extracted = Pair(line1: string, line2: string) | TooFewLines | NoFirstLine | NoSecondLine | BadSecondLine

  predicate Starts(line: string, c: char) {
    [c, ' '] <= line
  }

  /** The first line that starts with "1 ", and its successor if that starts with "2 ". */
  method ExtractLines(group: seq<string>) returns (r: Extracted)
    ensures r.TooFewLines? <==> |group| < 2
    ensures r.NoFirstLine? <==> |group| >= 2 && forall i :: 0 <= i < |group| ==> !Starts(group[i], '1')
    ensures r.Pair? ==> exists i :: 0 <= i < |group| - 1 && IsFirst(group, i) && r == Pair(group[i], group[i + 1])
    ensures r.Pair? ==> Starts(r.line2, '2')
    ensures r.NoSecondLine? ==> |group| >= 2 && IsFirst(group, |group| - 1)
    ensures r.BadSecondLine? ==> exists i :: 0 <= i < |group| - 1 && IsFirst(group, i) && !Starts(group[i + 1], '2')
  {
    if |group| < 2 {
      return TooFewLines;
    }
    var idx1 := -1;
    for i := 0 to |group|
      invariant idx1 == -1 && forall j :: 0 <= j < i ==> !Starts(group[j], '1')
    {
      if Starts(group[i], '1') {
        idx1 := i;
        break;
      }
    }
    if idx1 < 0 {
      return NoFirstLine;
    }
    assert IsFirst(group, idx1);
    if idx1 + 1 >= |group| {
      return NoSecondLine;
    }
    if !Starts(group[idx1 + 1], '2') {
      return BadSecondLine;
    }
    return Pair(group[idx1], group[idx1 + 1]);
  }

  ghost predicate IsFirst(group: seq<string>, i: int)
    requires 0 <= i < |group|
  {
    Starts(group[i], '1') && forall j :: 0 <= j < i ==> !Starts(group[j], '1')
  }
}
