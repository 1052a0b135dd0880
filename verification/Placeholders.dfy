/**
 Rewriting `?` placeholders to `$N`: the loops of the source, what each placeholder style means to the driver
 that reads it, and exactly when the rewritten text means the same.
*/
module Placeholders {
  const INT64_LIMIT := 0x8000_0000_0000_0000

  predicate IsDigit(c: char) {
    '0' <= c <= '9'
  }

  function DigitValue(c: char): nat
    requires IsDigit(c)
  {
    c as int - '0' as int
  }

  function DigitChar(d: nat): (c: char)
    requires d < 10
    ensures IsDigit(c) && DigitValue(c) == d
  {
    ('0' as int + d) as char
  }

  // ---- Decimal numerals -----------------------------------------------------------------------

  /** What strconv.Itoa and %d write for a non-negative number. */
  function Decimal(n: nat): (s: string)
    ensures s != "" && forall i :: 0 <= i < |s| ==> IsDigit(s[i])
  {
    if n < 10 then [DigitChar(n)] else Decimal(n / 10) + [DigitChar(n % 10)]
  }

  function Number(digits: string): nat
    requires forall i :: 0 <= i < |digits| ==> IsDigit(digits[i])
  {
    if digits == "" then 0 else 10 * Number(digits[..|digits| - 1]) + DigitValue(digits[|digits| - 1])
  }

  lemma {:induction false} NumeralDenotes(n: nat)
    ensures Number(Decimal(n)) == n
  {
    if n >= 10 {
      NumeralDenotes(n / 10);
      assert Decimal(n)[..|Decimal(n)| - 1] == Decimal(n / 10);
    }
  }

  function Pow10(k: nat): (p: nat)
    ensures p > 0
  {
    if k == 0 then 1 else 10 * Pow10(k - 1)
  }

  lemma Pow10Of19()
    ensures Pow10(19) == 10_000_000_000_000_000_000
  {
    assert Pow10(3) == 1_000;
    assert Pow10(6) == 1_000_000;
    assert Pow10(9) == 1_000_000_000;
    assert Pow10(12) == 1_000_000_000_000;
    assert Pow10(15) == 1_000_000_000_000_000;
    assert Pow10(18) == 1_000_000_000_000_000_000;
  }

  /** The decimal numeral of v is what is left to write, followed by what has been written. */
  predicate Writing(v: nat, rest: nat, written: string) {
    Decimal(v) == (if rest == 0 then "" else Decimal(rest)) + written
  }

  lemma WriteStep(v: nat, rest: nat, written: string)
    requires rest > 0 && Writing(v, rest, written)
    ensures Writing(v, rest / 10, [DigitChar(rest % 10)] + written)
  {
    var d := [DigitChar(rest % 10)];
    if rest >= 10 {
      assert Decimal(rest) + written == Decimal(rest / 10) + (d + written);
    }
  }

  lemma WritingEnds(v: nat, written: string)
    ensures Writing(v, 0, written) <==> Decimal(v) == written
    ensures v > 0 ==> Writing(v, v, "")
  {
  }

  lemma RoomStep(rest: nat, room: nat)
    requires 0 < rest < Pow10(room)
    ensures room > 0 && rest / 10 < Pow10(room - 1)
  {
  }

  /** The loop of writeInt: digits go into the buffer from its end; 20 bytes hold every int64. */
  method FillDigits(buf: array<char>, v: int) returns (pos: nat)
    requires buf.Length == 20 && v != 0 && -INT64_LIMIT <= v < INT64_LIMIT
    modifies buf
    ensures pos <= 20 && buf[pos..] == if v < 0 then "" else Decimal(v)
  {
    pos := buf.Length;
    if v < 0 {
      // the loop below would not run: a negative number is written as nothing
      return;
    }
    var rest: nat := v;
    ghost var written := "";
    Pow10Of19();
    WritingEnds(v, "");
    hide Writing, Decimal, Pow10;
    while rest > 0
      invariant 1 <= pos <= 20 && buf[pos..] == written
      invariant rest < Pow10(pos - 1)
      invariant Writing(v, rest, written)
    {
      WriteStep(v, rest, written);
      RoomStep(rest, pos - 1);
      pos := pos - 1;
      buf[pos] := DigitChar(rest % 10);
      written := [DigitChar(rest % 10)] + written;
      rest := rest / 10;
    }
    WritingEnds(v, written);
  }

  method WriteInt(b: string, v: int) returns (r: string)
    requires -INT64_LIMIT <= v < INT64_LIMIT
    ensures r == b + (if v < 0 then "" else Decimal(v))
  {
    if v == 0 {
      return b + ['0'];
    }
    var buf := new char[20](i => '\0');
    var pos := FillDigits(buf, v);
    r := b + buf[pos..];
  }

  // ---- The rewriting --------------------------------------------------------------------------

  /** The text after n placeholders have been seen. */
  function Rebind(sql: string, n: nat): string {
    if sql == "" then ""
    else if sql[0] == '?' then "$" + Decimal(n + 1) + Rebind(sql[1..], n + 1)
    else [sql[0]] + Rebind(sql[1..], n)
  }

  lemma {:induction false} RebindWithoutPlaceholders(sql: string, n: nat)
    requires '?' !in sql
    ensures Rebind(sql, n) == sql
  {
    if sql != "" {
      RebindWithoutPlaceholders(sql[1..], n);
    }
  }

  function CountMarks(sql: string): nat {
    if sql == "" then 0 else (if sql[0] == '?' then 1 else 0) + CountMarks(sql[1..])
  }

  lemma {:induction false} RebindSplit(a: string, b: string, n: nat)
    ensures Rebind(a + b, n) == Rebind(a, n) + Rebind(b, n + CountMarks(a))
    decreases |a|
  {
    if a == "" {
      assert a + b == b;
    } else {
      assert (a + b)[1..] == a[1..] + b;
      RebindSplit(a[1..], b, if a[0] == '?' then n + 1 else n);
    }
  }

  lemma PrefixStep(sql: string, i: nat)
    requires i < |sql|
    ensures Rebind(sql[..i + 1], 0) ==
      Rebind(sql[..i], 0) + (if sql[i] == '?' then "$" + Decimal(CountMarks(sql[..i]) + 1) else [sql[i]])
    ensures CountMarks(sql[..i + 1]) == CountMarks(sql[..i]) + (if sql[i] == '?' then 1 else 0)
  {
    var one := [sql[i]];
    assert sql[..i + 1] == sql[..i] + one;
    RebindSplit(sql[..i], one, 0);
    CountSplit(sql[..i], one);
    assert one[1..] == "";
    if sql[i] == '?' {
      assert Rebind(one, CountMarks(sql[..i])) == "$" + Decimal(CountMarks(sql[..i]) + 1) + "";
    } else {
      assert Rebind(one, CountMarks(sql[..i])) == one + "";
    }
  }

  lemma {:induction false} CountSplit(a: string, b: string)
    ensures CountMarks(a + b) == CountMarks(a) + CountMarks(b)
    decreases |a|
  {
    if a == "" {
      assert a + b == b;
    } else {
      assert (a + b)[1..] == a[1..] + b;
      CountSplit(a[1..], b);
    }
  }

  /** rebindPostgres of the core package, with its own digit writer. */
  method RebindPostgres(sql: string) returns (r: string)
    requires |sql| < INT64_LIMIT
    ensures r == Rebind(sql, 0)
  {
    if '?' !in sql {
      RebindWithoutPlaceholders(sql, 0);
      return sql;
    }
    r := "";
    var n := 0;
    for i := 0 to |sql|
      invariant n == CountMarks(sql[..i]) <= i
      invariant r == Rebind(sql[..i], 0)
    {
      PrefixStep(sql, i);
      if sql[i] == '?' {
        n := n + 1;
        r := r + ['$'];
        r := WriteInt(r, n);
        continue;
      }
      r := r + [sql[i]];
    }
    assert sql[..|sql|] == sql;
  }

  /** The copies in the auth and usage packages, which format the number with the library. */
  method RebindByLibrary(sql: string) returns (r: string)
    ensures r == Rebind(sql, 0)
  {
    if '?' !in sql {
      RebindWithoutPlaceholders(sql, 0);
      return sql;
    }
    r := "";
    var n := 0;
    for i := 0 to |sql|
      invariant n == CountMarks(sql[..i])
      invariant r == Rebind(sql[..i], 0)
    {
      PrefixStep(sql, i);
      if sql[i] == '?' {
        n := n + 1;
        r := r + "$" + Decimal(n);
      } else {
        r := r + [sql[i]];
      }
    }
    assert sql[..|sql|] == sql;
  }

  // ---- What a driver reads --------------------------------------------------------------------

  datatype Token = Lit(c: char) | Param(index: nat)

  /** A driver that binds by position: the i-th mark is parameter i. */
  function Positional(sql: string, seen: nat): (ts: seq<Token>)
    ensures |ts| == |sql|
  {
    if sql == "" then []
    else if sql[0] == '?' then [Param(seen + 1)] + Positional(sql[1..], seen + 1)
    else [Lit(sql[0])] + Positional(sql[1..], seen)
  }

  /** The length of the run of digits a text starts with. */
  function Run(s: string): (k: nat)
    ensures k <= |s| && (forall i :: 0 <= i < k ==> IsDigit(s[i])) && (k < |s| ==> !IsDigit(s[k]))
  {
    if s == "" || !IsDigit(s[0]) then 0 else 1 + Run(s[1..])
  }

  /** A driver that binds by number: `$` and the longest run of digits after it name a parameter. */
  function Numbered(sql: string): seq<Token>
    decreases |sql|
  {
    if sql == "" then []
    else if sql[0] == '$' && Run(sql[1..]) > 0 then
      var k := Run(sql[1..]);
      [Param(Number(sql[1..][..k]))] + Numbered(sql[1..][k..])
    else [Lit(sql[0])] + Numbered(sql[1..])
  }

  /** No digit stands right after a `?` or a `$`. */
  predicate Clean(sql: string) {
    forall i :: 0 <= i < |sql| - 1 && (sql[i] == '?' || sql[i] == '$') ==> !IsDigit(sql[i + 1])
  }

  lemma {:induction false} RunSplit(digits: string, rest: string)
    requires forall i :: 0 <= i < |digits| ==> IsDigit(digits[i])
    ensures Run(digits + rest) == |digits| + Run(rest)
    decreases |digits|
  {
    if digits == "" {
      assert digits + rest == rest;
    } else {
      assert (digits + rest)[1..] == digits[1..] + rest;
      RunSplit(digits[1..], rest);
    }
  }

  /** Leading digits pass through the rewriting untouched. */
  lemma {:induction false} RebindKeepsRun(sql: string, n: nat)
    ensures Run(Rebind(sql, n)) == Run(sql)
    ensures Rebind(sql, n)[Run(sql)..] == Rebind(sql[Run(sql)..], n)
    decreases |sql|
  {
    if Run(sql) > 0 {
      RebindKeepsRun(sql[1..], n);
      var r := Rebind(sql[1..], n);
      assert Rebind(sql, n) == [sql[0]] + r;
      assert Rebind(sql, n)[1..] == r;
      assert sql[Run(sql)..] == sql[1..][Run(sql[1..])..];
      assert Rebind(sql, n)[Run(sql)..] == r[Run(sql[1..])..];
    }
  }

  lemma CleanTail(sql: string)
    requires sql != ""
    ensures Clean(sql) <==> Clean(sql[1..]) && ((sql[0] == '?' || sql[0] == '$') ==> Run(sql[1..]) == 0)
  {
    var t := sql[1..];
    assert Run(t) > 0 <==> |sql| > 1 && IsDigit(sql[1]);
    if Clean(t) && ((sql[0] == '?' || sql[0] == '$') ==> Run(t) == 0) {
      forall i | 0 <= i < |sql| - 1 && (sql[i] == '?' || sql[i] == '$') ensures !IsDigit(sql[i + 1]) {
        if i > 0 {
          assert t[i - 1] == sql[i] && t[i] == sql[i + 1];
        }
      }
    }
    if Clean(sql) {
      forall i | 0 <= i < |t| - 1 && (t[i] == '?' || t[i] == '$') ensures !IsDigit(t[i + 1]) {
        assert sql[i + 1] == t[i] && sql[i + 2] == t[i + 1];
      }
    }
  }

  lemma NumberedAtDollar(tail: string)
    requires Run(tail) > 0
    ensures Numbered(['$'] + tail) == [Param(Number(tail[..Run(tail)]))] + Numbered(tail[Run(tail)..])
  {
    assert (['$'] + tail)[1..] == tail;
  }

  lemma MarkText(n: nat, rest: string)
    ensures "$" + Decimal(n) + rest == ['$'] + (Decimal(n) + rest)
  {
  }

  lemma NumberedAtDigits(d: string, rest: string)
    requires d != "" && forall i :: 0 <= i < |d| ==> IsDigit(d[i])
    ensures |Numbered(['$'] + (d + rest))| == 1 + |Numbered(rest[Run(rest)..])|
    ensures Run(rest) == 0 ==> Numbered(['$'] + (d + rest)) == [Param(Number(d))] + Numbered(rest)
  {
    hide *;
    RunSplit(d, rest);
    NumberedAtDollar(d + rest);
    DropBoth(d, rest, Run(rest));
    DropBoth(d, rest, 0);
  }

  lemma DropBoth(d: string, rest: string, k: nat)
    requires k <= |rest|
    ensures (d + rest)[|d| + k..] == rest[k..] && (d + rest)[..|d|] == d && rest[0..] == rest
  {
  }

  /** One parameter, which takes the digits after it along. */
  lemma NumberedAtMark(n: nat, rest: string)
    ensures |Numbered("$" + Decimal(n) + rest)| == 1 + |Numbered(rest[Run(rest)..])|
    ensures Run(rest) == 0 ==> Numbered("$" + Decimal(n) + rest) == [Param(n)] + Numbered(rest)
  {
    MarkText(n, rest);
    NumberedAtDigits(Decimal(n), rest);
    NumeralDenotes(n);
  }

  lemma {:induction false} CleanTextKeepsMeaning(sql: string, n: nat)
    requires Clean(sql)
    ensures Numbered(Rebind(sql, n)) == Positional(sql, n)
    decreases |sql|
  {
    if sql != "" {
      CleanTail(sql);
      var m := if sql[0] == '?' then n + 1 else n;
      var rest := Rebind(sql[1..], m);
      CleanTextKeepsMeaning(sql[1..], m);
      RebindKeepsRun(sql[1..], m);
      if sql[0] == '?' {
        NumberedAtMark(m, rest);
      } else {
        assert Rebind(sql, n)[1..] == rest;
      }
    }
  }

  /** A digit after a mark is swallowed by the parameter before it, so fewer tokens are read. */
  lemma {:induction false} TokensAtMost(sql: string, n: nat)
    ensures |Numbered(Rebind(sql, n))| <= |sql|
    ensures !Clean(sql) ==> |Numbered(Rebind(sql, n))| < |sql|
    decreases |sql|
  {
    if sql != "" {
      CleanTail(sql);
      var m := if sql[0] == '?' then n + 1 else n;
      var tail := sql[1..];
      var rest := Rebind(tail, m);
      var k := Run(tail);
      RebindKeepsRun(tail, m);
      TokensAtMost(tail, m);
      TokensAtMost(tail[k..], m);
      if sql[0] == '?' {
        NumberedAtMark(m, rest);
        assert k == 0 ==> rest[k..] == rest;
      } else {
        assert Rebind(sql, n)[1..] == rest;
      }
    }
  }

  /** The first mark swallows the digit behind it and asks for parameter 11; a dollar sign that was plain text becomes a
      parameter. */
  lemma RebindChangesMeaning()
    ensures Rebind("?1", 0) == "$11" && Numbered("$11") == [Param(11)] && Positional("?1", 0) == [Param(1), Lit('1')]
    ensures Rebind("$1", 0) == "$1" && Numbered("$1") == [Param(1)] && Positional("$1", 0) == [Lit('$'), Lit('1')]
  {
    var mark, one := "?1", "1";
    assert mark[1..] == one && one[1..] == "" && "$1"[1..] == one;
    assert Rebind(one, 0) == one && Rebind(one, 1) == one;
    assert Decimal(1) == one && "$" + one + one == "$11";
    assert "$11"[1..] == "11" && "11"[1..] == one && Run("11") == 2 && Run(one) == 1;
    assert "11"[..2] == "11" && "11"[2..] == "" && one[..1] == one && one[1..] == "";
    assert "11"[..1] == one && one[..0] == "" && Number(one) == 1 && Number("11") == 11;
    assert Positional(one, 0) == [Lit('1')] && Positional(one, 1) == [Lit('1')];
  }

  /** The rewritten text means the same to a driver that binds by number as the original to one that binds by
      position, if and only if no digit directly follows a `?` or a `$`. */
  lemma RebindKeepsMeaningIff(sql: string)
    ensures Numbered(Rebind(sql, 0)) == Positional(sql, 0) <==> Clean(sql)
  {
    if Clean(sql) {
      CleanTextKeepsMeaning(sql, 0);
    } else {
      TokensAtMost(sql, 0);
    }
  }
}
