/** Lines of a two-line element set: their format and their check digit. */
module TleChecksum {
  type Byte = x: int | 0 <= x < 256

  const LINE_LENGTH := 69
  const ZERO: Byte := 48
  const NINE: Byte := 57
  const MINUS: Byte := 45
  const BLANK: Byte := 32

  datatype FormatError = BadLength | BadPrefix | NoBlank

  datatype Format = WellFormed | Malformed(e: FormatError)

  predicate IsDigit(c: Byte) {
    ZERO <= c <= NINE
  }

  /** What a character adds to the sum: a digit its value, a minus sign one. */
  function Weight(c: Byte): (w: int)
    ensures 0 <= w <= 9
  {
    if IsDigit(c) then c - ZERO else if c == MINUS then 1 else 0
  }

  function WeightSum(line: seq<Byte>, n: nat): nat
    requires n <= |line|
  {
    if n == 0 then 0 else WeightSum(line, n - 1) + Weight(line[n - 1])
  }

  /** The format of NORAD two-line element sets: the last of the 69 characters is the sum of the others modulo ten. */
  predicate Accepted(line: seq<Byte>) {
    |line| == LINE_LENGTH && IsDigit(line[68]) && WeightSum(line, 68) % 10 == line[68] - ZERO
  }

  /** The sum by how often each character occurs: the digits from '1' to '9' count their value, '-' counts one. */
  ghost function Tally(chars: multiset<Byte>): nat {
    chars[49] + 2 * chars[50] + 3 * chars[51] + 4 * chars[52] + 5 * chars[53] + 6 * chars[54] + 7 * chars[55] + 8 * chars[56]
    + 9 * chars[57] + chars[45]
  }

  lemma TallyOneMore(chars: multiset<Byte>, c: Byte)
    ensures Tally(chars + multiset{c}) == Tally(chars) + Weight(c)
  {
  }

  lemma {:induction false} SumIsTally(line: seq<Byte>, n: nat)
    requires n <= |line|
    ensures WeightSum(line, n) == Tally(multiset(line[..n]))
  {
    if n > 0 {
      SumIsTally(line, n - 1);
      assert line[..n] == line[..n - 1] + [line[n - 1]];
      TallyOneMore(multiset(line[..n - 1]), line[n - 1]);
    } else {
      assert line[..0] == [];
    }
  }

  lemma TallyIsSum(line: seq<Byte>)
    ensures |line| == 69 ==> WeightSum(line, 68) == Tally(multiset(line[..68]))
  {
    if |line| == 69 {
      SumIsTally(line, 68);
    }
  }

  /** Subtraction of bytes wraps around. */
  function ByteMinus(a: Byte, b: Byte): Byte {
    (a - b) % 256
  }

  method ValidateLine(line: seq<Byte>, prefix: Byte) returns (r: Format)
    ensures r == WellFormed <==> |line| == 69 && line[0] == prefix && line[1] == 32
    ensures r == Malformed(BadLength) <==> |line| != 69
    ensures r == Malformed(BadPrefix) <==> |line| == 69 && line[0] != prefix
  {
    if |line| != LINE_LENGTH {
      return Malformed(BadLength);
    }
    if line[0] != prefix {
      return Malformed(BadPrefix);
    }
    if line[1] != BLANK {
      return Malformed(NoBlank);
    }
    return WellFormed;
  }

  /** A last character that is no digit never passes, although its byte difference to '0' is taken modulo 256. */
  method VerifyChecksum(line: seq<Byte>) returns (ok: bool)
    ensures ok == Accepted(line)
    ensures ok <==> |line| == 69 && 48 <= line[68] <= 57 && Tally(multiset(line[..68])) % 10 == line[68] - 48
  {
    TallyIsSum(line);
    if |line| != LINE_LENGTH {
      return false;
    }
    var sum := 0;
    for i := 0 to LINE_LENGTH - 1
      invariant sum == WeightSum(line, i)
    {
      var c := line[i];
      if ZERO <= c <= NINE {
        sum := sum + ByteMinus(c, ZERO);
      } else if c == MINUS {
        sum := sum + 1;
      }
    }
    var expected := sum % 10;
    var actual := ByteMinus(line[LINE_LENGTH - 1], ZERO);
    return actual == expected;
  }

  // ---- What the check digit finds -------------------------------------------------------------

  lemma {:induction false} SumElsewhere(line: seq<Byte>, i: nat, c: Byte, n: nat)
    requires i < |line| && n <= |line|
    ensures WeightSum(line[i := c], n) == WeightSum(line, n) + (if i < n then Weight(c) - Weight(line[i]) else 0)
  {
    if n > 0 {
      SumElsewhere(line, i, c, n - 1);
    }
  }

  lemma SmallDifference(sum: nat, a: int, b: int)
    requires 0 <= a <= 9 && 0 <= b <= 9 && sum + b - a >= 0
    ensures (sum + b - a) % 10 == sum % 10 <==> a == b
  {
  }

  /** '1' and '-'. */
  predicate CountsOne(c: Byte) {
    c == 49 || c == 45
  }

  /** '0' and everything that is neither a digit nor '-'. */
  predicate CountsNothing(c: Byte) {
    c != 45 && !(49 <= c <= 57)
  }

  predicate CountsAlike(c: Byte, d: Byte) {
    (CountsOne(c) && CountsOne(d)) || (CountsNothing(c) && CountsNothing(d))
  }

  /** Exactly which substitutions of one character in an accepted line go unnoticed: in front of the check digit those by
      a character of the same weight, and none of the check digit itself. */
  lemma SubstitutionUnnoticedIff(line: seq<Byte>, i: nat, c: Byte)
    requires Accepted(line) && i < LINE_LENGTH
    ensures Accepted(line[i := c]) <==> if i < 68 then Weight(c) == Weight(line[i]) else c == line[i]
    ensures Accepted(line[i := c]) <==> c == line[i] || (i < 68 && CountsAlike(c, line[i]))
  {
    SumElsewhere(line, i, c, 68);
    if i < 68 {
      SmallDifference(WeightSum(line, 68), Weight(line[i]), Weight(c));
    }
  }

  /** Changing any one digit, the check digit included, to another digit is noticed. */
  lemma DigitErrorsAreNoticed(line: seq<Byte>, i: nat, d: Byte)
    requires Accepted(line) && i < LINE_LENGTH && IsDigit(line[i]) && IsDigit(d) && d != line[i]
    ensures !Accepted(line[i := d])
  {
    SubstitutionUnnoticedIff(line, i, d);
  }

  /** Exchanging two characters in front of the check digit is never noticed. */
  lemma ExchangeIsNotNoticed(line: seq<Byte>, i: nat, j: nat)
    requires Accepted(line) && i < 68 && j < 68
    ensures Accepted(line[i := line[j]][j := line[i]])
  {
    SumElsewhere(line, i, line[j], 68);
    SumElsewhere(line[i := line[j]], j, line[i], 68);
  }
}
