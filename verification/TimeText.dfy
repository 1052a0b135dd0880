/**
 Times as the stores write them: RFC 3339 text in UTC with the zeros at the end of the fraction dropped. The database
 compares such texts character by character; here is when that order is the order of time.
*/
module TimeText {
  import opened Placeholders

  const NANOS := 1_000_000_000
  const DAY_SECONDS := 86400

  // ---- Text order -----------------------------------------------------------------------------

  /** Character by character, a proper prefix first. */
  predicate Before(a: string, b: string) {
    b != "" && (a == "" || a[0] < b[0] || (a[0] == b[0] && Before(a[1..], b[1..])))
  }

  lemma {:induction false} NotBeforeItself(a: string)
    ensures !Before(a, a)
  {
    if a != "" {
      NotBeforeItself(a[1..]);
    }
  }

  lemma {:induction false} BeforeIsOrder(a: string, b: string)
    ensures !(Before(a, b) && Before(b, a))
    ensures a == b <==> !Before(a, b) && !Before(b, a)
    decreases |a|
  {
    NotBeforeItself(a);
    if a != "" && b != "" {
      BeforeIsOrder(a[1..], b[1..]);
      assert a == [a[0]] + a[1..] && b == [b[0]] + b[1..];
    }
  }

  lemma {:induction false} BeforeAppend(a: string, b: string, x: string, y: string)
    requires |a| == |b|
    ensures Before(a + x, b + y) <==> Before(a, b) || (a == b && Before(x, y))
    decreases |a|
  {
    if a == "" {
      assert a + x == x && b + y == y;
    } else {
      assert (a + x)[1..] == a[1..] + x && (b + y)[1..] == b[1..] + y;
      BeforeAppend(a[1..], b[1..], x, y);
      assert a == [a[0]] + a[1..] && b == [b[0]] + b[1..];
    }
  }

  /** Texts that part before either ends are ordered where they part, whatever follows. */
  lemma {:induction false} BeforeParting(p: string, q: string, x: string, y: string)
    requires !(p <= q) && !(q <= p)
    ensures Before(p + x, q + y) <==> Before(p, q)
    decreases |p|
  {
    assert p != "" && q != "";
    assert (p + x)[1..] == p[1..] + x && (q + y)[1..] == q[1..] + y;
    if p[0] == q[0] {
      assert p == [p[0]] + p[1..] && q == [q[0]] + q[1..];
      BeforeParting(p[1..], q[1..], x, y);
    }
  }

  // ---- Fixed-width numbers --------------------------------------------------------------------

  function Padded(n: nat, width: nat): (s: string)
    ensures |s| == width && forall i :: 0 <= i < |s| ==> IsDigit(s[i])
  {
    if width == 0 then "" else Padded(n / 10, width - 1) + [DigitChar(n % 10)]
  }

  lemma DigitOrder(a: nat, b: nat)
    requires a < 10 && b < 10
    ensures Before([DigitChar(a)], [DigitChar(b)]) <==> a < b
    ensures [DigitChar(a)] == [DigitChar(b)] <==> a == b
  {
    assert [DigitChar(a)][1..] == "" && [DigitChar(b)][1..] == "";
  }

  lemma {:induction false} PaddedOrder(a: nat, b: nat, width: nat)
    requires a < Pow10(width) && b < Pow10(width)
    ensures Before(Padded(a, width), Padded(b, width)) <==> a < b
    ensures Padded(a, width) == Padded(b, width) <==> a == b
  {
    if width > 0 {
      PaddedOrder(a / 10, b / 10, width - 1);
      DigitOrder(a % 10, b % 10);
      BeforeAppend(Padded(a / 10, width - 1), Padded(b / 10, width - 1), [DigitChar(a % 10)], [DigitChar(b % 10)]);
      PaddedParts(a, width);
      PaddedParts(b, width);
    }
  }

  lemma PaddedParts(n: nat, width: nat)
    requires width > 0
    ensures Padded(n, width)[..width - 1] == Padded(n / 10, width - 1)
    ensures Padded(n, width)[width - 1] == DigitChar(n % 10)
  {
  }

  /** A fixed-width number and what comes after it. */
  lemma FieldOrder(a: nat, b: nat, width: nat, x: string, y: string)
    requires a < Pow10(width) && b < Pow10(width)
    ensures Before(Padded(a, width) + x, Padded(b, width) + y) <==> a < b || (a == b && Before(x, y))
  {
    PaddedOrder(a, b, width);
    BeforeAppend(Padded(a, width), Padded(b, width), x, y);
  }

  lemma SeparatorOrder(c: char, x: string, y: string)
    ensures Before([c] + x, [c] + y) <==> Before(x, y)
  {
    NotBeforeItself([c]);
    BeforeAppend([c], [c], x, y);
  }

  // ---- The calendar ---------------------------------------------------------------------------

  predicate Leap(year: nat) {
    year % 4 == 0 && (year % 100 != 0 || year % 400 == 0)
  }

  /** Days from the first of January of year 0, a leap year. */
  function DaysBeforeYear(year: nat): int {
    365 * year + (year + 3) / 4 - (year + 99) / 100 + (year + 399) / 400
  }

  lemma EveryFourth(n: nat)
    ensures (n + 4) / 4 - (n + 3) / 4 == if n % 4 == 0 then 1 else 0
  {
  }

  lemma EveryHundredth(n: nat)
    ensures (n + 100) / 100 - (n + 99) / 100 == if n % 100 == 0 then 1 else 0
  {
    var q, r := n / 100, n % 100;
    assert (n + 100) / 100 == q + 1;
    assert (n + 99) / 100 == if r == 0 then q else q + 1;
  }

  lemma EveryFourHundredth(n: nat)
    ensures (n + 400) / 400 - (n + 399) / 400 == if n % 400 == 0 then 1 else 0
  {
    var q, r := n / 400, n % 400;
    assert (n + 400) / 400 == q + 1;
    assert (n + 399) / 400 == if r == 0 then q else q + 1;
  }

  lemma MultipleOfFour(q: nat)
    ensures 4 * q % 4 == 0
  {
  }

  lemma MultipleOfHundred(q: nat)
    ensures 100 * q % 100 == 0
  {
  }

  lemma CenturiesAreFourth(n: nat)
    ensures n % 100 == 0 ==> n % 4 == 0
  {
    MultipleOfFour(25 * (n / 100));
  }

  lemma FourCenturiesAreCenturies(n: nat)
    ensures n % 400 == 0 ==> n % 100 == 0
  {
    MultipleOfHundred(4 * (n / 400));
  }

  lemma YearLength(year: nat)
    ensures DaysBeforeYear(year + 1) == DaysBeforeYear(year) + (if Leap(year) then 366 else 365)
  {
    EveryFourth(year);
    EveryHundredth(year);
    EveryFourHundredth(year);
    CenturiesAreFourth(year);
    FourCenturiesAreCenturies(year);
  }

  lemma {:induction false} YearsInOrder(a: nat, b: nat)
    requires a <= b
    ensures DaysBeforeYear(a) <= DaysBeforeYear(b)
    decreases b
  {
    if a < b {
      YearsInOrder(a, b - 1);
      YearLength(b - 1);
    }
  }

  /** Days of the year before the given month; month 13 stands for the whole year. */
  function DaysBeforeMonth(month: nat, leap: bool): nat
    requires 1 <= month <= 13
  {
    var table := [0, 31, 59, 90, 120, 151, 181, 212, 243, 273, 304, 334, 365];
    table[month - 1] + (if leap && month > 2 then 1 else 0)
  }

  lemma MonthsInOrder(a: nat, b: nat, leap: bool)
    requires 1 <= a <= b <= 13
    ensures DaysBeforeMonth(a, leap) <= DaysBeforeMonth(b, leap)
  {
  }

  datatype Civil = Civil(year: nat, month: nat, day: nat, hour: nat, minute: nat, second: nat) {
    predicate Valid() {
      && year <= 9999 && 1 <= month <= 12
      && 1 <= day <= DaysBeforeMonth(month + 1, Leap(year)) - DaysBeforeMonth(month, Leap(year))
      && hour < 24 && minute < 60 && second < 60
    }

    function DayNumber(): int
      requires Valid()
    {
      DaysBeforeYear(year) + DaysBeforeMonth(month, Leap(year)) + day - 1
    }

    function SecondNumber(): int
      requires Valid()
    {
      DayNumber() * DAY_SECONDS + hour * 3600 + minute * 60 + second
    }
  }

  const ALL_DAYS := DaysBeforeYear(10000)

  function YearOf(day: nat, from: nat): (year: nat)
    requires from <= 9999 && DaysBeforeYear(from) <= day < ALL_DAYS
    ensures year <= 9999 && DaysBeforeYear(year) <= day < DaysBeforeYear(year + 1)
    decreases 9999 - from
  {
    if day < DaysBeforeYear(from + 1) then from else YearOf(day, from + 1)
  }

  function MonthOf(day: nat, leap: bool, from: nat): (month: nat)
    requires 1 <= from <= 12 && DaysBeforeMonth(from, leap) <= day < DaysBeforeMonth(13, leap)
    ensures 1 <= month <= 12 && DaysBeforeMonth(month, leap) <= day < DaysBeforeMonth(month + 1, leap)
    decreases 12 - from
  {
    if day < DaysBeforeMonth(from + 1, leap) then from else MonthOf(day, leap, from + 1)
  }

  lemma DayAndRest(second: nat)
    requires second < ALL_DAYS * DAY_SECONDS
    ensures second == second / DAY_SECONDS * DAY_SECONDS + second % DAY_SECONDS && second / DAY_SECONDS < ALL_DAYS
  {
  }

  lemma HoursMinutesSeconds(rest: nat)
    requires rest < DAY_SECONDS
    ensures rest / 3600 < 24 && rest / 3600 * 3600 + rest / 60 % 60 * 60 + rest % 60 == rest
  {
    assert rest / 60 / 60 == rest / 3600;
  }

  /** The date and time of day of a second. */
  function ToCivil(second: nat): (c: Civil)
    requires second < ALL_DAYS * DAY_SECONDS
    ensures c.Valid() && c.SecondNumber() == second
  {
    var day, rest := second / DAY_SECONDS, second % DAY_SECONDS;
    DayAndRest(second);
    HoursMinutesSeconds(rest);
    var year := YearOf(day, 0);
    YearLength(year);
    var inYear := day - DaysBeforeYear(year);
    var month := MonthOf(inYear, Leap(year), 1);
    Civil(year, month, inYear - DaysBeforeMonth(month, Leap(year)) + 1, rest / 3600, rest / 60 % 60, rest % 60)
  }

  // ---- Date and time as text ------------------------------------------------------------------

  function TimeOfDay(c: Civil): string {
    Padded(c.hour, 2) + ([':'] + (Padded(c.minute, 2) + ([':'] + Padded(c.second, 2))))
  }

  function Date(c: Civil): string {
    Padded(c.year, 4) + (['-'] + (Padded(c.month, 2) + (['-'] + Padded(c.day, 2))))
  }

  function Head(c: Civil): (s: string)
    ensures |s| == 19
  {
    Date(c) + (['T'] + TimeOfDay(c))
  }

  lemma SmallPowers()
    ensures Pow10(2) == 100 && Pow10(4) == 10000 && Pow10(9) == NANOS
  {
    Pow10Of19();
    assert Pow10(3) == 1000 && Pow10(6) == 1000000;
  }

  lemma TimeOfDayOrder(a: Civil, b: Civil)
    requires a.Valid() && b.Valid()
    ensures Before(TimeOfDay(a), TimeOfDay(b))
      <==> a.hour * 3600 + a.minute * 60 + a.second < b.hour * 3600 + b.minute * 60 + b.second
  {
    SmallPowers();
    var s, t := Padded(a.second, 2), Padded(b.second, 2);
    var m, n := Padded(a.minute, 2) + ([':'] + s), Padded(b.minute, 2) + ([':'] + t);
    PaddedOrder(a.second, b.second, 2);
    SeparatorOrder(':', s, t);
    FieldOrder(a.minute, b.minute, 2, [':'] + s, [':'] + t);
    SeparatorOrder(':', m, n);
    FieldOrder(a.hour, b.hour, 2, [':'] + m, [':'] + n);
  }

  lemma DateFieldOrder(a: Civil, b: Civil)
    requires a.Valid() && b.Valid()
    ensures Before(Date(a), Date(b))
      <==> a.year < b.year || (a.year == b.year && (a.month < b.month || (a.month == b.month && a.day < b.day)))
  {
    SmallPowers();
    var s, t := Padded(a.day, 2), Padded(b.day, 2);
    var m, n := Padded(a.month, 2) + (['-'] + s), Padded(b.month, 2) + (['-'] + t);
    PaddedOrder(a.day, b.day, 2);
    SeparatorOrder('-', s, t);
    FieldOrder(a.month, b.month, 2, ['-'] + s, ['-'] + t);
    SeparatorOrder('-', m, n);
    FieldOrder(a.year, b.year, 4, ['-'] + m, ['-'] + n);
  }

  lemma DayInYear(c: Civil)
    requires c.Valid()
    ensures DaysBeforeYear(c.year) <= c.DayNumber() < DaysBeforeYear(c.year + 1)
  {
    YearLength(c.year);
    MonthsInOrder(c.month + 1, 13, Leap(c.year));
  }

  lemma EarlierDate(a: Civil, b: Civil)
    requires a.Valid() && b.Valid()
    requires a.year < b.year || (a.year == b.year && (a.month < b.month || (a.month == b.month && a.day < b.day)))
    ensures a.DayNumber() < b.DayNumber()
  {
    if a.year < b.year {
      DayInYear(a);
      DayInYear(b);
      YearsInOrder(a.year + 1, b.year);
    } else if a.month < b.month {
      MonthsInOrder(a.month + 1, b.month, Leap(a.year));
    }
  }

  lemma DateOrder(a: Civil, b: Civil)
    requires a.Valid() && b.Valid()
    ensures Before(Date(a), Date(b)) <==> a.DayNumber() < b.DayNumber()
    ensures Date(a) == Date(b) <==> a.DayNumber() == b.DayNumber()
  {
    DateFieldOrder(a, b);
    DateFieldOrder(b, a);
    BeforeIsOrder(Date(a), Date(b));
    if Before(Date(a), Date(b)) {
      EarlierDate(a, b);
    } else if Before(Date(b), Date(a)) {
      EarlierDate(b, a);
    }
  }

  /** Up to the second, text order is time order. */
  lemma HeadOrder(a: Civil, b: Civil)
    requires a.Valid() && b.Valid()
    ensures Before(Head(a), Head(b)) <==> a.SecondNumber() < b.SecondNumber()
    ensures Head(a) == Head(b) <==> a.SecondNumber() == b.SecondNumber()
  {
    DateOrder(a, b);
    TimeOfDayOrder(a, b);
    TimeOfDayOrder(b, a);
    SeparatorOrder('T', TimeOfDay(a), TimeOfDay(b));
    SeparatorOrder('T', TimeOfDay(b), TimeOfDay(a));
    BeforeAppend(Date(a), Date(b), ['T'] + TimeOfDay(a), ['T'] + TimeOfDay(b));
    BeforeAppend(Date(b), Date(a), ['T'] + TimeOfDay(b), ['T'] + TimeOfDay(a));
    BeforeIsOrder(Head(a), Head(b));
    BeforeIsOrder(Date(a), Date(b));
  }

  // ---- The fraction ---------------------------------------------------------------------------

  function WithoutZeros(s: string): (r: string)
    ensures r <= s && (r == "" || r[|r| - 1] != '0')
    ensures forall i :: |r| <= i < |s| ==> s[i] == '0'
    decreases |s|
  {
    if s != "" && s[|s| - 1] == '0' then WithoutZeros(s[..|s| - 1]) else s
  }

  /** The digits of the fraction that are written. */
  function Fraction(nanos: nat): string {
    WithoutZeros(Padded(nanos, 9))
  }

  function Tail(nanos: nat): string {
    (if Fraction(nanos) == "" then "" else "." + Fraction(nanos)) + "Z"
  }

  predicate Digits(s: string) {
    forall i :: 0 <= i < |s| ==> IsDigit(s[i])
  }

  /** Zeros come before any other digits. */
  lemma {:induction false} ZerosFirst(zeros: string, digits: string)
    requires |zeros| == |digits| && Digits(digits) && (forall i :: 0 <= i < |zeros| ==> zeros[i] == '0')
    ensures Before(zeros, digits) <==> zeros != digits
    decreases |zeros|
  {
    if zeros != "" {
      ZerosFirst(zeros[1..], digits[1..]);
      assert zeros == [zeros[0]] + zeros[1..] && digits == [digits[0]] + digits[1..];
    }
  }

  /** A fraction whose written digits continue those of another one is the later, and its text the earlier: the other
      text goes on with a Z, which stands behind all digits and the point. */
  lemma ContinuedFraction(a: nat, b: nat)
    requires a < NANOS && b < NANOS && Fraction(a) < Fraction(b)
    ensures a < b && Before(Tail(b), Tail(a))
  {
    var p, q := Fraction(a), Fraction(b);
    var r := q[|p|..];
    assert q == p + r && r != "" && IsDigit(r[0]) && r[0] < 'Z';
    LaterNumber(a, b);
    if p == "" {
      assert Tail(a) == "Z" && Tail(b)[0] == '.';
    } else {
      var x, y := r + "Z", "Z";
      assert Before(x, y);
      NotBeforeItself(p);
      BeforeAppend(p, p, x, y);
      SeparatorOrder('.', p + x, p + y);
      assert Tail(b) == ['.'] + (p + x) && Tail(a) == ['.'] + (p + y);
    }
  }

  lemma LaterNumber(a: nat, b: nat)
    requires a < NANOS && b < NANOS && Fraction(a) < Fraction(b)
    ensures a < b
  {
    var s, t, n := Padded(a, 9), Padded(b, 9), |Fraction(a)|;
    SmallPowers();
    PaddedOrder(a, b, 9);
    var last := |Fraction(b)| - 1;
    assert t[last] == Fraction(b)[last] != '0';
    assert s[n..][last - n] == '0' && t[n..][last - n] != '0';
    ZerosFirst(s[n..], t[n..]);
    assert s[..n] == Fraction(a) == Fraction(b)[..n] == t[..n];
    NotBeforeItself(s[..n]);
    BeforeAppend(s[..n], t[..n], s[n..], t[n..]);
    assert s == s[..n] + s[n..] && t == t[..n] + t[n..];
  }

  /** Fractions of which neither continues the other are written in order. */
  lemma PartingFractions(a: nat, b: nat)
    requires a < NANOS && b < NANOS && !(Fraction(a) <= Fraction(b)) && !(Fraction(b) <= Fraction(a))
    ensures Before(Tail(a), Tail(b)) <==> a < b
  {
    var p, q := Fraction(a), Fraction(b);
    var s, t := Padded(a, 9), Padded(b, 9);
    SmallPowers();
    PaddedOrder(a, b, 9);
    BeforeParting(p, q, s[|p|..], t[|q|..]);
    assert s == p + s[|p|..] && t == q + t[|q|..];
    BeforeParting(p, q, "Z", "Z");
    SeparatorOrder('.', p + "Z", q + "Z");
    assert Tail(a) == ['.'] + (p + "Z") && Tail(b) == ['.'] + (q + "Z");
  }

  lemma SameFraction(a: nat, b: nat)
    requires a < NANOS && b < NANOS && Fraction(a) == Fraction(b)
    ensures a == b
  {
    var s, t, n := Padded(a, 9), Padded(b, 9), |Fraction(a)|;
    assert forall i :: 0 <= i < 9 ==> s[i] == if i < n then Fraction(a)[i] else '0';
    assert forall i :: 0 <= i < 9 ==> t[i] == if i < n then Fraction(b)[i] else '0';
    assert s == t;
    SmallPowers();
    PaddedOrder(a, b, 9);
  }

  /** Only whole seconds are written without a fraction. */
  lemma NoFraction(nanos: nat)
    requires nanos < NANOS
    ensures Fraction(nanos) == "" <==> nanos == 0
  {
    ZeroHasNone(9);
    if Fraction(nanos) == "" {
      SameFraction(nanos, 0);
    }
  }

  lemma {:induction false} ZeroHasNone(width: nat)
    ensures WithoutZeros(Padded(0, width)) == ""
  {
    if width > 0 {
      ZeroHasNone(width - 1);
      PaddedParts(0, width);
    }
  }

  lemma TenTimes(m: nat, width: nat)
    ensures Padded(10 * m, width + 1) == Padded(m, width) + ['0']
  {
    assert 10 * m / 10 == m && 10 * m % 10 == 0;
  }

  lemma ZeroIsDropped(m: nat, width: nat)
    ensures WithoutZeros(Padded(10 * m, width + 1)) == WithoutZeros(Padded(m, width))
  {
    TenTimes(m, width);
    var s := Padded(m, width) + ['0'];
    assert s[|s| - 1] == '0' && s[..|s| - 1] == Padded(m, width);
  }

  // ---- Instants -------------------------------------------------------------------------------

  /** Instants are nanoseconds since the first of January of year 1, as in Go; year 0 has 366 days. */
  const YEAR_ZERO := 366 * DAY_SECONDS

  function Second(t: int): int {
    t / NANOS + YEAR_ZERO
  }

  function Nanos(t: int): nat {
    t % NANOS
  }

  /** The years 0 to 9999, which RFC 3339 can write. */
  predicate Writable(t: int) {
    0 <= Second(t) < ALL_DAYS * DAY_SECONDS
  }

  function Text(t: int): string
    requires Writable(t)
  {
    Head(ToCivil(Second(t))) + Tail(Nanos(t))
  }

  lemma SplitInstant(second: int, nanos: nat)
    requires nanos < NANOS
    ensures (second * NANOS + nanos) / NANOS == second && (second * NANOS + nanos) % NANOS == nanos
  {
  }

  lemma CivilInRange(c: Civil)
    requires c.Valid()
    ensures 0 <= c.SecondNumber() < ALL_DAYS * DAY_SECONDS
  {
    DayInYear(c);
    YearsInOrder(c.year + 1, 10000);
    YearsInOrder(0, c.year);
  }

  lemma SameHead(c: Civil)
    requires c.Valid() && 0 <= c.SecondNumber() < ALL_DAYS * DAY_SECONDS
    ensures Head(ToCivil(c.SecondNumber())) == Head(c)
  {
    hide Head, Before;
    HeadOrder(ToCivil(c.SecondNumber()), c);
  }

  /** Every date and time of day of the years that can be written stands in the text of its instant. */
  lemma TextOfCivil(c: Civil, nanos: nat)
    requires c.Valid() && nanos < NANOS
    ensures var t := (c.SecondNumber() - YEAR_ZERO) * NANOS + nanos;
      Writable(t) && Text(t) == Head(c) + Tail(nanos)
  {
    hide Head, Tail, Civil.SecondNumber, ToCivil, Civil.Valid;
    SplitInstant(c.SecondNumber() - YEAR_ZERO, nanos);
    CivilInRange(c);
    SameHead(c);
  }

  function Figure(n: nat): char
    requires n < 10
  {
    "0123456789"[n]
  }

  lemma OneFigure(n: nat, width: nat)
    ensures Padded(n, width + 1) == Padded(n / 10, width) + [Figure(n % 10)]
  {
  }

  lemma TwoFigures(n: nat)
    requires n < 100
    ensures Padded(n, 2) == [Figure(n / 10), Figure(n % 10)]
  {
    OneFigure(n, 1);
    OneFigure(n / 10, 0);
    assert Padded(n / 10 / 10, 0) == "";
  }

  lemma FourFigures(high: nat, low: nat)
    requires high < 100 && low < 100
    ensures Padded(100 * high + low, 4) == [Figure(high / 10), Figure(high % 10), Figure(low / 10), Figure(low % 10)]
  {
    hide Padded, Figure;
    var n := 100 * high + low;
    OneFigure(n, 3);
    OneFigure(n / 10, 2);
    assert n / 10 / 10 == high && n % 10 == low % 10 && n / 10 % 10 == low / 10;
    TwoFigures(high);
  }

  /** 63844806896.5 seconds after the first of January of year 1, on a leap day. */
  lemma LeapDayText()
    ensures Writable(63_844_806_896_500_000_000) && Text(63_844_806_896_500_000_000) == "2024-02-29T12:34:56.5Z"
  {
    hide Head, Tail, Text, Writable, Padded, WithoutZeros;
    var c := Civil(2024, 2, 29, 12, 34, 56);
    assert c.Valid() && c.SecondNumber() - YEAR_ZERO == 63_844_806_896;
    TextOfCivil(c, 500_000_000);
    LeapDay();
    HalfASecond();
  }

  lemma LeapDay()
    ensures Head(Civil(2024, 2, 29, 12, 34, 56)) == "2024-02-29T12:34:56"
  {
    hide Padded;
    FourFigures(20, 24);
    TwoFigures(2);
    TwoFigures(29);
    TwoFigures(12);
    TwoFigures(34);
    TwoFigures(56);
    assert Date(Civil(2024, 2, 29, 12, 34, 56)) == "2024-02-29";
    assert TimeOfDay(Civil(2024, 2, 29, 12, 34, 56)) == "12:34:56";
  }

  lemma HalfASecond()
    ensures Tail(500_000_000) == ".5Z"
  {
    hide Padded, WithoutZeros;
    ZeroIsDropped(50_000_000, 8);
    ZeroIsDropped(5_000_000, 7);
    ZeroIsDropped(500_000, 6);
    ZeroIsDropped(50_000, 5);
    ZeroIsDropped(5_000, 4);
    ZeroIsDropped(500, 3);
    ZeroIsDropped(50, 2);
    ZeroIsDropped(5, 1);
    FiveIsKept();
  }

  lemma FiveIsKept()
    ensures WithoutZeros(Padded(5, 1)) == "5"
  {
    OneFigure(5, 0);
    assert Padded(5, 1) == "5";
  }

  /** The year 2100 is no leap year: its first of March, 66243139200 seconds after the first of January of year 1. */
  lemma CenturyText()
    ensures Writable(66_243_139_200_000_000_000) && Text(66_243_139_200_000_000_000) == "2100-03-01T00:00:00Z"
  {
    hide Head, Text, Writable, Padded, WithoutZeros;
    var c := Civil(2100, 3, 1, 0, 0, 0);
    assert c.Valid() && c.SecondNumber() - YEAR_ZERO == 66_243_139_200;
    TextOfCivil(c, 0);
    CenturyDay();
    NoFraction(0);
  }

  lemma CenturyDay()
    ensures Head(Civil(2100, 3, 1, 0, 0, 0)) == "2100-03-01T00:00:00"
  {
    hide Padded;
    FourFigures(21, 0);
    TwoFigures(3);
    TwoFigures(1);
    TwoFigures(0);
    assert Date(Civil(2100, 3, 1, 0, 0, 0)) == "2100-03-01";
    assert TimeOfDay(Civil(2100, 3, 1, 0, 0, 0)) == "00:00:00";
  }

  /** Two times within one second, the written fraction of one of which continues that of the other. */
  predicate Clash(a: int, b: int) {
    var p, q := Fraction(Nanos(a)), Fraction(Nanos(b));
    Second(a) == Second(b) && (p < q || q < p)
  }

  lemma InstantOrder(a: int, b: int)
    ensures a < b <==> Second(a) < Second(b) || (Second(a) == Second(b) && Nanos(a) < Nanos(b))
  {
    assert a == a / NANOS * NANOS + a % NANOS && b == b / NANOS * NANOS + b % NANOS;
  }

  lemma TailOrder(a: nat, b: nat)
    requires a < NANOS && b < NANOS
    ensures var p, q := Fraction(a), Fraction(b);
      Before(Tail(a), Tail(b)) <==> if p < q || q < p then b < a else a < b
  {
    var p, q := Fraction(a), Fraction(b);
    BeforeIsOrder(Tail(a), Tail(b));
    if p < q {
      ContinuedFraction(a, b);
    } else if q < p {
      ContinuedFraction(b, a);
    } else if p == q {
      SameFraction(a, b);
      NotBeforeItself(Tail(a));
    } else {
      PartingFractions(a, b);
    }
  }

  /** For any two instants: text order is time order, except for a clash, and there it is the opposite. */
  lemma TextOrder(a: int, b: int)
    requires Writable(a) && Writable(b)
    ensures Before(Text(a), Text(b)) <==> if Clash(a, b) then b < a else a < b
  {
    var c, d := ToCivil(Second(a)), ToCivil(Second(b));
    HeadOrder(c, d);
    BeforeAppend(Head(c), Head(d), Tail(Nanos(a)), Tail(Nanos(b)));
    TailOrder(Nanos(a), Nanos(b));
    InstantOrder(a, b);
    InstantOrder(b, a);
  }

  /** So comparing texts decides about time if and only if the two do not clash. */
  lemma TextOrderIff(a: int, b: int)
    requires Writable(a) && Writable(b)
    ensures (Before(Text(a), Text(b)) <==> a < b) <==> !Clash(a, b)
  {
    TextOrder(a, b);
    if Clash(a, b) {
      ClashingDiffer(a, b);
    }
  }

  lemma ClashingDiffer(a: int, b: int)
    requires Clash(a, b)
    ensures a != b && Clash(b, a)
  {
  }

  /** The same, case by case. */
  lemma SameSide(a: int, b: int)
    requires Writable(a) && Writable(b)
    ensures !Clash(a, b) ==> (Before(Text(a), Text(b)) <==> a < b)
    ensures Clash(a, b) ==> (Before(Text(a), Text(b)) <==> a > b) && a != b
  {
    TextOrder(a, b);
    if Clash(a, b) {
      ClashingDiffer(a, b);
    }
  }

  lemma WholeSecondClash(whole: int, t: int)
    requires Nanos(whole) == 0
    ensures Clash(whole, t) <==> Second(whole) == Second(t) && Nanos(t) != 0
    ensures Clash(t, whole) <==> Second(whole) == Second(t) && Nanos(t) != 0
  {
    NoFraction(0);
    NoFraction(Nanos(t));
  }

  /** A whole second stands behind everything else within that second. */
  lemma WholeSecondComesLast(whole: int, t: int)
    requires Nanos(whole) == 0 && whole < t < whole + NANOS && Writable(whole)
    ensures Writable(t) && Before(Text(t), Text(whole))
  {
    SecondOf(whole, t);
    WholeSecondClash(whole, t);
    ClashingDiffer(whole, t);
    TextOrder(t, whole);
  }

  lemma SecondOf(whole: int, t: int)
    requires Nanos(whole) == 0 && whole < t < whole + NANOS
    ensures Second(t) == Second(whole) && Nanos(t) == t - whole
  {
    var k := whole / NANOS;
    assert whole == k * NANOS && t == k * NANOS + (t - whole);
  }
}
