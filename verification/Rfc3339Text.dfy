/** Stored timestamps are texts, and the stores compare them as texts: `tx_time <= cutoff`,
    `expires_at <= now`, `MAX(recorded_at)`, ORDER BY. */
module Rfc3339Text {
  import opened Ledger
  import opened Calendar
  import opened DigitText

  const UTC := "+00:00"

  /** The fraction has no digits, or 3, 6 or 9: as few as lose nothing. */
  function Fraction(nano: nat): string {
    if nano == 0 then ""
    else if nano % 1_000_000 == 0 then "." + Digits(nano / 1_000_000, 3)
    else if nano % 1_000 == 0 then "." + Digits(nano / 1_000, 6)
    else "." + Digits(nano, 9)
  }

  /** At least four digits. */
  function Padded(n: nat): string {
    if n < 10_000 then Digits(n, 4) else Padded(n / 10) + [DigitChar(n % 10)]
  }

  /** Years of four digits are written bare, all others with a sign. */
  function YearText(year: int): string {
    if 0 <= year <= 9999 then Digits(year, 4)
    else if year < 0 then "-" + Padded(-year)
    else "+" + Padded(year)
  }

  /** The month and all that follows it. */
  function AfterYear(m: Moment): string {
    ['-'] + (Digits(m.date.month, 2) + (['-'] + (Digits(m.date.day, 2) + (['T'] + ClockText(m)))))
  }

  function ClockText(m: Moment): string {
    Digits(m.hour, 2) + ([':'] + (Digits(m.minute, 2) + ([':'] + (Digits(m.second, 2) + (Fraction(m.nano) + UTC)))))
  }

  function ToRfc3339(m: Moment): string {
    YearText(m.date.year) + AfterYear(m)
  }

  // ---- The texts ----------------------------------------------------------------------------

  /** The fraction is a point and 3, 6 or 9 digits that are worth `n`, as few as will do, or nothing. */
  lemma FractionIsShortest(n: nat)
    requires n < 1_000_000_000
    ensures var f := Fraction(n);
            && |f| in {0, 4, 7, 10}
            && (|f| == 0 <==> n == 0)
            && (|f| > 0 ==> f[0] == '.' && DigitsAt(f, 1, |f| - 1) && NumberAt(f, 1, |f| - 1) * Pow10(10 - |f|) == n)
            && (|f| > 4 ==> n % 1_000_000 != 0) && (|f| > 7 ==> n % 1_000 != 0)
  {
    FractionPowers();
    var f := Fraction(n);
    if n == 0 {
    } else if n % 1_000_000 == 0 {
      NumberOfDigits(".", n / 1_000_000, 3, "");
      assert f == "." + Digits(n / 1_000_000, 3) + "";
    } else if n % 1_000 == 0 {
      NumberOfDigits(".", n / 1_000, 6, "");
      assert f == "." + Digits(n / 1_000, 6) + "";
    } else {
      NumberOfDigits(".", n, 9, "");
      assert f == "." + Digits(n, 9) + "";
    }
  }

  /** The next field of a text, and the separator behind it. */
  lemma Field(s: string, p: string, v: nat, w: nat, c: char, rest: string) returns (q: string)
    requires s == p + (Digits(v, w) + ([c] + rest)) && v < Pow10(w)
    ensures |q| == |p| + w + 1 && s == q + rest
    ensures DigitsAt(s, |p|, w) && NumberAt(s, |p|, w) == v && s[|p| + w] == c
  {
    q := p + Digits(v, w) + [c];
    assert s == p + Digits(v, w) + ([c] + rest);
    NumberOfDigits(p, v, w, [c] + rest);
  }

  lemma Ending(s: string, p: string, d: string, f: string, u: string)
    requires s == p + (d + (f + u))
    ensures |s| == |p| + |d| + |f| + |u| && s[|p| + |d|..|s| - |u|] == f && s[|s| - |u|..] == u
    ensures s == p + d + (f + u)
  {
  }

  lemma LastField(s: string, p: string, v: nat, w: nat, f: string, u: string)
    requires s == p + (Digits(v, w) + (f + u)) && v < Pow10(w)
    ensures |s| == |p| + w + |f| + |u| && s[|p| + w..|s| - |u|] == f && s[|s| - |u|..] == u
    ensures DigitsAt(s, |p|, w) && NumberAt(s, |p|, w) == v
  {
    hide Digits, NumberAt, DigitsAt;
    Ending(s, p, Digits(v, w), f, u);
    NumberOfDigits(p, v, w, f + u);
  }

  /** "YYYY-MM-DDTHH:MM:SS", then a fraction and the offset, with the fields of the moment. */
  ghost predicate ShowsFields(s: string, m: Moment) {
    && |s| >= 25
    && DigitsAt(s, 0, 4) && s[4] == '-' && DigitsAt(s, 5, 2) && s[7] == '-' && DigitsAt(s, 8, 2) && s[10] == 'T'
    && DigitsAt(s, 11, 2) && s[13] == ':' && DigitsAt(s, 14, 2) && s[16] == ':' && DigitsAt(s, 17, 2)
    && NumberAt(s, 0, 4) == m.date.year && NumberAt(s, 5, 2) == m.date.month && NumberAt(s, 8, 2) == m.date.day
    && NumberAt(s, 11, 2) == m.hour && NumberAt(s, 14, 2) == m.minute && NumberAt(s, 17, 2) == m.second
    && s[|s| - 6..] == "+00:00"
  }

  lemma DateFields(s: string, d: Date, clock: string) returns (p: string)
    requires ValidDate(d) && FourDigitYear(d)
    requires s == Digits(d.year, 4) + (['-'] + (Digits(d.month, 2) + (['-'] + (Digits(d.day, 2) + (['T'] + clock)))))
    ensures |p| == 11 && s == p + clock
    ensures DigitsAt(s, 0, 4) && s[4] == '-' && DigitsAt(s, 5, 2) && s[7] == '-' && DigitsAt(s, 8, 2) && s[10] == 'T'
    ensures NumberAt(s, 0, 4) == d.year && NumberAt(s, 5, 2) == d.month && NumberAt(s, 8, 2) == d.day
  {
    Powers();
    hide Digits, NumberAt, DigitsAt;
    var day := Digits(d.day, 2) + (['T'] + clock);
    assert s == "" + s;
    p := Field(s, "", d.year, 4, '-', Digits(d.month, 2) + (['-'] + day));
    p := Field(s, p, d.month, 2, '-', day);
    p := Field(s, p, d.day, 2, 'T', clock);
  }

  lemma ClockFields(s: string, p: string, m: Moment)
    requires ValidMoment(m) && |p| == 11 && s == p + ClockText(m)
    ensures |s| == 25 + |Fraction(m.nano)| && s[19..|s| - 6] == Fraction(m.nano) && s[|s| - 6..] == UTC
    ensures DigitsAt(s, 11, 2) && s[13] == ':' && DigitsAt(s, 14, 2) && s[16] == ':' && DigitsAt(s, 17, 2)
    ensures NumberAt(s, 11, 2) == m.hour && NumberAt(s, 14, 2) == m.minute && NumberAt(s, 17, 2) == m.second
  {
    Powers();
    hide Digits, Fraction, NumberAt, DigitsAt, ValidDate;
    var seconds := Digits(m.second, 2) + (Fraction(m.nano) + UTC);
    var q := Field(s, p, m.hour, 2, ':', Digits(m.minute, 2) + ([':'] + seconds));
    q := Field(s, q, m.minute, 2, ':', seconds);
    LastField(s, q, m.second, 2, Fraction(m.nano), UTC);
  }

  /** The text of a moment of a four-digit year shows its fields, with the shortest fraction. */
  lemma TextFields(m: Moment)
    requires ValidMoment(m) && FourDigitYear(m.date)
    ensures var s := ToRfc3339(m); ShowsFields(s, m) && s[19..|s| - 6] == Fraction(m.nano)
  {
    hide Digits, Fraction, NumberAt, DigitsAt, ClockText;
    var p := DateFields(ToRfc3339(m), m.date, ClockText(m));
    ClockFields(ToRfc3339(m), p, m);
  }

  lemma {:induction false} PaddedIs(n: nat)
    ensures AllDigits(Padded(n)) && Value(Padded(n)) == n && |Padded(n)| >= 4
    ensures n >= 10_000 <==> |Padded(n)| > 4
    ensures |Padded(n)| > 4 ==> Padded(n)[0] != '0'
  {
    if n < 10_000 {
      Powers();
      ValueOfDigits(n, 4);
    } else {
      PaddedIs(n / 10);
      ValueOfOneMore(Padded(n / 10), DigitChar(n % 10));
      assert DigitValue(DigitChar(n % 10)) == n % 10;
      if n / 10 < 10_000 {
        FractionPowers();
        FirstDigit(n / 10, 4);
      }
    }
  }

  /** Any other year is written with its sign and at least four digits, and no more than it needs. */
  lemma OtherYears(year: int)
    requires year < 0 || year > 9999
    ensures var s := YearText(year);
            && |s| >= 5 && s[0] == (if year < 0 then '-' else '+') && (|s| > 5 ==> s[1] != '0')
            && AllDigits(s[1..]) && Value(s[1..]) == if year < 0 then -year else year
  {
    PaddedIs(if year < 0 then -year else year);
    assert YearText(year)[1..] == Padded(if year < 0 then -year else year);
  }

  lemma FractionPowers()
    ensures Pow10(0) == 1 && Pow10(3) == 1_000 && Pow10(4) == 10_000 && Pow10(6) == 1_000_000 && Pow10(9) == 1_000_000_000
  {
    assert Pow10(4) == 10 * Pow10(3) && Pow10(5) == 10 * Pow10(4) && Pow10(6) == 10 * Pow10(5);
    assert Pow10(7) == 10 * Pow10(6) && Pow10(8) == 10 * Pow10(7) && Pow10(9) == 10 * Pow10(8);
  }

  // ---- Fractions of different lengths -------------------------------------------------------

  lemma Powers()
    ensures Pow10(2) == 100 && Pow10(3) == 1_000 && Pow10(4) == 10_000
  {
  }

  lemma {:induction false} SplitDigits(a: nat, b: nat, v: nat, w: nat)
    requires b < Pow10(w)
    ensures Digits(a * Pow10(w) + b, v + w) == Digits(a, v) + Digits(b, w)
  {
    if w == 0 {
      assert Digits(a, v) + [] == Digits(a, v);
    } else {
      var n, p := a * Pow10(w) + b, a * Pow10(w - 1);
      assert n == 10 * p + b by {
        assert a * Pow10(w) == 10 * p;
      }
      assert n / 10 == p + b / 10 && n % 10 == b % 10;
      SplitDigits(a, b / 10, v, w - 1);
    }
  }

  /** One group of three digits and what follows, as the fraction shows them. */
  function Groups(a: nat, b: nat, c: nat): string {
    if a == 0 && b == 0 && c == 0 then UTC else ['.'] + (Digits(a, 3) + Groups2(b, c))
  }

  function Groups2(b: nat, c: nat): string {
    if b == 0 && c == 0 then UTC else Digits(b, 3) + Groups1(c)
  }

  function Groups1(c: nat): string {
    if c == 0 then UTC else Digits(c, 3) + UTC
  }

  lemma GroupArithmetic(a: nat, b: nat, c: nat, n: nat)
    requires a < 1000 && b < 1000 && c < 1000 && n == a * 1_000_000 + b * 1_000 + c
    ensures n / 1_000 == a * 1_000 + b && n % 1_000 == c
    ensures b == 0 && c == 0 ==> n / 1_000_000 == a && n % 1_000_000 == 0
    ensures b != 0 || c != 0 ==> n % 1_000_000 != 0
  {
    assert n % 1_000_000 == b * 1_000 + c;
  }

  lemma Shown3(a: nat, s: string)
    requires s == "." + Digits(a, 3)
    ensures s + UTC == ['.'] + (Digits(a, 3) + UTC)
  {
  }

  lemma Shown6(n: nat, a: nat, b: nat, s: string)
    requires b < 1000 && n == a * 1_000 + b && s == "." + Digits(n, 6)
    ensures s + UTC == ['.'] + (Digits(a, 3) + (Digits(b, 3) + UTC))
  {
    Powers();
    SplitDigits(a, b, 3, 3);
  }

  lemma Shown9(n: nat, a: nat, b: nat, c: nat, s: string)
    requires b < 1000 && c < 1000 && n == (a * 1_000 + b) * 1_000 + c && s == "." + Digits(n, 9)
    ensures s + UTC == ['.'] + (Digits(a, 3) + (Digits(b, 3) + (Digits(c, 3) + UTC)))
  {
    Powers();
    SplitDigits(a, b, 3, 3);
    SplitDigits(a * 1_000 + b, c, 6, 3);
  }

  lemma FractionInGroups(a: nat, b: nat, c: nat, n: nat)
    requires a < 1000 && b < 1000 && c < 1000 && n == a * 1_000_000 + b * 1_000 + c
    ensures Fraction(n) + UTC == Groups(a, b, c)
  {
    GroupArithmetic(a, b, c, n);
    if n == 0 {
      assert "" + UTC == UTC;
    } else if b == 0 && c == 0 {
      Shown3(a, Fraction(n));
    } else if c == 0 {
      Shown6(n / 1_000, a, b, Fraction(n));
    } else {
      Shown9(n, a, b, c, Fraction(n));
    }
  }

  lemma InGroups(n: nat) returns (a: nat, b: nat, c: nat)
    requires n < 1_000_000_000
    ensures a < 1000 && b < 1000 && c < 1000 && n == a * 1_000_000 + b * 1_000 + c
  {
    var rest := n / 1_000;
    a, b, c := rest / 1_000, rest % 1_000, n % 1_000;
  }

  /** The offset's sign sorts before any digit and before the point. */
  lemma SignFirst(c: char, rest: string)
    requires c > '+'
    ensures TextBefore(UTC, [c] + rest) && !TextBefore([c] + rest, UTC)
  {
  }

  lemma Groups1InOrder(c: nat, z: nat)
    requires c < 1000 && z < 1000
    ensures TextBefore(Groups1(c), Groups1(z)) <==> c < z
  {
    Powers();
    if c != 0 && z != 0 {
      NumberFirst(c, z, 3, UTC, UTC);
      SamePrefix(UTC, "", "");
    } else {
      DigitsFollowSign(c, UTC);
      DigitsFollowSign(z, UTC);
    }
  }

  lemma DigitsFollowSign(n: nat, rest: string)
    ensures TextBefore(UTC, Digits(n, 3) + rest) && !TextBefore(Digits(n, 3) + rest, UTC) && !TextBefore(UTC, UTC)
  {
    var s := Digits(n, 3) + rest;
    assert s == [s[0]] + s[1..];
    SignFirst(s[0], s[1..]);
    SamePrefix(UTC, "", "");
  }

  lemma Groups2InOrder(b: nat, c: nat, y: nat, z: nat)
    requires b < 1000 && c < 1000 && y < 1000 && z < 1000
    ensures TextBefore(Groups2(b, c), Groups2(y, z)) <==> b < y || (b == y && c < z)
  {
    Powers();
    Groups1InOrder(c, z);
    NumberFirst(b, y, 3, Groups1(c), Groups1(z));
    DigitsFollowSign(b, Groups1(c));
    DigitsFollowSign(y, Groups1(z));
  }

  lemma GroupsInOrder(a: nat, b: nat, c: nat, x: nat, y: nat, z: nat)
    requires a < 1000 && b < 1000 && c < 1000 && x < 1000 && y < 1000 && z < 1000
    ensures TextBefore(Groups(a, b, c), Groups(x, y, z)) <==> a < x || (a == x && (b < y || (b == y && c < z)))
  {
    Powers();
    Groups2InOrder(b, c, y, z);
    SeparatedNumber('.', a, x, 3, Groups2(b, c), Groups2(y, z));
    SignFirst('.', Digits(a, 3) + Groups2(b, c));
    SignFirst('.', Digits(x, 3) + Groups2(y, z));
    DigitsFollowSign(0, "");
  }

  /** Fractions of any two of the lengths 0, 3, 6 and 9 compare like their values. */
  lemma FractionsInOrder(n: nat, m: nat)
    requires n < 1_000_000_000 && m < 1_000_000_000
    ensures TextBefore(Fraction(n) + UTC, Fraction(m) + UTC) <==> n < m
  {
    var a, b, c := InGroups(n);
    var x, y, z := InGroups(m);
    FractionInGroups(a, b, c, n);
    FractionInGroups(x, y, z, m);
    GroupsInOrder(a, b, c, x, y, z);
  }

  // ---- Whole timestamps ---------------------------------------------------------------------

  lemma ClocksInOrder(a: Moment, b: Moment)
    requires ValidMoment(a) && ValidMoment(b)
    ensures TextBefore(ClockText(a), ClockText(b)) <==> TimeBefore(a, b)
  {
    Powers();
    var fa, fb := Fraction(a.nano) + UTC, Fraction(b.nano) + UTC;
    FractionsInOrder(a.nano, b.nano);
    SeparatedNumber(':', a.second, b.second, 2, fa, fb);
    var sa, sb := [':'] + (Digits(a.second, 2) + fa), [':'] + (Digits(b.second, 2) + fb);
    SeparatedNumber(':', a.minute, b.minute, 2, sa, sb);
    NumberFirst(a.hour, b.hour, 2, [':'] + (Digits(a.minute, 2) + sa), [':'] + (Digits(b.minute, 2) + sb));
  }

  lemma AfterYearInOrder(a: Moment, b: Moment)
    requires ValidMoment(a) && ValidMoment(b) && a.date.year == b.date.year
    ensures TextBefore(AfterYear(a), AfterYear(b)) <==> MomentBefore(a, b)
  {
    Powers();
    ClocksInOrder(a, b);
    SamePrefix(['T'], ClockText(a), ClockText(b));
    var ta, tb := ['T'] + ClockText(a), ['T'] + ClockText(b);
    SeparatedNumber('-', a.date.day, b.date.day, 2, ta, tb);
    SeparatedNumber('-', a.date.month, b.date.month, 2,
                    ['-'] + (Digits(a.date.day, 2) + ta), ['-'] + (Digits(b.date.day, 2) + tb));
  }

  /** For four-digit years and all lengths of the fraction, texts compare like the instants they show. */
  lemma TextOrderIsTimeOrder(a: Moment, b: Moment)
    requires ValidMoment(a) && ValidMoment(b) && FourDigitYear(a.date) && FourDigitYear(b.date)
    ensures TextBefore(ToRfc3339(a), ToRfc3339(b)) <==> InstantOf(a) < InstantOf(b)
    ensures ToRfc3339(a) == ToRfc3339(b) <==> InstantOf(a) == InstantOf(b)
  {
    Powers();
    InstantsOrderMoments(a, b);
    InstantsOrderMoments(b, a);
    NumberFirst(a.date.year, b.date.year, 4, AfterYear(a), AfterYear(b));
    NumberFirst(b.date.year, a.date.year, 4, AfterYear(b), AfterYear(a));
    if a.date.year == b.date.year {
      AfterYearInOrder(a, b);
      AfterYearInOrder(b, a);
    }
    Irreflexive(ToRfc3339(a));
  }

  lemma Irreflexive(a: string)
    ensures !TextBefore(a, a)
  {
  }

  /** `<=` on the texts, as the stores' filters use it. */
  predicate TextAtMost(a: string, b: string) {
    a == b || TextBefore(a, b)
  }

  /** A cutoff on the texts selects what the cutoff on the instants selects, against a timestamp of
      a four-digit year exactly when the other year has no more than four digits: a later year's
      sign sorts before every digit. */
  lemma CutoffExactly(a: Moment, b: Moment)
    requires ValidMoment(a) && ValidMoment(b) && FourDigitYear(a.date)
    ensures (TextAtMost(ToRfc3339(a), ToRfc3339(b)) <==> InstantOf(a) <= InstantOf(b)) <==> b.date.year <= 9999
  {
    if FourDigitYear(b.date) {
      TextOrderIsTimeOrder(a, b);
    } else {
      InstantsOrderMoments(a, b);
      InstantsOrderMoments(b, a);
      var s, t := ToRfc3339(a), ToRfc3339(b);
      assert IsDigit(s[0]) && t[0] in {'+', '-'} && t[0] < '0';
    }
  }
}
