/** Decimal digits and the byte order of texts. */
module DigitText {
  import opened Ledger

  /** Byte-wise order, a proper prefix first. */
  predicate TextBefore(a: string, b: string) {
    b != [] && (a == [] || a[0] < b[0] || (a[0] == b[0] && TextBefore(a[1..], b[1..])))
  }

  predicate IsDigit(c: char) {
    '0' <= c <= '9'
  }

  function DigitChar(d: nat): (c: char)
    requires d < 10
    ensures IsDigit(c)
  {
    '0' + d as char
  }

  function DigitValue(c: char): (d: nat)
    requires IsDigit(c)
    ensures d < 10 && DigitChar(d) == c
  {
    (c - '0') as nat
  }

  function Pow10(w: nat): (p: nat)
    ensures p > 0
  {
    if w == 0 then 1 else 10 * Pow10(w - 1)
  }

  /** `n` with exactly `w` digits; digits that do not fit are dropped on the left. */
  function Digits(n: nat, w: nat): (s: string)
    ensures |s| == w && forall k :: 0 <= k < w ==> IsDigit(s[k])
  {
    if w == 0 then "" else Digits(n / 10, w - 1) + [DigitChar(n % 10)]
  }

  predicate AllDigits(s: string) {
    forall k :: 0 <= k < |s| ==> IsDigit(s[k])
  }

  function Value(s: string): nat
    requires AllDigits(s)
  {
    if s == [] then 0 else 10 * Value(s[..|s| - 1]) + DigitValue(s[|s| - 1])
  }

  lemma {:induction false} ValueOfDigits(n: nat, w: nat)
    requires n < Pow10(w)
    ensures Value(Digits(n, w)) == n
  {
    if w > 0 {
      ValueOfDigits(n / 10, w - 1);
      assert Digits(n, w)[..w - 1] == Digits(n / 10, w - 1);
      assert DigitValue(DigitChar(n % 10)) == n % 10;
    }
  }

  lemma ValueOfOneMore(p: string, c: char)
    requires AllDigits(p) && IsDigit(c)
    ensures AllDigits(p + [c]) && Value(p + [c]) == 10 * Value(p) + DigitValue(c)
  {
    assert (p + [c])[..|p|] == p;
  }

  lemma {:induction false} DigitsOfValue(s: string)
    requires AllDigits(s)
    ensures Value(s) < Pow10(|s|) && Digits(Value(s), |s|) == s
  {
    if s != [] {
      var p, c := s[..|s| - 1], s[|s| - 1];
      var v, d := Value(p), DigitValue(c);
      DigitsOfValue(p);
      assert s == p + [c];
      ValueOfOneMore(p, c);
      assert (10 * v + d) / 10 == v && (10 * v + d) % 10 == d;
    }
  }

  lemma {:induction false} FirstDigit(n: nat, w: nat)
    requires w > 0 && Pow10(w - 1) <= n < Pow10(w)
    ensures Digits(n, w)[0] != '0'
  {
    if w > 1 {
      FirstDigit(n / 10, w - 1);
      assert Digits(n, w)[0] == Digits(n / 10, w - 1)[0];
    } else {
      assert Digits(n, 1) == [DigitChar(n % 10)];
    }
  }

  lemma {:induction false} SamePrefix(p: string, a: string, b: string)
    ensures TextBefore(p + a, p + b) <==> TextBefore(a, b)
  {
    if p == [] {
      assert p + a == a && p + b == b;
    } else {
      SamePrefix(p[1..], a, b);
      assert (p + a)[1..] == p[1..] + a && (p + b)[1..] == p[1..] + b;
    }
  }

  /** Texts of one length, followed by anything. */
  lemma {:induction false} DecidedEarly(p: string, q: string, a: string, b: string)
    requires |p| == |q| && p != q
    ensures TextBefore(p + a, q + b) <==> TextBefore(p, q)
  {
    if p[0] == q[0] {
      assert p == [p[0]] + p[1..] && q == [q[0]] + q[1..];
      DecidedEarly(p[1..], q[1..], a, b);
      assert (p + a)[1..] == p[1..] + a && (q + b)[1..] == q[1..] + b;
    }
  }

  lemma LastChar(p: string, a: char, b: char)
    ensures TextBefore(p + [a], p + [b]) <==> a < b
  {
    SamePrefix(p, [a], [b]);
  }

  lemma {:induction false} DigitsInOrder(n: nat, m: nat, w: nat)
    requires n < Pow10(w) && m < Pow10(w)
    ensures TextBefore(Digits(n, w), Digits(m, w)) <==> n < m
  {
    if w > 0 {
      var p, q := Digits(n / 10, w - 1), Digits(m / 10, w - 1);
      DigitsInOrder(n / 10, m / 10, w - 1);
      ValueOfDigits(n / 10, w - 1);
      ValueOfDigits(m / 10, w - 1);
      if p == q {
        LastChar(p, DigitChar(n % 10), DigitChar(m % 10));
      } else {
        DecidedEarly(p, q, [DigitChar(n % 10)], [DigitChar(m % 10)]);
      }
    }
  }

  /** A fixed-width number decides the order of two texts, unless it is the same in both. */
  lemma NumberFirst(n: nat, m: nat, w: nat, a: string, b: string)
    requires n < Pow10(w) && m < Pow10(w)
    ensures TextBefore(Digits(n, w) + a, Digits(m, w) + b) <==> n < m || (n == m && TextBefore(a, b))
  {
    if n == m {
      SamePrefix(Digits(n, w), a, b);
    } else {
      ValueOfDigits(n, w);
      ValueOfDigits(m, w);
      DigitsInOrder(n, m, w);
      DecidedEarly(Digits(n, w), Digits(m, w), a, b);
    }
  }

  /** The same, behind a separator. */
  lemma SeparatedNumber(c: char, n: nat, m: nat, w: nat, a: string, b: string)
    requires n < Pow10(w) && m < Pow10(w)
    ensures TextBefore([c] + (Digits(n, w) + a), [c] + (Digits(m, w) + b)) <==> n < m || (n == m && TextBefore(a, b))
  {
    SamePrefix([c], Digits(n, w) + a, Digits(m, w) + b);
    NumberFirst(n, m, w, a, b);
  }

  // ---- Digits inside a text -----------------------------------------------------------------

  predicate DigitsAt(s: string, i: nat, n: nat) {
    i + n <= |s| && forall k :: i <= k < i + n ==> '0' <= s[k] <= '9'
  }

  function NumberAt(s: string, i: nat, n: nat): int
    requires i + n <= |s|
  {
    if n == 0 then 0 else 10 * NumberAt(s, i, n - 1) + (s[i + n - 1] as int - '0' as int)
  }

  lemma {:induction false} NumberIsValue(s: string, i: nat, n: nat)
    requires DigitsAt(s, i, n)
    ensures AllDigits(s[i..i + n]) && Value(s[i..i + n]) == NumberAt(s, i, n)
  {
    if n > 0 {
      NumberIsValue(s, i, n - 1);
      assert s[i..i + n] == s[i..i + n - 1] + [s[i + n - 1]];
      ValueOfOneMore(s[i..i + n - 1], s[i + n - 1]);
    }
  }

  lemma DigitsThere(s: string, i: nat, n: nat)
    requires i + n <= |s|
    ensures AllDigits(s[i..i + n]) <==> DigitsAt(s, i, n)
  {
    if AllDigits(s[i..i + n]) {
      forall k | i <= k < i + n ensures '0' <= s[k] <= '9' {
        assert s[i..i + n][k - i] == s[k];
      }
    }
  }

  lemma {:induction false} NumberOfPrefix(s: string, t: string, i: nat, n: nat)
    requires i + n <= |s|
    ensures NumberAt(s + t, i, n) == NumberAt(s, i, n) && (DigitsAt(s + t, i, n) <==> DigitsAt(s, i, n))
  {
    if n > 0 {
      NumberOfPrefix(s, t, i, n - 1);
    }
  }

  lemma NumberOfDigits(p: string, v: nat, w: nat, q: string)
    requires v < Pow10(w)
    ensures DigitsAt(p + Digits(v, w) + q, |p|, w) && NumberAt(p + Digits(v, w) + q, |p|, w) == v
  {
    var s := p + Digits(v, w) + q;
    assert s[|p|..|p| + w] == Digits(v, w);
    DigitsThere(s, |p|, w);
    NumberIsValue(s, |p|, w);
    ValueOfDigits(v, w);
  }
}
