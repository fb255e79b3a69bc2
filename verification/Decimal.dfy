/** Decimal text of JavaScript integers (`String(n)`), its zero padding, and the
    code-unit order in which stored ids are compared. */
module Decimal {
  function Digit(d: nat): char
    requires d < 10
  {
    ('0' as int + d) as char
  }

  predicate IsDigit(c: char) {
    '0' <= c <= '9'
  }

  /** `String(n)` of a non-negative integer. */
  function Digits(n: nat): (s: string)
    ensures |s| >= 1
    ensures forall i | 0 <= i < |s| :: IsDigit(s[i])
  {
    if n < 10 then [Digit(n)] else Digits(n / 10) + [Digit(n % 10)]
  }

  /** `String(i)` of any integer. */
  function Text(i: int): string {
    if i < 0 then "-" + Digits(-i) else Digits(i)
  }

  /** The number a digit string denotes; leading zeros are harmless. */
  function Value(s: string): nat
    requires forall i | 0 <= i < |s| :: IsDigit(s[i])
  {
    if s == [] then 0 else
      assert IsDigit(s[|s| - 1]);
      10 * Value(s[..|s| - 1]) + (s[|s| - 1] as int - '0' as int)
  }

  function Pow10(k: nat): nat {
    if k == 0 then 1 else 10 * Pow10(k - 1)
  }

  /** Strict order of strings by code unit, as `<` on JavaScript strings. */
  predicate Precedes(a: string, b: string) {
    b != [] && (a == [] || a[0] < b[0] || (a[0] == b[0] && Precedes(a[1..], b[1..])))
  }

  function Zeros(n: nat): (s: string)
    ensures |s| == n
    ensures forall i | 0 <= i < |s| :: s[i] == '0'
  {
    seq(n, i => '0')
  }

  /** Zeros in front up to a width. */
  function PadStart(s: string, width: nat): string {
    if |s| >= width then s else Zeros(width - |s|) + s
  }

  lemma {:induction false} ValueOfDigits(n: nat)
    ensures Value(Digits(n)) == n
  {
    if n >= 10 {
      ValueOfDigits(n / 10);
      assert Digits(n)[..|Digits(n)| - 1] == Digits(n / 10);
    }
  }

  /** Distinct integers print differently, and no integer prints with a colon or as a word. */
  lemma TextInjective(a: int, b: int)
    requires Text(a) == Text(b)
    ensures a == b
  {
    var x, y := if a < 0 then -a else a, if b < 0 then -b else b;
    ValueOfDigits(x);
    ValueOfDigits(y);
    assert Text(a)[0] == '-' <==> a < 0 by { assert IsDigit(Digits(x)[0]); }
    assert Text(b)[0] == '-' <==> b < 0 by { assert IsDigit(Digits(y)[0]); }
    assert Digits(x) == if a < 0 then Text(a)[1..] else Text(a);
    assert Digits(y) == if b < 0 then Text(b)[1..] else Text(b);
  }

  lemma TextChars(a: int)
    ensures Text(a) != []
    ensures forall i | 0 <= i < |Text(a)| :: IsDigit(Text(a)[i]) || Text(a)[i] == '-'
  {
  }

  lemma {:induction false} ValueOfZeros(n: nat, s: string)
    requires forall i | 0 <= i < |s| :: IsDigit(s[i])
    ensures Value(Zeros(n) + s) == Value(s)
    decreases n + |s|
  {
    if s != [] {
      assert (Zeros(n) + s)[..n + |s| - 1] == Zeros(n) + s[..|s| - 1];
      ValueOfZeros(n, s[..|s| - 1]);
    } else if n > 0 {
      assert (Zeros(n) + s)[..n - 1] == Zeros(n - 1) + [];
      ValueOfZeros(n - 1, []);
    }
  }

  lemma {:induction false} DigitCount(n: nat, k: nat)
    requires k > 0
    ensures |Digits(n)| <= k <==> n < Pow10(k)
  {
    if k == 1 {
      assert Pow10(1) == 10;
    } else if n >= 10 {
      DigitCount(n / 10, k - 1);
    } else {
      DigitCount(n, k - 1);
    }
  }

  lemma {:induction false} PrecedesByLast(a: string, b: string)
    requires |a| == |b| > 0
    ensures Precedes(a, b) <==>
            Precedes(a[..|a| - 1], b[..|b| - 1]) ||
            (a[..|a| - 1] == b[..|b| - 1] && a[|a| - 1] < b[|b| - 1])
  {
    var x, y := a[..|a| - 1], b[..|b| - 1];
    if |a| > 1 {
      PrecedesByLast(a[1..], b[1..]);
      assert a[1..][..|a| - 2] == x[1..] && b[1..][..|b| - 2] == y[1..];
      assert x == [a[0]] + x[1..] && y == [b[0]] + y[1..];
    } else {
      assert a[1..] == b[1..] == [];
    }
  }

  /** On digit strings of one length, code-unit order is numeric order. */
  lemma {:induction false} PrecedesIsNumeric(a: string, b: string)
    requires |a| == |b|
    requires forall i | 0 <= i < |a| :: IsDigit(a[i])
    requires forall i | 0 <= i < |b| :: IsDigit(b[i])
    ensures Precedes(a, b) <==> Value(a) < Value(b)
    ensures a == b <==> Value(a) == Value(b)
  {
    if a != [] {
      PrecedesByLast(a, b);
      PrecedesIsNumeric(a[..|a| - 1], b[..|b| - 1]);
      assert a == a[..|a| - 1] + [a[|a| - 1]];
      assert b == b[..|b| - 1] + [b[|b| - 1]];
    }
  }

  lemma {:induction false} LeadingDigit(d: nat, k: nat)
    requires 0 < d < 10
    ensures Digits(d * Pow10(k))[0] == Digit(d)
  {
    if k == 0 {
      assert d * Pow10(0) == d;
    } else {
      LeadingDigit(d, k - 1);
      var n := d * Pow10(k - 1);
      PowPositive(k - 1);
      assert d * Pow10(k) == 10 * n by { Regroup(d, Pow10(k - 1)); }
      assert n >= 1 by { ProductPositive(d, Pow10(k - 1)); }
      TimesTen(n);
    }
  }

  lemma TimesTen(n: nat)
    requires n > 0
    ensures Digits(10 * n) == Digits(n) + [Digit(0)]
  {
  }

  lemma Regroup(d: int, p: int)
    ensures d * (10 * p) == 10 * (d * p)
  {
  }

  lemma ProductPositive(d: int, p: int)
    requires d >= 1 && p >= 1
    ensures d * p >= 1
  {
  }

  lemma {:induction false} PowPositive(k: nat)
    ensures Pow10(k) >= 1
  {
    if k > 0 { PowPositive(k - 1); }
  }
}
