/**
 * `std::to_string` on integers: the shortest decimal text, with a leading
 * '-' for a negative number. Both the parser's and the diagnostic sink's
 * messages print numbers this way.
 */
module Decimal {
  import opened Values

  function Digit(d: nat): (c: char)
    requires d < 10
    ensures IsDigit(c) && c as int - '0' as int == d
  {
    ('0' as int + d) as char
  }

  /** The decimal digits of `n`, most significant first, with no leading zero. */
  function NatText(n: nat): (s: string)
    ensures |s| >= 1 && (forall i :: 0 <= i < |s| ==> IsDigit(s[i]))
    ensures |s| > 1 ==> s[0] != '0'
  {
    if n < 10 then [Digit(n)] else NatText(n / 10) + [Digit(n % 10)]
  }

  function IntText(i: int): (s: string)
    ensures |s| >= 1
    ensures i < 0 <==> s[0] == '-'
  {
    if i < 0 then "-" + NatText(-i) else NatText(i)
  }

  /** Reading the digits back gives the number. */
  lemma {:induction false} NatTextValue(n: nat)
    ensures DigitsValue(NatText(n)) == n
  {
    var s := NatText(n);
    if n >= 10 {
      NatTextValue(n / 10);
      assert s[..|s| - 1] == NatText(n / 10);
    }
  }

  lemma {:induction false} AllDigitsRun(u: string)
    requires forall i :: 0 <= i < |u| ==> IsDigit(u[i])
    ensures DigitRun(u) == |u|
  {
    if |u| > 0 {
      AllDigitsRun(u[1..]);
    }
  }

  /** `to_string` and then `>> int` round-trip: the text reads back as the same `int`. */
  lemma IntTextReads(i: Int32)
    ensures ReadInt(IntText(i)) == Ok(Int(i))
  {
    var s := IntText(i);
    var m: nat := if i < 0 then -(i as int) else i;
    var digits := NatText(m);
    NatTextValue(m);
    AllDigitsRun(digits);
    assert !IsSpace(s[0]) by {
      if i < 0 { assert s[0] == '-'; } else { assert s[0] == digits[0] && IsDigit(digits[0]); }
    }
    assert SpaceRun(s) == 0;
    assert s[0..] == s;
    if i < 0 {
      assert s[1..] == digits;
    } else {
      assert s == digits && s[0] != '-' && s[0] != '+';
    }
    assert digits[..|digits|] == digits;
  }

  /** A run of `k` digits is below 10^k. */
  lemma {:induction false} DigitsBelow(s: string)
    requires forall i :: 0 <= i < |s| ==> IsDigit(s[i])
    ensures DigitsValue(s) < Pow10(|s|)
  {
    if |s| > 0 {
      DigitsBelow(s[..|s| - 1]);
    }
  }

  /** With a fraction below one unit, a scaled number is below a whole threshold exactly when its integer part is. */
  lemma ScaledBelow(w: nat, f: nat, t: nat, p: nat)
    requires f < p
    ensures w * p + f < t * p <==> w < t
  {
    Distribute(t, w, p);
    if w < t {
      MulAtLeast(t - w, p);
    } else {
      MulNonNegative(w - t, p);
    }
  }

  lemma Distribute(x: int, y: int, p: int)
    ensures (x - y) * p == x * p - y * p
  {
  }

  lemma MulNonNegative(x: nat, p: nat)
    ensures x * p >= 0
  {
  }

  /** How `>> float` reads a literal as the lexer makes it: digits `a`, a point and digits `b`. */
  lemma ReadFloatLiteral(a: string, b: string)
    requires |a| > 0 && (forall i :: 0 <= i < |a| ==> IsDigit(a[i])) && (forall i :: 0 <= i < |b| ==> IsDigit(b[i]))
    ensures ReadFloat(a + "." + b) ==
      if DigitsValue(a) >= FloatOverflow then Fail("Failed to convert string to float.") else Ok(Float)
  {
    LiteralScan(a, b);
  }

  /** Where the scans of `>> float` stop in such a literal. */
  lemma LiteralScan(a: string, b: string)
    requires |a| > 0 && (forall i :: 0 <= i < |a| ==> IsDigit(a[i])) && (forall i :: 0 <= i < |b| ==> IsDigit(b[i]))
    ensures var s := a + "." + b;
      SpaceRun(s) == 0 && s[0] != '-' && s[0] != '+' && DigitRun(s) == |a| && s[|a|] == '.'
      && s[..|a|] == a && DigitRun(s[|a| + 1..]) == |b| && |a| + 1 + |b| == |s|
  {
    var s := a + "." + b;
    assert s[0] == a[0];
    assert !IsSpace(s[0]);
    var n := DigitRun(s);
    assert s[|a|] == '.';
    assert n == |a|;
    assert s[n + 1..] == b && s[..n] == a;
    AllDigitsRun(b);
  }

  /**
   * A float literal as the lexer makes it, digits `a`, a point and digits
   * `b`, converts exactly when its value a.b is below the overflow
   * threshold, and otherwise fails with the conversion error; every literal
   * with at most 38 digits before the point converts.
   */
  lemma FloatLiteralRange(a: string, b: string)
    requires |a| > 0 && (forall i :: 0 <= i < |a| ==> IsDigit(a[i])) && (forall i :: 0 <= i < |b| ==> IsDigit(b[i]))
    ensures var r := ReadFloat(a + "." + b);
      (r.Ok? <==> DigitsValue(a) * Pow10(|b|) + DigitsValue(b) < FloatOverflow * Pow10(|b|))
      && (r.Err? ==> r == Fail("Failed to convert string to float."))
    ensures |a| <= 38 ==> ReadFloat(a + "." + b) == Ok(Float)
  {
    ReadFloatLiteral(a, b);
    DigitsBelow(b);
    ScaledBelow(DigitsValue(a), DigitsValue(b), FloatOverflow, Pow10(|b|));
    if |a| <= 38 {
      DigitsBelow(a);
      PowersOfTen(|a|, 38);
      Pow10Below39();
    }
  }

  lemma {:induction false} Pow10Add(i: nat, j: nat)
    ensures Pow10(i + j) == Pow10(i) * Pow10(j)
  {
    if i > 0 {
      Pow10Add(i - 1, j);
    }
  }

  /** 10^38, the largest power of ten below the overflow threshold. */
  lemma Pow10Below39()
    ensures Pow10(38) == 100000000000000000000000000000000000000 < FloatOverflow
  {
    assert Pow10(3) == 1000;
    Pow10Add(3, 3);
    Pow10Add(6, 6);
    Pow10Add(12, 12);
    Pow10Add(24, 12);
    Pow10Add(36, 2);
  }

  lemma {:induction false} PowersOfTen(j: nat, k: nat)
    requires j <= k
    ensures Pow10(j) <= Pow10(k)
  {
    if j < k {
      PowersOfTen(j, k - 1);
    }
  }

  /** A run of `k` digits with no leading zero is at least 10^(k-1). */
  lemma {:induction false} DigitsAtLeast(s: string)
    requires |s| > 0 && s[0] != '0' && (forall i :: 0 <= i < |s| ==> IsDigit(s[i]))
    ensures DigitsValue(s) >= Pow10(|s| - 1)
  {
    if |s| > 1 {
      DigitsAtLeast(s[..|s| - 1]);
    }
  }

  /** A float literal with 40 or more digits before the point and no leading zero is past FLT_MAX: its conversion fails. */
  lemma LongFloatLiteralFails(a: string, b: string)
    requires |a| >= 40 && a[0] != '0'
    requires (forall i :: 0 <= i < |a| ==> IsDigit(a[i])) && (forall i :: 0 <= i < |b| ==> IsDigit(b[i]))
    ensures ReadFloat(a + "." + b) == Fail("Failed to convert string to float.")
  {
    ReadFloatLiteral(a, b);
    DigitsAtLeast(a);
    PowersOfTen(39, |a| - 1);
    Pow10Below39();
  }
}
