/**
 * Run-time values of KMSL, the ways a run can stop, and the C++ integer and
 * string operations that both interpreters build on.
 *
 * A value is a `std::variant<bool, int, float, std::string>`; `bool` is its
 * first alternative, so a default-constructed value is `Bool(false)`.
 * A float's magnitude is not modelled: `Float` only records that the value
 * is a float. What is worked out is how integers round to floats: whether
 * a float literal is past the largest float, and what an int becomes when it
 * is converted to a `float`.
 */
module Values {

  type Int32 = x: int | -0x8000_0000 <= x <= 0x7FFF_FFFF

  datatype Value = Bool(b: bool) | Int(i: Int32) | Float | Str(s: string)

  /** `variant()`: the value every statement-like node evaluates to. */
  const Default: Value := Bool(false)

  /** Why a run stopped before finishing. */
  datatype Fault =
    /** A `std::runtime_error`; nothing catches it, so it ends the run. */
    | RuntimeError(msg: string)
    /** The C++ program has undefined behaviour at this point. */
    | Undefined(what: string)
    /** The outcome depends on a float's magnitude or on a device or console. */
    | Unmodelled(what: string)
    /** A loop ran out of the iteration budget the model was given. */
    | OutOfFuel

  datatype Result<T> = Ok(value: T) | Err(fault: Fault)
  {
    predicate IsFailure() { Err? }

    function PropagateFailure<U>(): Result<U>
      requires Err?
    {
      Err(fault)
    }

    function Extract(): T
      requires Ok?
    {
      value
    }
  }

  function Fail<T>(msg: string): Result<T>
  {
    Err(RuntimeError(msg))
  }

  /** A possibly missing value: a null pointer, an `end()` iterator. */
  datatype Option<T> = None | Some(value: T)

  // ------------------------------------------------------------ C++ `int`

  predicate InRange(x: int)
  {
    -0x8000_0000 <= x <= 0x7FFF_FFFF
  }

  /** An `int` result; signed overflow is undefined behaviour. */
  function Checked(x: int): (r: Result<Value>)
    ensures r.Ok? <==> InRange(x)
    ensures r.Ok? ==> r.value == Int(x)
  {
    if InRange(x) then Ok(Int(x)) else Err(Undefined("signed integer overflow"))
  }

  function Abs(x: int): nat
  {
    if x < 0 then -x else x
  }

  /** C++ `a / b` on integers: the quotient rounded toward zero. */
  function TruncDiv(a: int, b: int): int
    requires b != 0
  {
    var q := Abs(a) / Abs(b);
    if (a < 0) == (b < 0) then q else -q
  }

  /** C++ `a % b` on integers: the remainder that goes with `TruncDiv`. */
  function TruncRem(a: int, b: int): int
    requires b != 0
  {
    a - b * TruncDiv(a, b)
  }

  /**
   * The guarantees the C++ standard gives for integer division:
   * `(a / b) * b + a % b == a`, the remainder is smaller than the divisor in
   * magnitude and has the sign of the dividend, and the quotient never
   * overshoots.
   */
  lemma TruncDivision(a: int, b: int)
    requires b != 0
    ensures b * TruncDiv(a, b) + TruncRem(a, b) == a
    ensures Abs(TruncRem(a, b)) < Abs(b)
    ensures a >= 0 ==> TruncRem(a, b) >= 0
    ensures a <= 0 ==> TruncRem(a, b) <= 0
    ensures Abs(b * TruncDiv(a, b)) <= Abs(a)
  {
    var A, B := Abs(a), Abs(b);
    var q, m := A / B, A % B;
    var p := B * q;
    TruncProduct(a, b);
    SignedParts(a, B, p, m, b * TruncDiv(a, b), TruncRem(a, b));
  }

  /** The division facts once the product is a plain number `p`, with |a| == p + m. */
  lemma SignedParts(a: int, B: nat, p: nat, m: int, bt: int, rem: int)
    requires Abs(a) == p + m && 0 <= m < B
    requires bt == (if a >= 0 then p as int else -(p as int)) && rem == a - bt
    ensures bt + rem == a && Abs(rem) < B && Abs(bt) <= Abs(a)
    ensures a >= 0 ==> rem >= 0
    ensures a <= 0 ==> rem <= 0
  {
  }

  /** b * TruncDiv(a, b) is |b| * (|a| / |b|), carrying the sign of a. */
  lemma TruncProduct(a: int, b: int)
    requires b != 0
    ensures var qb := Abs(b) * (Abs(a) / Abs(b));
      b * TruncDiv(a, b) == if a >= 0 then qb else -qb
  {
    var B, q := Abs(b), Abs(a) / Abs(b);
    MulNegate(B, q);
    if (a < 0) == (b < 0) {
      assert TruncDiv(a, b) == q;
    } else {
      assert TruncDiv(a, b) == -(q as int);
    }
  }

  lemma MulAtLeast(p: nat, q: nat)
    requires p >= 1
    ensures p * q >= q
  {
    assert p * q == (p - 1) * q + q;
  }

  lemma MulNegate(x: int, y: int)
    ensures (-x) * y == -(x * y) && x * (-y) == -(x * y) && (-x) * (-y) == x * y
  {
  }

  /** `%` on `int`; a zero divisor or INT_MIN % -1 is undefined behaviour. */
  function Rem(a: Int32, b: Int32): (r: Result<Value>)
    ensures r.Ok? <==> b != 0 && !(a == -0x8000_0000 && b == -1)
  {
    if b == 0 then Err(Undefined("integer remainder by zero"))
    else if a == -0x8000_0000 && b == -1 then Err(Undefined("INT_MIN % -1"))
    else TruncDivision(a, b); Ok(Int(TruncRem(a, b)))
  }

  /** `/` on `int`, truncating; a zero divisor or INT_MIN / -1 is undefined behaviour. */
  function Quot(a: Int32, b: Int32): (r: Result<Value>)
    ensures r.Ok? <==> b != 0 && !(a == -0x8000_0000 && b == -1)
    ensures r.Ok? ==> r.value.Int? && r.value.i == TruncDiv(a, b)
  {
    if b == 0 then Err(Undefined("integer division by zero"))
    else
      TruncDivision(a, b);
      if a == -0x8000_0000 && b == -1 then Err(Undefined("INT_MIN / -1"))
      else Checked(TruncDiv(a, b))
  }

  /** The 32-bit two's-complement pattern of an `int`. */
  function ToBits(x: Int32): bv32
  {
    (if x < 0 then x + 0x1_0000_0000 else x) as bv32
  }

  function FromBits(w: bv32): Int32
  {
    if w as int < 0x8000_0000 then w as int else w as int - 0x1_0000_0000
  }

  function BitAnd(a: Int32, b: Int32): Int32 { FromBits(ToBits(a) & ToBits(b)) }
  function BitOr(a: Int32, b: Int32): Int32 { FromBits(ToBits(a) | ToBits(b)) }
  function BitXor(a: Int32, b: Int32): Int32 { FromBits(ToBits(a) ^ ToBits(b)) }

  /** `~a`, which in two's complement is `-a - 1`. */
  function BitNot(a: Int32): (r: Int32)
    ensures r == -(a as int) - 1
  {
    -(a as int) - 1
  }

  function Pow2(k: nat): (p: nat)
    ensures p >= 1
  {
    if k == 0 then 1 else 2 * Pow2(k - 1)
  }

  // ------------------------------------------------------------- float rounding

  /**
   * The gap between neighbouring single-precision floats near a magnitude
   * `n`: a float has a 24-bit significand, so the integers below 2^24 are
   * all floats and the gap doubles with each power of two above that.
   */
  function FloatSpacing(n: nat): (u: nat)
    ensures u >= 1
    ensures n < 0x100_0000 ==> u == 1
    ensures n >= 0x100_0000 ==> 0x80_0000 * u <= n < 0x100_0000 * u
  {
    if n < 0x100_0000 then 1 else 2 * FloatSpacing(n / 2)
  }

  /** The number of steps of size `u` nearest to `n`, a tie going to the even count. */
  function NearestSteps(n: nat, u: nat): (k: nat)
    requires u >= 1
    ensures 2 * Abs(k * u - n) <= u
  {
    var q, rem := n / u, n % u;
    DivMod(n, u);
    NextMultiple(q, u);
    if 2 * rem < u || (2 * rem == u && q % 2 == 0) then q else q + 1
  }

  lemma DivMod(n: nat, u: nat)
    requires u >= 1
    ensures n == (n / u) * u + n % u && 0 <= n % u < u
  {
  }

  lemma NextMultiple(q: int, u: int)
    ensures (q + 1) * u == q * u + u
  {
  }

  /**
   * The single-precision float nearest to the integer `x` (round to
   * nearest, ties to even), itself an integer: a whole number of spacings
   * from zero, at most half a spacing from `x`, of the same sign, and `x`
   * itself below 2^24.
   */
  function RoundToFloat(x: int): (r: int)
    ensures -0x100_0000 < x < 0x100_0000 ==> r == x
    ensures 2 * Abs(r - x) <= FloatSpacing(Abs(x))
    ensures (x >= 0) == (r >= 0)
  {
    var m := NearestSteps(Abs(x), FloatSpacing(Abs(x))) * FloatSpacing(Abs(x));
    if x >= 0 then m else -m
  }

  /** Rounding an int to a float moves it by at most one part in 2^24: what `static_cast<float>` costs. */
  lemma FloatRoundingError(x: int)
    ensures 0x100_0000 * Abs(RoundToFloat(x) - x) <= Abs(x)
  {
    var n, u := Abs(x), FloatSpacing(Abs(x));
    if n >= 0x100_0000 {
      assert 0x100_0000 * Abs(RoundToFloat(x) - x) <= 0x80_0000 * u;
    }
  }

  /**
   * `a << k`: the value congruent to a * 2^k modulo 2^32 (the C++20 rule).
   * A count outside 0..31 is undefined behaviour.
   */
  function ShiftLeft(a: Int32, k: Int32): Result<Value>
  {
    if k < 0 || k >= 32 then Err(Undefined("shift count out of range"))
    else Ok(Int(FromBits(ToBits(a) << k)))
  }

  /** `a >> k`: the arithmetic shift, which rounds a / 2^k down. */
  function ShiftRight(a: Int32, k: Int32): (r: Result<Value>)
    ensures r.Ok? <==> 0 <= k < 32
    ensures r.Ok? ==> 0 <= k && r.value.Int? && r.value.i == a / Pow2(k)
  {
    if k < 0 || k >= 32 then Err(Undefined("shift count out of range"))
    else
      var p := Pow2(k as nat);
      DivideByPower(a, p);
      Ok(Int(a / p))
  }

  lemma DivideByPower(a: Int32, p: nat)
    requires p >= 1
    ensures InRange(a / p)
  {
    var q, m := a / p, a % p;
    assert a == p * q + m && 0 <= m < p;
    if a >= 0 {
      assert q >= 0;
      MulAtLeast(p, q);
    } else {
      assert q < 0;
      MulAtLeast(p, -q);
      MulNegate(p, -q);
    }
  }

  // -------------------------------------------------------------- strings

  /** `n` copies of `s` one after another. */
  function Repeat(s: string, n: nat): (r: string)
    ensures |r| == n * |s|
  {
    if n == 0 then "" else Repeat(s, n - 1) + s
  }

  /** Copy `k` of `s` sits at offset k * |s| of `Repeat(s, n)`. */
  lemma {:induction false} RepeatHoldsCopy(s: string, n: nat, k: nat)
    requires k < n
    ensures k * |s| + |s| <= n * |s|
    ensures Repeat(s, n)[k * |s|..k * |s| + |s|] == s
  {
    var shorter := Repeat(s, n - 1);
    var lo := k * |s|;
    NextMultiple(k, |s|);
    NextMultiple(n - 1, |s|);
    assert Repeat(s, n) == shorter + s;
    assert |shorter| == (n - 1) * |s|;
    if k < n - 1 {
      RepeatHoldsCopy(s, n - 1, k);
      assert lo + |s| <= |shorter|;
      assert (shorter + s)[lo..lo + |s|] == shorter[lo..lo + |s|];
    } else {
      assert lo == |shorter|;
      assert (shorter + s)[lo..lo + |s|] == s;
    }
  }

  /** `std::string` ordering: by character code, a proper prefix first. */
  function LexLess(a: string, b: string): bool
  {
    if |a| == 0 then |b| > 0
    else if |b| == 0 then false
    else if a[0] != b[0] then a[0] < b[0]
    else LexLess(a[1..], b[1..])
  }

  /** Exactly one of a < b, a == b and b < a holds. */
  lemma {:induction false} LexTrichotomy(a: string, b: string)
    ensures LexLess(a, b) || a == b || LexLess(b, a)
    ensures !(LexLess(a, b) && LexLess(b, a))
    ensures !LexLess(a, a)
  {
    if |a| > 0 && |b| > 0 && a[0] == b[0] {
      LexTrichotomy(a[1..], b[1..]);
      if a[1..] == b[1..] {
        assert a == [a[0]] + a[1..] && b == [b[0]] + b[1..];
      }
    }
    if |a| > 0 {
      LexTrichotomy(a[1..], a[1..]);
    }
  }

  lemma {:induction false} LexTransitive(a: string, b: string, c: string)
    requires LexLess(a, b) && LexLess(b, c)
    ensures LexLess(a, c)
  {
    if |a| > 0 && a[0] == b[0] && b[0] == c[0] {
      LexTransitive(a[1..], b[1..], c[1..]);
    }
  }

  /** A proper prefix orders first: LexLess(a, a + t) for non-empty t. */
  lemma {:induction false} LexPrefix(a: string, t: string)
    requires |t| > 0
    ensures LexLess(a, a + t)
  {
    if |a| > 0 {
      assert (a + t)[1..] == a[1..] + t;
      LexPrefix(a[1..], t);
    }
  }

  // ------------------------------------------------------------- literals

  predicate IsSpace(c: char)
  {
    c in {' ', '\t', '\n', '\r', '\U{0B}', '\U{0C}'}
  }

  predicate IsDigit(c: char)
  {
    '0' as int <= c as int <= '9' as int
  }

  /** The number of leading characters satisfying IsSpace. */
  function SpaceRun(s: string): (n: nat)
    ensures n <= |s|
    ensures forall i :: 0 <= i < n ==> IsSpace(s[i])
    ensures n < |s| ==> !IsSpace(s[n])
  {
    if |s| > 0 && IsSpace(s[0]) then 1 + SpaceRun(s[1..]) else 0
  }

  /** The number of leading decimal digits. */
  function DigitRun(s: string): (n: nat)
    ensures n <= |s|
    ensures forall i :: 0 <= i < n ==> IsDigit(s[i])
    ensures n < |s| ==> !IsDigit(s[n])
  {
    if |s| > 0 && IsDigit(s[0]) then 1 + DigitRun(s[1..]) else 0
  }

  /** The value of a run of decimal digits. */
  function DigitsValue(s: string): nat
    requires forall i :: 0 <= i < |s| ==> IsDigit(s[i])
  {
    if |s| == 0 then 0
    else
      var c := s[|s| - 1];
      assert IsDigit(c);
      10 * DigitsValue(s[..|s| - 1]) + (c as int - '0' as int)
  }

  /**
   * `stringstream >> int` followed by a check of `fail()`: leading white
   * space, an optional sign and at least one digit; reading stops at the
   * first non-digit, and a value outside the `int` range fails.
   */
  function ReadInt(text: string): (r: Result<Value>)
  {
    var t := text[SpaceRun(text)..];
    var negative := |t| > 0 && t[0] == '-';
    var u := if |t| > 0 && (t[0] == '-' || t[0] == '+') then t[1..] else t;
    var n := DigitRun(u);
    if n == 0 then Fail("Failed to convert string to int.")
    else
      var magnitude := DigitsValue(u[..n]);
      var v: int := if negative then -(magnitude as int) else magnitude;
      if InRange(v) then Ok(Int(v)) else Fail("Failed to convert string to int.")
  }

  function Pow10(k: nat): (p: nat)
    ensures p >= 1
  {
    if k == 0 then 1 else 10 * Pow10(k - 1)
  }

  /**
   * The least magnitude that `strtof` rounds to infinity: halfway between
   * FLT_MAX = 2^128 - 2^104 and 2^128, where the tie goes up to the even
   * significand.
   */
  const FloatOverflow: nat := 340282356779733661637539395458142568448

  /**
   * `stringstream >> float` followed by a check of `fail()`: leading white
   * space, an optional sign, then digits with an optional decimal point and
   * at least one digit in all. A number that rounds to infinity sets
   * `failbit`. Since the fraction is below 1 and the threshold is a whole
   * number, that happens exactly when the integer part reaches
   * `FloatOverflow`. A text with an exponent marker after the number is not
   * decided (the lexer's float literals have none). The magnitude is not
   * kept.
   */
  function ReadFloat(text: string): (r: Result<Value>)
    ensures r.Ok? ==> r.value == Float
    ensures r.Err? ==> r == Fail("Failed to convert string to float.") || r.fault.Unmodelled?
  {
    var t := text[SpaceRun(text)..];
    var u := if |t| > 0 && (t[0] == '-' || t[0] == '+') then t[1..] else t;
    var n := DigitRun(u);
    var point := n < |u| && u[n] == '.';
    var m := if point then DigitRun(u[n + 1..]) else 0;
    var end := if point then n + 1 + m else n;
    if n == 0 && m == 0 then Fail("Failed to convert string to float.")
    else if end < |u| && (u[end] == 'e' || u[end] == 'E') then Err(Unmodelled("a float with an exponent"))
    else if DigitsValue(u[..n]) >= FloatOverflow then Fail("Failed to convert string to float.")
    else Ok(Float)
  }
}
