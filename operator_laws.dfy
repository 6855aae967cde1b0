/**
 * What the scoped interpreter's operator tables promise, stated per pair of
 * operand types.
 */
module OperatorLaws {
  import opened Tokens
  import opened Values
  import opened Operators

  // ------------------------------------------------------------ Int ⊕ Int

  /** `+ - * % & | ^ << >> //` on two ints give an int, or stop on undefined behaviour; they never throw. */
  lemma IntArithmeticGivesInt(op: TokenType, a: Int32, b: Int32)
    requires op in {PLUS, MINUS, MULTIPLY, MODULO, BIT_AND, BIT_OR, BIT_XOR, BIT_LEFT_SHIFT, BIT_RIGHT_SHIFT, FLOOR}
    ensures var r := Binary(op, Int(a), Int(b));
      (r.Ok? ==> r.value.Int?) && (r.Err? ==> r.fault.Undefined?)
  {
  }

  /** `+`, `-` and `*` are exact whenever the result fits an int. */
  lemma IntArithmeticExact(a: Int32, b: Int32)
    ensures InRange(a + b) ==> Binary(PLUS, Int(a), Int(b)) == Ok(Int(a + b))
    ensures InRange(a - b) ==> Binary(MINUS, Int(a), Int(b)) == Ok(Int(a - b))
    ensures InRange(a * b) ==> Binary(MULTIPLY, Int(a), Int(b)) == Ok(Int(a * b))
    ensures !InRange(a + b) ==> Binary(PLUS, Int(a), Int(b)).Err?
  {
  }

  /** Comparisons and `&&`/`||` on two ints always give a bool, with the C++ meaning (non-zero is true). */
  lemma IntComparisons(a: Int32, b: Int32)
    ensures Binary(LESS_THAN, Int(a), Int(b)) == Ok(Bool(a < b))
    ensures Binary(GREATER_THAN, Int(a), Int(b)) == Ok(Bool(b < a))
    ensures Binary(LESS_THAN_OR_EQUAL, Int(a), Int(b)) == Ok(Bool(!(b < a)))
    ensures Binary(GREATER_THAN_OR_EQUAL, Int(a), Int(b)) == Ok(Bool(!(a < b)))
    ensures Binary(EQUALS, Int(a), Int(b)) == Ok(Bool(a == b))
    ensures Binary(NOT_EQUALS, Int(a), Int(b)) == Ok(Bool(a != b))
    ensures Binary(LOGICAL_AND, Int(a), Int(b)) == Ok(Bool(a != 0 && b != 0))
    ensures Binary(LOGICAL_OR, Int(a), Int(b)) == Ok(Bool(a != 0 || b != 0))
  {
  }

  /** Int `/` Int throws "Division by zero." exactly for a zero divisor and otherwise gives a float. */
  lemma IntDivision(a: Int32, b: Int32)
    ensures Binary(DIVIDE, Int(a), Int(b)) == if b == 0 then Err(RuntimeError("Division by zero.")) else Ok(Float)
  {
  }

  /**
   * Int `//` Int is the C++ truncated quotient q: b * q plus a remainder
   * smaller than |b| with the sign of a gives back a. A zero divisor and
   * INT_MIN // -1 are undefined behaviour.
   */
  lemma IntFloorDivision(a: Int32, b: Int32)
    ensures var r := Binary(FLOOR, Int(a), Int(b));
      (r.Ok? <==> b != 0 && !(a == -0x8000_0000 && b == -1))
      && (r.Ok? ==> r.value.Int? && exists m: int :: b * r.value.i + m == a && Abs(m) < Abs(b) && (a >= 0 ==> m >= 0) && (a <= 0 ==> m <= 0))
  {
    var r := Binary(FLOOR, Int(a), Int(b));
    if r.Ok? {
      TruncDivision(a, b);
      var m := TruncRem(a, b);
      assert b * r.value.i + m == a;
    }
  }

  /** Int `%` Int is the remainder that goes with the truncated quotient; it has the sign of the dividend. */
  lemma IntModulo(a: Int32, b: Int32)
    ensures var r := Binary(MODULO, Int(a), Int(b));
      (r.Ok? <==> b != 0 && !(a == -0x8000_0000 && b == -1))
      && (r.Ok? ==> r.value.Int? && b * TruncDiv(a, b) + r.value.i == a && Abs(r.value.i) < Abs(b)
                    && (a >= 0 ==> r.value.i >= 0) && (a <= 0 ==> r.value.i <= 0))
  {
    if b != 0 {
      TruncDivision(a, b);
    }
  }

  /** Int `>>` rounds down: the result q satisfies q * 2^k <= a < (q + 1) * 2^k. */
  lemma IntShiftRightRoundsDown(a: Int32, k: Int32)
    requires 0 <= k < 32
    ensures var r := Binary(BIT_RIGHT_SHIFT, Int(a), Int(k));
      r.Ok? && r.value.Int? && r.value.i * Pow2(k) <= a < (r.value.i + 1) * Pow2(k)
  {
    var p := Pow2(k);
    assert Binary(BIT_RIGHT_SHIFT, Int(a), Int(k)) == ShiftRight(a, k);
    assert ShiftRight(a, k) == Ok(Int(a / p));
    FloorBounds(a, p);
  }

  lemma FloorBounds(a: int, p: int)
    requires p >= 1
    ensures (a / p) * p <= a < (a / p + 1) * p
  {
    var q, m := a / p, a % p;
    assert a == p * q + m && 0 <= m < p;
    assert (q + 1) * p == q * p + p;
  }

  /** Int `**`, `^^` and, for a positive degree, `%%` give a float; `%%` with a degree <= 0 throws. */
  lemma IntFloatResults(a: Int32, b: Int32)
    ensures Binary(POWER, Int(a), Int(b)) == Ok(Float)
    ensures Binary(LOG, Int(a), Int(b)) == Ok(Float)
    ensures Binary(ROOT, Int(a), Int(b)) ==
      if b <= 0 then Err(RuntimeError("Root degree must be greater than 0.")) else Ok(Float)
  {
  }

  // --------------------------------------------------------- other pairs

  /** Bool ⊕ Bool allows exactly `&& || == != < > <= >=`, ordering false before true. */
  lemma BoolTable(op: TokenType, a: bool, b: bool)
    ensures var r := Binary(op, Bool(a), Bool(b));
      (r.Ok? <==> op.LOGICAL_AND? || op.LOGICAL_OR? || IsComparison(op))
      && (r.Err? ==> r == Err(RuntimeError("Unsupported operation for boolean.")))
    ensures Binary(LESS_THAN, Bool(a), Bool(b)) == Ok(Bool(a == false && b == true))
    ensures Binary(LESS_THAN_OR_EQUAL, Bool(a), Bool(b)) == Ok(Bool(a == false || b == true))
  {
    BoolDispatch(op, a, b);
    BoolDispatch(LESS_THAN, a, b);
    BoolDispatch(LESS_THAN_OR_EQUAL, a, b);
  }

  // Unfolding step for the proofs above: two bools go to the bool table (src/interpreter/Interpreter.cpp:597).
  lemma BoolDispatch(op: TokenType, a: bool, b: bool)
    ensures Binary(op, Bool(a), Bool(b)) == BoolBinary(op, a, b)
  {
  }

  /** String ⊕ String allows `+` and the six comparisons; everything else throws. */
  lemma StringTable(op: TokenType, a: string, b: string)
    ensures var r := Binary(op, Str(a), Str(b));
      (r.Ok? <==> op == PLUS || IsComparison(op))
      && (r.Err? ==> r == Err(RuntimeError("Unsupported operation for strings.")))
    ensures Binary(PLUS, Str(a), Str(b)) == Ok(Str(a + b))
    ensures Binary(EQUALS, Str(a), Str(b)) == Ok(Bool(a == b))
  {
    StringDispatch(op, a, b);
    StringDispatch(PLUS, a, b);
    StringDispatch(EQUALS, a, b);
  }

  // Unfolding step for the proofs below: two strings go to the string table (src/interpreter/Interpreter.cpp:615).
  lemma StringDispatch(op: TokenType, a: string, b: string)
    ensures Binary(op, Str(a), Str(b)) == StringBinary(op, a, b)
  {
  }


  /** The string ordering is a strict total order: exactly one of a < b, a == b and a > b. */
  lemma StringOrderTotal(a: string, b: string)
    ensures var lt, eq, gt := Binary(LESS_THAN, Str(a), Str(b)), Binary(EQUALS, Str(a), Str(b)), Binary(GREATER_THAN, Str(a), Str(b));
      (lt == Ok(Bool(true)) || eq == Ok(Bool(true)) || gt == Ok(Bool(true)))
      && !(lt == Ok(Bool(true)) && gt == Ok(Bool(true)))
      && (eq == Ok(Bool(true)) ==> lt == Ok(Bool(false)) && gt == Ok(Bool(false)))
  {
    StringDispatch(LESS_THAN, a, b);
    StringDispatch(GREATER_THAN, a, b);
    StringDispatch(EQUALS, a, b);
    LexTrichotomy(a, b);
  }

  /** `<` on strings is transitive. */
  lemma StringOrderTransitive(a: string, b: string, c: string)
    requires Binary(LESS_THAN, Str(a), Str(b)) == Ok(Bool(true))
    requires Binary(LESS_THAN, Str(b), Str(c)) == Ok(Bool(true))
    ensures Binary(LESS_THAN, Str(a), Str(c)) == Ok(Bool(true))
  {
    StringDispatch(LESS_THAN, a, b);
    StringDispatch(LESS_THAN, b, c);
    StringDispatch(LESS_THAN, a, c);
    LexTransitive(a, b, c);
  }

  /**
   * String `*` Int gives the same in either order; it throws for a negative
   * count, and every other operator on such a pair throws.
   */
  lemma StringRepetitionCases(op: TokenType, s: string, n: Int32)
    ensures Binary(op, Str(s), Int(n)) == Binary(op, Int(n), Str(s))
    ensures var r := Binary(op, Str(s), Int(n));
      (r.Ok? <==> op == MULTIPLY && n >= 0)
      && (op == MULTIPLY && n < 0 ==> r == Err(RuntimeError("Cannot multiply string by a negative number.")))
      && (op != MULTIPLY ==> r == Err(RuntimeError("Unsupported assignment operation for strings.")))
  {
    assert Binary(op, Str(s), Int(n)) == RepeatBinary(op, s, n);
    assert Binary(op, Int(n), Str(s)) == RepeatBinary(op, s, n);
  }

  /** For a count n >= 0, String `*` n holds max(n, 1) copies of the string, one after another. */
  lemma StringRepetitionCopies(s: string, n: Int32)
    requires n >= 0
    ensures var r := Binary(MULTIPLY, Str(s), Int(n));
      r.Ok? && r.value.Str? && |r.value.s| == AtLeastOne(n) * |s|
      && forall k :: 0 <= k < AtLeastOne(n) ==> k * |s| + |s| <= |r.value.s| && r.value.s[k * |s|..k * |s| + |s|] == s
  {
    var t := Repeat(s, AtLeastOne(n));
    assert Binary(MULTIPLY, Str(s), Int(n)) == Ok(Str(t));
    forall k | 0 <= k < AtLeastOne(n)
      ensures k * |s| + |s| <= |t| && t[k * |s|..k * |s| + |s|] == s
    {
      RepeatHoldsCopy(s, AtLeastOne(n), k);
    }
  }

  /** Every pairing the table does not list throws "Unsupported operand types for binary operation.". */
  lemma OtherPairingsFail(op: TokenType, l: Value, r: Value)
    requires !(IsNumber(l) && IsNumber(r)) && !(l.Bool? && r.Bool?) && !(l.Str? && r.Str?)
    requires !(l.Str? && r.Int?) && !(l.Int? && r.Str?)
    ensures Binary(op, l, r) == Err(RuntimeError("Unsupported operand types for binary operation."))
  {
  }

  /** With a float involved, `%`, the bitwise operators and the logical operators throw. */
  lemma FloatRejectsIntegerOperators(op: TokenType, l: Value, r: Value)
    requires IsNumber(l) && IsNumber(r) && (l.Float? || r.Float?)
    requires op in {MODULO, BIT_AND, BIT_OR, BIT_XOR, BIT_LEFT_SHIFT, BIT_RIGHT_SHIFT, LOGICAL_AND, LOGICAL_OR}
    ensures Binary(op, l, r) == Err(RuntimeError("Unsupported operation for float."))
  {
  }

  // ------------------------------------------------------------- unary

  /** `++` then `--` on an int binding gives the int back, and the other way round. */
  lemma StepInverse(i: Int32)
    ensures Step(true, Int(i)).Ok? ==> Step(false, Step(true, Int(i)).value) == Ok(Int(i))
    ensures Step(false, Int(i)).Ok? ==> Step(true, Step(false, Int(i)).value) == Ok(Int(i))
    ensures Step(true, Int(i)).Ok? <==> i < 0x7FFF_FFFF
  {
  }

  /** `++`/`--` keep a float a float and throw on a bool or a string. */
  lemma StepRejectsNonNumbers(up: bool, v: Value)
    ensures v.Float? ==> Step(up, v) == Ok(Float)
    ensures !IsNumber(v) ==> Step(up, v) == Err(RuntimeError("Expected integer/float value for increment/decrement."))
  {
  }

  /** Unary `+ - ! ~` throw on a bool or a string, and `~` throws on a float. */
  lemma UnaryRejects(op: TokenType, v: Value)
    ensures !IsNumber(v) ==> Unary(op, v) == Err(RuntimeError("Expected integer/float value for increment/decrement."))
    ensures v.Float? ==> Unary(BIT_NOT, v) == Err(RuntimeError("~ works only with int."))
  {
  }

  /** `~~x == x` and `-x` is `~x + 1` on ints. */
  lemma UnaryIntLaws(i: Int32)
    ensures Unary(BIT_NOT, Int(i)).Ok? && Unary(BIT_NOT, Unary(BIT_NOT, Int(i)).value) == Ok(Int(i))
    ensures i != -0x8000_0000 ==> Unary(MINUS, Int(i)) == Ok(Int(Unary(BIT_NOT, Int(i)).value.i + 1))
    ensures Unary(LOGICAL_NOT, Int(i)) == Ok(Bool(i == 0))
  {
  }

  // ---------------------------------------------------------- compound

  /** On an int binding and an int value, `+= -= *=` store what `+ - *` compute. */
  lemma IntCompoundArithmetic(a: Int32, b: Int32)
    ensures Compound(PLUS_ASSIGN, Int(a), Int(b)) == Binary(PLUS, Int(a), Int(b))
    ensures Compound(MINUS_ASSIGN, Int(a), Int(b)) == Binary(MINUS, Int(a), Int(b))
    ensures Compound(MULTIPLY_ASSIGN, Int(a), Int(b)) == Binary(MULTIPLY, Int(a), Int(b))
  {
    assert Compound(PLUS_ASSIGN, Int(a), Int(b)) == IntCompound(PLUS_ASSIGN, a, b);
    assert Binary(PLUS, Int(a), Int(b)) == IntBinary(PLUS, a, b);
    assert Compound(MINUS_ASSIGN, Int(a), Int(b)) == IntCompound(MINUS_ASSIGN, a, b);
    assert Binary(MINUS, Int(a), Int(b)) == IntBinary(MINUS, a, b);
    assert Compound(MULTIPLY_ASSIGN, Int(a), Int(b)) == IntCompound(MULTIPLY_ASSIGN, a, b);
    assert Binary(MULTIPLY, Int(a), Int(b)) == IntBinary(MULTIPLY, a, b);
  }

  /**
   * On ints, `/= //= %=` store what `/ // %` compute; `/=` thus throws on 0
   * and otherwise turns the binding into a float.
   */
  lemma IntCompoundDivision(a: Int32, b: Int32)
    ensures Compound(DIVIDE_ASSIGN, Int(a), Int(b)) == Binary(DIVIDE, Int(a), Int(b))
    ensures Compound(FLOOR_ASSIGN, Int(a), Int(b)) == Binary(FLOOR, Int(a), Int(b))
    ensures Compound(MODULO_ASSIGN, Int(a), Int(b)) == Binary(MODULO, Int(a), Int(b))
    ensures Compound(DIVIDE_ASSIGN, Int(a), Int(b)) == if b == 0 then Err(RuntimeError("Division by zero.")) else Ok(Float)
  {
    assert Compound(DIVIDE_ASSIGN, Int(a), Int(b)) == IntCompound(DIVIDE_ASSIGN, a, b);
    assert Binary(DIVIDE, Int(a), Int(b)) == IntBinary(DIVIDE, a, b);
    assert Compound(FLOOR_ASSIGN, Int(a), Int(b)) == IntCompound(FLOOR_ASSIGN, a, b);
    assert Binary(FLOOR, Int(a), Int(b)) == IntBinary(FLOOR, a, b);
    assert Compound(MODULO_ASSIGN, Int(a), Int(b)) == IntCompound(MODULO_ASSIGN, a, b);
    assert Binary(MODULO, Int(a), Int(b)) == IntBinary(MODULO, a, b);
  }

  /** On ints, `&= |= ^=` store what `& | ^` compute. */
  lemma IntCompoundBitwise(a: Int32, b: Int32)
    ensures Compound(BIT_AND_ASSIGN, Int(a), Int(b)) == Binary(BIT_AND, Int(a), Int(b))
    ensures Compound(BIT_OR_ASSIGN, Int(a), Int(b)) == Binary(BIT_OR, Int(a), Int(b))
    ensures Compound(BIT_XOR_ASSIGN, Int(a), Int(b)) == Binary(BIT_XOR, Int(a), Int(b))
  {
    assert Compound(BIT_AND_ASSIGN, Int(a), Int(b)) == IntCompound(BIT_AND_ASSIGN, a, b);
    assert Binary(BIT_AND, Int(a), Int(b)) == IntBinary(BIT_AND, a, b);
    assert Compound(BIT_OR_ASSIGN, Int(a), Int(b)) == IntCompound(BIT_OR_ASSIGN, a, b);
    assert Binary(BIT_OR, Int(a), Int(b)) == IntBinary(BIT_OR, a, b);
    assert Compound(BIT_XOR_ASSIGN, Int(a), Int(b)) == IntCompound(BIT_XOR_ASSIGN, a, b);
    assert Binary(BIT_XOR, Int(a), Int(b)) == IntBinary(BIT_XOR, a, b);
  }

  /** On ints, `<<=` and `>>=` store what `<<` and `>>` compute. */
  lemma IntCompoundShifts(a: Int32, b: Int32)
    ensures Compound(BIT_LEFT_SHIFT_ASSIGN, Int(a), Int(b)) == Binary(BIT_LEFT_SHIFT, Int(a), Int(b))
    ensures Compound(BIT_RIGHT_SHIFT_ASSIGN, Int(a), Int(b)) == Binary(BIT_RIGHT_SHIFT, Int(a), Int(b))
  {
    assert Compound(BIT_LEFT_SHIFT_ASSIGN, Int(a), Int(b)) == IntCompound(BIT_LEFT_SHIFT_ASSIGN, a, b);
    assert Binary(BIT_LEFT_SHIFT, Int(a), Int(b)) == IntBinary(BIT_LEFT_SHIFT, a, b);
    assert Compound(BIT_RIGHT_SHIFT_ASSIGN, Int(a), Int(b)) == IntCompound(BIT_RIGHT_SHIFT_ASSIGN, a, b);
    assert Binary(BIT_RIGHT_SHIFT, Int(a), Int(b)) == IntBinary(BIT_RIGHT_SHIFT, a, b);
  }

  /** On ints, `**=` and `^^=` store what `**` and `^^` compute: a float. */
  lemma IntCompoundPowers(a: Int32, b: Int32)
    ensures Compound(POWER_ASSIGN, Int(a), Int(b)) == Binary(POWER, Int(a), Int(b))
    ensures Compound(LOG_ASSIGN, Int(a), Int(b)) == Binary(LOG, Int(a), Int(b))
  {
    assert Compound(POWER_ASSIGN, Int(a), Int(b)) == IntCompound(POWER_ASSIGN, a, b);
    assert Binary(POWER, Int(a), Int(b)) == IntBinary(POWER, a, b);
    assert Compound(LOG_ASSIGN, Int(a), Int(b)) == IntCompound(LOG_ASSIGN, a, b);
    assert Binary(LOG, Int(a), Int(b)) == IntBinary(LOG, a, b);
  }

  /** `%%=` on ints has no degree check: `x %%= 0` stores a float where `x %% 0` throws. */
  lemma RootAssignHasNoGuard(a: Int32)
    ensures Compound(ROOT_ASSIGN, Int(a), Int(0)) == Ok(Float)
    ensures Binary(ROOT, Int(a), Int(0)) == Err(RuntimeError("Root degree must be greater than 0."))
  {
  }

  /** String `+=` String appends; no other compound form applies to two strings. */
  lemma StringCompound(op: TokenType, a: string, b: string)
    ensures Compound(op, Str(a), Str(b)) ==
      if op == PLUS_ASSIGN then Ok(Str(a + b)) else Err(RuntimeError("Unsupported assignment operation for strings."))
  {
  }

  /** A string binding `*=` n stores what `s * n` computes: max(n, 1) copies, or a throw for n < 0. */
  lemma StringBindingTimesInt(s: string, n: Int32)
    ensures Compound(MULTIPLY_ASSIGN, Str(s), Int(n)) == Binary(MULTIPLY, Str(s), Int(n))
  {
  }

  /**
   * An int binding `*=` a string keeps its int: it throws only when the int
   * is negative. The binary form `n * s` gives a string instead.
   */
  lemma IntBindingTimesString(n: Int32, s: string)
    ensures Compound(MULTIPLY_ASSIGN, Int(n), Str(s)) ==
      if n < 0 then Err(RuntimeError("Cannot multiply string by a negative number.")) else Ok(Int(n))
    ensures n >= 0 ==> Binary(MULTIPLY, Int(n), Str(s)).value.Str?
  {
  }

  /** With a float on either side, `%=` and the bitwise compound forms throw. */
  lemma FloatCompoundRejects(op: TokenType, cur: Value, v: Value)
    requires IsNumber(cur) && IsNumber(v) && (cur.Float? || v.Float?)
    requires op in {MODULO_ASSIGN, BIT_AND_ASSIGN, BIT_OR_ASSIGN, BIT_XOR_ASSIGN, BIT_LEFT_SHIFT_ASSIGN, BIT_RIGHT_SHIFT_ASSIGN}
    ensures Compound(op, cur, v) == Err(RuntimeError("Unsupported assignment operation for float."))
  {
  }

  /** A successful compound assignment with a float involved leaves a float in the binding. */
  lemma FloatCompoundGivesFloat(op: TokenType, cur: Value, v: Value)
    requires IsNumber(cur) && IsNumber(v) && (cur.Float? || v.Float?)
    ensures Compound(op, cur, v).Ok? ==> Compound(op, cur, v).value == Float
  {
    assert Compound(op, cur, v) == FloatCompound(op, cur, v);
  }

  /** The pairings the compound table does not list throw. */
  lemma CompoundOtherPairingsFail(op: TokenType, cur: Value, v: Value)
    requires !(IsNumber(cur) && IsNumber(v)) && !(cur.Str? && v.Str?)
    requires !(cur.Str? && v.Int?) && !(cur.Int? && v.Str?)
    ensures Compound(op, cur, v) == Err(RuntimeError("Unsupported types for assignment operation."))
  {
  }
}
