/**
 * The operator tables of the scoped interpreter (src/interpreter/Interpreter.cpp):
 * binary operators once both operands are evaluated, unary `+ - ! ~`,
 * `++`/`--`, and the value a compound assignment stores.
 * Each table first dispatches on the pair of operand types, then on the
 * operator, in the order the C++ tests them.
 */
module Operators {
  import opened Tokens
  import opened Values

  predicate IsNumber(v: Value)
  {
    v.Int? || v.Float?
  }

  /** `v == 0` on a number; for a float the answer needs its magnitude. */
  function IsZero(v: Value): Result<bool>
    requires IsNumber(v)
  {
    if v.Int? then Ok(v.i == 0) else Err(Unmodelled("comparison of a float with zero"))
  }

  /** `v <= 0` on a number; for a float the answer needs its magnitude. */
  function NonPositive(v: Value): Result<bool>
    requires IsNumber(v)
  {
    if v.Int? then Ok(v.i <= 0) else Err(Unmodelled("comparison of a float with zero"))
  }

  function AtLeastOne(n: int): nat
  {
    if n < 1 then 1 else n
  }

  // ------------------------------------------------------------ binary

  /** Two `int` operands. */
  function IntBinary(op: TokenType, a: Int32, b: Int32): Result<Value>
  {
    if op.PLUS? then Checked(a + b)
    else if op.MINUS? then Checked(a - b)
    else if op.MULTIPLY? then Checked(a * b)
    else if op.DIVIDE? then (if b == 0 then Fail("Division by zero.") else Ok(Float))
    else if op.MODULO? then Rem(a, b)
    else if op.BIT_AND? then Ok(Int(BitAnd(a, b)))
    else if op.BIT_OR? then Ok(Int(BitOr(a, b)))
    else if op.BIT_XOR? then Ok(Int(BitXor(a, b)))
    else if op.BIT_LEFT_SHIFT? then ShiftLeft(a, b)
    else if op.BIT_RIGHT_SHIFT? then ShiftRight(a, b)
    else if op.LESS_THAN? then Ok(Bool(a < b))
    else if op.GREATER_THAN? then Ok(Bool(a > b))
    else if op.LESS_THAN_OR_EQUAL? then Ok(Bool(a <= b))
    else if op.GREATER_THAN_OR_EQUAL? then Ok(Bool(a >= b))
    else if op.EQUALS? then Ok(Bool(a == b))
    else if op.NOT_EQUALS? then Ok(Bool(a != b))
    else if op.LOGICAL_AND? then Ok(Bool(a != 0 && b != 0))
    else if op.LOGICAL_OR? then Ok(Bool(a != 0 || b != 0))
    else if op.POWER? then Ok(Float)
    else if op.FLOOR? then Quot(a, b)
    else if op.LOG? then Ok(Float)
    else if op.ROOT? then (if b <= 0 then Fail("Root degree must be greater than 0.") else Ok(Float))
    else Ok(Default)
  }

  /** Two numbers, at least one of them a float: each is converted to float. */
  function FloatBinary(op: TokenType, l: Value, r: Value): (res: Result<Value>)
    requires IsNumber(l) && IsNumber(r)
    ensures res.Ok? ==> res.value == Float
  {
    if op.PLUS? then Ok(Float)
    else if op.MINUS? then Ok(Float)
    else if op.MULTIPLY? then Ok(Float)
    else if op.DIVIDE? then (
      var zero :- IsZero(r);
      if zero then Fail("Division by zero.") else Ok(Float))
    else if op.POWER? then Ok(Float)
    else if op.FLOOR? then Ok(Float)
    else if op.LOG? then Ok(Float)
    else if op.ROOT? then (
      var nonPositive :- NonPositive(r);
      if nonPositive then Fail("Root degree must be greater than 0.") else Ok(Float))
    else if IsComparison(op) then Err(Unmodelled("comparison of float values"))
    else Fail("Unsupported operation for float.")
  }

  /** Two `bool` operands; `false < true`. */
  function BoolBinary(op: TokenType, a: bool, b: bool): (r: Result<Value>)
    ensures r.Ok? <==> op.LOGICAL_AND? || op.LOGICAL_OR? || IsComparison(op)
    ensures r.Ok? ==> r.value.Bool?
    ensures r.Err? ==> r == Fail("Unsupported operation for boolean.")
  {
    if op.LOGICAL_AND? then Ok(Bool(a && b))
    else if op.LOGICAL_OR? then Ok(Bool(a || b))
    else if op.EQUALS? then Ok(Bool(a == b))
    else if op.NOT_EQUALS? then Ok(Bool(a != b))
    else if op.LESS_THAN? then Ok(Bool(!a && b))
    else if op.GREATER_THAN? then Ok(Bool(a && !b))
    else if op.LESS_THAN_OR_EQUAL? then Ok(Bool(!a || b))
    else if op.GREATER_THAN_OR_EQUAL? then Ok(Bool(a || !b))
    else Fail("Unsupported operation for boolean.")
  }

  /** Two strings: concatenation, equality and `std::string` ordering. */
  function StringBinary(op: TokenType, a: string, b: string): (r: Result<Value>)
    ensures r.Ok? <==> op == PLUS || IsComparison(op)
    ensures r.Err? ==> r == Fail("Unsupported operation for strings.")
  {
    if op.PLUS? then Ok(Str(a + b))
    else if op.EQUALS? then Ok(Bool(a == b))
    else if op.NOT_EQUALS? then Ok(Bool(a != b))
    else if op.LESS_THAN? then Ok(Bool(LexLess(a, b)))
    else if op.GREATER_THAN? then Ok(Bool(LexLess(b, a)))
    else if op.LESS_THAN_OR_EQUAL? then Ok(Bool(!LexLess(b, a)))
    else if op.GREATER_THAN_OR_EQUAL? then Ok(Bool(!LexLess(a, b)))
    else Fail("Unsupported operation for strings.")
  }

  /** A string and an int in either order: only `*`, which repeats the string. */
  function RepeatBinary(op: TokenType, s: string, times: Int32): Result<Value>
  {
    if op != MULTIPLY then Fail("Unsupported assignment operation for strings.")
    else if times < 0 then Fail("Cannot multiply string by a negative number.")
    else Ok(Str(Repeat(s, AtLeastOne(times))))
  }

  /** The binary operator table. */
  function Binary(op: TokenType, l: Value, r: Value): Result<Value>
  {
    if l.Int? && r.Int? then IntBinary(op, l.i, r.i)
    else if IsNumber(l) && IsNumber(r) then FloatBinary(op, l, r)
    else if l.Bool? && r.Bool? then BoolBinary(op, l.b, r.b)
    else if l.Str? && r.Str? then StringBinary(op, l.s, r.s)
    else if l.Str? && r.Int? then RepeatBinary(op, l.s, r.i)
    else if l.Int? && r.Str? then RepeatBinary(op, r.s, l.i)
    else Fail("Unsupported operand types for binary operation.")
  }

  // ------------------------------------------------------------- unary

  /** Unary `+`, `-`, `!` and `~` on the operand's value. */
  function Unary(op: TokenType, v: Value): Result<Value>
  {
    if v.Int? then
      if op.PLUS? then Ok(Int(v.i))
      else if op.MINUS? then Checked(-(v.i as int))
      else if op.LOGICAL_NOT? then Ok(Bool(v.i == 0))
      else if op.BIT_NOT? then Ok(Int(BitNot(v.i)))
      else Ok(Default)
    else if v.Float? then
      if op.PLUS? then Ok(Float)
      else if op.MINUS? then Ok(Float)
      else if op.LOGICAL_NOT? then Err(Unmodelled("comparison of a float with zero"))
      else if op.BIT_NOT? then Fail("~ works only with int.")
      else Ok(Default)
    else Fail("Expected integer/float value for increment/decrement.")
  }

  /** The new value of a binding under `++` (`up`) or `--`. */
  function Step(up: bool, v: Value): Result<Value>
  {
    if v.Int? then Checked(if up then v.i as int + 1 else v.i as int - 1)
    else if v.Float? then Ok(Float)
    else Fail("Expected integer/float value for increment/decrement.")
  }

  // ---------------------------------------------------------- compound

  /** A compound assignment on an `int` binding with an `int` value. */
  function IntCompound(op: TokenType, a: Int32, b: Int32): Result<Value>
  {
    if op.PLUS_ASSIGN? then Checked(a + b)
    else if op.MINUS_ASSIGN? then Checked(a - b)
    else if op.MULTIPLY_ASSIGN? then Checked(a * b)
    else if op.DIVIDE_ASSIGN? then (if b == 0 then Fail("Division by zero.") else Ok(Float))
    else if op.MODULO_ASSIGN? then Rem(a, b)
    else if op.BIT_AND_ASSIGN? then Ok(Int(BitAnd(a, b)))
    else if op.BIT_OR_ASSIGN? then Ok(Int(BitOr(a, b)))
    else if op.BIT_XOR_ASSIGN? then Ok(Int(BitXor(a, b)))
    else if op.BIT_LEFT_SHIFT_ASSIGN? then ShiftLeft(a, b)
    else if op.BIT_RIGHT_SHIFT_ASSIGN? then ShiftRight(a, b)
    else if op.FLOOR_ASSIGN? then Quot(a, b)
    else if op.POWER_ASSIGN? then Ok(Float)
    else if op.ROOT_ASSIGN? then Ok(Float)
    else if op.LOG_ASSIGN? then Ok(Float)
    else Fail("Unsupported assignment operation.")
  }

  /** A compound assignment where the binding or the value (or both) is a float; the binding becomes a float. */
  function FloatCompound(op: TokenType, cur: Value, v: Value): (r: Result<Value>)
    requires IsNumber(cur) && IsNumber(v)
    ensures r.Ok? ==> r.value == Float
  {
    if op.PLUS_ASSIGN? then Ok(Float)
    else if op.MINUS_ASSIGN? then Ok(Float)
    else if op.MULTIPLY_ASSIGN? then Ok(Float)
    else if op.DIVIDE_ASSIGN? then (
      var zero :- IsZero(v);
      if zero then Fail("Division by zero.") else Ok(Float))
    else if op.FLOOR_ASSIGN? then Ok(Float)
    else if op.POWER_ASSIGN? then Ok(Float)
    else if op.ROOT_ASSIGN? then (
      var nonPositive :- NonPositive(v);
      if nonPositive then Fail("Root degree must be greater than 0.") else Ok(Float))
    else if op.LOG_ASSIGN? then (
      var curNonPositive :- NonPositive(cur);
      if curNonPositive then Fail("Logarithm base and argument must be greater than 0.")
      else
        var nonPositive :- NonPositive(v);
        if nonPositive then Fail("Logarithm base and argument must be greater than 0.") else Ok(Float))
    else Fail("Unsupported assignment operation for float.")
  }

  /**
   * The value a compound assignment leaves in a binding holding `cur` when
   * the right-hand side evaluated to `v`. With an `int` binding and a string
   * value, `*=` repeats a copy of the value, so the binding keeps `cur`.
   */
  function Compound(op: TokenType, cur: Value, v: Value): Result<Value>
  {
    if cur.Int? && v.Int? then IntCompound(op, cur.i, v.i)
    else if IsNumber(cur) && IsNumber(v) then FloatCompound(op, cur, v)
    else if cur.Str? && v.Str? then
      if op == PLUS_ASSIGN then Ok(Str(cur.s + v.s)) else Fail("Unsupported assignment operation for strings.")
    else if cur.Str? && v.Int? then
      if op != MULTIPLY_ASSIGN then Fail("Unsupported assignment operation for strings.")
      else if v.i < 0 then Fail("Cannot multiply string by a negative number.")
      else Ok(Str(Repeat(cur.s, AtLeastOne(v.i))))
    else if cur.Int? && v.Str? then
      if op != MULTIPLY_ASSIGN then Fail("Unsupported assignment operation for strings.")
      else if cur.i < 0 then Fail("Cannot multiply string by a negative number.")
      else Ok(cur)
    else Fail("Unsupported types for assignment operation.")
  }
}
