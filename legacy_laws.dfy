/**
 * What the older evaluator of src/Intepreter.cpp guarantees, stated on the
 * functions of module Legacy: how a variable is read, assigned and stepped,
 * where its operator tables part from the scoped interpreter's, and how its
 * blocks and loops run.
 */
module LegacyLaws {
  import opened Tokens
  import opened Values
  import opened Ast
  import Operators
  import Runtime
  import opened Legacy

  // ------------------------------------------------------------ dispatch

  lemma UnaryNode(vars: Vars, n: Node, fuel: nat)
    requires n.UnarOp?
    ensures Eval(vars, n, fuel) == EvalUnary(vars, n, fuel)
  {
    assert Eval(vars, n, fuel) == EvalExpr(vars, n, fuel);
  }

  lemma IfNode(vars: Vars, n: Node, fuel: nat)
    requires n.If?
    ensures Eval(vars, n, fuel) == EvalIf(vars, n, fuel)
  {
    assert Eval(vars, n, fuel) == EvalControl(vars, n, fuel);
  }

  lemma ForNode(vars: Vars, n: Node, fuel: nat)
    requires n.For?
    ensures Eval(vars, n, fuel) == EvalFor(vars, n, fuel)
  {
    assert Eval(vars, n, fuel) == EvalControl(vars, n, fuel);
  }

  lemma BinaryNode(vars: Vars, n: Node, fuel: nat)
    requires n.BinaryOp?
    ensures Eval(vars, n, fuel) == EvalBinary(vars, n, fuel)
  {
    assert Eval(vars, n, fuel) == EvalExpr(vars, n, fuel);
  }

  // ------------------------------------------------------------ variables

  /** Reading a variable gives its entry and changes nothing; a missing name is a runtime error. */
  lemma ReadingAVariable(vars: Vars, n: Node, fuel: nat)
    requires n.Variable?
    ensures Eval(vars, n, fuel).Ok? <==> n.token.text in vars
    ensures Eval(vars, n, fuel).Ok? ==> Eval(vars, n, fuel).value == Out(vars[n.token.text], vars)
    ensures n.token.text !in vars ==> Eval(vars, n, fuel) == Fail("Variable " + n.token.text + " not found.")
  {
  }

  /** `x = e`: whatever `e` did to the map stays, and of the rest only the entry for `x` changes, to `e`'s value. */
  lemma AssignmentSetsItsTarget(vars: Vars, n: Node, fuel: nat)
    requires n.BinaryOp? && n.op.kind.ASSIGN?
    ensures var r, e := Eval(vars, n, fuel), Eval(vars, n.right, fuel);
      r.Ok? <==> e.Ok? && n.left.Variable?
    ensures var r, e := Eval(vars, n, fuel), Eval(vars, n.right, fuel);
      r.Ok? ==> (r.value.v == Default && OnlyChanges(e.value.vars, r.value.vars, n.left.token.text)
        && r.value.vars[n.left.token.text] == e.value.v)
  {
    BinaryNode(vars, n, fuel);
  }

  /** `x = e` with `e` a variable or a literal: the map gains or overwrites the entry for `x` and nothing else. */
  lemma AssignmentOfALeaf(vars: Vars, n: Node, fuel: nat)
    requires n.BinaryOp? && n.op.kind.ASSIGN? && n.left.Variable? && (n.right.Variable? || n.right.Literal?)
    ensures var r, e := Eval(vars, n, fuel), EvalLeaf(vars, n.right);
      (r.Ok? <==> e.Ok?) && (r.Ok? ==> OnlyChanges(vars, r.value.vars, n.left.token.text) && r.value.vars[n.left.token.text] == e.value.v)
  {
    AssignmentSetsItsTarget(vars, n, fuel);
  }

  /** `x++` on an int below INT_MAX adds one to the entry for `x`, and changes nothing else. */
  lemma IncrementAddsOne(vars: Vars, n: Node, fuel: nat)
    requires n.UnarOp? && n.op.kind.PLUS_ONE? && n.operand.Variable?
    requires n.operand.token.text in vars && vars[n.operand.token.text].Int? && vars[n.operand.token.text].i < 0x7FFF_FFFF
    ensures Eval(vars, n, fuel) == Ok(Out(Default, vars[n.operand.token.text := Int(vars[n.operand.token.text].i + 1)]))
  {
    UnaryNode(vars, n, fuel);
  }

  /** `x--` on an int above INT_MIN takes one from the entry for `x`, and changes nothing else. */
  lemma DecrementTakesOne(vars: Vars, n: Node, fuel: nat)
    requires n.UnarOp? && n.op.kind.MINUS_ONE? && n.operand.Variable?
    requires n.operand.token.text in vars && vars[n.operand.token.text].Int? && vars[n.operand.token.text].i > -0x8000_0000
    ensures Eval(vars, n, fuel) == Ok(Out(Default, vars[n.operand.token.text := Int(vars[n.operand.token.text].i - 1)]))
  {
    UnaryNode(vars, n, fuel);
  }

  /** `++` and `--` reject a bool or a string binding, and a missing one. */
  lemma StepRejects(vars: Vars, n: Node, fuel: nat)
    requires n.UnarOp? && (n.op.kind.PLUS_ONE? || n.op.kind.MINUS_ONE?) && n.operand.Variable?
    ensures var x := n.operand.token.text;
      x in vars && (vars[x].Bool? || vars[x].Str?) ==> Eval(vars, n, fuel) == Fail("Expected integer/float value for increment/decrement.")
    ensures var x := n.operand.token.text;
      x !in vars ==> Eval(vars, n, fuel) == Fail("Variable " + x + " not found.")
  {
    UnaryNode(vars, n, fuel);
  }

  /**
   * `x op= e` with `e` a literal: the entry for `x` becomes what the
   * compound table makes of its value and the literal's, and nothing else
   * changes.
   */
  lemma CompoundOfALiteral(vars: Vars, n: Node, fuel: nat)
    requires n.BinaryOp? && IsCompoundAssign(n.op.kind) && n.left.Variable? && n.right.Literal?
    requires n.left.token.text in vars && Runtime.ReadLiteral(n.right.token).Ok?
    ensures var x, v := n.left.token.text, Runtime.ReadLiteral(n.right.token).value;
      var c := Compound(n.op.kind, vars[x], v);
      Eval(vars, n, fuel) == if c.Err? then Err(c.fault) else Ok(Out(Default, vars[x := c.value]))
  {
    BinaryNode(vars, n, fuel);
    assert Eval(vars, n.right, fuel) == Ok(Out(Runtime.ReadLiteral(n.right.token).value, vars));
  }

  // ------------------------------------------------------------ operators

  /** An int divided by an int (`/` and `/=`) is an int, truncated; a zero divisor is a runtime error. */
  lemma IntDivisionStaysInt(a: Int32, b: Int32)
    ensures Binary(DIVIDE, Int(a), Int(b)) == Compound(DIVIDE_ASSIGN, Int(a), Int(b))
    ensures b == 0 ==> Binary(DIVIDE, Int(a), Int(b)) == Fail("Division by zero.")
    ensures b != 0 && !(a == -0x8000_0000 && b == -1) ==> Binary(DIVIDE, Int(a), Int(b)) == Ok(Int(TruncDiv(a, b)))
    ensures a == -0x8000_0000 && b == -1 ==> Binary(DIVIDE, Int(a), Int(b)).Err?
  {
  }

  /** Where the scoped interpreter's `/` and `/=` on two ints give a float. */
  lemma IntDivisionDiffers(a: Int32, b: Int32)
    requires b != 0 && !(a == -0x8000_0000 && b == -1)
    ensures Binary(DIVIDE, Int(a), Int(b)).value.Int? && Operators.Binary(DIVIDE, Int(a), Int(b)) == Ok(Float)
    ensures Compound(DIVIDE_ASSIGN, Int(a), Int(b)).value.Int? && Operators.Compound(DIVIDE_ASSIGN, Int(a), Int(b)) == Ok(Float)
  {
    IntDivisionStaysInt(a, b);
  }

  /** `%=` with a float on either side always fails, whatever the scoped interpreter would do. */
  lemma FloatModuloAssignFails(cur: Value, v: Value)
    requires Operators.IsNumber(cur) && Operators.IsNumber(v) && (cur.Float? || v.Float?)
    ensures Compound(MODULO_ASSIGN, cur, v) == Fail("Modulo operation not supported for floats.")
    ensures Operators.Compound(MODULO_ASSIGN, cur, v) == Fail("Unsupported assignment operation for float.")
  {
  }

  /** A string never combines with an int, where the scoped interpreter repeats the string under `*`. */
  lemma NoStringTimesInt(op: TokenType, s: string, i: Int32)
    ensures Binary(op, Str(s), Int(i)) == Fail("Unsupported operand types for binary operation.")
    ensures Binary(op, Int(i), Str(s)) == Fail("Unsupported operand types for binary operation.")
    ensures Compound(op, Str(s), Int(i)) == Fail("Unsupported types for assignment operation.")
    ensures i >= 0 ==> Operators.Binary(MULTIPLY, Str(s), Int(i)).Ok?
  {
  }

  /**
   * Elsewhere the binary table is the scoped interpreter's: every pairing
   * and operator but the int `/`, `**`, `^^`, `%%` and the string-int pairs.
   */
  lemma BinaryTablesAgree(op: TokenType, l: Value, r: Value)
    requires !(l.Int? && r.Int? && (op.DIVIDE? || op.POWER? || op.LOG? || op.ROOT?))
    requires !(l.Str? && r.Int?) && !(l.Int? && r.Str?)
    ensures Binary(op, l, r) == Operators.Binary(op, l, r)
  {
  }

  /**
   * Elsewhere the compound table is the scoped interpreter's too: every
   * pairing and operator but the int `/=`, `**=`, `%%=`, `^^=`, the float
   * `%=` and the string-int pairs.
   */
  lemma CompoundTablesAgree(op: TokenType, cur: Value, v: Value)
    requires !(cur.Int? && v.Int? && (op.DIVIDE_ASSIGN? || op.POWER_ASSIGN? || op.ROOT_ASSIGN? || op.LOG_ASSIGN?))
    requires !(op.MODULO_ASSIGN? && Operators.IsNumber(cur) && Operators.IsNumber(v) && (cur.Float? || v.Float?))
    requires !(cur.Str? && v.Int?) && !(cur.Int? && v.Str?)
    ensures Compound(op, cur, v) == Operators.Compound(op, cur, v)
  {
  }

  // ------------------------------------------------------------ statements

  /** The nodes `visitNode` has no case for: they give the default value and change nothing. */
  predicate Inert(n: Node)
  {
    n.Absent? || n.Base? || n.BinarOp? || n.Assign? || n.HoldRelease? || n.Press? || n.Command?
  }

  /** Statements run one after another: a block of `a + b` is `a`, then `b` on what `a` left. */
  lemma {:induction false} ExecStmtsAppend(vars: Vars, a: seq<Node>, b: seq<Node>, fuel: nat)
    ensures var r := ExecStmts(vars, a, fuel);
      ExecStmts(vars, a + b, fuel) == if r.Err? then Err(r.fault) else ExecStmts(r.value, b, fuel)
    decreases |a|
  {
    if |a| == 0 {
      assert a + b == b;
    } else {
      assert (a + b)[0] == a[0] && (a + b)[1..] == a[1..] + b;
      var o := Eval(vars, a[0], fuel);
      if o.Ok? {
        ExecStmtsAppend(o.value.vars, a[1..], b, fuel);
      }
    }
  }

  /** A run of statements with no case in `visitNode` (break, continue, exit among them) leaves the map as it was. */
  lemma {:induction false} InertStatementsChangeNothing(vars: Vars, ss: seq<Node>, fuel: nat)
    requires forall i :: 0 <= i < |ss| ==> Inert(ss[i])
    ensures ExecStmts(vars, ss, fuel) == Ok(vars)
    decreases |ss|
  {
    if |ss| > 0 {
      assert Eval(vars, ss[0], fuel) == Ok(Out(Default, vars));
      InertStatementsChangeNothing(vars, ss[1..], fuel);
    }
  }

  /** A condition that is the literal `true` or `false`: its value, and no change. */
  predicate IsBoolLiteral(n: Node, b: bool)
  {
    n.Literal? && n.token.kind == BOOL && n.token.text == (if b then "true" else "false")
  }

  lemma BoolLiteral(vars: Vars, n: Node, b: bool, fuel: nat)
    requires IsBoolLiteral(n, b)
    ensures Eval(vars, n, fuel) == Ok(Out(Bool(b), vars))
  {
    assert Eval(vars, n, fuel) == EvalLeaf(vars, n);
  }

  /** `if` visits the branch its condition picks, as a block; a false condition with no else does nothing more. */
  lemma IfChoosesItsBranch(vars: Vars, n: Node, fuel: nat, c: Out)
    requires n.If? && Eval(vars, n.cond, fuel) == Ok(c) && c.v.Bool?
    ensures c.v.b && n.thenBranch.Block? ==> Eval(vars, n, fuel) == EvalBlock(c.vars, n.thenBranch, fuel)
    ensures !c.v.b && n.elseBranch.Absent? ==> Eval(vars, n, fuel) == Ok(Out(Default, c.vars))
    ensures !c.v.b && n.elseBranch.Block? ==> Eval(vars, n, fuel) == EvalBlock(c.vars, n.elseBranch, fuel)
  {
    IfNode(vars, n, fuel);
  }

  /** An `if` whose condition is not a bool is a runtime error, whatever its branches. */
  lemma IfNeedsABool(vars: Vars, n: Node, fuel: nat, c: Out)
    requires n.If? && Eval(vars, n.cond, fuel) == Ok(c) && !c.v.Bool?
    ensures Eval(vars, n, fuel) == Fail("The condition in if should be a boolean expression!")
  {
    IfNode(vars, n, fuel);
  }

  // ------------------------------------------------------------ loops

  /**
   * `for (init; cond; incr) body` after its initializer is `while (cond)
   * { body incr }`: the two loops give the same outcome on every budget.
   */
  lemma {:induction false} ForIsWhile(vars: Vars, cond: Node, incr: Node, body: Node, fuel: nat)
    ensures ForLoop(vars, cond, incr, body, fuel) == WhileLoop(vars, cond, Block([body, incr]), fuel)
    decreases fuel, 2
  {
    if fuel > 0 {
      var c := Eval(vars, cond, fuel - 1);
      if c.Ok? && c.value.v == Bool(true) {
        ForIsWhilePass(vars, cond, incr, body, fuel, c.value);
      } else {
        ForIsWhileEnds(vars, cond, incr, body, fuel);
      }
    }
  }

  /** A pass of both loops whose condition fails, is not a bool, or is false. */
  lemma ForIsWhileEnds(vars: Vars, cond: Node, incr: Node, body: Node, fuel: nat)
    requires fuel > 0
    requires var c := Eval(vars, cond, fuel - 1); !(c.Ok? && c.value.v == Bool(true))
    ensures ForLoop(vars, cond, incr, body, fuel) == WhileLoop(vars, cond, Block([body, incr]), fuel)
  {
    var blk := Block([body, incr]);
    var c := Eval(vars, cond, fuel - 1);
    if c.Err? {
      ForConditionFails(vars, cond, incr, body, fuel, c.fault);
      WhileConditionFails(vars, cond, blk, fuel, c.fault);
    } else if !c.value.v.Bool? {
      ForConditionNotBool(vars, cond, incr, body, fuel, c.value);
      WhileConditionNotBool(vars, cond, blk, fuel, c.value);
    } else {
      ForHalts(vars, cond, incr, body, fuel, c.value);
      WhileHalts(vars, cond, blk, fuel, c.value);
    }
  }

  /** A pass of both loops whose condition held. */
  lemma {:induction false} ForIsWhilePass(vars: Vars, cond: Node, incr: Node, body: Node, fuel: nat, c: Out)
    requires fuel > 0 && Eval(vars, cond, fuel - 1) == Ok(c) && c.v == Bool(true)
    ensures ForLoop(vars, cond, incr, body, fuel) == WhileLoop(vars, cond, Block([body, incr]), fuel)
    decreases fuel, 1
  {
    var f, blk := fuel - 1, Block([body, incr]);
    PairBlock(c.vars, body, incr, f);
    var b := Eval(c.vars, body, f);
    if b.Err? {
      ForBodyFails(vars, cond, incr, body, fuel, c, b.fault);
      WhileBodyFails(vars, cond, blk, fuel, c, b.fault);
    } else {
      var i := Eval(b.value.vars, incr, f);
      if i.Err? {
        ForIncrementFails(vars, cond, incr, body, fuel, c, b.value, i.fault);
        WhileBodyFails(vars, cond, blk, fuel, c, i.fault);
      } else {
        ForIsWhileGoesOn(vars, cond, incr, body, fuel, c, b.value, i.value);
      }
    }
  }

  /** A full pass of both loops: they go on from the same map. */
  lemma {:induction false} ForIsWhileGoesOn(vars: Vars, cond: Node, incr: Node, body: Node, fuel: nat, c: Out, b: Out, i: Out)
    requires fuel > 0 && Eval(vars, cond, fuel - 1) == Ok(c) && c.v == Bool(true)
    requires Eval(c.vars, body, fuel - 1) == Ok(b) && Eval(b.vars, incr, fuel - 1) == Ok(i)
    requires Eval(c.vars, Block([body, incr]), fuel - 1) == Ok(Out(Default, i.vars))
    ensures ForLoop(vars, cond, incr, body, fuel) == WhileLoop(vars, cond, Block([body, incr]), fuel)
    decreases fuel, 0
  {
    ForGoesOn(vars, cond, incr, body, fuel, c, b, i);
    WhileGoesOn(vars, cond, Block([body, incr]), fuel, c, Out(Default, i.vars));
    ForIsWhile(i.vars, cond, incr, body, fuel - 1);
  }

  /** A block is its statements, run in order; its value is the default one. */
  lemma BlockNode(vars: Vars, ss: seq<Node>, fuel: nat)
    ensures var e := ExecStmts(vars, ss, fuel);
      Eval(vars, Block(ss), fuel) == if e.Err? then Err(e.fault) else Ok(Out(Default, e.value))
  {
    assert Eval(vars, Block(ss), fuel) == EvalBlock(vars, Block(ss), fuel);
  }

  /** One statement. */
  lemma OneStatement(vars: Vars, s: Node, fuel: nat)
    ensures var o := Eval(vars, s, fuel);
      ExecStmts(vars, [s], fuel) == if o.Err? then Err(o.fault) else Ok(o.value.vars)
  {
    assert [s][1..] == [];
  }

  /** The block `{ body incr }`: the body, then the increment on what the body left. */
  lemma PairBlock(vars: Vars, body: Node, incr: Node, fuel: nat)
    ensures var b := Eval(vars, body, fuel);
      var i := if b.Err? then b else Eval(b.value.vars, incr, fuel);
      Eval(vars, Block([body, incr]), fuel) == if i.Err? then Err(i.fault) else Ok(Out(Default, i.value.vars))
  {
    BlockNode(vars, [body, incr], fuel);
    assert [body, incr][0] == body && [body, incr][1..] == [incr];
    var b := Eval(vars, body, fuel);
    if b.Ok? {
      OneStatement(b.value.vars, incr, fuel);
    }
  }

  /** `while (true)` never ends normally: it fails, or runs until the budget is spent. */
  lemma {:induction false} WhileTrueNeverEnds(vars: Vars, cond: Node, body: Node, fuel: nat)
    requires IsBoolLiteral(cond, true)
    ensures WhileLoop(vars, cond, body, fuel).Err?
    decreases fuel
  {
    if fuel > 0 {
      BoolLiteral(vars, cond, true, fuel - 1);
      var c := Out(Bool(true), vars);
      var b := Eval(vars, body, fuel - 1);
      if b.Ok? {
        WhileGoesOn(vars, cond, body, fuel, c, b.value);
        WhileTrueNeverEnds(b.value.vars, cond, body, fuel - 1);
      } else {
        WhileBodyFails(vars, cond, body, fuel, c, b.fault);
      }
    }
  }

  /** A `for` whose condition is the literal `true` never ends normally either. */
  lemma ForTrueNeverEnds(vars: Vars, cond: Node, incr: Node, body: Node, fuel: nat)
    requires IsBoolLiteral(cond, true)
    ensures ForLoop(vars, cond, incr, body, fuel).Err?
  {
    ForIsWhile(vars, cond, incr, body, fuel);
    WhileTrueNeverEnds(vars, cond, Block([body, incr]), fuel);
  }

  /** `while (false)` does nothing: the map is as it was. */
  lemma WhileFalseDoesNothing(vars: Vars, cond: Node, body: Node, fuel: nat)
    requires IsBoolLiteral(cond, false) && fuel > 0
    ensures WhileLoop(vars, cond, body, fuel) == Ok(Out(Default, vars))
  {
    BoolLiteral(vars, cond, false, fuel - 1);
  }

  /** A `for` whose condition is the literal `false` runs its initializer once and nothing else. */
  lemma ForFalseRunsInitOnly(vars: Vars, n: Node, fuel: nat)
    requires n.For? && IsBoolLiteral(n.cond, false) && fuel > 0
    ensures var i := Eval(vars, n.init, fuel);
      Eval(vars, n, fuel) == if i.Err? then Err(i.fault) else Ok(Out(Default, i.value.vars))
  {
    ForNode(vars, n, fuel);
    var i := Eval(vars, n.init, fuel);
    if i.Ok? {
      BoolLiteral(i.value.vars, n.cond, false, fuel - 1);
      ForHalts(i.value.vars, n.cond, n.incr, n.body, fuel, Out(Bool(false), i.value.vars));
    }
  }

  /** A loop whose condition is not a bool is a runtime error naming `for`, for `while` too. */
  lemma LoopsNeedABool(vars: Vars, cond: Node, incr: Node, body: Node, fuel: nat, c: Out)
    requires fuel > 0 && Eval(vars, cond, fuel - 1) == Ok(c) && !c.v.Bool?
    ensures ForLoop(vars, cond, incr, body, fuel) == Fail("The condition in for should be a boolean expression!")
    ensures WhileLoop(vars, cond, body, fuel) == Fail("The condition in for should be a boolean expression!")
  {
  }
}
