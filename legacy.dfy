/**
 * The older evaluator, class Intepreter of src/Intepreter.cpp (the class
 * name is spelled that way in the source).
 *
 * Its variables live in one name-to-value map: there are no scopes, no
 * run-control flags, and `break`, `continue` and exit have no effect. Its
 * operator tables differ from the scoped interpreter's in a few cells: an
 * int divided by an int stays an int, a string never combines with an int,
 * and `%=` on a float always fails.
 *
 * As in module Runtime, each pass of a `while (true)` loop spends one unit
 * of `fuel`, and a run that exhausts it stops with OutOfFuel.
 */
module Legacy {
  import opened Tokens
  import opened Values
  import opened Ast
  import Operators
  import Runtime

  /** `variables_`: an `unordered_map<string, variant>`. */
  type Vars = map<string, Value>

  /** What evaluating a node gives: its value and the variables afterwards. */
  datatype Out = Out(v: Value, vars: Vars)

  /** The fault for an int the source computes through double arithmetic (`pow`, `log`) and casts back. */
  const ThroughDouble: Fault := Unmodelled("an int computed through double arithmetic")

  // ------------------------------------------------------------ operators

  /**
   * Two `int` operands. `/` checks for zero and truncates; `**`, `^^` and
   * `%%` go through double arithmetic and are cast back to `int`. Every other
   * operator is the scoped interpreter's int table.
   */
  function IntBinary(op: TokenType, a: Int32, b: Int32): (r: Result<Value>)
    ensures op.DIVIDE? ==> (b == 0 <==> r == Fail("Division by zero."))
    ensures op.DIVIDE? && b != 0 ==> r == Quot(a, b)
    ensures !(op.DIVIDE? || op.POWER? || op.LOG? || op.ROOT?) ==> r == Operators.IntBinary(op, a, b)
  {
    if op.DIVIDE? then (if b == 0 then Fail("Division by zero.") else Quot(a, b))
    else if op.POWER? || op.LOG? then Err(ThroughDouble)
    else if op.ROOT? then (if b <= 0 then Fail("Root degree must be greater than 0.") else Err(ThroughDouble))
    else Operators.IntBinary(op, a, b)
  }

  /** The binary operator table: int, number, bool and string pairs; any other pairing fails. */
  function Binary(op: TokenType, l: Value, r: Value): (res: Result<Value>)
    ensures (l.Str? && r.Int?) || (l.Int? && r.Str?) ==> res == Fail("Unsupported operand types for binary operation.")
  {
    if l.Int? && r.Int? then IntBinary(op, l.i, r.i)
    else if Operators.IsNumber(l) && Operators.IsNumber(r) then Operators.FloatBinary(op, l, r)
    else if l.Bool? && r.Bool? then Operators.BoolBinary(op, l.b, r.b)
    else if l.Str? && r.Str? then Operators.StringBinary(op, l.s, r.s)
    else Fail("Unsupported operand types for binary operation.")
  }

  /** A compound assignment on an `int` binding with an `int` value. */
  function IntCompound(op: TokenType, a: Int32, b: Int32): (r: Result<Value>)
    ensures op.DIVIDE_ASSIGN? ==> (b == 0 <==> r == Fail("Division by zero."))
    ensures op.DIVIDE_ASSIGN? && b != 0 ==> r == Quot(a, b)
    ensures !(op.DIVIDE_ASSIGN? || op.POWER_ASSIGN? || op.ROOT_ASSIGN? || op.LOG_ASSIGN?) ==> r == Operators.IntCompound(op, a, b)
  {
    if op.DIVIDE_ASSIGN? then (if b == 0 then Fail("Division by zero.") else Quot(a, b))
    else if op.POWER_ASSIGN? || op.ROOT_ASSIGN? || op.LOG_ASSIGN? then Err(ThroughDouble)
    else Operators.IntCompound(op, a, b)
  }

  /** A compound assignment where the binding or the value is a float: `%=` always fails. */
  function FloatCompound(op: TokenType, cur: Value, v: Value): (r: Result<Value>)
    requires Operators.IsNumber(cur) && Operators.IsNumber(v)
    ensures op.MODULO_ASSIGN? ==> r == Fail("Modulo operation not supported for floats.")
    ensures !op.MODULO_ASSIGN? ==> r == Operators.FloatCompound(op, cur, v)
    ensures r.Ok? ==> r.value == Float
  {
    if op.MODULO_ASSIGN? then Fail("Modulo operation not supported for floats.")
    else Operators.FloatCompound(op, cur, v)
  }

  /** The value a compound assignment leaves in a binding holding `cur` when the right-hand side gave `v`. */
  function Compound(op: TokenType, cur: Value, v: Value): (r: Result<Value>)
    ensures cur.Str? && v.Str? ==> (r.Ok? <==> op.PLUS_ASSIGN?)
    ensures cur.Str? && v.Str? && op.PLUS_ASSIGN? ==> r == Ok(Str(cur.s + v.s))
    ensures (cur.Str? && !v.Str?) || (!cur.Str? && v.Str?) ==> r == Fail("Unsupported types for assignment operation.")
  {
    if cur.Int? && v.Int? then IntCompound(op, cur.i, v.i)
    else if Operators.IsNumber(cur) && Operators.IsNumber(v) then FloatCompound(op, cur, v)
    else if cur.Str? && v.Str? then
      if op.PLUS_ASSIGN? then Ok(Str(cur.s + v.s)) else Fail("Unsupported assignment operation for strings.")
    else Fail("Unsupported types for assignment operation.")
  }

  // ------------------------------------------------------------ variables

  /** `visit(VariableNode)`: the entry under the name, if there is one. */
  function Lookup(vars: Vars, name: string): (r: Result<Value>)
    ensures r.Ok? <==> name in vars
    ensures r.Ok? ==> r.value == vars[name]
    ensures r.Err? ==> r == Fail("Variable " + name + " not found.")
  {
    if name in vars then Ok(vars[name]) else Fail("Variable " + name + " not found.")
  }

  /** `vars` is `before` with at most the entry for `x` inserted or overwritten. */
  predicate OnlyChanges(before: Vars, vars: Vars, x: string)
  {
    x in vars && vars.Keys == before.Keys + {x} && forall y :: y in before && y != x ==> vars[y] == before[y]
  }

  // ------------------------------------------------------------ evaluation

  /**
   * `visitNode`: dispatch on the node's class. A null node and the classes
   * it has no case for (among them the command nodes) give the default value
   * and change nothing. No evaluation removes a variable.
   */
  function Eval(vars: Vars, n: Node, fuel: nat): (r: Result<Out>)
    decreases fuel, Size(n), 3
    ensures r.Ok? ==> vars.Keys <= r.value.vars.Keys
  {
    if n.Block? then EvalBlock(vars, n, fuel)
    else if n.Variable? || n.Literal? then EvalLeaf(vars, n)
    else if n.UnarOp? || n.BinaryOp? then EvalExpr(vars, n, fuel)
    else if n.If? || n.For? || n.While? then EvalControl(vars, n, fuel)
    else if n.Key? || n.Mouse? then Err(Unmodelled("a key or mouse action"))
    else Ok(Out(Default, vars))
  }

  /** `visit(VariableNode)` and `visit(LiteralNode)`: a value, and no change. */
  function EvalLeaf(vars: Vars, n: Node): (r: Result<Out>)
    requires n.Variable? || n.Literal?
    ensures r.Ok? ==> r.value.vars == vars
  {
    if n.Variable? then
      var v :- Lookup(vars, n.token.text);
      Ok(Out(v, vars))
    else
      var v :- Runtime.ReadLiteral(n.token);
      Ok(Out(v, vars))
  }

  /** The operator nodes. */
  function EvalExpr(vars: Vars, n: Node, fuel: nat): (r: Result<Out>)
    requires n.UnarOp? || n.BinaryOp?
    decreases fuel, Size(n), 2
    ensures r.Ok? ==> vars.Keys <= r.value.vars.Keys
  {
    if n.UnarOp? then EvalUnary(vars, n, fuel) else EvalBinary(vars, n, fuel)
  }

  /** The control-flow nodes. */
  function EvalControl(vars: Vars, n: Node, fuel: nat): (r: Result<Out>)
    requires n.If? || n.For? || n.While?
    decreases fuel, Size(n), 2
    ensures r.Ok? ==> vars.Keys <= r.value.vars.Keys
  {
    if n.If? then EvalIf(vars, n, fuel) else if n.For? then EvalFor(vars, n, fuel) else WhileLoop(vars, n.cond, n.body, fuel)
  }

  /** `visit(BlockNode)`: every statement in order; the block's value is the default one. */
  function EvalBlock(vars: Vars, n: Node, fuel: nat): (r: Result<Out>)
    requires n.Block?
    decreases fuel, Size(n), 2
    ensures r.Ok? ==> vars.Keys <= r.value.vars.Keys && r.value.v == Default
  {
    var after :- ExecStmts(vars, n.stmts, fuel);
    Ok(Out(Default, after))
  }

  /** The statement loop of a block: each statement runs on the variables the previous one left. */
  function ExecStmts(vars: Vars, ss: seq<Node>, fuel: nat): (r: Result<Vars>)
    decreases fuel, SizeSeq(ss), 4
    ensures r.Ok? ==> vars.Keys <= r.value.Keys
  {
    if |ss| == 0 then Ok(vars)
    else
      var o :- Eval(vars, ss[0], fuel);
      ExecStmts(o.vars, ss[1..], fuel)
  }

  /** `visit(UnarOpNode)`. */
  function EvalUnary(vars: Vars, n: Node, fuel: nat): (r: Result<Out>)
    requires n.UnarOp?
    decreases fuel, Size(n), 1
    ensures r.Ok? ==> vars.Keys <= r.value.vars.Keys
  {
    var k := n.op.kind;
    if k.PLUS_ONE? || k.MINUS_ONE? then EvalStep(vars, n)
    else if k.PRINT? then
      var o :- Eval(vars, n.operand, fuel);
      Ok(Out(Default, o.vars))
    else if k.PLUS? || k.MINUS? || k.LOGICAL_NOT? || k.BIT_NOT? then
      var o :- Eval(vars, n.operand, fuel);
      var v :- Operators.Unary(k, o.v);
      Ok(Out(v, o.vars))
    else if k.INPUT? then
      if !n.operand.Variable? then Err(Undefined("null dereference: the operand is not a variable"))
      else if n.operand.token.text !in vars || vars[n.operand.token.text].Bool? then
        // `operator[]` inserts a default (bool) value for a missing name
        Fail("Unsupported type for INPUT operation.")
      else Err(Unmodelled("a line read from standard input"))
    else if k.STATE? then
      var o :- Eval(vars, n.operand, fuel);
      Err(Unmodelled("the state of a key"))
    else if k.WAIT? then
      var o :- Eval(vars, n.operand, fuel);
      var ms :- Runtime.WaitTime(o.v);
      Ok(Out(Default, o.vars))
    else Ok(Out(Default, vars))
  }

  /** `x++` and `x--`: the entry for `x` steps by one in place. */
  function EvalStep(vars: Vars, n: Node): (r: Result<Out>)
    requires n.UnarOp? && (n.op.kind.PLUS_ONE? || n.op.kind.MINUS_ONE?)
    ensures r.Ok? ==> n.operand.Variable? && r.value.v == Default && OnlyChanges(vars, r.value.vars, n.operand.token.text)
    ensures r.Ok? ==> r.value.vars.Keys == vars.Keys
  {
    if !n.operand.Variable? then Err(Undefined("null dereference: the operand is not a variable"))
    else
      var name := n.operand.token.text;
      var cur :- Lookup(vars, name);
      var v :- Operators.Step(n.op.kind.PLUS_ONE?, cur);
      Ok(Out(Default, vars[name := v]))
  }

  /** `visit(BinaryOpNode)`: dispatch on the operator. */
  function EvalBinary(vars: Vars, n: Node, fuel: nat): (r: Result<Out>)
    requires n.BinaryOp?
    decreases fuel, Size(n), 1
    ensures r.Ok? ==> vars.Keys <= r.value.vars.Keys
  {
    var k := n.op.kind;
    if k.ASSIGN? then EvalAssign(vars, n, fuel)
    else if IsCompoundAssign(k) then EvalCompound(vars, n, fuel)
    else if IsTableOperator(k) then
      var l :- Eval(vars, n.left, fuel);
      var r :- Eval(l.vars, n.right, fuel);
      var v :- Binary(k, l.v, r.v);
      Ok(Out(v, r.vars))
    else if k.TYPE? || k.SCROLL? then
      var l :- Eval(vars, n.left, fuel);
      var r :- Eval(l.vars, n.right, fuel);
      Ok(Out(Default, r.vars))
    else Ok(Out(Default, vars))
  }

  /** `x = e`: evaluate `e`, then insert or overwrite the entry for `x`. */
  function EvalAssign(vars: Vars, n: Node, fuel: nat): (r: Result<Out>)
    requires n.BinaryOp? && n.op.kind.ASSIGN?
    decreases fuel, Size(n), 0
    ensures r.Ok? ==> vars.Keys <= r.value.vars.Keys
    ensures r.Ok? ==> n.left.Variable? && r.value.v == Default
  {
    var o :- Eval(vars, n.right, fuel);
    if !n.left.Variable? then Err(Undefined("null dereference: the target is not a variable"))
    else Ok(Out(Default, o.vars[n.left.token.text := o.v]))
  }

  /**
   * `x op= e`: the reference to the entry for `x` is taken first, then `e` is
   * evaluated, then the entry as it is now is combined with the value.
   */
  function EvalCompound(vars: Vars, n: Node, fuel: nat): (r: Result<Out>)
    requires n.BinaryOp? && IsCompoundAssign(n.op.kind)
    decreases fuel, Size(n), 0
    ensures r.Ok? ==> vars.Keys <= r.value.vars.Keys
    ensures r.Ok? ==> n.left.Variable? && n.left.token.text in vars && r.value.v == Default
  {
    if !n.left.Variable? then Err(Undefined("null dereference: the target is not a variable"))
    else
      var name := n.left.token.text;
      var cur :- Lookup(vars, name);
      var o :- Eval(vars, n.right, fuel);
      var v :- Compound(n.op.kind, o.vars[name], o.v);
      Ok(Out(Default, o.vars[name := v]))
  }

  /** `visit(IfNode)`: the branches are visited as blocks; a missing else does nothing. */
  function EvalIf(vars: Vars, n: Node, fuel: nat): (r: Result<Out>)
    requires n.If?
    decreases fuel, Size(n), 1
    ensures r.Ok? ==> vars.Keys <= r.value.vars.Keys
  {
    var c :- Eval(vars, n.cond, fuel);
    if !c.v.Bool? then Fail("The condition in if should be a boolean expression!")
    else if c.v.b then
      if !n.thenBranch.Block? then Err(Undefined("null dereference: the branch is not a block"))
      else EvalBlock(c.vars, n.thenBranch, fuel)
    else if n.elseBranch.Absent? then Ok(Out(Default, c.vars))
    else if !n.elseBranch.Block? then Err(Undefined("null dereference: the branch is not a block"))
    else EvalBlock(c.vars, n.elseBranch, fuel)
  }

  /** `visit(ForNode)`: the initializer once, then the loop. */
  function EvalFor(vars: Vars, n: Node, fuel: nat): (r: Result<Out>)
    requires n.For?
    decreases fuel, Size(n), 1
    ensures r.Ok? ==> vars.Keys <= r.value.vars.Keys
  {
    var init :- Eval(vars, n.init, fuel);
    ForLoop(init.vars, n.cond, n.incr, n.body, fuel)
  }

  /** The `while (true)` loop of `visit(ForNode)`: stop when the condition is false, else body, increment, again. */
  function ForLoop(vars: Vars, cond: Node, incr: Node, body: Node, fuel: nat): (r: Result<Out>)
    decreases fuel, 0, 0
    ensures r.Ok? ==> vars.Keys <= r.value.vars.Keys && r.value.v == Default
  {
    if fuel == 0 then Err(OutOfFuel)
    else
      var c :- Eval(vars, cond, fuel - 1);
      if !c.v.Bool? then Fail("The condition in for should be a boolean expression!")
      else if !c.v.b then Ok(Out(Default, c.vars))
      else
        var b :- Eval(c.vars, body, fuel - 1);
        var i :- Eval(b.vars, incr, fuel - 1);
        ForLoop(i.vars, cond, incr, body, fuel - 1)
  }

  /** `visit(WhileNode)`; its condition error names `for`, as the source's does. */
  function WhileLoop(vars: Vars, cond: Node, body: Node, fuel: nat): (r: Result<Out>)
    decreases fuel, 0, 0
    ensures r.Ok? ==> vars.Keys <= r.value.vars.Keys && r.value.v == Default
  {
    if fuel == 0 then Err(OutOfFuel)
    else
      var c :- Eval(vars, cond, fuel - 1);
      if !c.v.Bool? then Fail("The condition in for should be a boolean expression!")
      else if !c.v.b then Ok(Out(Default, c.vars))
      else
        var b :- Eval(c.vars, body, fuel - 1);
        WhileLoop(b.vars, cond, body, fuel - 1)
  }

  // ------------------------------------------------------------ the object

  /** A visit's outcome as an evaluation outcome: its fault, or its value with the map `vars`. */
  function Outcome(r: Result<Value>, vars: Vars): Result<Out>
  {
    if r.Err? then Err(r.fault) else Ok(Out(r.value, vars))
  }

  /** The evaluator as an object whose one field, the variable map, each visit updates in place. */
  class Intepreter {
    var variables: Vars

    /** No variables. */
    constructor ()
      ensures variables == map[]
    {
      variables := map[];
    }

    /** `execute`: visit the root block. */
    method Execute(program: seq<Node>, fuel: nat) returns (r: Result<Value>)
      modifies this
      ensures EvalBlock(old(variables), Block(program), fuel) == Outcome(r, variables)
    {
      r := VisitBlock(Block(program), fuel);
    }

    /** `visitNode`. */
    method Visit(n: Node, fuel: nat) returns (r: Result<Value>)
      modifies this
      decreases fuel, Size(n), 3
      ensures Eval(old(variables), n, fuel) == Outcome(r, variables)
    {
      if n.Block? {
        r := VisitBlock(n, fuel);
      } else if n.Variable? {
        r := Lookup(variables, n.token.text);
      } else if n.Literal? {
        r := Runtime.ReadLiteral(n.token);
      } else if n.UnarOp? {
        r := VisitUnary(n, fuel);
      } else if n.BinaryOp? {
        r := VisitBinary(n, fuel);
      } else if n.If? {
        r := VisitIf(n, fuel);
      } else if n.For? {
        r := VisitFor(n, fuel);
      } else if n.While? {
        r := VisitWhile(n, fuel);
      } else if n.Key? || n.Mouse? {
        r := Err(Unmodelled("a key or mouse action"));
      } else {
        r := Ok(Default);
      }
    }

    /** `visit(BlockNode)`: the statement loop. */
    method VisitBlock(n: Node, fuel: nat) returns (r: Result<Value>)
      requires n.Block?
      modifies this
      decreases fuel, Size(n), 2
      ensures EvalBlock(old(variables), n, fuel) == Outcome(r, variables)
    {
      ghost var target := ExecStmts(variables, n.stmts, fuel);
      var i := 0;
      assert n.stmts[0..] == n.stmts;
      while i < |n.stmts|
        invariant 0 <= i <= |n.stmts|
        invariant ExecStmts(variables, n.stmts[i..], fuel) == target
        decreases |n.stmts| - i
      {
        assert n.stmts[i..][0] == n.stmts[i] && n.stmts[i..][1..] == n.stmts[i + 1..];
        SizeSeqElement(n.stmts, i);
        var o := Visit(n.stmts[i], fuel);
        if o.Err? {
          return Err(o.fault);
        }
        i := i + 1;
      }
      assert n.stmts[i..] == [];
      r := Ok(Default);
    }

    /** `visit(UnarOpNode)`. */
    method VisitUnary(n: Node, fuel: nat) returns (r: Result<Value>)
      requires n.UnarOp?
      modifies this
      decreases fuel, Size(n), 1
      ensures EvalUnary(old(variables), n, fuel) == Outcome(r, variables)
    {
      var k := n.op.kind;
      if k.PLUS_ONE? || k.MINUS_ONE? {
        r := VisitStep(n);
      } else if k.PRINT? {
        var o := Visit(n.operand, fuel);
        r := if o.Err? then o else Ok(Default);
      } else if k.PLUS? || k.MINUS? || k.LOGICAL_NOT? || k.BIT_NOT? {
        var o := Visit(n.operand, fuel);
        r := if o.Err? then o else Operators.Unary(k, o.value);
      } else if k.INPUT? {
        if !n.operand.Variable? {
          r := Err(Undefined("null dereference: the operand is not a variable"));
        } else if n.operand.token.text !in variables || variables[n.operand.token.text].Bool? {
          r := Fail("Unsupported type for INPUT operation.");
        } else {
          r := Err(Unmodelled("a line read from standard input"));
        }
      } else if k.STATE? {
        var o := Visit(n.operand, fuel);
        r := if o.Err? then o else Err(Unmodelled("the state of a key"));
      } else if k.WAIT? {
        var o := Visit(n.operand, fuel);
        if o.Err? {
          return o;
        }
        var ms := Runtime.WaitTime(o.value);
        r := if ms.Err? then Err(ms.fault) else Ok(Default);
      } else {
        r := Ok(Default);
      }
    }

    /** `x++` and `x--`: through the reference `visit(VariableNode)` returns. */
    method VisitStep(n: Node) returns (r: Result<Value>)
      requires n.UnarOp? && (n.op.kind.PLUS_ONE? || n.op.kind.MINUS_ONE?)
      modifies this
      ensures EvalStep(old(variables), n) == Outcome(r, variables)
    {
      if !n.operand.Variable? {
        return Err(Undefined("null dereference: the operand is not a variable"));
      }
      var name := n.operand.token.text;
      var cur := Lookup(variables, name);
      if cur.Err? {
        return Err(cur.fault);
      }
      var v := Operators.Step(n.op.kind.PLUS_ONE?, cur.value);
      if v.Err? {
        return Err(v.fault);
      }
      variables := variables[name := v.value];
      r := Ok(Default);
    }

    /** `visit(BinaryOpNode)`. */
    method VisitBinary(n: Node, fuel: nat) returns (r: Result<Value>)
      requires n.BinaryOp?
      modifies this
      decreases fuel, Size(n), 1
      ensures EvalBinary(old(variables), n, fuel) == Outcome(r, variables)
    {
      var k := n.op.kind;
      if k.ASSIGN? {
        r := VisitAssign(n, fuel);
      } else if IsCompoundAssign(k) {
        r := VisitCompound(n, fuel);
      } else if IsTableOperator(k) || k.TYPE? || k.SCROLL? {
        var left := Visit(n.left, fuel);
        if left.Err? {
          return left;
        }
        var right := Visit(n.right, fuel);
        if right.Err? {
          return right;
        }
        r := if k.TYPE? || k.SCROLL? then Ok(Default) else Binary(k, left.value, right.value);
      } else {
        r := Ok(Default);
      }
    }

    /** `x = e`. */
    method VisitAssign(n: Node, fuel: nat) returns (r: Result<Value>)
      requires n.BinaryOp? && n.op.kind.ASSIGN?
      modifies this
      decreases fuel, Size(n), 0
      ensures EvalAssign(old(variables), n, fuel) == Outcome(r, variables)
    {
      var o := Visit(n.right, fuel);
      if o.Err? {
        return o;
      }
      if !n.left.Variable? {
        return Err(Undefined("null dereference: the target is not a variable"));
      }
      variables := variables[n.left.token.text := o.value];
      r := Ok(Default);
    }

    /** `x op= e`. */
    method VisitCompound(n: Node, fuel: nat) returns (r: Result<Value>)
      requires n.BinaryOp? && IsCompoundAssign(n.op.kind)
      modifies this
      decreases fuel, Size(n), 0
      ensures EvalCompound(old(variables), n, fuel) == Outcome(r, variables)
    {
      if !n.left.Variable? {
        return Err(Undefined("null dereference: the target is not a variable"));
      }
      var name := n.left.token.text;
      var cur := Lookup(variables, name);
      if cur.Err? {
        return Err(cur.fault);
      }
      var o := Visit(n.right, fuel);
      if o.Err? {
        return o;
      }
      var v := Compound(n.op.kind, variables[name], o.value);
      if v.Err? {
        return Err(v.fault);
      }
      variables := variables[name := v.value];
      r := Ok(Default);
    }

    /** `visit(IfNode)`. */
    method VisitIf(n: Node, fuel: nat) returns (r: Result<Value>)
      requires n.If?
      modifies this
      decreases fuel, Size(n), 1
      ensures EvalIf(old(variables), n, fuel) == Outcome(r, variables)
    {
      var c := Visit(n.cond, fuel);
      if c.Err? {
        return c;
      }
      if !c.value.Bool? {
        return Fail("The condition in if should be a boolean expression!");
      }
      if c.value.b {
        if !n.thenBranch.Block? {
          return Err(Undefined("null dereference: the branch is not a block"));
        }
        r := VisitBlock(n.thenBranch, fuel);
      } else if n.elseBranch.Absent? {
        r := Ok(Default);
      } else if !n.elseBranch.Block? {
        r := Err(Undefined("null dereference: the branch is not a block"));
      } else {
        r := VisitBlock(n.elseBranch, fuel);
      }
    }

    /** `visit(ForNode)`: the initializer, then the `while (true)` loop. */
    method VisitFor(n: Node, fuel: nat) returns (r: Result<Value>)
      requires n.For?
      modifies this
      decreases fuel, Size(n), 1
      ensures EvalFor(old(variables), n, fuel) == Outcome(r, variables)
    {
      var init := Visit(n.init, fuel);
      if init.Err? {
        return init;
      }
      r := LoopFor(n.cond, n.incr, n.body, fuel);
    }

    /** The `while (true)` loop of `visit(ForNode)`. */
    method LoopFor(cond: Node, incr: Node, body: Node, fuel: nat) returns (r: Result<Value>)
      modifies this
      decreases fuel, 0, 3
      ensures ForLoop(old(variables), cond, incr, body, fuel) == Outcome(r, variables)
    {
      ghost var target := ForLoop(variables, cond, incr, body, fuel);
      var f: nat := fuel;
      while true
        invariant f <= fuel
        invariant ForLoop(variables, cond, incr, body, f) == target
        decreases f
      {
        if f == 0 {
          assert target == Err(OutOfFuel);
          return Err(OutOfFuel);
        }
        var p := ForPass(cond, incr, body, f, f - 1, fuel, variables);
        if p.Done? {
          return p.r;
        }
        f := f - 1;
      }
    }

    /** One pass of the loop of `visit(ForNode)`: it ends the loop, or leaves the map for the next pass. */
    method ForPass(cond: Node, incr: Node, body: Node, f: nat, g: nat, ghost fuel: nat, ghost s: Vars) returns (p: Pass)
      requires f == g + 1 && f <= fuel && variables == s
      modifies this
      decreases fuel, 0, 2
      ensures ForLoop(s, cond, incr, body, f) ==
        if p.Done? then Outcome(p.r, variables) else ForLoop(variables, cond, incr, body, g)
    {
      var c := Visit(cond, g);
      p := ForConditionPass(cond, incr, body, f, g, fuel, s, c);
    }

    /** The rest of a pass once the condition gave `c`: stop, or go on to the body. */
    method ForConditionPass(cond: Node, incr: Node, body: Node, f: nat, g: nat, ghost fuel: nat, ghost s: Vars, c: Result<Value>)
      returns (p: Pass)
      requires f == g + 1 && f <= fuel && Eval(s, cond, g) == Outcome(c, variables)
      modifies this
      decreases fuel, 0, 1
      ensures ForLoop(s, cond, incr, body, f) ==
        if p.Done? then Outcome(p.r, variables) else ForLoop(variables, cond, incr, body, g)
    {
      if c.Err? {
        ForConditionFails(s, cond, incr, body, f, c.fault);
        p := Done(c);
      } else if !c.value.Bool? {
        ForConditionNotBool(s, cond, incr, body, f, Out(c.value, variables));
        p := Done(Fail("The condition in for should be a boolean expression!"));
      } else if !c.value.b {
        ForHalts(s, cond, incr, body, f, Out(c.value, variables));
        p := Done(Ok(Default));
      } else {
        p := ForBodyPass(cond, incr, body, f, g, fuel, s, Out(c.value, variables));
      }
    }

    /** The rest of a pass whose condition held: the body, then the increment, on the budget `g` left for them. */
    method ForBodyPass(cond: Node, incr: Node, body: Node, f: nat, g: nat, ghost fuel: nat, ghost s: Vars, ghost co: Out)
      returns (p: Pass)
      requires f == g + 1 && f <= fuel && Eval(s, cond, g) == Ok(co) && co.v == Bool(true) && variables == co.vars
      modifies this
      decreases fuel, 0, 0
      ensures ForLoop(s, cond, incr, body, f) ==
        if p.Done? then Outcome(p.r, variables) else ForLoop(variables, cond, incr, body, g)
    {
      var b := Visit(body, g);
      if b.Err? {
        ForBodyFails(s, cond, incr, body, f, co, b.fault);
        return Done(b);
      }
      ghost var bo := Out(b.value, variables);
      var i := Visit(incr, g);
      if i.Err? {
        ForIncrementFails(s, cond, incr, body, f, co, bo, i.fault);
        return Done(i);
      }
      ForGoesOn(s, cond, incr, body, f, co, bo, Out(i.value, variables));
      p := Again;
    }

    /** `visit(WhileNode)`: the `while (true)` loop. */
    method VisitWhile(n: Node, fuel: nat) returns (r: Result<Value>)
      requires n.While?
      modifies this
      decreases fuel, Size(n), 1
      ensures WhileLoop(old(variables), n.cond, n.body, fuel) == Outcome(r, variables)
    {
      ghost var target := WhileLoop(variables, n.cond, n.body, fuel);
      var f: nat := fuel;
      while true
        invariant f <= fuel
        invariant WhileLoop(variables, n.cond, n.body, f) == target
        decreases f
      {
        if f == 0 {
          return Err(OutOfFuel);
        }
        var p := WhilePass(n.cond, n.body, f, fuel);
        if p.Done? {
          return p.r;
        }
        f := f - 1;
      }
    }

    /** One pass of the loop of `visit(WhileNode)`: it ends the loop, or leaves the map for the next pass. */
    method WhilePass(cond: Node, body: Node, f: nat, ghost fuel: nat) returns (p: Pass)
      requires 0 < f <= fuel
      modifies this
      decreases fuel, 0, 0
      ensures WhileLoop(old(variables), cond, body, f) ==
        if p.Done? then Outcome(p.r, variables) else WhileLoop(variables, cond, body, f - 1)
    {
      ghost var s := variables;
      var c := Visit(cond, f - 1);
      if c.Err? {
        WhileConditionFails(s, cond, body, f, c.fault);
        return Done(c);
      }
      ghost var co := Out(c.value, variables);
      if !c.value.Bool? {
        WhileConditionNotBool(s, cond, body, f, co);
        return Done(Fail("The condition in for should be a boolean expression!"));
      }
      if !c.value.b {
        WhileHalts(s, cond, body, f, co);
        return Done(Ok(Default));
      }
      var b := Visit(body, f - 1);
      if b.Err? {
        WhileBodyFails(s, cond, body, f, co, b.fault);
        return Done(b);
      }
      WhileGoesOn(s, cond, body, f, co, Out(b.value, variables));
      p := Again;
    }
  }

  /** How one pass of a loop ended: the loop is over with `r`, or it goes round again. */
  datatype Pass = Done(r: Result<Value>) | Again

  // One pass of a loop, one lemma per way the pass can end.

  lemma ForConditionFails(vars: Vars, cond: Node, incr: Node, body: Node, f: nat, fault: Fault)
    requires f > 0 && Eval(vars, cond, f - 1) == Err(fault)
    ensures ForLoop(vars, cond, incr, body, f) == Err(fault)
  {
  }

  lemma ForConditionNotBool(vars: Vars, cond: Node, incr: Node, body: Node, f: nat, c: Out)
    requires f > 0 && Eval(vars, cond, f - 1) == Ok(c) && !c.v.Bool?
    ensures ForLoop(vars, cond, incr, body, f) == Fail("The condition in for should be a boolean expression!")
  {
  }

  lemma ForHalts(vars: Vars, cond: Node, incr: Node, body: Node, f: nat, c: Out)
    requires f > 0 && Eval(vars, cond, f - 1) == Ok(c) && c.v == Bool(false)
    ensures ForLoop(vars, cond, incr, body, f) == Ok(Out(Default, c.vars))
  {
  }

  lemma ForBodyFails(vars: Vars, cond: Node, incr: Node, body: Node, f: nat, c: Out, fault: Fault)
    requires f > 0 && Eval(vars, cond, f - 1) == Ok(c) && c.v == Bool(true)
    requires Eval(c.vars, body, f - 1) == Err(fault)
    ensures ForLoop(vars, cond, incr, body, f) == Err(fault)
  {
  }

  lemma ForIncrementFails(vars: Vars, cond: Node, incr: Node, body: Node, f: nat, c: Out, b: Out, fault: Fault)
    requires f > 0 && Eval(vars, cond, f - 1) == Ok(c) && c.v == Bool(true)
    requires Eval(c.vars, body, f - 1) == Ok(b) && Eval(b.vars, incr, f - 1) == Err(fault)
    ensures ForLoop(vars, cond, incr, body, f) == Err(fault)
  {
  }

  lemma ForGoesOn(vars: Vars, cond: Node, incr: Node, body: Node, f: nat, c: Out, b: Out, i: Out)
    requires f > 0 && Eval(vars, cond, f - 1) == Ok(c) && c.v == Bool(true)
    requires Eval(c.vars, body, f - 1) == Ok(b) && Eval(b.vars, incr, f - 1) == Ok(i)
    ensures ForLoop(vars, cond, incr, body, f) == ForLoop(i.vars, cond, incr, body, f - 1)
  {
  }

  lemma WhileConditionFails(vars: Vars, cond: Node, body: Node, f: nat, fault: Fault)
    requires f > 0 && Eval(vars, cond, f - 1) == Err(fault)
    ensures WhileLoop(vars, cond, body, f) == Err(fault)
  {
  }

  lemma WhileConditionNotBool(vars: Vars, cond: Node, body: Node, f: nat, c: Out)
    requires f > 0 && Eval(vars, cond, f - 1) == Ok(c) && !c.v.Bool?
    ensures WhileLoop(vars, cond, body, f) == Fail("The condition in for should be a boolean expression!")
  {
  }

  lemma WhileHalts(vars: Vars, cond: Node, body: Node, f: nat, c: Out)
    requires f > 0 && Eval(vars, cond, f - 1) == Ok(c) && c.v == Bool(false)
    ensures WhileLoop(vars, cond, body, f) == Ok(Out(Default, c.vars))
  {
  }

  lemma WhileBodyFails(vars: Vars, cond: Node, body: Node, f: nat, c: Out, fault: Fault)
    requires f > 0 && Eval(vars, cond, f - 1) == Ok(c) && c.v == Bool(true)
    requires Eval(c.vars, body, f - 1) == Err(fault)
    ensures WhileLoop(vars, cond, body, f) == Err(fault)
  {
  }

  lemma WhileGoesOn(vars: Vars, cond: Node, body: Node, f: nat, c: Out, b: Out)
    requires f > 0 && Eval(vars, cond, f - 1) == Ok(c) && c.v == Bool(true)
    requires Eval(c.vars, body, f - 1) == Ok(b)
    ensures WhileLoop(vars, cond, body, f) == WhileLoop(b.vars, cond, body, f - 1)
  {
  }
}
