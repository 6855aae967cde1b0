/**
 * What the scoped interpreter of src/interpreter/Interpreter.cpp
 * guarantees, stated on the functions of module Runtime: how a variable is
 * read, assigned and stepped, how a block scopes its bindings and honours
 * the run-control flags, and how `if` and the loops use their conditions.
 */
module RuntimeLaws {
  import opened Tokens
  import opened Values
  import opened Operators
  import opened Ast
  import opened Store
  import opened Runtime

  // ------------------------------------------------------------ dispatch

  lemma UnaryNode(st: State, n: Node, fuel: nat)
    requires n.UnarOp?
    ensures Eval(st, n, fuel) == EvalUnary(st, n, fuel)
  {
    assert Eval(st, n, fuel) == EvalExpr(st, n, fuel);
  }

  lemma BinaryNode(st: State, n: Node, fuel: nat)
    requires n.BinaryOp?
    ensures Eval(st, n, fuel) == EvalBinary(st, n, fuel)
  {
    assert Eval(st, n, fuel) == EvalExpr(st, n, fuel);
  }

  lemma IfNode(st: State, n: Node, fuel: nat)
    requires n.If?
    ensures Eval(st, n, fuel) == EvalIf(st, n, fuel)
  {
    assert Eval(st, n, fuel) == EvalControl(st, n, fuel);
  }

  lemma ForNode(st: State, n: Node, fuel: nat)
    requires n.For?
    ensures Eval(st, n, fuel) == EvalFor(st, n, fuel)
  {
    assert Eval(st, n, fuel) == EvalControl(st, n, fuel);
  }

  lemma BlockNode(st: State, ss: seq<Node>, fuel: nat)
    ensures var e := ExecStmts(st.(depth := st.depth + 1), ss, fuel);
      Eval(st, Block(ss), fuel) ==
        if e.Err? then Err(e.fault)
        else Ok(Out(Default, e.value.st.(vars := Prune(e.value.st.vars, st.depth + 1), depth := st.depth), Block(e.value.ns)))
  {
    assert Eval(st, Block(ss), fuel) == EvalBlock(st, Block(ss), fuel);
  }

  // ------------------------------------------------------------ variables

  /**
   * Reading a variable gives the value of the first binding with its name
   * and changes nothing; a name with no binding is a runtime error.
   */
  lemma ReadingAVariable(st: State, t: Token, fuel: nat)
    requires !t.kind.GETX? && !t.kind.GETY?
    ensures var r := Eval(st, Variable(t), fuel);
      (r.Ok? <==> Find(st.vars, t.text).Some?)
      && (r.Ok? ==> r.value == Out(st.vars[Find(st.vars, t.text).value].value, st, Variable(t)))
      && (Find(st.vars, t.text).None? ==> r == Fail("Variable " + t.text + " not found."))
  {
  }

  /** Two stores with the same names, in order, bind no name twice alike. */
  lemma UniqueByNames(a: seq<Binding>, b: seq<Binding>)
    requires Names(a) == Names(b) && UniqueNames(a)
    ensures UniqueNames(b)
  {
    forall i, j | 0 <= i < j < |b| ensures b[i].name != b[j].name {
      assert b[i].name == Names(b)[i] == Names(a)[i] == a[i].name;
      assert b[j].name == Names(b)[j] == Names(a)[j] == a[j].name;
    }
  }

  /**
   * `x = e` for any right-hand side `e`, on a store that binds no name
   * twice. It succeeds exactly when `e` does and leaves the list of bindings
   * undisturbed: when `e` appends or erases a binding, the iterator found
   * before `e` ran is no longer safe to use. Then, starting from the state
   * `e` left: the first binding of `x` is overwritten in place, or one
   * binding is appended at the current depth and counted; every other
   * binding stays, names stay unique, and reading `x` afterwards gives
   * `e`'s value.
   */
  lemma AssignmentSetsItsTarget(st: State, n: Node, fuel: nat)
    requires n.BinaryOp? && n.op.kind.ASSIGN?
    requires UniqueNames(st.vars)
    ensures var r, e := Eval(st, n, fuel), Eval(st, n.right, fuel);
      r.Ok? <==> e.Ok? && n.left.Variable? && !Disturbed(st, e.value.st)
    ensures var r, e := Eval(st, n, fuel), Eval(st, n.right, fuel);
      e.Ok? && n.left.Variable? && Disturbed(st, e.value.st) ==> r == Err(Invalidated)
    ensures var r, e := Eval(st, n, fuel), Eval(st, n.right, fuel);
      r.Ok? ==> (
        var s, vars, x := e.value.st, r.value.st.vars, n.left.token.text;
        r.value.v == Default && r.value.n == BinaryOp(n.op, n.left, e.value.n)
        && UniqueNames(vars)
        && (Find(st.vars, x).Some? ==>
          r.value.st == s.(vars := vars)
          && |vars| == |s.vars| && vars[Find(st.vars, x).value] == s.vars[Find(st.vars, x).value].(value := e.value.v))
        && (Find(st.vars, x).None? ==>
          r.value.st == s.(vars := vars, appended := s.appended + 1)
          && vars == s.vars + [Binding(e.value.v, x, st.depth)])
        && (forall j :: 0 <= j < |s.vars| && s.vars[j].name != x ==> vars[j] == s.vars[j])
        && Find(vars, x).Some? && vars[Find(vars, x).value].value == e.value.v)
  {
    BinaryNode(st, n, fuel);
    var e := Eval(st, n.right, fuel);
    if e.Ok? && n.left.Variable? && !Disturbed(st, e.value.st) {
      var x := n.left.token.text;
      FindByNames(st.vars, e.value.st.vars, x);
      UniqueByNames(st.vars, e.value.st.vars);
      AssignedSpec(e.value.st.vars, x, e.value.v, st.depth);
    }
  }

  /**
   * `x = e` with `e` a variable, a literal or nothing at all (the parser's
   * `x = ;`, whose missing operand evaluates to the default value), on a
   * store that binds no name twice: `e` changes nothing, so the assignment
   * always goes ahead when `e` can be evaluated. The first binding of `x` is
   * overwritten in place, or one binding is appended at the current depth;
   * every other binding and every flag stays, names stay unique, and
   * reading `x` afterwards gives `e`'s value.
   */
  lemma AssignmentOfALeaf(st: State, n: Node, fuel: nat)
    requires n.BinaryOp? && n.op.kind.ASSIGN? && n.left.Variable? && (n.right.Variable? || n.right.Literal? || n.right.Absent?)
    requires UniqueNames(st.vars)
    ensures n.right.Absent? ==> Eval(st, n.right, fuel) == Ok(Out(Default, st, n.right))
    ensures var r, e := Eval(st, n, fuel), Eval(st, n.right, fuel);
      r.Ok? <==> e.Ok?
    ensures var r, e, x := Eval(st, n, fuel), Eval(st, n.right, fuel), n.left.token.text;
      r.Ok? ==> (
        var vars := r.value.st.vars;
        UniqueNames(vars)
        && (Find(st.vars, x).Some? ==>
          r.value.st == st.(vars := vars)
          && |vars| == |st.vars| && vars[Find(st.vars, x).value] == st.vars[Find(st.vars, x).value].(value := e.value.v))
        && (Find(st.vars, x).None? ==>
          r.value.st == st.(vars := vars, appended := st.appended + 1) && vars == st.vars + [Binding(e.value.v, x, st.depth)])
        && (forall j :: 0 <= j < |st.vars| && st.vars[j].name != x ==> vars[j] == st.vars[j])
        && Find(vars, x).Some? && vars[Find(vars, x).value].value == e.value.v)
  {
    var e := Eval(st, n.right, fuel);
    if e.Ok? {
      assert e.value.st == st;
    }
    AssignmentSetsItsTarget(st, n, fuel);
  }

  /** `x++` on an int below INT_MAX adds one to the first binding of `x`, in place, and changes nothing else. */
  lemma IncrementAddsOne(st: State, n: Node, fuel: nat)
    requires n.UnarOp? && n.op.kind.PLUS_ONE? && n.operand.Variable?
    requires !n.operand.token.kind.GETX? && !n.operand.token.kind.GETY?
    requires Find(st.vars, n.operand.token.text).Some?
    requires var b := st.vars[Find(st.vars, n.operand.token.text).value]; b.value.Int? && b.value.i < 0x7FFF_FFFF
    ensures var i := Find(st.vars, n.operand.token.text).value;
      Eval(st, n, fuel) == Ok(Out(Default, st.(vars := Put(st.vars, i, Int(st.vars[i].value.i + 1))), n))
  {
    UnaryNode(st, n, fuel);
  }

  /** `x--` on an int above INT_MIN takes one from the first binding of `x`, in place, and changes nothing else. */
  lemma DecrementTakesOne(st: State, n: Node, fuel: nat)
    requires n.UnarOp? && n.op.kind.MINUS_ONE? && n.operand.Variable?
    requires !n.operand.token.kind.GETX? && !n.operand.token.kind.GETY?
    requires Find(st.vars, n.operand.token.text).Some?
    requires var b := st.vars[Find(st.vars, n.operand.token.text).value]; b.value.Int? && b.value.i > -0x8000_0000
    ensures var i := Find(st.vars, n.operand.token.text).value;
      Eval(st, n, fuel) == Ok(Out(Default, st.(vars := Put(st.vars, i, Int(st.vars[i].value.i - 1))), n))
  {
    UnaryNode(st, n, fuel);
  }

  /** `++` and `--` reject a bool or a string binding, and a name with no binding. */
  lemma StepRejects(st: State, n: Node, fuel: nat)
    requires n.UnarOp? && (n.op.kind.PLUS_ONE? || n.op.kind.MINUS_ONE?) && n.operand.Variable?
    requires !n.operand.token.kind.GETX? && !n.operand.token.kind.GETY?
    ensures var x, i := n.operand.token.text, Find(st.vars, n.operand.token.text);
      i.Some? && (st.vars[i.value].value.Bool? || st.vars[i.value].value.Str?) ==>
        Eval(st, n, fuel) == Fail("Expected integer/float value for increment/decrement.")
    ensures var x := n.operand.token.text;
      Find(st.vars, x).None? ==> Eval(st, n, fuel) == Fail("Variable " + x + " not found.")
  {
    UnaryNode(st, n, fuel);
  }

  /**
   * `x op= e` for any right-hand side `e`, when `x` is bound: it succeeds
   * exactly when `e` does, leaves the list of bindings undisturbed (else the
   * reference to `x`'s binding is no longer safe to use), and the compound
   * table accepts the binding's value as `e` left it together with `e`'s
   * value. Then that binding alone takes the result, in place, and reading
   * `x` gives it.
   */
  lemma CompoundSetsItsTarget(st: State, n: Node, fuel: nat)
    requires n.BinaryOp? && IsCompoundAssign(n.op.kind) && n.left.Variable?
    requires !n.left.token.kind.GETX? && !n.left.token.kind.GETY?
    requires Find(st.vars, n.left.token.text).Some?
    ensures var r, e, i := Eval(st, n, fuel), Eval(st, n.right, fuel), Find(st.vars, n.left.token.text).value;
      r.Ok? <==> e.Ok? && !Disturbed(st, e.value.st) && Compound(n.op.kind, e.value.st.vars[i].value, e.value.v).Ok?
    ensures var r, e := Eval(st, n, fuel), Eval(st, n.right, fuel);
      e.Ok? && Disturbed(st, e.value.st) ==> r == Err(Invalidated)
    ensures var r, e, i, x := Eval(st, n, fuel), Eval(st, n.right, fuel), Find(st.vars, n.left.token.text).value, n.left.token.text;
      r.Ok? ==> (
        var s, vars := e.value.st, r.value.st.vars;
        var c := Compound(n.op.kind, s.vars[i].value, e.value.v).value;
        r.value.v == Default && r.value.n == BinaryOp(n.op, n.left, e.value.n)
        && r.value.st == s.(vars := vars) && |vars| == |s.vars|
        && vars[i] == s.vars[i].(value := c)
        && (forall j :: 0 <= j < |s.vars| && j != i ==> vars[j] == s.vars[j])
        && Find(vars, x) == Some(i))
  {
    BinaryNode(st, n, fuel);
    var e := Eval(st, n.right, fuel);
    if e.Ok? && !Disturbed(st, e.value.st) {
      var x, i := n.left.token.text, Find(st.vars, n.left.token.text).value;
      var c := Compound(n.op.kind, e.value.st.vars[i].value, e.value.v);
      FindByNames(st.vars, e.value.st.vars, x);
      if c.Ok? {
        FindByNames(e.value.st.vars, Put(e.value.st.vars, i, c.value), x);
      }
    }
  }

  /**
   * `x op= e` with `e` a literal or nothing at all (whose value is the
   * default, `false`): the first binding of `x` becomes what the compound
   * table makes of its value and `e`'s, in place, and nothing else changes.
   */
  lemma CompoundOfALeaf(st: State, n: Node, fuel: nat)
    requires n.BinaryOp? && IsCompoundAssign(n.op.kind) && n.left.Variable? && (n.right.Literal? || n.right.Absent?)
    requires !n.left.token.kind.GETX? && !n.left.token.kind.GETY?
    requires Find(st.vars, n.left.token.text).Some?
    requires n.right.Literal? ==> ReadLiteral(n.right.token).Ok?
    ensures var i := Find(st.vars, n.left.token.text).value;
      var v := if n.right.Literal? then ReadLiteral(n.right.token).value else Default;
      var c := Compound(n.op.kind, st.vars[i].value, v);
      Eval(st, n, fuel) == if c.Err? then Err(c.fault) else Ok(Out(Default, st.(vars := Put(st.vars, i, c.value)), n))
  {
    BinaryNode(st, n, fuel);
    var v := if n.right.Literal? then ReadLiteral(n.right.token).value else Default;
    assert Eval(st, n.right, fuel) == Ok(Out(v, st, n.right));
  }

  // ------------------------------------------------------------ commands and blocks

  /** `break`, `continue` and `!!` set their own flag and change nothing else. */
  lemma CommandSetsItsFlag(st: State, t: Token, fuel: nat)
    ensures var r := Eval(st, Command(t), fuel);
      r.Ok? && r.value.v == Default && r.value.n == Command(t)
      && (t.kind.BREAK? ==> r.value.st == st.(brk := true))
      && (t.kind.CONTINUE? ==> r.value.st == st.(cont := true))
      && (t.kind.EXIT? ==> r.value.st == st.(exit := true))
      && (!t.kind.BREAK? && !t.kind.CONTINUE? && !t.kind.EXIT? ==> r.value.st == st)
  {
  }

  /**
   * A block entered with a flag already set runs none of its statements:
   * it clears `continue_loop_` and leaves `break_loop_` and `exit_program_`
   * set.
   */
  lemma FlaggedBlockRunsNothing(st: State, ss: seq<Node>, fuel: nat)
    requires |ss| > 0 && (st.brk || st.cont || st.exit)
    ensures Eval(st, Block(ss), fuel) == Ok(Out(Default, st.(vars := Prune(st.vars, st.depth + 1), cont := false), Block(ss)))
  {
    BlockNode(st, ss, fuel);
    ExecStmtsFlagged(st.(depth := st.depth + 1), ss, fuel);
  }

  /**
   * A `break`, `continue` or `!!` ends its block: the statements after it do
   * not run. `break` and `!!` stay set for the enclosing code; `continue` is
   * cleared by the check before the next statement, so it stays set only
   * when it was the block's last statement.
   */
  lemma CommandEndsItsBlock(st: State, t: Token, rest: seq<Node>, fuel: nat)
    requires t.kind.BREAK? || t.kind.CONTINUE? || t.kind.EXIT?
    requires !st.brk && !st.cont && !st.exit
    ensures Eval(st, Block([Command(t)] + rest), fuel) ==
      Ok(Out(Default, RunCommand(st, t.kind).(vars := Prune(st.vars, st.depth + 1), cont := t.kind.CONTINUE? && |rest| == 0),
        Block([Command(t)] + rest)))
  {
    var ss := [Command(t)] + rest;
    var inner := st.(depth := st.depth + 1);
    var o := Out(Default, RunCommand(inner, t.kind), Command(t));
    BlockNode(st, ss, fuel);
    assert ss[0] == Command(t) && ss[1..] == rest;
    assert Eval(inner, Command(t), fuel) == Ok(o);
    ExecStmtsGoesOn(inner, ss, fuel, o);
    if |rest| > 0 {
      ExecStmtsFlagged(o.st, rest, fuel);
    }
  }

  /** `x = v` with `v` a literal and `x` not bound: one binding is appended at the current depth. */
  lemma AssignNewName(st: State, a: Node, fuel: nat)
    requires a.BinaryOp? && a.op.kind.ASSIGN? && a.left.Variable? && a.right.Literal?
    requires Find(st.vars, a.left.token.text).None? && ReadLiteral(a.right.token).Ok?
    ensures Eval(st, a, fuel) ==
      Ok(Out(Default, st.(vars := st.vars + [Binding(ReadLiteral(a.right.token).value, a.left.token.text, st.depth)], appended := st.appended + 1), a))
  {
    BinaryNode(st, a, fuel);
    assert Eval(st, a.right, fuel) == Ok(Out(ReadLiteral(a.right.token).value, st, a.right));
  }

  /**
   * A binding made directly in a block is made at the block's raised depth,
   * which the prune on exit keeps: a block whose one statement assigns a new
   * name leaves that binding behind, after the bindings that survive.
   */
  lemma BlockKeepsItsOwnBinding(st: State, a: Node, fuel: nat)
    requires a.BinaryOp? && a.op.kind.ASSIGN? && a.left.Variable? && a.right.Literal?
    requires Find(st.vars, a.left.token.text).None? && ReadLiteral(a.right.token).Ok?
    requires !st.brk && !st.cont && !st.exit
    ensures Eval(st, Block([a]), fuel) ==
      Ok(Out(Default, st.(vars := Prune(st.vars, st.depth + 1) + [Binding(ReadLiteral(a.right.token).value, a.left.token.text, st.depth + 1)],
        appended := st.appended + 1),
        Block([a])))
  {
    var inner := st.(depth := st.depth + 1);
    var b := Binding(ReadLiteral(a.right.token).value, a.left.token.text, st.depth + 1);
    var after := inner.(vars := st.vars + [b], appended := st.appended + 1);
    AssignNewName(inner, a, fuel);
    assert Eval(inner, a, fuel) == Ok(Out(Default, after, a));
    OneStatement(inner, a, fuel);
    assert ExecStmts(inner, [a], fuel) == Ok(Run(after, [a]));
    BlockNode(st, [a], fuel);
    PruneKeepsNewBinding(st.vars, b, st.depth + 1);
  }

  /** A statement list of one statement, with every flag clear: that statement. */
  lemma OneStatement(st: State, s: Node, fuel: nat)
    requires !st.brk && !st.cont && !st.exit
    ensures var o := Eval(st, s, fuel);
      ExecStmts(st, [s], fuel) == if o.Err? then Err(o.fault) else Ok(Run(o.value.st, [o.value.n]))
  {
    assert [s][1..] == [];
    var o := Eval(st, s, fuel);
    if o.Ok? {
      ExecStmtsGoesOn(st, [s], fuel, o.value);
      assert ExecStmts(o.value.st, [], fuel) == Ok(Run(o.value.st, []));
      assert [o.value.n] + [] == [o.value.n];
    }
  }

  // ------------------------------------------------------------ if

  /** `if` visits the block its condition picks; a false condition with no else does nothing more. */
  lemma IfChoosesItsBranch(st: State, n: Node, fuel: nat, c: Out)
    requires n.If? && Eval(st, n.cond, fuel) == Ok(c) && c.v.Bool?
    ensures c.v.b && n.thenBranch.Block? ==>
      var t := EvalBlock(c.st, n.thenBranch, fuel);
      Eval(st, n, fuel) == if t.Err? then Err(t.fault) else Ok(Out(Default, t.value.st, If(c.n, t.value.n, n.elseBranch)))
    ensures !c.v.b && n.elseBranch.Absent? ==> Eval(st, n, fuel) == Ok(Out(Default, c.st, If(c.n, n.thenBranch, n.elseBranch)))
    ensures !c.v.b && n.elseBranch.Block? ==>
      var e := EvalBlock(c.st, n.elseBranch, fuel);
      Eval(st, n, fuel) == if e.Err? then Err(e.fault) else Ok(Out(Default, e.value.st, If(c.n, n.thenBranch, e.value.n)))
  {
    IfNode(st, n, fuel);
  }

  /** An `if` whose condition is not a bool is a runtime error, whatever its branches. */
  lemma IfNeedsABool(st: State, n: Node, fuel: nat, c: Out)
    requires n.If? && Eval(st, n.cond, fuel) == Ok(c) && !c.v.Bool?
    ensures Eval(st, n, fuel) == Fail("The condition in if should be a boolean expression!")
  {
    IfNode(st, n, fuel);
  }

  // ------------------------------------------------------------ loops

  /** A condition that is the literal `true` or `false`. */
  predicate IsBoolLiteral(n: Node, b: bool)
  {
    n.Literal? && n.token.kind == BOOL && n.token.text == (if b then "true" else "false")
  }

  lemma BoolLiteral(st: State, n: Node, b: bool, fuel: nat)
    requires IsBoolLiteral(n, b)
    ensures Eval(st, n, fuel) == Ok(Out(Bool(b), st, n))
  {
  }

  /** A loop whose condition is not a bool is a runtime error naming `for`, for `while` too. */
  lemma LoopsNeedABool(st: State, init: Node, cond: Node, incr: Node, body: Node, fuel: nat, c: Out)
    requires fuel > 0 && Eval(st, cond, fuel - 1) == Ok(c) && !c.v.Bool?
    ensures ForLoop(st, For(init, cond, incr, body), fuel) == Fail("The condition in for should be a boolean expression!")
    ensures WhileLoop(st, While(cond, body), fuel) == Fail("The condition in for should be a boolean expression!")
  {
    ForConditionNotBool(st, init, cond, incr, body, fuel, c);
    WhileConditionNotBool(st, cond, body, fuel, c);
  }

  /** `while (false)` runs no pass: it only clears `break_loop_`. */
  lemma WhileFalseDoesNothing(st: State, cond: Node, body: Node, fuel: nat)
    requires IsBoolLiteral(cond, false) && fuel > 0
    ensures WhileLoop(st, While(cond, body), fuel) == Ok(Out(Default, st.(brk := false), While(cond, body)))
  {
    BoolLiteral(st, cond, false, fuel - 1);
    WhileHalts(st, cond, body, fuel, Out(Bool(false), st, cond));
  }

  /**
   * `while (true) { break }` runs its body once and ends there, with
   * `break_loop_` cleared again: only the body's prune remains.
   */
  lemma BreakEndsTheLoop(st: State, cond: Node, t: Token, fuel: nat)
    requires IsBoolLiteral(cond, true) && t.kind.BREAK? && fuel >= 2
    requires !st.brk && !st.cont && !st.exit
    ensures WhileLoop(st, While(cond, Block([Command(t)])), fuel) ==
      Ok(Out(Default, st.(vars := Prune(st.vars, st.depth + 1)), While(cond, Block([Command(t)]))))
  {
    var body := Block([Command(t)]);
    var c := Out(Bool(true), st, cond);
    BoolLiteral(st, cond, true, fuel - 1);
    CommandEndsItsBlock(st, t, [], fuel - 1);
    assert [Command(t)] + [] == [Command(t)];
    var b := Out(Default, st.(vars := Prune(st.vars, st.depth + 1), brk := true), body);
    assert Eval(st, body, fuel - 1) == Ok(b);
    WhileGoesOn(st, cond, body, fuel, c, b);
    BoolLiteral(b.st, cond, true, fuel - 2);
    WhileHalts(b.st, cond, body, fuel - 1, Out(Bool(true), b.st, cond));
  }

  /**
   * A pass that starts with `continue_loop_` still set (a `continue` was the
   * last statement of the previous pass's body) runs none of its body: the
   * body block only clears the flag, and the loop goes round again.
   */
  lemma LeftoverContinueSkipsAPass(st: State, cond: Node, ss: seq<Node>, fuel: nat, c: Out)
    requires fuel > 0 && |ss| > 0 && Eval(st, cond, fuel - 1) == Ok(c)
    requires c.v == Bool(true) && !c.st.brk && !c.st.exit && c.st.cont
    ensures WhileLoop(st, While(cond, Block(ss)), fuel) ==
      WhileLoop(c.st.(vars := Prune(c.st.vars, c.st.depth + 1), cont := false), While(c.n, Block(ss)), fuel - 1)
  {
    FlaggedBlockRunsNothing(c.st, ss, fuel - 1);
    WhileGoesOn(st, cond, Block(ss), fuel, c, Out(Default, c.st.(vars := Prune(c.st.vars, c.st.depth + 1), cont := false), Block(ss)));
  }

  /**
   * A `for` whose condition is the literal `false` runs its initializer one
   * level deeper and nothing else; what the initializer bound is not
   * removed when the loop ends.
   */
  lemma ForFalseRunsInitOnly(st: State, n: Node, fuel: nat)
    requires n.For? && IsBoolLiteral(n.cond, false) && fuel > 0
    ensures var i := Eval(st.(depth := st.depth + 1), n.init, fuel);
      Eval(st, n, fuel) ==
        if i.Err? then Err(i.fault)
        else Ok(Out(Default, i.value.st.(depth := st.depth, brk := false), For(i.value.n, n.cond, n.incr, n.body)))
  {
    ForNode(st, n, fuel);
    var i := Eval(st.(depth := st.depth + 1), n.init, fuel);
    if i.Ok? {
      var s := i.value.st.(depth := st.depth);
      BoolLiteral(s, n.cond, false, fuel - 1);
      ForHalts(s, For(i.value.n, n.cond, n.incr, n.body), fuel, Out(Bool(false), s, n.cond));
    }
  }

  /**
   * The initializer's binding outlives the loop: after `for (x = v; false;
   * ...)` on a store without `x`, the store ends with a binding of `x` at
   * one level deeper than the loop.
   */
  lemma ForInitOutlivesTheLoop(st: State, n: Node, fuel: nat)
    requires n.For? && IsBoolLiteral(n.cond, false) && fuel > 0
    requires n.init.BinaryOp? && n.init.op.kind.ASSIGN? && n.init.left.Variable? && n.init.right.Literal?
    requires Find(st.vars, n.init.left.token.text).None? && ReadLiteral(n.init.right.token).Ok?
    ensures Eval(st, n, fuel) ==
      Ok(Out(Default, st.(vars := st.vars + [Binding(ReadLiteral(n.init.right.token).value, n.init.left.token.text, st.depth + 1)],
        appended := st.appended + 1, brk := false), n))
  {
    var inner := st.(depth := st.depth + 1);
    var b := Binding(ReadLiteral(n.init.right.token).value, n.init.left.token.text, st.depth + 1);
    AssignNewName(inner, n.init, fuel);
    assert Eval(inner, n.init, fuel) == Ok(Out(Default, inner.(vars := st.vars + [b], appended := st.appended + 1), n.init));
    assert For(n.init, n.cond, n.incr, n.body) == n;
    ForFalseRunsInitOnly(st, n, fuel);
  }
}
