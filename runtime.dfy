/**
 * What a run of the scoped interpreter (src/interpreter/Interpreter.cpp)
 * does, as functions of the interpreter's state.
 *
 * The state is the variable list, the scope depth, the three run-control
 * flags and the trace of calls made to the device layer. Evaluating a node
 * gives its value, the new state, and the node as it is afterwards: a key
 * action pops its trailing duration off its own button list, so a node can
 * change when it is run, and a loop runs the changed body on its next pass.
 *
 * `while (true)` loops are given an iteration budget `fuel`; each pass of a
 * loop spends one unit, and a run that exhausts it stops with OutOfFuel.
 */
module Runtime {
  import opened Tokens
  import opened Values
  import opened Operators
  import opened Ast
  import opened Store

  /** The `float time` argument of a device call. */
  datatype Duration = Seconds(n: Int32) | FloatSeconds

  /** A call into the device layer, with the arguments the interpreter computed. */
  datatype DeviceCall =
    | PressCall(pressed: seq<string>, time: Duration)
    | HoldCall(held: seq<string>)
    | ReleaseCall(released: seq<string>)
    | MoveCall(absolute: bool, x: Int32, y: Int32, time: Duration)
    | TypeCall(text: string, time: Duration)
    | ScrollCall(amount: Int32, time: Duration)
    | SleepCall(ms: int)

  /**
   * `variables_`, `deepness_`, `break_loop_`, `continue_loop_`, `exit_program_`,
   * the device calls so far, and how many bindings have been appended to
   * `variables_`. The vector's capacity is not modelled, so the count stands
   * for whether an append may have moved the bindings.
   */
  datatype State = State(vars: seq<Binding>, depth: int, brk: bool, cont: bool, exit: bool, calls: seq<DeviceCall>, appended: nat)

  /** A freshly constructed interpreter. */
  const Initial := State([], 0, false, false, false, [], 0)

  /** The outcome of evaluating one node: its value, the new state and the node as it is now. */
  datatype Out = Out(v: Value, st: State, n: Node)

  /** The outcome of running a list of statements: the new state and the statements as they are now. */
  datatype Run = Run(st: State, ns: seq<Node>)

  /** A key action's list after the duration split: the duration and the remaining button nodes. */
  datatype Split = Split(st: State, time: Duration, ns: seq<Node>)

  /** The key names the buttons evaluated to, in order, and the button nodes as they are now. */
  datatype Buttons = Buttons(st: State, names: seq<string>, ns: seq<Node>)

  /**
   * What every evaluation keeps: the depth is back where it was, the exit
   * flag is never cleared, and device calls are only ever appended.
   */
  predicate Follows(st: State, st': State)
  {
    st'.depth == st.depth && (st.exit ==> st'.exit) && st.calls <= st'.calls
  }

  lemma FollowsTransitive(a: State, b: State, c: State)
    requires Follows(a, b) && Follows(b, c)
    ensures Follows(a, c)
  {
    assert c.calls[..|b.calls|][..|a.calls|] == c.calls[..|a.calls|];
  }

  // ------------------------------------------------------------ variables

  /**
   * The binding a variable node denotes: the first one with its name.
   * GETX and GETY read the mouse instead.
   */
  function Locate(vars: seq<Binding>, t: Token): (r: Result<nat>)
    ensures r.Ok? <==> !t.kind.GETX? && !t.kind.GETY? && Find(vars, t.text).Some?
    ensures r.Ok? ==> Find(vars, t.text) == Some(r.value) && r.value < |vars|
    ensures !t.kind.GETX? && !t.kind.GETY? && Find(vars, t.text).None? ==>
      r == Fail("Variable " + t.text + " not found.")
  {
    if t.kind.GETX? || t.kind.GETY? then Err(Unmodelled("mouse coordinates"))
    else
      match Find(vars, t.text)
      case Some(i) => Ok(i)
      case None => Fail("Variable " + t.text + " not found.")
  }

  /** `visit(VariableNode)`: the value of the first binding with the variable's name. */
  function Lookup(vars: seq<Binding>, t: Token): (r: Result<Value>)
  {
    var i :- Locate(vars, t);
    Ok(vars[i].value)
  }

  /** `x++` (`up`) or `x--`: the first binding named `x` steps by one in place. */
  function Increment(vars: seq<Binding>, t: Token, up: bool): (r: Result<seq<Binding>>)
  {
    var i :- Locate(vars, t);
    var v :- Step(up, vars[i].value);
    Ok(Put(vars, i, v))
  }

  /** `visit(LiteralNode)`: the token's text converted by the token's kind. */
  function ReadLiteral(t: Token): (r: Result<Value>)
    ensures t.kind.STRING? ==> r == Ok(Str(t.text))
    ensures t.kind.BOOL? ==> (r.Ok? <==> t.text in {"true", "false"}) && (r.Ok? ==> r.value == Bool(t.text == "true"))
    ensures r.Ok? && r.value.Int? ==> t.kind.INT?
    ensures !(t.kind.INT? || t.kind.FLOAT? || t.kind.BOOL? || t.kind.STRING?) ==> r == Fail("Unsupported literal type.")
  {
    if t.kind.INT? then ReadInt(t.text)
    else if t.kind.FLOAT? then ReadFloat(t.text)
    else if t.kind.BOOL? then
      if t.text == "true" then Ok(Bool(true))
      else if t.text == "false" then Ok(Bool(false))
      else Fail("Invalid string value for boolean.")
    else if t.kind.STRING? then Ok(Str(t.text))
    else Fail("Unsupported literal type.")
  }

  /** `visit(CommandNode)`: break, continue and exit each set their own flag and nothing else. */
  function RunCommand(st: State, k: TokenType): (st': State)
    ensures k.BREAK? ==> st' == st.(brk := true)
    ensures k.CONTINUE? ==> st' == st.(cont := true)
    ensures k.EXIT? ==> st' == st.(exit := true)
    ensures !k.BREAK? && !k.CONTINUE? && !k.EXIT? ==> st' == st
  {
    if k.BREAK? then st.(brk := true)
    else if k.CONTINUE? then st.(cont := true)
    else if k.EXIT? then st.(exit := true)
    else st
  }

  /**
   * The `float time` argument taken from an optional node's value: an int
   * or a float is used, anything else (also a missing node) leaves 0.
   */
  function TimeOf(v: Value): Duration
  {
    if v.Int? then Seconds(v.i) else if v.Float? then FloatSeconds else Seconds(0)
  }

  /**
   * The milliseconds `wait` sleeps for: `static_cast<int>(time * 1000)`,
   * where `time` is a `float`, so the int seconds are rounded to a float and
   * so is their product with 1000. The product is exact up to 16777 seconds
   * and at most 127 ms off up to the largest wait that fits an `int`,
   * 2147483 seconds; past that the cast is undefined. `time` is never set
   * when the operand is a bool or a string.
   */
  function WaitTime(v: Value): (r: Result<int>)
    ensures r.Ok? <==> v.Int? && -2147483 <= v.i <= 2147483
    ensures r.Ok? ==> InRange(r.value) && Abs(r.value - v.i * 1000) < 128
    ensures r.Ok? && -16777 <= v.i <= 16777 ==> r.value == v.i * 1000
  {
    if v.Int? then
      var ms := RoundToFloat(RoundToFloat(v.i) * 1000);
      WaitRange(v.i, ms);
      if InRange(ms) then Ok(ms)
      else Err(Undefined("float-to-int conversion out of range"))
    else if v.Float? then Err(Unmodelled("a float duration"))
    else Err(Undefined("read of an uninitialised float"))
  }

  /** Where the rounded product of an int32 and 1000 lands: the same side of the `int` range as the exact one. */
  lemma WaitRange(i: Int32, ms: int)
    requires ms == RoundToFloat(RoundToFloat(i) * 1000)
    ensures InRange(ms) <==> -2147483 <= i <= 2147483
    ensures -2147483 <= i <= 2147483 ==> Abs(ms - i * 1000) < 128
  {
    var t := RoundToFloat(i);
    var p := t * 1000;
    var u := FloatSpacing(Abs(p));
    if -2147483 <= i <= 2147483 {
      assert t == i;
      assert Abs(p) <= 2147483000;
      assert u < 256;
    } else {
      FloatRoundingError(i);
      FloatRoundingError(p);
      if i > 0 {
        assert t >= 2147484;
        assert p >= 2147484000;
      } else {
        assert t <= -2147484;
        assert p <= -2147484000;
      }
    }
  }

  /** `wait 2147483` sleeps 2147483008 ms: the product 2147483000 is not a float, and the nearest float is 8 ms more. */
  lemma WaitRoundsLongWaits()
    ensures WaitTime(Int(2147483)) == Ok(2147483008)
  {
    assert FloatSpacing(2147483000) == 128;
    assert NearestSteps(2147483000, 128) == 16777211;
  }

  // ------------------------------------------------------------ evaluation

  /** `visitNode`: dispatch on the node's class; unhandled classes and a null node give the default value. */
  function Eval(st: State, n: Node, fuel: nat): (r: Result<Out>)
    decreases fuel, Size(n), 3
    ensures r.Ok? ==> Follows(st, r.value.st)
  {
    if n.Block? then EvalBlock(st, n, fuel)
    else if n.Variable? then
      var v :- Lookup(st.vars, n.token);
      Ok(Out(v, st, n))
    else if n.Literal? then
      var v :- ReadLiteral(n.token);
      Ok(Out(v, st, n))
    else if n.UnarOp? || n.BinaryOp? then EvalExpr(st, n, fuel)
    else if n.If? || n.For? || n.While? then EvalControl(st, n, fuel)
    else if n.Key? || n.Mouse? then EvalDevice(st, n, fuel)
    else if n.Command? then Ok(Out(Default, RunCommand(st, n.token.kind), n))
    else Ok(Out(Default, st, n))
  }

  /** The operator nodes. */
  function EvalExpr(st: State, n: Node, fuel: nat): (r: Result<Out>)
    requires n.UnarOp? || n.BinaryOp?
    decreases fuel, Size(n), 2
    ensures r.Ok? ==> Follows(st, r.value.st)
  {
    if n.UnarOp? then EvalUnary(st, n, fuel) else EvalBinary(st, n, fuel)
  }

  /** The control-flow nodes. */
  function EvalControl(st: State, n: Node, fuel: nat): (r: Result<Out>)
    requires n.If? || n.For? || n.While?
    decreases fuel, Size(n), 2
    ensures r.Ok? ==> Follows(st, r.value.st)
  {
    if n.If? then EvalIf(st, n, fuel) else if n.For? then EvalFor(st, n, fuel) else EvalWhile(st, n, fuel)
  }

  /** The device-action nodes. */
  function EvalDevice(st: State, n: Node, fuel: nat): (r: Result<Out>)
    requires n.Key? || n.Mouse?
    decreases fuel, Size(n), 2
    ensures r.Ok? ==> Follows(st, r.value.st)
  {
    if n.Key? then EvalKey(st, n, fuel) else EvalMouse(st, n, fuel)
  }

  /**
   * `visit(BlockNode)`: one level deeper, run the statements, drop the
   * bindings deeper than the raised level, and go back up.
   */
  function EvalBlock(st: State, n: Node, fuel: nat): (r: Result<Out>)
    requires n.Block?
    decreases fuel, Size(n), 2
    ensures r.Ok? ==> Follows(st, r.value.st) && r.value.v == Default
  {
    var inner :- ExecStmts(st.(depth := st.depth + 1), n.stmts, fuel);
    Ok(Out(Default, inner.st.(vars := Prune(inner.st.vars, st.depth + 1), depth := st.depth), Block(inner.ns)))
  }

  /**
   * The statement loop of a block: before each statement, a set flag clears
   * `continue_loop_` and ends the loop.
   */
  function ExecStmts(st: State, ss: seq<Node>, fuel: nat): (r: Result<Run>)
    decreases fuel, SizeSeq(ss), 4
    ensures r.Ok? ==> Follows(st, r.value.st)
  {
    if |ss| == 0 then Ok(Run(st, []))
    else if st.brk || st.cont || st.exit then Ok(Run(st.(cont := false), ss))
    else
      var o :- Eval(st, ss[0], fuel);
      var rest :- ExecStmts(o.st, ss[1..], fuel);
      var ns := [o.n] + rest.ns;
      assert ns[1..] == rest.ns;
      FollowsTransitive(st, o.st, rest.st);
      Ok(Run(rest.st, ns))
  }

  /** `visit(UnarOpNode)`. */
  /**
   * The unary operators of `visit(UnarOpNode)` that act on the operand's
   * binding rather than on its value: `x++`, `x--` and `INPUT x`.
   */
  function EvalOnVariable(st: State, n: Node): (r: Result<Out>)
    requires n.UnarOp? && (n.op.kind.PLUS_ONE? || n.op.kind.MINUS_ONE? || n.op.kind.INPUT?)
    ensures r.Ok? ==> r.value == Out(Default, st.(vars := r.value.st.vars), n) && !n.op.kind.INPUT?
  {
    if !n.operand.Variable? then Err(Undefined("null dereference: the operand is not a variable"))
    else if n.op.kind.INPUT? then
      var i :- Locate(st.vars, n.operand.token);
      if st.vars[i].value.Bool? then Fail("Unsupported type for INPUT operation.")
      else Err(Unmodelled("a line read from standard input"))
    else
      var vars :- Increment(st.vars, n.operand.token, n.op.kind.PLUS_ONE?);
      Ok(Out(Default, st.(vars := vars), n))
  }

  /** `visit(UnarOpNode)`. */
  function EvalUnary(st: State, n: Node, fuel: nat): (r: Result<Out>)
    requires n.UnarOp?
    decreases fuel, Size(n), 1
    ensures r.Ok? ==> Follows(st, r.value.st)
  {
    var k := n.op.kind;
    if k.PLUS_ONE? || k.MINUS_ONE? || k.INPUT? then EvalOnVariable(st, n)
    else if k.PRINT? then
      var o :- Eval(st, n.operand, fuel);
      Ok(Out(Default, o.st, UnarOp(n.op, o.n)))
    else if k.PLUS? || k.MINUS? || k.LOGICAL_NOT? || k.BIT_NOT? then
      var o :- Eval(st, n.operand, fuel);
      var v :- Unary(k, o.v);
      Ok(Out(v, o.st, UnarOp(n.op, o.n)))
    else if k.STATE? then
      match Eval(st, n.operand, fuel)
      case Err(f) => Err(f)
      case Ok(_) => Err(Unmodelled("the state of a key"))
    else if k.WAIT? then
      var o :- Eval(st, n.operand, fuel);
      var ms :- WaitTime(o.v);
      Ok(Out(Default, o.st.(calls := o.st.calls + [SleepCall(ms)]), UnarOp(n.op, o.n)))
    else Ok(Out(Default, st, n))
  }

  /**
   * The error for a binding reached through an iterator or a reference that
   * the right-hand side may have invalidated: it appended a binding, which
   * may reallocate the vector (and always invalidates `end()`), or it erased
   * one, which moves the bindings after it.
   */
  const Invalidated: Fault := Undefined("iterator into the variable list held across an append or an erase")

  /** Whether evaluating a right-hand side from `st` to `st'` left an iterator into the variable list in doubt. */
  predicate Disturbed(st: State, st': State)
  {
    st'.appended != st.appended || Names(st'.vars) != Names(st.vars)
  }

  /** `visit(BinaryOpNode)`: dispatch on the operator. */
  function EvalBinary(st: State, n: Node, fuel: nat): (r: Result<Out>)
    requires n.BinaryOp?
    decreases fuel, Size(n), 1
    ensures r.Ok? ==> Follows(st, r.value.st)
  {
    var k := n.op.kind;
    if k.ASSIGN? then EvalAssign(st, n, fuel)
    else if IsCompoundAssign(k) then EvalCompound(st, n, fuel)
    else if IsTableOperator(k) then EvalOperator(st, n, fuel)
    else if k.TYPE? || k.SCROLL? then EvalTypeScroll(st, n, fuel)
    else Ok(Out(Default, st, n))
  }

  /**
   * `x = e`: look the name up, evaluate `e`, then overwrite the binding
   * found or append one at the current depth.
   */
  function EvalAssign(st: State, n: Node, fuel: nat): (r: Result<Out>)
    requires n.BinaryOp? && n.op.kind.ASSIGN?
    decreases fuel, Size(n), 0
    ensures r.Ok? ==> Follows(st, r.value.st)
  {
    if !n.left.Variable? then Err(Undefined("null dereference: the target is not a variable"))
    else
      var name := n.left.token.text;
      var found := Find(st.vars, name);
      var o :- Eval(st, n.right, fuel);
      if Disturbed(st, o.st) then Err(Invalidated)
      else
        var appended := if found.None? then o.st.appended + 1 else o.st.appended;
        Ok(Out(Default, o.st.(vars := Assigned(o.st.vars, found, name, o.v, st.depth), appended := appended), BinaryOp(n.op, n.left, o.n)))
  }

  /** `x op= e`: locate the binding, evaluate `e`, then store the compound value in the binding. */
  function EvalCompound(st: State, n: Node, fuel: nat): (r: Result<Out>)
    requires n.BinaryOp? && IsCompoundAssign(n.op.kind)
    decreases fuel, Size(n), 0
    ensures r.Ok? ==> Follows(st, r.value.st)
  {
    if !n.left.Variable? then Err(Undefined("null dereference: the target is not a variable"))
    else
      var i :- Locate(st.vars, n.left.token);
      var o :- Eval(st, n.right, fuel);
      if Disturbed(st, o.st) then Err(Invalidated)
      else
        var v :- Compound(n.op.kind, o.st.vars[i].value, o.v);
        Ok(Out(Default, o.st.(vars := Put(o.st.vars, i, v)), BinaryOp(n.op, n.left, o.n)))
  }

  /** An operator of the binary table: the left operand, then the right one, then the table. */
  function EvalOperator(st: State, n: Node, fuel: nat): (r: Result<Out>)
    requires n.BinaryOp? && IsTableOperator(n.op.kind)
    decreases fuel, Size(n), 0
    ensures r.Ok? ==> Follows(st, r.value.st)
  {
    var l :- Eval(st, n.left, fuel);
    var r :- Eval(l.st, n.right, fuel);
    var v :- Binary(n.op.kind, l.v, r.v);
    FollowsTransitive(st, l.st, r.st);
    Ok(Out(v, r.st, BinaryOp(n.op, l.n, r.n)))
  }

  /**
   * `type` (a string) and `scroll` (an int amount), with an optional time.
   * A missing right operand evaluates to the default value, which leaves the
   * time at 0; a left operand of another type makes no call.
   */
  function EvalTypeScroll(st: State, n: Node, fuel: nat): (r: Result<Out>)
    requires n.BinaryOp? && (n.op.kind.TYPE? || n.op.kind.SCROLL?)
    decreases fuel, Size(n), 0
    ensures r.Ok? ==> Follows(st, r.value.st)
  {
    var l :- Eval(st, n.left, fuel);
    var r :- Eval(l.st, n.right, fuel);
    FollowsTransitive(st, l.st, r.st);
    var calls :=
      if n.op.kind.TYPE? && l.v.Str? then r.st.calls + [TypeCall(l.v.s, TimeOf(r.v))]
      else if n.op.kind.SCROLL? && l.v.Int? then r.st.calls + [ScrollCall(l.v.i, TimeOf(r.v))]
      else r.st.calls;
    Ok(Out(Default, r.st.(calls := calls), BinaryOp(n.op, l.n, r.n)))
  }

  /** `visit(IfNode)`: the branches are run as blocks. */
  function EvalIf(st: State, n: Node, fuel: nat): (r: Result<Out>)
    requires n.If?
    decreases fuel, Size(n), 1
    ensures r.Ok? ==> Follows(st, r.value.st)
  {
    var c :- Eval(st, n.cond, fuel);
    if !c.v.Bool? then Fail("The condition in if should be a boolean expression!")
    else if c.v.b then
      if !n.thenBranch.Block? then Err(Undefined("null dereference: the branch is not a block"))
      else
        var t :- EvalBlock(c.st, n.thenBranch, fuel);
        FollowsTransitive(st, c.st, t.st);
        Ok(Out(Default, t.st, If(c.n, t.n, n.elseBranch)))
    else if n.elseBranch.Absent? then Ok(Out(Default, c.st, If(c.n, n.thenBranch, n.elseBranch)))
    else if !n.elseBranch.Block? then Err(Undefined("null dereference: the branch is not a block"))
    else
      var e :- EvalBlock(c.st, n.elseBranch, fuel);
      FollowsTransitive(st, c.st, e.st);
      Ok(Out(Default, e.st, If(c.n, n.thenBranch, e.n)))
  }

  /** `visit(ForNode)`: the initializer runs one level deeper, then the loop. */
  function EvalFor(st: State, n: Node, fuel: nat): (r: Result<Out>)
    requires n.For?
    decreases fuel, Size(n), 1
    ensures r.Ok? ==> Follows(st, r.value.st)
  {
    var init :- Eval(st.(depth := st.depth + 1), n.init, fuel);
    var loop := For(init.n, n.cond, n.incr, n.body);
    var o :- ForLoop(init.st.(depth := st.depth), loop, fuel);
    Ok(o)
  }

  /**
   * The `while (true)` loop of `visit(ForNode)`: test the condition, stop
   * (clearing `break_loop_`) when it is false or break or exit is set, else
   * run the body and the increment and go round again.
   */
  function ForLoop(st: State, n: Node, fuel: nat): (r: Result<Out>)
    requires n.For?
    decreases fuel, 0, 0
    ensures r.Ok? ==> Follows(st, r.value.st) && !r.value.st.brk
  {
    if fuel == 0 then Err(OutOfFuel)
    else
      var c :- Eval(st, n.cond, fuel - 1);
      if !c.v.Bool? then Fail("The condition in for should be a boolean expression!")
      else if !c.v.b || c.st.brk || c.st.exit then
        Ok(Out(Default, c.st.(brk := false), For(n.init, c.n, n.incr, n.body)))
      else
        var b :- Eval(c.st, n.body, fuel - 1);
        var i :- Eval(b.st, n.incr, fuel - 1);
        var o :- ForLoop(i.st, For(n.init, c.n, i.n, b.n), fuel - 1);
        FollowsTransitive(st, c.st, b.st);
        FollowsTransitive(st, b.st, i.st);
        FollowsTransitive(st, i.st, o.st);
        Ok(o)
  }

  /** `visit(WhileNode)`. */
  function EvalWhile(st: State, n: Node, fuel: nat): (r: Result<Out>)
    requires n.While?
    decreases fuel, Size(n), 1
    ensures r.Ok? ==> Follows(st, r.value.st)
  {
    WhileLoop(st, n, fuel)
  }

  /** The `while (true)` loop of `visit(WhileNode)`; its condition error names `for`, as the source's does. */
  function WhileLoop(st: State, n: Node, fuel: nat): (r: Result<Out>)
    requires n.While?
    decreases fuel, 0, 0
    ensures r.Ok? ==> Follows(st, r.value.st) && !r.value.st.brk
  {
    if fuel == 0 then Err(OutOfFuel)
    else
      var c :- Eval(st, n.cond, fuel - 1);
      if !c.v.Bool? then Fail("The condition in for should be a boolean expression!")
      else if !c.v.b || c.st.brk || c.st.exit then
        Ok(Out(Default, c.st.(brk := false), While(c.n, n.body)))
      else
        var b :- Eval(c.st, n.body, fuel - 1);
        var o :- WhileLoop(b.st, While(c.n, b.n), fuel - 1);
        FollowsTransitive(st, c.st, b.st);
        FollowsTransitive(st, b.st, o.st);
        Ok(o)
  }

  /**
   * `processButtons`, first half: evaluate the last button node; an int or
   * a float is the duration and is popped off the list, anything else stays
   * (as it is after its evaluation) and the duration is 0.
   */
  function SplitDuration(st: State, bs: seq<Node>, fuel: nat): (r: Result<Split>)
    decreases fuel, SizeSeq(bs), 0
    ensures r.Ok? ==> Follows(st, r.value.st)
  {
    if |bs| == 0 then Ok(Split(st, Seconds(0), bs))
    else
      var init := bs[..|bs| - 1];
      var last := bs[|bs| - 1];
      assert bs == init + [last];
      SizeSeqSnoc(init, last);
      var o :- Eval(st, last, fuel);
      if o.v.Int? then Ok(Split(o.st, Seconds(o.v.i), init))
      else if o.v.Float? then Ok(Split(o.st, FloatSeconds, init))
      else Ok(Split(o.st, Seconds(0), init + [o.n]))
  }

  /** `processButtons`, second half: evaluate every remaining button in order and keep the strings. */
  function EvalButtons(st: State, ns: seq<Node>, fuel: nat): (r: Result<Buttons>)
    decreases fuel, SizeSeq(ns), 4
    ensures r.Ok? ==> Follows(st, r.value.st)
    ensures r.Ok? ==> |r.value.names| <= |ns|
  {
    if |ns| == 0 then Ok(Buttons(st, [], []))
    else
      var o :- Eval(st, ns[0], fuel);
      var rest :- EvalButtons(o.st, ns[1..], fuel);
      var nodes := [o.n] + rest.ns;
      assert nodes[1..] == rest.ns;
      FollowsTransitive(st, o.st, rest.st);
      Ok(Buttons(rest.st, (if o.v.Str? then [o.v.s] else []) + rest.names, nodes))
  }

  /** `visit(KeyNode)`: press, hold or release the buttons; other kinds do nothing. */
  function EvalKey(st: State, n: Node, fuel: nat): (r: Result<Out>)
    requires n.Key?
    decreases fuel, Size(n), 1
    ensures r.Ok? ==> Follows(st, r.value.st)
  {
    var k := n.token.kind;
    if !(k.PRESS? || k.HOLD? || k.RELEASE?) then Ok(Out(Default, st, n))
    else if fuel == 0 then Err(OutOfFuel)
    else
      var s :- SplitDuration(st, n.buttons, fuel);
      var b :- EvalButtons(s.st, s.ns, fuel - 1);
      FollowsTransitive(st, s.st, b.st);
      var call := if k.PRESS? then PressCall(b.names, s.time) else if k.HOLD? then HoldCall(b.names) else ReleaseCall(b.names);
      Ok(Out(Default, b.st.(calls := b.st.calls + [call]), Key(n.token, b.ns)))
  }

  /**
   * `visit(MouseNode)`: evaluate x, y and the optional time, then move to
   * (MOVE) or by (any other kind) the point. Coordinates that are not ints
   * leave the C++ `int`s uninitialised.
   */
  function EvalMouse(st: State, n: Node, fuel: nat): (r: Result<Out>)
    requires n.Mouse?
    decreases fuel, Size(n), 1
    ensures r.Ok? ==> Follows(st, r.value.st)
  {
    var x :- Eval(st, n.x, fuel);
    var y :- Eval(x.st, n.y, fuel);
    var t :- Eval(y.st, n.time, fuel);
    FollowsTransitive(st, x.st, y.st);
    FollowsTransitive(st, y.st, t.st);
    if !x.v.Int? || !y.v.Int? then Err(Undefined("read of an uninitialised coordinate"))
    else
      var call := MoveCall(n.token.kind.MOVE?, x.v.i, y.v.i, TimeOf(t.v));
      Ok(Out(Default, t.st.(calls := t.st.calls + [call]), Mouse(n.token, x.n, y.n, t.n)))
  }

  /** `execute`: the root block run by a fresh interpreter. */
  function Execute(program: seq<Node>, fuel: nat): (r: Result<State>)
    ensures r.Ok? ==> r.value.depth == 0
    ensures r.Ok? ==> forall i :: 0 <= i < |r.value.vars| ==> r.value.vars[i].depth <= 1
  {
    var o :- EvalBlock(Initial, Block(program), fuel);
    Ok(o.st)
  }

  // ------------------------------------------------------- unfolding steps

  /** The statements already run, put in front of the outcome of the rest. */
  function Prepend(done: seq<Node>, rest: Result<Run>): Result<Run>
  {
    match rest
    case Err(f) => Err(f)
    case Ok(run) => Ok(Run(run.st, done + run.ns))
  }

  /** The key names and nodes already gathered, put in front of the outcome of the rest. */
  function Gather(names: seq<string>, done: seq<Node>, rest: Result<Buttons>): Result<Buttons>
  {
    match rest
    case Err(f) => Err(f)
    case Ok(b) => Ok(Buttons(b.st, names + b.names, done + b.ns))
  }

  lemma PrependNothing(rest: Result<Run>)
    ensures Prepend([], rest) == rest
  {
    if rest.Ok? {
      assert [] + rest.value.ns == rest.value.ns;
    }
  }

  lemma PrependTwice(a: seq<Node>, b: seq<Node>, rest: Result<Run>)
    ensures Prepend(a, Prepend(b, rest)) == Prepend(a + b, rest)
  {
    if rest.Ok? {
      assert a + (b + rest.value.ns) == (a + b) + rest.value.ns;
    }
  }

  lemma GatherNothing(rest: Result<Buttons>)
    ensures Gather([], [], rest) == rest
  {
    if rest.Ok? {
      assert [] + rest.value.ns == rest.value.ns;
      assert [] + rest.value.names == rest.value.names;
    }
  }

  /** The first statement of a block whose flags are all clear fails. */
  lemma ExecStmtsFails(st: State, ss: seq<Node>, fuel: nat, f: Fault)
    requires |ss| > 0 && !st.brk && !st.cont && !st.exit
    requires Eval(st, ss[0], fuel) == Err(f)
    ensures ExecStmts(st, ss, fuel) == Err(f)
  {
  }

  /** The first statement of a block whose flags are all clear runs, and the rest follow. */
  lemma ExecStmtsGoesOn(st: State, ss: seq<Node>, fuel: nat, o: Out)
    requires |ss| > 0 && !st.brk && !st.cont && !st.exit
    requires Eval(st, ss[0], fuel) == Ok(o)
    ensures ExecStmts(st, ss, fuel) == Prepend([o.n], ExecStmts(o.st, ss[1..], fuel))
  {
  }

  /** The first button fails. */
  lemma EvalButtonsFails(st: State, ns: seq<Node>, fuel: nat, f: Fault)
    requires |ns| > 0 && Eval(st, ns[0], fuel) == Err(f)
    ensures EvalButtons(st, ns, fuel) == Err(f)
  {
  }

  /** The first button is evaluated, its name kept if it is a string, and the rest follow. */
  lemma EvalButtonsGoesOn(st: State, ns: seq<Node>, fuel: nat, o: Out)
    requires |ns| > 0 && Eval(st, ns[0], fuel) == Ok(o)
    ensures EvalButtons(st, ns, fuel) == Gather(if o.v.Str? then [o.v.s] else [], [o.n], EvalButtons(o.st, ns[1..], fuel))
  {
  }

  lemma GatherTwice(a: seq<string>, b: seq<string>, x: seq<Node>, y: seq<Node>, rest: Result<Buttons>)
    ensures Gather(a, x, Gather(b, y, rest)) == Gather(a + b, x + y, rest)
  {
    if rest.Ok? {
      assert a + (b + rest.value.names) == (a + b) + rest.value.names;
      assert x + (y + rest.value.ns) == (x + y) + rest.value.ns;
    }
  }

  /** A block whose first statement meets a set flag. */
  lemma ExecStmtsFlagged(st: State, ss: seq<Node>, fuel: nat)
    requires |ss| > 0 && (st.brk || st.cont || st.exit)
    ensures ExecStmts(st, ss, fuel) == Ok(Run(st.(cont := false), ss))
  {
  }

  /** A block is its statement loop one level deeper, followed by the prune. */
  lemma EvalBlockUnfold(st: State, n: Node, fuel: nat)
    requires n.Block?
    ensures var e := ExecStmts(st.(depth := st.depth + 1), n.stmts, fuel);
      EvalBlock(st, n, fuel) ==
        if e.Err? then Err(e.fault)
        else Ok(Out(Default, e.value.st.(vars := Prune(e.value.st.vars, st.depth + 1), depth := st.depth), Block(e.value.ns)))
  {
  }

  // One pass of a loop, one lemma per way the pass can end.

  /** A `for` pass whose condition fails. */
  lemma ForConditionFails(st: State, init: Node, cond: Node, incr: Node, body: Node, fuel: nat, f: Fault)
    requires fuel > 0 && Eval(st, cond, fuel - 1) == Err(f)
    ensures ForLoop(st, For(init, cond, incr, body), fuel) == Err(f)
  {
  }

  /** A `for` pass whose condition is not a bool. */
  lemma ForConditionNotBool(st: State, init: Node, cond: Node, incr: Node, body: Node, fuel: nat, c: Out)
    requires fuel > 0 && Eval(st, cond, fuel - 1) == Ok(c) && !c.v.Bool?
    ensures ForLoop(st, For(init, cond, incr, body), fuel) == Fail("The condition in for should be a boolean expression!")
  {
  }

  /** A `for` pass that stops at its condition: false, or break or exit set. */
  lemma ForHalts(st: State, n: Node, fuel: nat, c: Out)
    requires n.For? && fuel > 0 && Eval(st, n.cond, fuel - 1) == Ok(c)
    requires c.v.Bool? && (!c.v.b || c.st.brk || c.st.exit)
    ensures ForLoop(st, n, fuel) == Ok(Out(Default, c.st.(brk := false), For(n.init, c.n, n.incr, n.body)))
  {
  }

  /** A `for` pass whose body fails. */
  lemma ForBodyFails(st: State, init: Node, cond: Node, incr: Node, body: Node, fuel: nat, c: Out, f: Fault)
    requires fuel > 0 && Eval(st, cond, fuel - 1) == Ok(c)
    requires c.v == Bool(true) && !c.st.brk && !c.st.exit
    requires Eval(c.st, body, fuel - 1) == Err(f)
    ensures ForLoop(st, For(init, cond, incr, body), fuel) == Err(f)
  {
  }

  /** A `for` pass whose increment fails. */
  lemma ForIncrementFails(st: State, init: Node, cond: Node, incr: Node, body: Node, fuel: nat, c: Out, b: Out, f: Fault)
    requires fuel > 0 && Eval(st, cond, fuel - 1) == Ok(c)
    requires c.v == Bool(true) && !c.st.brk && !c.st.exit
    requires Eval(c.st, body, fuel - 1) == Ok(b) && Eval(b.st, incr, fuel - 1) == Err(f)
    ensures ForLoop(st, For(init, cond, incr, body), fuel) == Err(f)
  {
  }

  /** A full `for` pass: the loop goes on with the nodes as the pass left them. */
  lemma ForGoesOn(st: State, init: Node, cond: Node, incr: Node, body: Node, fuel: nat, c: Out, b: Out, i: Out)
    requires fuel > 0 && Eval(st, cond, fuel - 1) == Ok(c)
    requires c.v == Bool(true) && !c.st.brk && !c.st.exit
    requires Eval(c.st, body, fuel - 1) == Ok(b) && Eval(b.st, incr, fuel - 1) == Ok(i)
    ensures ForLoop(st, For(init, cond, incr, body), fuel) == ForLoop(i.st, For(init, c.n, i.n, b.n), fuel - 1)
  {
  }

  /** A `while` pass whose condition fails. */
  lemma WhileConditionFails(st: State, cond: Node, body: Node, fuel: nat, f: Fault)
    requires fuel > 0 && Eval(st, cond, fuel - 1) == Err(f)
    ensures WhileLoop(st, While(cond, body), fuel) == Err(f)
  {
  }

  /** A `while` pass whose condition is not a bool. */
  lemma WhileConditionNotBool(st: State, cond: Node, body: Node, fuel: nat, c: Out)
    requires fuel > 0 && Eval(st, cond, fuel - 1) == Ok(c) && !c.v.Bool?
    ensures WhileLoop(st, While(cond, body), fuel) == Fail("The condition in for should be a boolean expression!")
  {
  }

  /** A `while` pass that stops at its condition: false, or break or exit set. */
  lemma WhileHalts(st: State, cond: Node, body: Node, fuel: nat, c: Out)
    requires fuel > 0 && Eval(st, cond, fuel - 1) == Ok(c)
    requires c.v.Bool? && (!c.v.b || c.st.brk || c.st.exit)
    ensures WhileLoop(st, While(cond, body), fuel) == Ok(Out(Default, c.st.(brk := false), While(c.n, body)))
  {
  }

  /** A `while` pass whose body fails. */
  lemma WhileBodyFails(st: State, cond: Node, body: Node, fuel: nat, c: Out, f: Fault)
    requires fuel > 0 && Eval(st, cond, fuel - 1) == Ok(c)
    requires c.v == Bool(true) && !c.st.brk && !c.st.exit
    requires Eval(c.st, body, fuel - 1) == Err(f)
    ensures WhileLoop(st, While(cond, body), fuel) == Err(f)
  {
  }

  /** A full `while` pass: the loop goes on with the nodes as the pass left them. */
  lemma WhileGoesOn(st: State, cond: Node, body: Node, fuel: nat, c: Out, b: Out)
    requires fuel > 0 && Eval(st, cond, fuel - 1) == Ok(c)
    requires c.v == Bool(true) && !c.st.brk && !c.st.exit
    requires Eval(c.st, body, fuel - 1) == Ok(b)
    ensures WhileLoop(st, While(cond, body), fuel) == WhileLoop(b.st, While(c.n, b.n), fuel - 1)
  {
  }
}
