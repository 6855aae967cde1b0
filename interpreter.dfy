/**
 * The scoped interpreter as an object (class Interpreter of
 * src/interpreter/Interpreter.cpp): its fields are updated step by step as
 * the tree is walked. Each visit method is proved to do what the matching
 * function of module Runtime says: on success it returns that function's
 * value and rewritten node and leaves the fields equal to its new state; on
 * failure it stops with the same fault.
 */
module Interpreting {
  import opened Tokens
  import opened Values
  import opened Operators
  import opened Ast
  import opened Store
  import opened Runtime

  /** What a visit returns: the value and the visited node as it is now. */
  datatype Reply = Reply(v: Value, n: Node)

  /** How one pass of a loop ended: the loop is over with `r`, or goes round again with the nodes in `next`. */
  datatype Pass<T> = Done(r: Result<Reply>) | Again(next: T)

  class Interpreter {
    var variables: seq<Binding>
    var deepness: int
    var breakLoop: bool
    var continueLoop: bool
    var exitProgram: bool
    /** The device calls made so far: the effect of the IoController calls. */
    var calls: seq<DeviceCall>
    /** How many bindings `emplace_back` has added to `variables` so far; it stands in for the vector's unmodelled capacity. */
    var appended: nat

    /** The fields as one value of the run-time state. */
    function Now(): State
      reads this
    {
      State(variables, deepness, breakLoop, continueLoop, exitProgram, calls, appended)
    }

    /** A visit's outcome as a run-time outcome: its fault, or its value and node with the fields as they are now. */
    function Answer(r: Result<Reply>): Result<Out>
      reads this
    {
      if r.Err? then Err(r.fault) else Ok(Out(r.value.v, Now(), r.value.n))
    }

    /** All flags clear, depth 0, no variables. */
    constructor ()
      ensures Now() == Initial
    {
      variables := [];
      deepness := 0;
      breakLoop := false;
      continueLoop := false;
      exitProgram := false;
      calls := [];
      appended := 0;
    }

    /** `execute`: visit the root block. */
    method Execute(program: seq<Node>, fuel: nat) returns (r: Result<Reply>)
      modifies this
      ensures EvalBlock(old(Now()), Block(program), fuel) == Answer(r)
    {
      r := VisitBlock(Block(program), fuel);
    }

    /** `visitNode`. */
    method Visit(n: Node, fuel: nat) returns (r: Result<Reply>)
      modifies this
      decreases fuel, Size(n), 3
      ensures Eval(old(Now()), n, fuel) == Answer(r)
    {
      if n.Block? {
        r := VisitBlock(n, fuel);
      } else if n.Variable? {
        var v := Lookup(variables, n.token);
        r := if v.Ok? then Ok(Reply(v.value, n)) else Err(v.fault);
      } else if n.Literal? {
        var v := ReadLiteral(n.token);
        r := if v.Ok? then Ok(Reply(v.value, n)) else Err(v.fault);
      } else if n.UnarOp? {
        r := VisitUnary(n, fuel);
      } else if n.BinaryOp? {
        r := VisitBinary(n, fuel);
      } else if n.If? {
        r := VisitIf(n, fuel);
      } else if n.For? {
        r := VisitFor(n, fuel);
      } else if n.While? {
        r := VisitWhile(n, fuel);
      } else if n.Key? {
        r := VisitKey(n, fuel);
      } else if n.Mouse? {
        r := VisitMouse(n, fuel);
      } else if n.Command? {
        VisitCommand(n.token.kind);
        r := Ok(Reply(Default, n));
      } else {
        r := Ok(Reply(Default, n));
      }
    }

    /** `visit(CommandNode)`. */
    method VisitCommand(k: TokenType)
      modifies this
      ensures Now() == RunCommand(old(Now()), k)
    {
      if k.BREAK? {
        breakLoop := true;
      } else if k.CONTINUE? {
        continueLoop := true;
      } else if k.EXIT? {
        exitProgram := true;
      }
    }

    /** A statement loop's outcome as a run-time outcome: its fault, or the statements with the fields as they are now. */
    function Ran(r: Result<seq<Node>>): Result<Run>
      reads this
    {
      if r.Err? then Err(r.fault) else Ok(Run(Now(), r.value))
    }

    /** `visit(BlockNode)`: one level deeper, the statement loop, the prune, and back up. */
    method VisitBlock(n: Node, fuel: nat) returns (r: Result<Reply>)
      requires n.Block?
      modifies this
      decreases fuel, Size(n), 2
      ensures EvalBlock(old(Now()), n, fuel) == Answer(r)
    {
      EvalBlockUnfold(Now(), n, fuel);
      deepness := deepness + 1;
      var ran := RunStatements(n.stmts, fuel);
      if ran.Err? {
        return Err(ran.fault);
      }
      variables := Prune(variables, deepness);
      deepness := deepness - 1;
      r := Ok(Reply(Default, Block(ran.value)));
    }

    /**
     * The statement loop of `visit(BlockNode)`: before each statement a set
     * flag clears `continue_loop_` and ends the loop.
     */
    method RunStatements(ss: seq<Node>, fuel: nat) returns (r: Result<seq<Node>>)
      modifies this
      decreases fuel, SizeSeq(ss), 1
      ensures ExecStmts(old(Now()), ss, fuel) == Ran(r)
      ensures r.Ok? ==> deepness == old(deepness)
    {
      ghost var spec := ExecStmts(Now(), ss, fuel);
      var done: seq<Node> := [];
      var i := 0;
      assert ss[0..] == ss;
      PrependNothing(spec);
      while i < |ss|
        invariant 0 <= i <= |ss| && deepness == old(deepness)
        invariant spec == Prepend(done, ExecStmts(Now(), ss[i..], fuel))
        decreases |ss| - i
      {
        ghost var before := Now();
        var rest := ss[i..];
        if continueLoop || breakLoop || exitProgram {
          ExecStmtsFlagged(before, rest, fuel);
          continueLoop := false;
          return Ok(done + rest);
        }
        assert rest[0] == ss[i] && rest[1..] == ss[i + 1..];
        SizeSeqElement(ss, i);
        var o := Visit(ss[i], fuel);
        if o.Err? {
          ExecStmtsFails(before, rest, fuel, o.fault);
          return Err(o.fault);
        }
        ExecStmtsGoesOn(before, rest, fuel, Out(o.value.v, Now(), o.value.n));
        PrependTwice(done, [o.value.n], ExecStmts(Now(), ss[i + 1..], fuel));
        done := done + [o.value.n];
        i := i + 1;
      }
      assert ss[i..] == [] && done + [] == done;
      r := Ok(done);
    }

    /** `x++`, `x--` and `INPUT x`: the operand's first binding is looked up and acted on. */
    method VisitOnVariable(n: Node) returns (r: Result<Reply>)
      requires n.UnarOp? && (n.op.kind.PLUS_ONE? || n.op.kind.MINUS_ONE? || n.op.kind.INPUT?)
      modifies this
      ensures EvalOnVariable(old(Now()), n) == Answer(r)
    {
      if !n.operand.Variable? {
        return Err(Undefined("null dereference: the operand is not a variable"));
      }
      var i := Locate(variables, n.operand.token);
      if i.Err? {
        return Err(i.fault);
      }
      if n.op.kind.INPUT? {
        if variables[i.value].value.Bool? {
          return Fail("Unsupported type for INPUT operation.");
        }
        return Err(Unmodelled("a line read from standard input"));
      }
      var v := Step(n.op.kind.PLUS_ONE?, variables[i.value].value);
      if v.Err? {
        return Err(v.fault);
      }
      variables := variables[i.value := variables[i.value].(value := v.value)];
      r := Ok(Reply(Default, n));
    }

    /** `visit(UnarOpNode)`. */
    method VisitUnary(n: Node, fuel: nat) returns (r: Result<Reply>)
      requires n.UnarOp?
      modifies this
      decreases fuel, Size(n), 1
      ensures EvalUnary(old(Now()), n, fuel) == Answer(r)
    {
      var k := n.op.kind;
      if k.PLUS_ONE? || k.MINUS_ONE? || k.INPUT? {
        r := VisitOnVariable(n);
      } else if k.PRINT? {
        var o := Visit(n.operand, fuel);
        if o.Err? {
          return Err(o.fault);
        }
        r := Ok(Reply(Default, UnarOp(n.op, o.value.n)));
      } else if k.PLUS? || k.MINUS? || k.LOGICAL_NOT? || k.BIT_NOT? {
        var o := Visit(n.operand, fuel);
        if o.Err? {
          return Err(o.fault);
        }
        var v := Unary(k, o.value.v);
        if v.Err? {
          return Err(v.fault);
        }
        r := Ok(Reply(v.value, UnarOp(n.op, o.value.n)));
      } else if k.STATE? {
        var o := Visit(n.operand, fuel);
        if o.Err? {
          return Err(o.fault);
        }
        r := Err(Unmodelled("the state of a key"));
      } else if k.WAIT? {
        var o := Visit(n.operand, fuel);
        if o.Err? {
          return Err(o.fault);
        }
        var ms := WaitTime(o.value.v);
        if ms.Err? {
          return Err(ms.fault);
        }
        calls := calls + [SleepCall(ms.value)];
        r := Ok(Reply(Default, UnarOp(n.op, o.value.n)));
      } else {
        r := Ok(Reply(Default, n));
      }
    }

    /** `visit(BinaryOpNode)`. */
    method VisitBinary(n: Node, fuel: nat) returns (r: Result<Reply>)
      requires n.BinaryOp?
      modifies this
      decreases fuel, Size(n), 1
      ensures EvalBinary(old(Now()), n, fuel) == Answer(r)
    {
      var k := n.op.kind;
      if k.ASSIGN? {
        r := VisitAssign(n, fuel);
      } else if IsCompoundAssign(k) {
        r := VisitCompound(n, fuel);
      } else if IsTableOperator(k) {
        r := VisitOperator(n, fuel);
      } else if k.TYPE? || k.SCROLL? {
        r := VisitTypeScroll(n, fuel);
      } else {
        r := Ok(Reply(Default, n));
      }
    }

    /** `x = e`. */
    method VisitAssign(n: Node, fuel: nat) returns (r: Result<Reply>)
      requires n.BinaryOp? && n.op.kind.ASSIGN?
      modifies this
      decreases fuel, Size(n), 0
      ensures EvalAssign(old(Now()), n, fuel) == Answer(r)
    {
      if !n.left.Variable? {
        return Err(Undefined("null dereference: the target is not a variable"));
      }
      var name := n.left.token.text;
      var names, count := Names(variables), appended;
      var found := Find(variables, name);
      var o := Visit(n.right, fuel);
      if o.Err? {
        return Err(o.fault);
      }
      if Names(variables) != names || appended != count {
        return Err(Invalidated);
      }
      if found.Some? {
        variables := variables[found.value := variables[found.value].(value := o.value.v)];
      } else {
        variables := variables + [Binding(o.value.v, name, deepness)];
        appended := appended + 1;
      }
      r := Ok(Reply(Default, BinaryOp(n.op, n.left, o.value.n)));
    }

    /** `x op= e`. */
    method VisitCompound(n: Node, fuel: nat) returns (r: Result<Reply>)
      requires n.BinaryOp? && IsCompoundAssign(n.op.kind)
      modifies this
      decreases fuel, Size(n), 0
      ensures EvalCompound(old(Now()), n, fuel) == Answer(r)
    {
      if !n.left.Variable? {
        return Err(Undefined("null dereference: the target is not a variable"));
      }
      var names, count := Names(variables), appended;
      var i := Locate(variables, n.left.token);
      if i.Err? {
        return Err(i.fault);
      }
      var o := Visit(n.right, fuel);
      if o.Err? {
        return Err(o.fault);
      }
      if Names(variables) != names || appended != count {
        return Err(Invalidated);
      }
      var v := Compound(n.op.kind, variables[i.value].value, o.value.v);
      if v.Err? {
        return Err(v.fault);
      }
      variables := variables[i.value := variables[i.value].(value := v.value)];
      r := Ok(Reply(Default, BinaryOp(n.op, n.left, o.value.n)));
    }

    /** An operator of the binary table. */
    method VisitOperator(n: Node, fuel: nat) returns (r: Result<Reply>)
      requires n.BinaryOp? && IsTableOperator(n.op.kind)
      modifies this
      decreases fuel, Size(n), 0
      ensures EvalOperator(old(Now()), n, fuel) == Answer(r)
    {
      var left := Visit(n.left, fuel);
      if left.Err? {
        return Err(left.fault);
      }
      var right := Visit(n.right, fuel);
      if right.Err? {
        return Err(right.fault);
      }
      var v := Binary(n.op.kind, left.value.v, right.value.v);
      if v.Err? {
        return Err(v.fault);
      }
      r := Ok(Reply(v.value, BinaryOp(n.op, left.value.n, right.value.n)));
    }

    /** `type` and `scroll`. */
    method VisitTypeScroll(n: Node, fuel: nat) returns (r: Result<Reply>)
      requires n.BinaryOp? && (n.op.kind.TYPE? || n.op.kind.SCROLL?)
      modifies this
      decreases fuel, Size(n), 0
      ensures EvalTypeScroll(old(Now()), n, fuel) == Answer(r)
    {
      var left := Visit(n.left, fuel);
      if left.Err? {
        return Err(left.fault);
      }
      var right := Visit(n.right, fuel);
      if right.Err? {
        return Err(right.fault);
      }
      var time := TimeOf(right.value.v);
      if n.op.kind.TYPE? && left.value.v.Str? {
        calls := calls + [TypeCall(left.value.v.s, time)];
      } else if n.op.kind.SCROLL? && left.value.v.Int? {
        calls := calls + [ScrollCall(left.value.v.i, time)];
      }
      r := Ok(Reply(Default, BinaryOp(n.op, left.value.n, right.value.n)));
    }

    /** `visit(IfNode)`. */
    method VisitIf(n: Node, fuel: nat) returns (r: Result<Reply>)
      requires n.If?
      modifies this
      decreases fuel, Size(n), 1
      ensures EvalIf(old(Now()), n, fuel) == Answer(r)
    {
      var c := Visit(n.cond, fuel);
      if c.Err? {
        return Err(c.fault);
      }
      if !c.value.v.Bool? {
        return Fail("The condition in if should be a boolean expression!");
      }
      if c.value.v.b {
        if !n.thenBranch.Block? {
          return Err(Undefined("null dereference: the branch is not a block"));
        }
        var t := VisitBlock(n.thenBranch, fuel);
        if t.Err? {
          return Err(t.fault);
        }
        r := Ok(Reply(Default, If(c.value.n, t.value.n, n.elseBranch)));
      } else if n.elseBranch.Absent? {
        r := Ok(Reply(Default, If(c.value.n, n.thenBranch, n.elseBranch)));
      } else {
        if !n.elseBranch.Block? {
          return Err(Undefined("null dereference: the branch is not a block"));
        }
        var e := VisitBlock(n.elseBranch, fuel);
        if e.Err? {
          return Err(e.fault);
        }
        r := Ok(Reply(Default, If(c.value.n, n.thenBranch, e.value.n)));
      }
    }

    /** `visit(ForNode)`: the initializer one level deeper, then the loop. */
    method VisitFor(n: Node, fuel: nat) returns (r: Result<Reply>)
      requires n.For?
      modifies this
      decreases fuel, Size(n), 1
      ensures EvalFor(old(Now()), n, fuel) == Answer(r)
    {
      deepness := deepness + 1;
      var init := Visit(n.init, fuel);
      if init.Err? {
        return Err(init.fault);
      }
      deepness := deepness - 1;
      r := LoopFor(For(init.value.n, n.cond, n.incr, n.body), fuel);
    }

    /** The `while (true)` loop of `visit(ForNode)`. */
    method LoopFor(n: Node, fuel: nat) returns (r: Result<Reply>)
      requires n.For?
      modifies this
      decreases fuel, 0, 3
      ensures ForLoop(old(Now()), n, fuel) == Answer(r)
    {
      var init, cond, incr, body := n.init, n.cond, n.incr, n.body;
      ghost var target := ForLoop(Now(), n, fuel);
      var f: nat := fuel;
      while true
        invariant f <= fuel
        invariant ForLoop(Now(), For(init, cond, incr, body), f) == target
        decreases f
      {
        if f == 0 {
          return Err(OutOfFuel);
        }
        var p := ForPass(init, cond, incr, body, f, f - 1, fuel, Now());
        if p.Done? {
          return p.r;
        }
        cond, incr, body := p.next.0, p.next.1, p.next.2;
        f := f - 1;
      }
    }

    /**
     * One pass of the `while (true)` loop of `visit(ForNode)`, from the
     * state `s`: the loop either ends, or goes on with the nodes as the pass
     * left them, on the budget `g` that is left.
     */
    method ForPass(init: Node, cond: Node, incr: Node, body: Node, f: nat, g: nat, ghost fuel: nat, ghost s: State)
      returns (p: Pass<(Node, Node, Node)>)
      requires f == g + 1 && f <= fuel && Now() == s
      modifies this
      decreases fuel, 0, 2
      ensures ForLoop(s, For(init, cond, incr, body), f) ==
        if p.Done? then Answer(p.r) else ForLoop(Now(), For(init, p.next.0, p.next.1, p.next.2), g)
    {
      var c := Visit(cond, g);
      p := ForConditionPass(init, cond, incr, body, f, g, fuel, s, c);
    }

    /** The rest of a `for` pass once the condition gave `c`: stop, or go on to the body. */
    method ForConditionPass(init: Node, cond: Node, incr: Node, body: Node, f: nat, g: nat, ghost fuel: nat, ghost s: State, c: Result<Reply>)
      returns (p: Pass<(Node, Node, Node)>)
      requires f == g + 1 && f <= fuel && Eval(s, cond, g) == Answer(c)
      modifies this
      decreases fuel, 0, 1
      ensures ForLoop(s, For(init, cond, incr, body), f) ==
        if p.Done? then Answer(p.r) else ForLoop(Now(), For(init, p.next.0, p.next.1, p.next.2), g)
    {
      if c.Err? {
        ForConditionFails(s, init, cond, incr, body, f, c.fault);
        p := Done(Err(c.fault));
      } else if !c.value.v.Bool? {
        ForConditionNotBool(s, init, cond, incr, body, f, Out(c.value.v, Now(), c.value.n));
        p := Done(Fail("The condition in for should be a boolean expression!"));
      } else if !c.value.v.b || breakLoop || exitProgram {
        ForHalts(s, For(init, cond, incr, body), f, Out(c.value.v, Now(), c.value.n));
        breakLoop := false;
        p := Done(Ok(Reply(Default, For(init, c.value.n, incr, body))));
      } else {
        p := ForBodyPass(init, cond, incr, body, f, g, fuel, s, Out(c.value.v, Now(), c.value.n), c.value.n);
      }
    }

    /** The rest of a `for` pass whose condition held: the body, then the increment. */
    method ForBodyPass(init: Node, cond: Node, incr: Node, body: Node, f: nat, g: nat, ghost fuel: nat, ghost s: State, ghost co: Out, c: Node)
      returns (p: Pass<(Node, Node, Node)>)
      requires f == g + 1 && f <= fuel && Eval(s, cond, g) == Ok(co)
      requires co.v == Bool(true) && !co.st.brk && !co.st.exit && Now() == co.st && c == co.n
      modifies this
      decreases fuel, 0, 0
      ensures ForLoop(s, For(init, cond, incr, body), f) ==
        if p.Done? then Answer(p.r) else ForLoop(Now(), For(init, p.next.0, p.next.1, p.next.2), g)
    {
      var b := Visit(body, g);
      if b.Err? {
        ForBodyFails(s, init, cond, incr, body, f, co, b.fault);
        return Done(Err(b.fault));
      }
      ghost var bo := Out(b.value.v, Now(), b.value.n);
      var i := Visit(incr, g);
      if i.Err? {
        ForIncrementFails(s, init, cond, incr, body, f, co, bo, i.fault);
        return Done(Err(i.fault));
      }
      ForGoesOn(s, init, cond, incr, body, f, co, bo, Out(i.value.v, Now(), i.value.n));
      p := Again((c, i.value.n, b.value.n));
    }

    /** `visit(WhileNode)`. */
    method VisitWhile(n: Node, fuel: nat) returns (r: Result<Reply>)
      requires n.While?
      modifies this
      decreases fuel, Size(n), 1
      ensures EvalWhile(old(Now()), n, fuel) == Answer(r)
    {
      var cond, body := n.cond, n.body;
      ghost var target := WhileLoop(Now(), n, fuel);
      var f: nat := fuel;
      while true
        invariant f <= fuel
        invariant WhileLoop(Now(), While(cond, body), f) == target
        decreases f
      {
        if f == 0 {
          return Err(OutOfFuel);
        }
        var p := WhilePass(cond, body, f, fuel);
        if p.Done? {
          return p.r;
        }
        cond, body := p.next.0, p.next.1;
        f := f - 1;
      }
    }

    /**
     * One pass of the `while (true)` loop of `visit(WhileNode)`: the loop
     * either ends, or goes on with the nodes as the pass left them.
     */
    method WhilePass(cond: Node, body: Node, f: nat, ghost fuel: nat) returns (p: Pass<(Node, Node)>)
      requires 0 < f <= fuel
      modifies this
      decreases fuel, 0, 0
      ensures p.Done? ==> WhileLoop(old(Now()), While(cond, body), f) == Answer(p.r)
      ensures p.Again? ==> WhileLoop(old(Now()), While(cond, body), f) == WhileLoop(Now(), While(p.next.0, p.next.1), f - 1)
    {
      ghost var s := Now();
      var c := Visit(cond, f - 1);
      if c.Err? {
        WhileConditionFails(s, cond, body, f, c.fault);
        return Done(Err(c.fault));
      }
      ghost var co := Out(c.value.v, Now(), c.value.n);
      if !c.value.v.Bool? {
        WhileConditionNotBool(s, cond, body, f, co);
        return Done(Fail("The condition in for should be a boolean expression!"));
      }
      if !c.value.v.b || breakLoop || exitProgram {
        WhileHalts(s, cond, body, f, co);
        breakLoop := false;
        return Done(Ok(Reply(Default, While(c.value.n, body))));
      }
      var b := Visit(body, f - 1);
      if b.Err? {
        WhileBodyFails(s, cond, body, f, co, b.fault);
        return Done(Err(b.fault));
      }
      WhileGoesOn(s, cond, body, f, co, Out(b.value.v, Now(), b.value.n));
      p := Again((c.value.n, b.value.n));
    }

    /** `visit(KeyNode)`: press, hold or release what `processButtons` gives. */
    method VisitKey(n: Node, fuel: nat) returns (r: Result<Reply>)
      requires n.Key?
      modifies this
      decreases fuel, Size(n), 1
      ensures EvalKey(old(Now()), n, fuel) == Answer(r)
    {
      var k := n.token.kind;
      if !(k.PRESS? || k.HOLD? || k.RELEASE?) {
        return Ok(Reply(Default, n));
      }
      if fuel == 0 {
        return Err(OutOfFuel);
      }
      var s := SplitLast(n.buttons, fuel);
      if s.Err? {
        return Err(s.fault);
      }
      var time, nodes := s.value.0, s.value.1;
      var b := EvalEach(nodes, fuel - 1);
      if b.Err? {
        return Err(b.fault);
      }
      var names, done := b.value.0, b.value.1;
      var call := if k.PRESS? then PressCall(names, time) else if k.HOLD? then HoldCall(names) else ReleaseCall(names);
      calls := calls + [call];
      r := Ok(Reply(Default, Key(n.token, done)));
    }

    /**
     * `processButtons`, first half: visit the last button node and pop it
     * off the list when it gave an int or a float.
     */
    method SplitLast(bs: seq<Node>, fuel: nat) returns (r: Result<(Duration, seq<Node>)>)
      modifies this
      decreases fuel, SizeSeq(bs), 0
      ensures SplitDuration(old(Now()), bs, fuel) == (if r.Err? then Err(r.fault) else Ok(Split(Now(), r.value.0, r.value.1)))
    {
      if |bs| == 0 {
        return Ok((Seconds(0), bs));
      }
      var nodes := bs[..|bs| - 1];
      var last := bs[|bs| - 1];
      assert bs == nodes + [last];
      SizeSeqSnoc(nodes, last);
      var o := Visit(last, fuel);
      if o.Err? {
        return Err(o.fault);
      }
      if o.value.v.Int? {
        r := Ok((Seconds(o.value.v.i), nodes));
      } else if o.value.v.Float? {
        r := Ok((FloatSeconds, nodes));
      } else {
        r := Ok((Seconds(0), nodes + [o.value.n]));
      }
    }

    /** `processButtons`, second half: visit each node in order and keep the strings. */
    method EvalEach(nodes: seq<Node>, fuel: nat) returns (r: Result<(seq<string>, seq<Node>)>)
      modifies this
      decreases fuel, SizeSeq(nodes), 4
      ensures EvalButtons(old(Now()), nodes, fuel) == (if r.Err? then Err(r.fault) else Ok(Buttons(Now(), r.value.0, r.value.1)))
    {
      ghost var target := EvalButtons(Now(), nodes, fuel);
      var names: seq<string> := [];
      var done: seq<Node> := [];
      var i := 0;
      assert nodes[0..] == nodes;
      GatherNothing(target);
      while i < |nodes|
        invariant 0 <= i <= |nodes| && |done| == i
        invariant target == Gather(names, done, EvalButtons(Now(), nodes[i..], fuel))
        decreases |nodes| - i
      {
        ghost var before := Now();
        var rest := nodes[i..];
        assert rest[0] == nodes[i] && rest[1..] == nodes[i + 1..];
        SizeSeqElement(nodes, i);
        var o := Visit(nodes[i], fuel);
        if o.Err? {
          EvalButtonsFails(before, rest, fuel, o.fault);
          return Err(o.fault);
        }
        var name := if o.value.v.Str? then [o.value.v.s] else [];
        EvalButtonsGoesOn(before, rest, fuel, Out(o.value.v, Now(), o.value.n));
        GatherTwice(names, name, done, [o.value.n], EvalButtons(Now(), nodes[i + 1..], fuel));
        names := names + name;
        done := done + [o.value.n];
        i := i + 1;
      }
      assert nodes[i..] == [] && names + [] == names && done + [] == done;
      r := Ok((names, done));
    }

    /** `visit(MouseNode)`. */
    method VisitMouse(n: Node, fuel: nat) returns (r: Result<Reply>)
      requires n.Mouse?
      modifies this
      decreases fuel, Size(n), 1
      ensures EvalMouse(old(Now()), n, fuel) == Answer(r)
    {
      var x := Visit(n.x, fuel);
      if x.Err? {
        return Err(x.fault);
      }
      var y := Visit(n.y, fuel);
      if y.Err? {
        return Err(y.fault);
      }
      var t := Visit(n.time, fuel);
      if t.Err? {
        return Err(t.fault);
      }
      if !x.value.v.Int? || !y.value.v.Int? {
        return Err(Undefined("read of an uninitialised coordinate"));
      }
      calls := calls + [MoveCall(n.token.kind.MOVE?, x.value.v.i, y.value.v.i, TimeOf(t.value.v))];
      r := Ok(Reply(Default, Mouse(n.token, x.value.n, y.value.n, t.value.n)));
    }
  }
}
