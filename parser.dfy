/**
 * The parser's token cursor (src/parser/Parser.cpp): `match` and `require`
 * over the token list, the statement dispatch of `parseExpression`, the
 * assignment and postfix forms of `parseVariable`, and the `parse` loop.
 *
 * `parseUnar`, `parseTerm`, `parseIf`, `parseFor` and `parseWhile` are stubs
 * that return a null pointer; here they give `Absent`. A thrown
 * `std::runtime_error` is an `Err(RuntimeError(..))`.
 *
 * The cursor is first defined as functions on a `Cursor` value; the class
 * `Parser` holds it in fields, and each of its methods is proved to do what
 * the function of the same name computes.
 */
module Parsing {
  import opened Values
  import opened Tokens
  import opened Ast
  import opened AstNodes
  import opened Decimal

  /** `pos_` and `current_token_`. */
  datatype Cursor = Cursor(pos: nat, current: Token)

  /** What `match` returns, and the cursor it leaves. */
  datatype Matched = Matched(token: Token, cursor: Cursor)

  /** The cursor of a fresh parser. */
  const Start: Cursor := Cursor(0, Token(INVALID, "", 0))

  /** The kinds `parseVariable` accepts after a variable to build an assignment. */
  const AssignmentKinds: seq<TokenType> := [
    ASSIGN, PLUS_ASSIGN, MINUS_ASSIGN, MULTIPLY_ASSIGN, DIVIDE_ASSIGN, MODULO_ASSIGN,
    FLOOR_ASSIGN, POWER_ASSIGN, ROOT_ASSIGN, LOG_ASSIGN, BIT_AND_ASSIGN, BIT_OR_ASSIGN,
    BIT_XOR_ASSIGN, BIT_LEFT_SHIFT_ASSIGN, BIT_RIGHT_SHIFT_ASSIGN]

  /** The message `parseExpression` and `parseVariable` throw. */
  function Expected(pos: int): string
  {
    "On positon" + IntText(pos) + "expected an another value."
  }

  // ------------------------------------------------------- match, require

  /** The token under the cursor is one of `types`. */
  predicate Accepts(tokens: seq<Token>, pos: nat, types: seq<TokenType>)
  {
    pos < |tokens| && tokens[pos].kind in types
  }

  /**
   * `match`: the cursor moves on by exactly one token when the token under
   * it has one of the kinds, and that token becomes the current one;
   * otherwise nothing moves and the result is the INVALID token carrying
   * the position.
   */
  function MatchAt(tokens: seq<Token>, c: Cursor, types: seq<TokenType>): (m: Matched)
    ensures m.cursor.pos == c.pos + 1 <==> Accepts(tokens, c.pos, types)
    ensures m.cursor.pos == c.pos + 1 ==> m.token == tokens[c.pos] && m.cursor.current == m.token
    ensures m.cursor.pos != c.pos + 1 ==> m.cursor == c && m.token == InvalidAt(c.pos)
  {
    if c.pos < |tokens| && tokens[c.pos].kind in types then
      Matched(tokens[c.pos], Cursor(c.pos + 1, tokens[c.pos]))
    else
      Matched(InvalidAt(c.pos), c)
  }

  /** `require`: `match`, or "Error on pos N" when `match` gave the INVALID token. */
  function RequireAt(tokens: seq<Token>, c: Cursor, types: seq<TokenType>): (r: Result<Matched>)
    ensures r.Ok? <==> MatchAt(tokens, c, types).token.kind != INVALID
    ensures r.Ok? ==> r.value == MatchAt(tokens, c, types)
    ensures r.Err? && INVALID !in types ==> r.fault == RuntimeError("Error on pos " + IntText(c.pos))
  {
    var m := MatchAt(tokens, c, types);
    if m.token.kind == INVALID then Fail("Error on pos " + IntText(m.cursor.pos)) else Ok(m)
  }

  /** Asked for kinds other than INVALID, `require` fails exactly when `match` does not move. */
  lemma RequireFailsIffNoMatch(tokens: seq<Token>, c: Cursor, types: seq<TokenType>)
    requires INVALID !in types
    ensures RequireAt(tokens, c, types).Ok? <==> Accepts(tokens, c.pos, types)
  {
    if Accepts(tokens, c.pos, types) {
      assert tokens[c.pos].kind != INVALID;
    }
  }

  // -------------------------------------------------------------- statements

  /** `parseExpression`: one statement, and the cursor after it. */
  function ExpressionAt(tokens: seq<Token>, c: Cursor): (r: Result<(Node, Cursor)>)
    ensures r.Ok? ==> c.pos < r.value.1.pos <= |tokens|
  {
    var v := MatchAt(tokens, c, [VARIABLE]);
    if v.token.kind != INVALID then VariableAt(tokens, v.cursor)
    else
      var u := MatchAt(tokens, v.cursor, [PLUS_ONE, MINUS_ONE, PRINT, INPUT]);
      if u.token.kind != INVALID then Ok((Absent, u.cursor))
      else
        var i := MatchAt(tokens, u.cursor, [IF]);
        if i.token.kind != INVALID then Ok((Absent, i.cursor))
        else
          var f := MatchAt(tokens, i.cursor, [FOR]);
          if f.token.kind != INVALID then Ok((Absent, f.cursor))
          else
            var w := MatchAt(tokens, f.cursor, [WHILE]);
            if w.token.kind != INVALID then Ok((Absent, w.cursor))
            else Fail(Expected(w.cursor.pos))
  }

  /** `parseVariable`, with the variable's token already current. */
  function VariableAt(tokens: seq<Token>, c: Cursor): (r: Result<(Node, Cursor)>)
    ensures r.Ok? ==> c.pos < r.value.1.pos <= |tokens|
  {
    var variable := Variable(c.current);
    var u := MatchAt(tokens, c, [PLUS_ONE, MINUS_ONE]);
    if u.token.kind != INVALID then Ok((UnarOp(u.cursor.current, variable), u.cursor))
    else
      var a := MatchAt(tokens, u.cursor, AssignmentKinds);
      if a.token.kind != INVALID then Ok((BinaryOp(a.cursor.current, variable, Absent), a.cursor))
      else Fail(Expected(a.cursor.pos))
  }

  /** The assignment kinds are the fifteen of the assignment family, and only those. */
  lemma AssignmentKindsAreTheFamily(k: TokenType)
    ensures k in AssignmentKinds <==> IsAssignment(k)
  {
    AssignmentKindsInFamily();
    if IsAssignment(k) {
      FamilyInAssignmentKinds(k);
    }
  }

  lemma AssignmentKindsInFamily()
    ensures forall i :: 0 <= i < |AssignmentKinds| ==> IsAssignment(AssignmentKinds[i])
  {
  }

  lemma FamilyInAssignmentKinds(k: TokenType)
    requires IsAssignment(k)
    ensures k in AssignmentKinds
  {
    match k
    case ASSIGN => assert AssignmentKinds[0] == k;
    case PLUS_ASSIGN => assert AssignmentKinds[1] == k;
    case MINUS_ASSIGN => assert AssignmentKinds[2] == k;
    case MULTIPLY_ASSIGN => assert AssignmentKinds[3] == k;
    case DIVIDE_ASSIGN => assert AssignmentKinds[4] == k;
    case MODULO_ASSIGN => assert AssignmentKinds[5] == k;
    case FLOOR_ASSIGN => assert AssignmentKinds[6] == k;
    case POWER_ASSIGN => assert AssignmentKinds[7] == k;
    case ROOT_ASSIGN => assert AssignmentKinds[8] == k;
    case LOG_ASSIGN => assert AssignmentKinds[9] == k;
    case BIT_AND_ASSIGN => assert AssignmentKinds[10] == k;
    case BIT_OR_ASSIGN => assert AssignmentKinds[11] == k;
    case BIT_XOR_ASSIGN => assert AssignmentKinds[12] == k;
    case BIT_LEFT_SHIFT_ASSIGN => assert AssignmentKinds[13] == k;
    case BIT_RIGHT_SHIFT_ASSIGN => assert AssignmentKinds[14] == k;
    case _ =>
  }

  /** A statement that starts with a variable is that variable's postfix or assignment form. */
  lemma ExpressionOfVariable(tokens: seq<Token>, pos: nat, current: Token)
    requires pos < |tokens| && tokens[pos].kind == VARIABLE
    ensures ExpressionAt(tokens, Cursor(pos, current)) == VariableAt(tokens, Cursor(pos + 1, tokens[pos]))
  {
  }

  /**
   * The other statement starts are tried in order, one token each, and
   * give the stubs' null node: `++`, `--`, print and input, then if, for,
   * while.
   */
  lemma ExpressionOfStub(tokens: seq<Token>, pos: nat, current: Token)
    requires pos < |tokens| && tokens[pos].kind in [PLUS_ONE, MINUS_ONE, PRINT, INPUT, IF, FOR, WHILE]
    ensures ExpressionAt(tokens, Cursor(pos, current)) == Ok((Absent, Cursor(pos + 1, tokens[pos])))
  {
  }

  /** Any other token, or none at all, is an error at the position, with no token consumed. */
  lemma ExpressionOfOther(tokens: seq<Token>, pos: nat, current: Token)
    requires pos >= |tokens| || tokens[pos].kind !in [VARIABLE, PLUS_ONE, MINUS_ONE, PRINT, INPUT, IF, FOR, WHILE]
    ensures ExpressionAt(tokens, Cursor(pos, current)) == Fail(Expected(pos))
  {
  }

  /**
   * After the variable: a postfix `++` or `--` gives the unary node of that
   * operator on the variable, an assignment-family operator the binary node
   * with the null right operand of the `parseTerm` stub, and anything else
   * is an error at the position after the variable.
   */
  lemma VariableForms(tokens: seq<Token>, pos: nat, name: Token)
    ensures var r := VariableAt(tokens, Cursor(pos, name));
      && (Accepts(tokens, pos, [PLUS_ONE, MINUS_ONE]) ==>
            r == Ok((UnarOp(tokens[pos], Variable(name)), Cursor(pos + 1, tokens[pos]))))
      && (pos < |tokens| && IsAssignment(tokens[pos].kind) ==>
            r == Ok((BinaryOp(tokens[pos], Variable(name), Absent), Cursor(pos + 1, tokens[pos]))))
      && (!Accepts(tokens, pos, [PLUS_ONE, MINUS_ONE]) && !(pos < |tokens| && IsAssignment(tokens[pos].kind)) ==>
            r == Fail(Expected(pos)))
  {
    if pos < |tokens| {
      AssignmentKindsAreTheFamily(tokens[pos].kind);
    }
  }

  /** The forms a parsed statement can take. */
  predicate StatementForm(n: Node)
  {
    || n.Absent?
    || (n.UnarOp? && n.op.kind in [PLUS_ONE, MINUS_ONE] && n.operand.Variable? && n.operand.token.kind == VARIABLE)
    || (n.BinaryOp? && IsAssignment(n.op.kind) && n.left.Variable? && n.left.token.kind == VARIABLE
         && n.right.Absent?)
  }

  /** Every statement the dispatch produces has one of those forms. */
  lemma ExpressionForm(tokens: seq<Token>, c: Cursor)
    requires ExpressionAt(tokens, c).Ok?
    ensures StatementForm(ExpressionAt(tokens, c).value.0)
  {
    if Accepts(tokens, c.pos, [VARIABLE]) {
      ExpressionOfVariable(tokens, c.pos, c.current);
      VariableForms(tokens, c.pos + 1, tokens[c.pos]);
    }
  }

  // ------------------------------------------------------------ the program

  /** The `parse` loop from cursor `c`: statements, each followed by a LINE_END, up to the last token. */
  function ParseFrom(tokens: seq<Token>, c: Cursor): Result<seq<Node>>
    decreases |tokens| - c.pos
  {
    if c.pos >= |tokens| then Ok([])
    else
      var e := ExpressionAt(tokens, c);
      if e.Err? then Err(e.fault)
      else
        var end := RequireAt(tokens, e.value.1, [LINE_END]);
        if end.Err? then Err(end.fault)
        else
          var rest := ParseFrom(tokens, end.value.cursor);
          if rest.Err? then rest else Ok([e.value.0] + rest.value)
  }

  /** `parse`, with the root an empty block. */
  function ParseTokens(tokens: seq<Token>): Result<Node>
  {
    var r := ParseFrom(tokens, Start);
    if r.Err? then Err(r.fault) else Ok(Block(r.value))
  }

  /** Statements parsed before the rest, in front of the rest's statements. */
  function Prepend(done: seq<Node>, rest: Result<seq<Node>>): Result<seq<Node>>
  {
    if rest.Err? then rest else Ok(done + rest.value)
  }

  /**
   * What a successful parse looks like: every statement has one of the
   * parsed forms, each took at least two tokens (itself and its LINE_END),
   * and the last token is a LINE_END.
   */
  lemma {:induction false} ParseShape(tokens: seq<Token>, c: Cursor)
    requires ParseFrom(tokens, c).Ok?
    ensures var ss := ParseFrom(tokens, c).value;
      && (forall i :: 0 <= i < |ss| ==> StatementForm(ss[i]))
      && (c.pos < |tokens| ==> 2 * |ss| <= |tokens| - c.pos && tokens[|tokens| - 1].kind == LINE_END)
    decreases |tokens| - c.pos
  {
    if c.pos < |tokens| {
      var e := ExpressionAt(tokens, c);
      ExpressionForm(tokens, c);
      var end := RequireAt(tokens, e.value.1, [LINE_END]);
      var next := end.value.cursor;
      ParseShape(tokens, next);
      if next.pos == |tokens| {
        assert tokens[next.pos - 1].kind == LINE_END;
      }
    }
  }

  /** A program of the single statement `x++`. */
  lemma ParseIncrement(x: Token, inc: Token, end: Token)
    requires x.kind == VARIABLE && inc.kind == PLUS_ONE && end.kind == LINE_END
    ensures ParseTokens([x, inc, end]) == Ok(Block([UnarOp(inc, Variable(x))]))
  {
    var ts := [x, inc, end];
    ExpressionOfVariable(ts, 0, Start.current);
    VariableForms(ts, 1, x);
    assert ExpressionAt(ts, Start) == Ok((UnarOp(inc, Variable(x)), Cursor(2, inc)));
    assert RequireAt(ts, Cursor(2, inc), [LINE_END]) == Ok(Matched(end, Cursor(3, end)));
    assert ParseFrom(ts, Cursor(3, end)) == Ok([]);
    assert ParseFrom(ts, Start) == Ok([UnarOp(inc, Variable(x))] + []);
    assert [UnarOp(inc, Variable(x))] + [] == [UnarOp(inc, Variable(x))];
  }

  // ---------------------------------------------------- the code as written

  /**
   * `parse` as written: `root` is a `unique_ptr<BlockNode>` that is never
   * set, so the empty program returns the null pointer and the first
   * statement that parses is added through the null pointer.
   */
  function ParseAsWritten(tokens: seq<Token>): (r: Result<Node>)
  {
    if |tokens| == 0 then Ok(Absent)
    else
      var e := ExpressionAt(tokens, Start);
      if e.Err? then Err(e.fault)
      else
        var end := RequireAt(tokens, e.value.1, [LINE_END]);
        if end.Err? then Err(end.fault)
        else Err(Undefined("addStatement through the null root"))
  }

  /** As written, no program with a token gives a tree, and only the empty one has no fault. */
  lemma AsWrittenParsesNothing(tokens: seq<Token>)
    ensures ParseAsWritten(tokens).Ok? <==> |tokens| == 0
    ensures |tokens| == 0 ==> ParseAsWritten(tokens) == Ok(Absent)
  {
  }

  /** The program `x++` shows it: a null-pointer dereference where a one-statement block was meant. */
  lemma AsWrittenFailsOnIncrement(x: Token, inc: Token, end: Token)
    requires x.kind == VARIABLE && inc.kind == PLUS_ONE && end.kind == LINE_END
    ensures ParseAsWritten([x, inc, end]) == Err(Undefined("addStatement through the null root"))
    ensures ParseTokens([x, inc, end]).Ok?
  {
    ParseIncrement(x, inc, end);
  }

  // ------------------------------------------------------------ the class

  class Parser {
    var tokens: seq<Token>
    var pos: nat
    var current: Token

    /** The cursor the fields hold. */
    function Now(): Cursor
      reads this
    {
      Cursor(pos, current)
    }

    /** The cursor never passes the end of the token list. */
    predicate Valid()
      reads this
    {
      pos <= |tokens|
    }

    constructor (ts: seq<Token>)
      ensures tokens == ts && Now() == Start && Valid()
    {
      tokens := ts;
      pos := 0;
      current := Token(INVALID, "", 0);
    }

    method Match(types: seq<TokenType>) returns (t: Token)
      requires Valid()
      modifies this
      ensures Valid() && tokens == old(tokens)
      ensures MatchAt(tokens, old(Now()), types) == Matched(t, Now())
    {
      if pos < |tokens| {
        var currentToken := tokens[pos];
        if currentToken.kind in types {
          pos := pos + 1;
          current := currentToken;
          return currentToken;
        }
      }
      t := Token(INVALID, "", pos);
    }

    method Require(types: seq<TokenType>) returns (r: Result<Token>)
      requires Valid()
      modifies this
      ensures Valid() && tokens == old(tokens)
      ensures var q := RequireAt(tokens, old(Now()), types);
        (r.Ok? <==> q.Ok?) && (q.Ok? ==> r.value == q.value.token && Now() == q.value.cursor)
        && (q.Err? ==> r == Err(q.fault))
    {
      var t := Match(types);
      if t.kind == INVALID {
        return Fail("Error on pos " + IntText(pos));
      }
      r := Ok(t);
    }

    method ParseExpression() returns (r: Result<Node>)
      requires Valid()
      modifies this
      ensures Valid() && tokens == old(tokens)
      ensures var e := ExpressionAt(tokens, old(Now()));
        (r.Ok? <==> e.Ok?) && (e.Ok? ==> r.value == e.value.0 && Now() == e.value.1)
        && (e.Err? ==> r == Err(e.fault))
    {
      var t := Match([VARIABLE]);
      if t.kind != INVALID {
        r := ParseVariable();
        return;
      }
      t := Match([PLUS_ONE, MINUS_ONE, PRINT, INPUT]);
      if t.kind != INVALID {
        return Ok(Absent);
      }
      t := Match([IF]);
      if t.kind != INVALID {
        return Ok(Absent);
      }
      t := Match([FOR]);
      if t.kind != INVALID {
        return Ok(Absent);
      }
      t := Match([WHILE]);
      if t.kind != INVALID {
        return Ok(Absent);
      }
      r := Fail(Expected(pos));
    }

    method ParseVariable() returns (r: Result<Node>)
      requires Valid()
      modifies this
      ensures Valid() && tokens == old(tokens)
      ensures var e := VariableAt(tokens, old(Now()));
        (r.Ok? <==> e.Ok?) && (e.Ok? ==> r.value == e.value.0 && Now() == e.value.1)
        && (e.Err? ==> r == Err(e.fault))
    {
      var variable := Variable(current);
      var t := Match([PLUS_ONE, MINUS_ONE]);
      if t.kind != INVALID {
        return Ok(UnarOp(current, variable));
      }
      t := Match(AssignmentKinds);
      if t.kind != INVALID {
        return Ok(BinaryOp(current, variable, Absent));
      }
      r := Fail(Expected(pos));
    }

    /** `parse`, building the statements into a block that exists from the start. */
    method Parse() returns (r: Result<Node>)
      requires Valid()
      modifies this
      ensures Valid() && tokens == old(tokens)
      ensures var p := ParseFrom(tokens, old(Now()));
        (r.Ok? <==> p.Ok?) && (p.Ok? ==> r.value == Block(p.value) && pos == |tokens|)
        && (p.Err? ==> r == Err(p.fault))
    {
      var root := new BlockNode();
      ghost var whole := ParseFrom(tokens, Now());
      assert whole.Ok? ==> [] + whole.value == whole.value;
      while pos < |tokens|
        invariant Valid() && tokens == old(tokens)
        invariant whole == Prepend(root.statements, ParseFrom(tokens, Now()))
        decreases |tokens| - pos
      {
        ghost var before := Now();
        var statement := ParseExpression();
        if statement.Err? {
          return Err(statement.fault);
        }
        var end := Require([LINE_END]);
        if end.Err? {
          return Err(end.fault);
        }
        ParseFromStep(tokens, before);
        PrependTwice(root.statements, [statement.value], ParseFrom(tokens, Now()));
        root.AddStatement(statement.value);
      }
      assert root.statements + [] == root.statements;
      r := Ok(root.Tree());
    }
  }

  /** One pass of the loop: a statement and its LINE_END, in front of what the rest gives. */
  lemma ParseFromStep(tokens: seq<Token>, c: Cursor)
    requires c.pos < |tokens| && ExpressionAt(tokens, c).Ok?
    requires RequireAt(tokens, ExpressionAt(tokens, c).value.1, [LINE_END]).Ok?
    ensures var e := ExpressionAt(tokens, c).value;
      ParseFrom(tokens, c)
      == Prepend([e.0], ParseFrom(tokens, RequireAt(tokens, e.1, [LINE_END]).value.cursor))
  {
  }

  lemma PrependTwice(a: seq<Node>, b: seq<Node>, rest: Result<seq<Node>>)
    ensures Prepend(a, Prepend(b, rest)) == Prepend(a + b, rest)
  {
    if rest.Ok? {
      assert a + (b + rest.value) == (a + b) + rest.value;
    }
  }
}
