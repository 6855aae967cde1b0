/**
 * The syntax tree of KMSL programs with its printer (`toString`) and its deep
 * copy (`clone`).
 *
 * Each C++ node class is one constructor. A null `unique_ptr` is `Absent`;
 * `Base` is a plain `AstNode`, which is what the base `clone` builds.
 * `BinaryOp` (class BinaryOpNode) is the node that the parser and the
 * interpreters use; `BinarOp` (class BinarOpNode) is a second binary node
 * with its own printer and a deep `clone`. The node constructors are
 * datatype constructors, so each stores its arguments unchanged.
 */
module Ast {
  import opened Tokens

  datatype Node =
    | Absent
    | Base
    | Block(stmts: seq<Node>)
    | Literal(token: Token)
    | Variable(token: Token)
    | UnarOp(op: Token, operand: Node)
    | BinaryOp(op: Token, left: Node, right: Node)
    | BinarOp(op: Token, left: Node, right: Node)
    | Assign(op: Token, left: Node, right: Node)
    | If(cond: Node, thenBranch: Node, elseBranch: Node)
    | For(init: Node, cond: Node, incr: Node, body: Node)
    | While(cond: Node, body: Node)
    /** `buttons` ends with the duration when the action has one. */
    | Key(token: Token, buttons: seq<Node>)
    | HoldRelease(kind: TokenType, buttons: seq<Node>)
    | Press(buttons: seq<Node>, time: Node)
    | Mouse(token: Token, x: Node, y: Node, time: Node)
    /** A single-token statement: `break`, `continue` or `!!` (exit). */
    | Command(token: Token)

  /** A `PressNode`; as in its constructor, the time node defaults to absent. */
  function MakePress(buttons: seq<Node>, time: Node := Absent): (n: Node)
    ensures n.Press? && n.buttons == buttons && n.time == time
  {
    Press(buttons, time)
  }

  /** The number of constructors in a tree, counting an empty child list as one. */
  function Size(n: Node): (r: nat)
    ensures r >= 1
  {
    match n
    case Absent => 1
    case Base => 1
    case Literal(_) => 1
    case Variable(_) => 1
    case Command(_) => 1
    case Block(ss) => 1 + SizeSeq(ss)
    case UnarOp(_, x) => 1 + Size(x)
    case BinaryOp(_, l, r) => 1 + Size(l) + Size(r)
    case BinarOp(_, l, r) => 1 + Size(l) + Size(r)
    case Assign(_, l, r) => 1 + Size(l) + Size(r)
    case If(c, t, e) => 1 + Size(c) + Size(t) + Size(e)
    case For(i, c, s, b) => 1 + Size(i) + Size(c) + Size(s) + Size(b)
    case While(c, b) => 1 + Size(c) + Size(b)
    case Key(_, bs) => 1 + SizeSeq(bs)
    case HoldRelease(_, bs) => 1 + SizeSeq(bs)
    case Press(bs, t) => 1 + SizeSeq(bs) + Size(t)
    case Mouse(_, x, y, t) => 1 + Size(x) + Size(y) + Size(t)
  }

  function SizeSeq(ss: seq<Node>): (r: nat)
    ensures r >= 1
  {
    if |ss| == 0 then 1 else Size(ss[0]) + SizeSeq(ss[1..])
  }

  lemma {:induction false} SizeSeqSnoc(ss: seq<Node>, x: Node)
    ensures SizeSeq(ss + [x]) == SizeSeq(ss) + Size(x)
  {
    if |ss| > 0 {
      assert (ss + [x])[1..] == ss[1..] + [x];
      SizeSeqSnoc(ss[1..], x);
    }
  }

  lemma {:induction false} SizeSeqElement(ss: seq<Node>, i: nat)
    requires i < |ss|
    ensures Size(ss[i]) < SizeSeq(ss)
  {
    if i > 0 {
      assert ss[1..][i - 1] == ss[i];
      SizeSeqElement(ss[1..], i - 1);
    }
  }

  lemma SizeSeqDropLast(ss: seq<Node>)
    requires |ss| > 0
    ensures SizeSeq(ss[..|ss| - 1]) < SizeSeq(ss)
  {
    assert ss == ss[..|ss| - 1] + [ss[|ss| - 1]];
    SizeSeqSnoc(ss[..|ss| - 1], ss[|ss| - 1]);
  }

  // ---------------------------------------------------------------- printing

  /**
   * The trees `toString` is defined on: every child that a printer
   * dereferences is present. Nodes without a `toString` override print
   * "Base Class" and look at no child.
   */
  predicate Printable(n: Node)
  {
    match n
    case Absent => false
    case Block(ss) => forall i :: 0 <= i < |ss| ==> Printable(ss[i])
    case UnarOp(_, x) => Printable(x)
    case BinaryOp(_, l, r) => Printable(l) && Printable(r)
    case BinarOp(_, l, r) => Printable(l) && (r.Absent? || Printable(r))
    case While(c, b) => Printable(c) && Printable(b)
    case Key(_, bs) => forall i :: 0 <= i < |bs| ==> Printable(bs[i])
    case HoldRelease(_, bs) => forall i :: 0 <= i < |bs| ==> Printable(bs[i])
    case Press(bs, t) => (forall i :: 0 <= i < |bs| ==> Printable(bs[i])) && (t.Absent? || Printable(t))
    case Mouse(tok, x, y, t) =>
      tok.kind in {MOVE, DMOVE} ==> Printable(x) && Printable(y) && (t.Absent? || Printable(t))
    case _ => true
  }

  /** The pieces joined in order, with `sep` between neighbours. */
  function Join(parts: seq<string>, sep: string): string
  {
    if |parts| == 0 then ""
    else if |parts| == 1 then parts[0]
    else Join(parts[..|parts| - 1], sep) + sep + parts[|parts| - 1]
  }

  function Concat(parts: seq<string>): string
  {
    if |parts| == 0 then "" else Concat(parts[..|parts| - 1]) + parts[|parts| - 1]
  }

  /** The texts of a list of nodes, in order. */
  function Texts(ns: seq<Node>): (ts: seq<string>)
    requires forall i :: 0 <= i < |ns| ==> Printable(ns[i])
    ensures |ts| == |ns|
  {
    seq(|ns|, i requires 0 <= i < |ns| => ToString(ns[i]))
  }

  function KeyPrefix(k: TokenType): string
  {
    if k == HOLD then "Hold(" else if k == RELEASE then "Release(" else if k == PRESS then "Press(" else "UnknownAction("
  }

  function HoldReleasePrefix(k: TokenType): string
  {
    if k == HOLD then "Hold(" else if k == RELEASE then "Release(" else "UnknownAction("
  }

  /** The text each node class's `toString` produces. */
  function ToString(n: Node): string
    requires Printable(n)
  {
    match n
    case Block(ss) =>
      "Block(" + Concat(seq(|ss|, i requires 0 <= i < |ss| => "\n  " + ToString(ss[i]))) + "\n)"
    case Variable(t) => "Variable(" + t.text + ")"
    case UnarOp(op, x) => "UnarOpNode(" + op.text + ", " + ToString(x) + ")"
    case BinaryOp(op, l, r) => "BinaryOpNode(" + op.text + ", " + ToString(l) + ", " + ToString(r) + ")"
    case BinarOp(op, l, r) =>
      "BinaryOpNode(" + op.text + ", " + ToString(l)
      + (if r.Absent? then ", nullptr)" else ", " + ToString(r) + ")")
    case While(c, b) => "While(\n  Condition: " + ToString(c) + ",\n  Body: " + ToString(b) + "\n)"
    case Key(tok, bs) => KeyPrefix(tok.kind) + Join(Texts(bs), ", ") + ")"
    case HoldRelease(k, bs) => HoldReleasePrefix(k) + Join(Texts(bs), ", ") + ")"
    case Press(bs, t) => "PressNode(" + Join(Texts(bs), ", ") + (if t.Absent? then "" else ", " + ToString(t)) + ")"
    case Mouse(tok, x, y, t) =>
      if tok.kind == MOVE then "Move(" + ToString(x) + ", " + ToString(y) + (if t.Absent? then "" else ", " + ToString(t)) + ")"
      else if tok.kind == DMOVE then "DMove(" + ToString(x) + ", " + ToString(y) + (if t.Absent? then "" else ", " + ToString(t)) + ")"
      else "UnknownMouseAction()"
    case Command(t) => "CommandNode(" + t.text + ")"
    case _ => "Base Class"
  }

  // ------------------------------------------------------------------ cloning

  /** The trees `clone` is defined on: every child it dereferences is present. */
  predicate Cloneable(n: Node)
  {
    match n
    case Absent => false
    case Block(ss) => forall i :: 0 <= i < |ss| ==> Cloneable(ss[i])
    case BinarOp(_, l, r) => Cloneable(l) && (r.Absent? || Cloneable(r))
    case _ => true
  }

  /** `clone`: deep for Block, BinarOp and Variable; every other class inherits the base copy. */
  function Clone(n: Node): Node
    requires Cloneable(n)
  {
    match n
    case Block(ss) => Block(seq(|ss|, i requires 0 <= i < |ss| => Clone(ss[i])))
    case BinarOp(op, l, r) => BinarOp(op, Clone(l), if r.Absent? then Absent else Clone(r))
    case Variable(t) => Variable(t)
    case _ => Base
  }

  /** Trees built only from the classes that override `clone`. */
  predicate CloneClosed(n: Node)
  {
    match n
    case Block(ss) => forall i :: 0 <= i < |ss| ==> CloneClosed(ss[i])
    case BinarOp(_, l, r) => CloneClosed(l) && (r.Absent? || CloneClosed(r))
    case Variable(_) => true
    case _ => false
  }

  // ------------------------------------------------------------------ lemmas

  /** The sum of the lengths of the parts. */
  function TotalLength(parts: seq<string>): nat
  {
    if |parts| == 0 then 0 else TotalLength(parts[..|parts| - 1]) + |parts[|parts| - 1]|
  }

  /** Joining from the front: the first part, the separator, then the rest joined. */
  lemma {:induction false} JoinFront(p: string, rest: seq<string>, sep: string)
    requires |rest| > 0
    ensures Join([p] + rest, sep) == p + sep + Join(rest, sep)
  {
    var all := [p] + rest;
    if |rest| == 1 {
      assert all[..1] == [p];
    } else {
      assert all[..|all| - 1] == [p] + rest[..|rest| - 1];
      JoinFront(p, rest[..|rest| - 1], sep);
    }
  }

  /** n parts are joined with n-1 separators and nothing else. */
  lemma {:induction false} JoinLength(parts: seq<string>, sep: string)
    requires |parts| > 0
    ensures |Join(parts, sep)| == TotalLength(parts) + (|parts| - 1) * |sep|
  {
    if |parts| == 1 {
      assert parts[..0] == [];
    } else {
      JoinLength(parts[..|parts| - 1], sep);
    }
  }

  /** Each part appears in the joined text, in order, at the offset its predecessors and separators leave. */
  lemma {:induction false} JoinHoldsPart(parts: seq<string>, sep: string, k: nat)
    requires k < |parts|
    ensures var j := Join(parts, sep);
      var off := TotalLength(parts[..k]) + k * |sep|;
      off + |parts[k]| <= |j| && j[off..off + |parts[k]|] == parts[k]
  {
    var n := |parts|;
    if n == 1 {
      assert parts[..0] == [];
    } else if k == n - 1 {
      JoinHoldsLast(parts, sep);
    } else {
      var init := parts[..n - 1];
      JoinHoldsPart(init, sep, k);
      assert init[..k] == parts[..k];
      assert init[k] == parts[k];
    }
  }

  /** The last of several parts ends the joined text, after the others and their separators. */
  lemma JoinHoldsLast(parts: seq<string>, sep: string)
    requires |parts| > 1
    ensures var j, k := Join(parts, sep), |parts| - 1;
      var off := TotalLength(parts[..k]) + k * |sep|;
      off + |parts[k]| <= |j| && j[off..off + |parts[k]|] == parts[k]
  {
    var k := |parts| - 1;
    var init := parts[..k];
    var j0 := Join(init, sep);
    JoinLength(init, sep);
    assert Join(parts, sep) == j0 + sep + parts[k];
    assert (k - 1) * |sep| + |sep| == k * |sep|;
    assert TotalLength(init) + k * |sep| == |j0| + |sep|;
    assert (j0 + sep + parts[k])[|j0| + |sep|..|j0| + |sep| + |parts[k]|] == parts[k];
  }

  /** A clone of a cloneable tree can be printed. */
  lemma {:induction false} ClonePrintable(n: Node)
    requires Cloneable(n)
    ensures Printable(Clone(n))
  {
    match n
    case Block(ss) =>
      forall i | 0 <= i < |ss| ensures Printable(Clone(Block(ss)).stmts[i]) {
        ClonePrintable(ss[i]);
      }
    case BinarOp(_, l, r) =>
      ClonePrintable(l);
      if !r.Absent? { ClonePrintable(r); }
    case _ =>
  }

  /** For trees made only of Block, BinarOp and Variable nodes, a clone prints like the original. */
  lemma {:induction false} CloneRoundTrip(n: Node)
    requires CloneClosed(n)
    ensures Cloneable(n) && Printable(n) && Printable(Clone(n))
    ensures ToString(Clone(n)) == ToString(n)
  {
    match n
    case Block(ss) =>
      forall i | 0 <= i < |ss|
        ensures Cloneable(ss[i]) && Printable(ss[i]) && Printable(Clone(ss[i]))
        ensures ToString(Clone(ss[i])) == ToString(ss[i])
      {
        CloneRoundTrip(ss[i]);
      }
      var c := Clone(n);
      assert |c.stmts| == |ss|;
      assert forall i :: 0 <= i < |ss| ==> c.stmts[i] == Clone(ss[i]);
      assert seq(|c.stmts|, i requires 0 <= i < |c.stmts| => "\n  " + ToString(c.stmts[i]))
          == seq(|ss|, i requires 0 <= i < |ss| => "\n  " + ToString(ss[i]));
    case BinarOp(_, l, r) =>
      CloneRoundTrip(l);
      if !r.Absent? { CloneRoundTrip(r); }
    case Variable(_) =>
  }

  /** Every class without a `clone` override copies to a plain node that prints "Base Class". */
  lemma CloneFallsBack(n: Node)
    requires Cloneable(n) && !n.Block? && !n.BinarOp? && !n.Variable?
    ensures Clone(n) == Base && ToString(Clone(n)) == "Base Class"
  {
  }

  /** A Block's clone has its statements, each cloned, in order. */
  lemma CloneBlock(ss: seq<Node>)
    requires Cloneable(Block(ss))
    ensures var c := Clone(Block(ss));
      c.Block? && |c.stmts| == |ss| && forall i :: 0 <= i < |ss| ==> c.stmts[i] == Clone(ss[i])
  {
  }

  /** A BinarOp's clone keeps the operator token and has a right operand exactly when the original does. */
  lemma CloneBinarOp(op: Token, l: Node, r: Node)
    requires Cloneable(BinarOp(op, l, r))
    ensures var c := Clone(BinarOp(op, l, r));
      c.BinarOp? && c.op == op && c.left == Clone(l) && (c.right.Absent? <==> r.Absent?)
      && (!r.Absent? ==> c.right == Clone(r))
  {
  }
}
