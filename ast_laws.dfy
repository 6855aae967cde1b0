/**
 * Laws of the node printers: how a text changes when a block grows or a
 * time node is added, where the buttons of a key action sit, how the two
 * binary node classes and the two mouse moves relate, and which classes
 * close their text with ')'.
 */
module AstLaws {
  import opened Tokens
  import opened Ast

  /** The node classes that override `toString`; the others print "Base Class". */
  predicate OverridesToString(n: Node)
  {
    n.Block? || n.Variable? || n.UnarOp? || n.BinaryOp? || n.BinarOp? || n.While?
    || n.Key? || n.HoldRelease? || n.Press? || n.Mouse? || n.Command?
  }

  /** A text ends with ')' exactly when its node's class has a printer of its own. */
  lemma ClosingParenthesis(n: Node)
    requires Printable(n)
    ensures var s := ToString(n); |s| > 0 && (s[|s| - 1] == ')' <==> OverridesToString(n))
  {
    var s := ToString(n);
    if !OverridesToString(n) {
      assert s == "Base Class";
    }
  }

  /** An empty block prints as "Block(\n)". */
  lemma EmptyBlock()
    ensures ToString(Block([])) == "Block(\n)"
  {
  }

  /** `addStatement` puts one more line, the new statement's text, before the closing "\n)". */
  lemma {:induction false} BlockGrows(ss: seq<Node>, s: Node)
    requires Printable(Block(ss)) && Printable(s)
    ensures Printable(Block(ss + [s]))
    ensures var before := ToString(Block(ss));
      ToString(Block(ss + [s])) == before[..|before| - 2] + "\n  " + ToString(s) + "\n)"
  {
    var all := ss + [s];
    assert forall i :: 0 <= i < |all| ==> Printable(all[i]) by {
      forall i | 0 <= i < |all| ensures Printable(all[i]) {
        if i < |ss| { assert all[i] == ss[i]; }
      }
    }
    var lines := seq(|all|, i requires 0 <= i < |all| => "\n  " + ToString(all[i]));
    var old_lines := seq(|ss|, i requires 0 <= i < |ss| => "\n  " + ToString(ss[i]));
    assert lines[..|lines| - 1] == old_lines;
    assert lines[|lines| - 1] == "\n  " + ToString(s);
    assert Concat(lines) == Concat(old_lines) + ("\n  " + ToString(s));
    assert ToString(Block(ss)) == "Block(" + Concat(old_lines) + "\n)";
    LineBeforeClose(Concat(old_lines), ToString(s));
  }

  // String step for BlockGrows: a new last line goes in before the closing "\n)".
  lemma LineBeforeClose(body: string, line: string)
    ensures var before := "Block(" + body + "\n)";
      |before| >= 2 && "Block(" + (body + ("\n  " + line)) + "\n)" == before[..|before| - 2] + "\n  " + line + "\n)"
  {
    var before := "Block(" + body + "\n)";
    assert before[..|before| - 2] == "Block(" + body;
    assert "Block(" + (body + ("\n  " + line)) == "Block(" + body + "\n  " + line;
  }

  /** The text of a key action: its prefix, the buttons in list order with n-1 separators, then ")". */
  lemma KeyText(tok: Token, bs: seq<Node>)
    requires Printable(Key(tok, bs))
    ensures var s := ToString(Key(tok, bs)); var p := KeyPrefix(tok.kind);
      s[..|p|] == p && s[|s| - 1] == ')'
      && (|bs| == 0 ==> s == p + ")")
      && (|bs| > 0 ==> |s| == |p| + TotalLength(Texts(bs)) + 2 * (|bs| - 1) + 1)
    ensures KeyPrefix(tok.kind) == "UnknownAction(" <==> tok.kind !in {HOLD, RELEASE, PRESS}
  {
    if |bs| > 0 {
      JoinLength(Texts(bs), ", ");
    }
  }

  /** Button k of a key action sits right after the prefix, its predecessors and their separators. */
  lemma KeyButtonAt(tok: Token, bs: seq<Node>, k: nat)
    requires Printable(Key(tok, bs)) && k < |bs|
    ensures var s := ToString(Key(tok, bs)); var t := ToString(bs[k]);
      var off := |KeyPrefix(tok.kind)| + TotalLength(Texts(bs)[..k]) + 2 * k;
      off + |t| <= |s| && s[off..off + |t|] == t
  {
    var ts := Texts(bs);
    KeyUnfolds(tok, bs);
    ListedPartAt(KeyPrefix(tok.kind), ts, k);
    assert ts[k] == ToString(bs[k]);
  }

  // String step for KeyButtonAt: part k of "p" + the parts joined by ", " + ")".
  lemma ListedPartAt(p: string, parts: seq<string>, k: nat)
    requires k < |parts|
    ensures var s := p + Join(parts, ", ") + ")"; var off := |p| + TotalLength(parts[..k]) + 2 * k;
      off + |parts[k]| <= |s| && s[off..off + |parts[k]|] == parts[k]
  {
    JoinHoldsPart(parts, ", ", k);
    assert k * |", "| == 2 * k;
    Framed(p, Join(parts, ", "), ")", TotalLength(parts[..k]) + 2 * k, parts[k]);
  }

  /** A duration, the last element of the list, is printed last, just before ")". */
  lemma KeyDurationLast(tok: Token, bs: seq<Node>)
    requires Printable(Key(tok, bs)) && |bs| > 0
    ensures var s := ToString(Key(tok, bs)); var t := ToString(bs[|bs| - 1]);
      |t| + 1 <= |s| && s[|s| - 1 - |t|..] == t + ")"
  {
    var ts := Texts(bs);
    var n := |bs|;
    if n > 1 {
      assert Join(ts, ", ") == Join(ts[..n - 1], ", ") + ", " + ts[n - 1];
    }
  }

  /** Hold and release actions list their buttons the same way, after their own prefix. */
  lemma HoldReleaseText(k: TokenType, bs: seq<Node>)
    requires Printable(HoldRelease(k, bs))
    ensures var s := ToString(HoldRelease(k, bs)); var p := HoldReleasePrefix(k);
      s == p + Join(Texts(bs), ", ") + ")"
      && (|bs| == 0 ==> s == p + ")")
      && (|bs| > 0 ==> |s| == |p| + TotalLength(Texts(bs)) + 2 * (|bs| - 1) + 1)
    ensures HoldReleasePrefix(k) == "UnknownAction(" <==> k !in {HOLD, RELEASE}
  {
    if |bs| > 0 {
      JoinLength(Texts(bs), ", ");
    }
  }

  /** A time node inserts ", " and its text before the closing ")" of a press. */
  lemma PressTime(bs: seq<Node>, t: Node)
    requires Printable(Press(bs, t)) && !t.Absent?
    ensures Printable(Press(bs, Absent))
    ensures var plain := ToString(Press(bs, Absent));
      ToString(Press(bs, t)) == plain[..|plain| - 1] + ", " + ToString(t) + ")"
  {
    var head := "PressNode(" + Join(Texts(bs), ", ");
    PressUnfolds(bs, t);
    InsertBeforeClose(head, ToString(t));
  }

  // Unfolding step for KeyButtonAt: the text of a key action, spelled out.
  lemma KeyUnfolds(tok: Token, bs: seq<Node>)
    requires Printable(Key(tok, bs))
    ensures ToString(Key(tok, bs)) == KeyPrefix(tok.kind) + Join(Texts(bs), ", ") + ")"
  {
  }

  // Unfolding step for PressTime: the texts of a press with and without its time node, spelled out.
  lemma PressUnfolds(bs: seq<Node>, t: Node)
    requires Printable(Press(bs, t)) && !t.Absent?
    ensures Printable(Press(bs, Absent))
    ensures ToString(Press(bs, Absent)) == "PressNode(" + Join(Texts(bs), ", ") + "" + ")"
    ensures ToString(Press(bs, t)) == "PressNode(" + Join(Texts(bs), ", ") + (", " + ToString(t)) + ")"
  {
  }

  /** With no buttons and a time node the text is "PressNode(, t)". */
  lemma PressWithoutButtons(t: Node)
    requires Printable(t)
    ensures ToString(Press([], t)) == "PressNode(, " + ToString(t) + ")"
  {
    assert Texts([]) == [];
  }

  /** What a move prints after its name: x, y and the time when there is one, then ")". */
  function MoveTail(x: Node, y: Node, t: Node): string
    requires Printable(x) && Printable(y) && (t.Absent? || Printable(t))
  {
    ToString(x) + ", " + ToString(y) + (if t.Absent? then "" else ", " + ToString(t)) + ")"
  }

  /** A move and a relative move print the same arguments after their own names. */
  lemma MoveShape(tok: Token, x: Node, y: Node, t: Node)
    requires tok.kind in {MOVE, DMOVE} && Printable(Mouse(tok, x, y, t))
    ensures ToString(Mouse(tok, x, y, t)) == (if tok.kind == MOVE then "Move(" else "DMove(") + MoveTail(x, y, t)
  {
    var name := if tok.kind == MOVE then "Move(" else "DMove(";
    var ax, ay := ToString(x), ToString(y);
    var at := if t.Absent? then "" else ", " + ToString(t);
    assert ToString(Mouse(tok, x, y, t)) == name + ax + ", " + ay + at + ")";
    Regroup(name, ax, ay, at);
  }

  /** A present time node inserts ", " and its text before the closing ")" of a move's arguments. */
  lemma MoveTime(x: Node, y: Node, t: Node)
    requires Printable(x) && Printable(y) && Printable(t) && !t.Absent?
    ensures var plain := MoveTail(x, y, Absent);
      MoveTail(x, y, t) == plain[..|plain| - 1] + ", " + ToString(t) + ")"
  {
    var head := ToString(x) + ", " + ToString(y);
    assert MoveTail(x, y, Absent) == head + "" + ")";
    InsertBeforeClose(head, ToString(t));
  }

  /** Any other mouse token prints "UnknownMouseAction()" whatever its children, absent ones included. */
  lemma UnknownMouseAction(tok: Token, x: Node, y: Node, t: Node)
    requires tok.kind !in {MOVE, DMOVE}
    ensures Printable(Mouse(tok, x, y, t))
    ensures ToString(Mouse(tok, x, y, t)) == "UnknownMouseAction()"
  {
  }

  /** With a right operand, the second binary class prints exactly like BinaryOpNode; without one its text ends in ", nullptr)". */
  lemma BinarOpPrintsLikeBinaryOp(op: Token, l: Node, r: Node)
    requires Printable(BinarOp(op, l, r))
    ensures !r.Absent? ==>
      Printable(BinaryOp(op, l, r)) && ToString(BinarOp(op, l, r)) == ToString(BinaryOp(op, l, r))
    ensures r.Absent? ==> ToString(BinarOp(op, l, r)) == "BinaryOpNode(" + op.text + ", " + ToString(l) + ", nullptr)"
  {
    if !r.Absent? {
      LastOperand("BinaryOpNode(" + op.text + ", " + ToString(l), ToString(r));
    }
  }

  // ------------------------------------------------------------------ text helpers

  lemma Framed(p: string, j: string, q: string, off: nat, part: string)
    requires off + |part| <= |j| && j[off..off + |part|] == part
    ensures var s := p + j + q; |p| + off + |part| <= |s| && s[|p| + off..|p| + off + |part|] == part
  {
    var s := p + j + q;
    assert s[|p| + off..|p| + off + |part|] == j[off..off + |part|];
  }

  lemma InsertBeforeClose(head: string, time: string)
    ensures var plain := head + "" + ")";
      |plain| > 0 && head + (", " + time) + ")" == plain[..|plain| - 1] + ", " + time + ")"
  {
    var plain := head + "" + ")";
    assert plain[..|plain| - 1] == head;
    assert head + (", " + time) == head + ", " + time;
  }

  lemma LastOperand(head: string, last: string)
    ensures head + (", " + last + ")") == head + ", " + last + ")"
  {
  }

  lemma Regroup(name: string, ax: string, ay: string, at: string)
    ensures name + ax + ", " + ay + at + ")" == name + (ax + ", " + ay + at + ")")
  {
  }
}
