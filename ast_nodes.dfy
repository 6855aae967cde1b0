/**
 * The node classes whose members are written as loops: the statement list of
 * a BlockNode, which `addStatement` grows in place, and the printers of the
 * key-action nodes, which stream their button texts into a buffer.
 * Each loop is proved to produce the text or tree that module Ast defines.
 */
module AstNodes {
  import opened Tokens
  import opened Ast

  /** The loop the key-action printers share: each text, then ", " unless it is the last. */
  method StreamJoin(ns: seq<Node>) returns (text: string)
    requires forall i :: 0 <= i < |ns| ==> Printable(ns[i])
    ensures text == Join(Texts(ns), ", ")
  {
    ghost var ts := Texts(ns);
    text := "";
    for i := 0 to |ns|
      invariant text == Join(ts[..i], ", ") + (if 0 < i < |ns| then ", " else "")
    {
      assert ts[..i + 1][..i] == ts[..i];
      text := text + Ast.ToString(ns[i]);
      if i < |ns| - 1 {
        text := text + ", ";
      }
    }
    assert ts[..|ns|] == ts;
  }

  /** KeyNode::toString. */
  method KeyToString(n: Node) returns (text: string)
    requires n.Key? && Printable(n)
    ensures text == Ast.ToString(n)
    ensures text[|text| - 1] == ')'
  {
    var buttons := StreamJoin(n.buttons);
    text := KeyPrefix(n.token.kind) + buttons + ")";
  }

  /** HoldReleaseNode::toString. */
  method HoldReleaseToString(n: Node) returns (text: string)
    requires n.HoldRelease? && Printable(n)
    ensures text == Ast.ToString(n)
    ensures text[|text| - 1] == ')'
  {
    var buttons := StreamJoin(n.buttons);
    text := HoldReleasePrefix(n.kind) + buttons + ")";
  }

  /** PressNode::toString: the joined buttons, then ", " and the time node when there is one. */
  method PressToString(n: Node) returns (text: string)
    requires n.Press? && Printable(n)
    ensures text == Ast.ToString(n)
  {
    text := "PressNode(";
    var buttons := StreamJoin(n.buttons);
    text := text + buttons;
    if !n.time.Absent? {
      text := text + ", " + Ast.ToString(n.time);
    }
    text := text + ")";
  }

  /** BlockNode, whose statement list the parser grows one statement at a time. */
  class BlockNode {
    var statements: seq<Node>

    /** The tree this object stands for. */
    function Tree(): Node
      reads this
    {
      Block(statements)
    }

    constructor ()
      ensures statements == []
    {
      statements := [];
    }

    method AddStatement(s: Node)
      modifies this
      ensures statements == old(statements) + [s]
    {
      statements := statements + [s];
    }

    method GetStatements() returns (ss: seq<Node>)
      ensures ss == statements
    {
      ss := statements;
    }

    /** "Block(", then a new line, two spaces and the text of each statement, then a new line and ")". */
    method ToString() returns (text: string)
      requires Printable(Tree())
      ensures text == Ast.ToString(Tree())
    {
      var ss := statements;
      ghost var parts := seq(|ss|, i requires 0 <= i < |ss| => "\n  " + Ast.ToString(ss[i]));
      text := "Block(";
      for i := 0 to |statements|
        invariant text == "Block(" + Concat(parts[..i])
      {
        assert parts[..i + 1][..i] == parts[..i];
        text := text + "\n  " + Ast.ToString(statements[i]);
      }
      assert parts[..|statements|] == parts;
      text := text + "\n)";
    }

    /** A new block holding the clone of each statement, in order. */
    method Clone() returns (copy: BlockNode)
      requires Cloneable(Tree())
      ensures fresh(copy)
      ensures copy.Tree() == Ast.Clone(Tree())
    {
      var ss := statements;
      ghost var target := Ast.Clone(Tree()).stmts;
      copy := new BlockNode();
      for i := 0 to |ss|
        invariant fresh(copy)
        invariant copy.statements == target[..i]
      {
        assert target[..i + 1] == target[..i] + [Ast.Clone(ss[i])];
        copy.AddStatement(Ast.Clone(ss[i]));
      }
      assert target[..|ss|] == target;
    }
  }
}
