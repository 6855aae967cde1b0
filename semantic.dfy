/**
 * The symbol table (src/semantic/SymbolTable.hpp) and the semantic checker
 * (src/semantic/SemanticAnalyzer.cpp).
 *
 * The checker calls `enterScope`, `exitScope` and `isDeclared` on the table,
 * which the table does not define. Here the table records each scope call
 * as an event, and a name is declared when the table holds a symbol of
 * that name.
 */
module Semantic {
  import opened Values
  import Tokens
  import opened Ast
  import opened AstNodes

  datatype DataType = INT | FLOAT | STRING | BOOL

  datatype Symbol = Symbol(name: string, dataType: DataType)

  /** A call of `enterScope` or `exitScope`. */
  datatype ScopeEvent = Enter | Exit

  /** `getSymbol` on a map: the entry, or the null pointer. */
  function Lookup(symbols: map<string, Symbol>, name: string): (r: Option<Symbol>)
    ensures r.Some? <==> name in symbols
    ensures r.Some? ==> r.value == symbols[name]
  {
    if name in symbols then Some(symbols[name]) else None
  }

  /**
   * `addSymbol` then `getSymbol`: the added symbol under its own name, what
   * was there before under every other name.
   */
  lemma AddThenLookup(symbols: map<string, Symbol>, s: Symbol, name: string)
    ensures Lookup(symbols[s.name := s], name) == if name == s.name then Some(s) else Lookup(symbols, name)
  {
  }

  /** `addSymbol` on a name already present replaces its entry; otherwise it adds exactly one. */
  lemma AddCount(symbols: map<string, Symbol>, s: Symbol)
    ensures s.name in symbols ==> |symbols[s.name := s]| == |symbols|
    ensures s.name !in symbols ==> |symbols[s.name := s]| == |symbols| + 1
  {
    assert symbols[s.name := s].Keys == symbols.Keys + {s.name};
  }

  class SymbolTable {
    var symbols: map<string, Symbol>
    /** The scope calls made on the table, in order. */
    var events: seq<ScopeEvent>

    constructor ()
      ensures symbols == map[] && events == []
    {
      symbols := map[];
      events := [];
    }

    method AddSymbol(s: Symbol)
      modifies this
      ensures symbols == old(symbols)[s.name := s] && events == old(events)
    {
      symbols := symbols[s.name := s];
    }

    method GetSymbol(name: string) returns (r: Option<Symbol>)
      ensures r == Lookup(symbols, name)
    {
      if name in symbols {
        return Some(symbols[name]);
      }
      r := None;
    }

    method IsDeclared(name: string) returns (b: bool)
      ensures b <==> name in symbols
    {
      b := name in symbols;
    }

    method EnterScope()
      modifies this
      ensures events == old(events) + [Enter] && symbols == old(symbols)
    {
      events := events + [Enter];
    }

    method ExitScope()
      modifies this
      ensures events == old(events) + [Exit] && symbols == old(symbols)
    {
      events := events + [Exit];
    }
  }

  // ---------------------------------------------------------- the checker

  /** The runtime error the checker throws for an undeclared name. */
  function Undeclared(name: string): Fault
  {
    RuntimeError("The variable" + name + "is not existing!")
  }

  /** The first of the findings, in order. */
  function FirstError(os: seq<Option<string>>): (r: Option<string>)
  {
    if |os| == 0 then None
    else
      var p := FirstError(os[..|os| - 1]);
      if p.Some? then p else os[|os| - 1]
  }

  /**
   * The first undeclared name the traversal meets: a Block looks at its
   * statements in order, a UnarOp at its operand, a Variable at its name;
   * every other node, BinaryOp, If, For and While included, looks at nothing.
   */
  function Check(declared: set<string>, n: Node): Option<string>
    decreases n, 1
  {
    match n
    case Block(ss) => FirstError(Checks(declared, ss))
    case Variable(t) => if t.text in declared then None else Some(t.text)
    case UnarOp(_, x) => Check(declared, x)
    case _ => None
  }

  /** The finding of each statement of a block. */
  function Checks(declared: set<string>, ss: seq<Node>): (os: seq<Option<string>>)
    decreases Block(ss), 0
    ensures |os| == |ss| && forall i :: 0 <= i < |ss| ==> os[i] == Check(declared, ss[i])
  {
    seq(|ss|, i requires 0 <= i < |ss| => Check(declared, ss[i]))
  }

  /** The names the traversal looks up. */
  function Looked(n: Node): set<string>
  {
    match n
    case Block(ss) => Unions(seq(|ss|, i requires 0 <= i < |ss| => Looked(ss[i])))
    case Variable(t) => {t.text}
    case UnarOp(_, x) => Looked(x)
    case _ => {}
  }

  function Unions(sets: seq<set<string>>): set<string>
  {
    if |sets| == 0 then {} else Unions(sets[..|sets| - 1]) + sets[|sets| - 1]
  }

  /** The scope calls of the traversal: one enter/exit pair around each Block's statements. */
  function Trace(n: Node): seq<ScopeEvent>
    decreases n, 1
  {
    match n
    case Block(ss) => [Enter] + Flatten(Traces(ss)) + [Exit]
    case UnarOp(_, x) => Trace(x)
    case _ => []
  }

  /** The scope calls of each statement of a block. */
  function Traces(ss: seq<Node>): (ts: seq<seq<ScopeEvent>>)
    decreases Block(ss), 0
    ensures |ts| == |ss| && forall i :: 0 <= i < |ss| ==> ts[i] == Trace(ss[i])
  {
    seq(|ss|, i requires 0 <= i < |ss| => Trace(ss[i]))
  }

  function Flatten(ts: seq<seq<ScopeEvent>>): seq<ScopeEvent>
  {
    if |ts| == 0 then [] else Flatten(ts[..|ts| - 1]) + ts[|ts| - 1]
  }

  /** Open scopes after a run of scope calls: enters minus exits. */
  function Depth(t: seq<ScopeEvent>): int
  {
    if |t| == 0 then 0 else Depth(t[..|t| - 1]) + (if t[|t| - 1] == Enter then 1 else -1)
  }

  /** The outcome of `visit`: nothing, or the runtime error for the name. */
  function Verdict(o: Option<string>): Result<()>
  {
    if o.Some? then Err(Undeclared(o.value)) else Ok(())
  }

  // ------------------------------------------------------------- the laws

  lemma {:induction false} FirstErrorNone(os: seq<Option<string>>)
    ensures FirstError(os).None? <==> forall i :: 0 <= i < |os| ==> os[i].None?
  {
    if |os| > 0 {
      FirstErrorNone(os[..|os| - 1]);
    }
  }

  lemma {:induction false} FirstErrorSome(os: seq<Option<string>>)
    requires FirstError(os).Some?
    ensures exists i :: 0 <= i < |os| && os[i] == FirstError(os)
  {
    var p := FirstError(os[..|os| - 1]);
    if p.Some? {
      FirstErrorSome(os[..|os| - 1]);
      var i :| 0 <= i < |os| - 1 && os[..|os| - 1][i] == p;
      assert os[i] == p;
    }
  }

  /** Once a finding is made, later ones do not change the first. */
  lemma {:induction false} FirstErrorPrefix(os: seq<Option<string>>, j: nat)
    requires j <= |os| && FirstError(os[..j]).Some?
    ensures FirstError(os) == FirstError(os[..j])
  {
    if j < |os| {
      assert os[..|os| - 1][..j] == os[..j];
      FirstErrorPrefix(os[..|os| - 1], j);
    } else {
      assert os[..j] == os;
    }
  }

  lemma {:induction false} UnionsHas(sets: seq<set<string>>, x: string)
    ensures x in Unions(sets) <==> exists i :: 0 <= i < |sets| && x in sets[i]
  {
    if |sets| > 0 {
      UnionsHas(sets[..|sets| - 1], x);
      if x in Unions(sets[..|sets| - 1]) {
        var i :| 0 <= i < |sets| - 1 && x in sets[..|sets| - 1][i];
        assert x in sets[i];
      }
      if exists i :: 0 <= i < |sets| && x in sets[i] {
        var i :| 0 <= i < |sets| && x in sets[i];
        if i < |sets| - 1 {
          assert x in sets[..|sets| - 1][i];
        }
      }
    }
  }

  /**
   * The checker accepts exactly when every name it looks up is declared,
   * and the name it reports is one it looked up and found undeclared.
   */
  lemma {:induction false} CheckMeansDeclared(declared: set<string>, n: Node)
    ensures Check(declared, n).None? <==> Looked(n) <= declared
    ensures Check(declared, n).Some? ==>
      Check(declared, n).value in Looked(n) && Check(declared, n).value !in declared
  {
    match n
    case Block(ss) =>
      var os := Checks(declared, ss);
      var sets := seq(|ss|, i requires 0 <= i < |ss| => Looked(ss[i]));
      forall i | 0 <= i < |ss|
        ensures (os[i].None? <==> sets[i] <= declared)
        ensures os[i].Some? ==> os[i].value in sets[i] && os[i].value !in declared
      {
        CheckMeansDeclared(declared, ss[i]);
      }
      FirstErrorNone(os);
      forall x | x in Unions(sets)
        ensures exists i :: 0 <= i < |sets| && x in sets[i]
      {
        UnionsHas(sets, x);
      }
      if FirstError(os).None? {
        forall x | x in Unions(sets)
          ensures x in declared
        {
          var i :| 0 <= i < |sets| && x in sets[i];
        }
      } else {
        FirstErrorSome(os);
        var i :| 0 <= i < |os| && os[i] == FirstError(os);
        UnionsHas(sets, os[i].value);
      }
    case UnarOp(_, x) =>
      CheckMeansDeclared(declared, x);
    case _ =>
  }

  /** Declaring more names never makes a tree that passes fail. */
  lemma CheckMonotone(d1: set<string>, d2: set<string>, n: Node)
    requires d1 <= d2 && Check(d1, n).None?
    ensures Check(d2, n).None?
  {
    CheckMeansDeclared(d1, n);
    CheckMeansDeclared(d2, n);
  }

  lemma {:induction false} FlattenDepth(ts: seq<seq<ScopeEvent>>)
    requires forall i :: 0 <= i < |ts| ==> Depth(ts[i]) == 0
    ensures Depth(Flatten(ts)) == 0
  {
    if |ts| > 0 {
      FlattenDepth(ts[..|ts| - 1]);
      DepthAppend(Flatten(ts[..|ts| - 1]), ts[|ts| - 1]);
    }
  }

  lemma {:induction false} DepthAppend(a: seq<ScopeEvent>, b: seq<ScopeEvent>)
    ensures Depth(a + b) == Depth(a) + Depth(b)
    decreases |b|
  {
    if |b| > 0 {
      assert (a + b)[..|a + b| - 1] == a + b[..|b| - 1];
      DepthAppend(a, b[..|b| - 1]);
    } else {
      assert a + b == a;
    }
  }

  /** Every scope the traversal opens it closes again. */
  lemma {:induction false} TraceBalanced(n: Node)
    ensures Depth(Trace(n)) == 0
  {
    match n
    case Block(ss) =>
      var ts := Traces(ss);
      forall i | 0 <= i < |ss|
        ensures Depth(ts[i]) == 0
      {
        TraceBalanced(ss[i]);
      }
      FlattenDepth(ts);
      DepthAppend([Enter], Flatten(ts));
      DepthAppend([Enter] + Flatten(ts), [Exit]);
      assert Depth([Enter]) == 1;
      assert Depth([Exit]) == -1;
    case UnarOp(_, x) =>
      TraceBalanced(x);
    case _ =>
  }

  // ------------------------------------------------------------- the class

  class SemanticAnalyzer {
    const table: SymbolTable

    constructor ()
      ensures fresh(table) && table.symbols == map[] && table.events == []
    {
      table := new SymbolTable();
    }

    /** `analyze`: the check of the root block. */
    method Analyze(root: BlockNode) returns (r: Result<()>)
      modifies table
      ensures r == Verdict(Check(old(table.symbols).Keys, root.Tree()))
      ensures table.symbols == old(table.symbols)
      ensures r.Ok? ==> table.events == old(table.events) + Trace(root.Tree())
    {
      r := Visit(root.Tree());
    }

    /** `visitNode` and the per-class `visit` it dispatches to. */
    method Visit(n: Node) returns (r: Result<()>)
      modifies table
      decreases n, 1
      ensures r == Verdict(Check(old(table.symbols).Keys, n))
      ensures table.symbols == old(table.symbols)
      ensures r.Ok? ==> table.events == old(table.events) + Trace(n)
    {
      match n
      case Block(ss) =>
        r := VisitBlock(ss);
      case Variable(t) =>
        var declared := table.IsDeclared(t.text);
        if !declared {
          return Err(Undeclared(t.text));
        }
        r := Ok(());
      case UnarOp(_, x) =>
        r := Visit(x);
      case _ =>
        r := Ok(());
    }

    /** `visit(BlockNode*)`: the statements in order, inside one enter/exit pair. */
    method VisitBlock(ss: seq<Node>) returns (r: Result<()>)
      modifies table
      decreases Block(ss), 0
      ensures r == Verdict(Check(old(table.symbols).Keys, Block(ss)))
      ensures table.symbols == old(table.symbols)
      ensures r.Ok? ==> table.events == old(table.events) + Trace(Block(ss))
    {
      ghost var declared := table.symbols.Keys;
      ghost var os := Checks(declared, ss);
      ghost var ts := Traces(ss);
      table.EnterScope();
      var i := 0;
      while i < |ss|
        invariant 0 <= i <= |ss| && table.symbols == old(table.symbols)
        invariant FirstError(os[..i]).None?
        invariant table.events == old(table.events) + [Enter] + Flatten(ts[..i])
      {
        var s := Visit(ss[i]);
        assert os[..i + 1][..i] == os[..i] && ts[..i + 1][..i] == ts[..i];
        if s.Err? {
          FirstErrorPrefix(os, i + 1);
          return s;
        }
        i := i + 1;
      }
      assert os[..i] == os && ts[..i] == ts;
      table.ExitScope();
      r := Ok(());
    }
  }
}
