/**
 * The scoped interpreter's variable store: `variables_`, a vector of
 * `{value, name, deepness}` bindings searched front to back
 * (src/interpreter/Interpreter.cpp).
 */
module Store {
  import opened Values

  datatype Binding = Binding(value: Value, name: string, depth: int)

  /** The names of the bindings, in order. */
  function Names(vars: seq<Binding>): (ns: seq<string>)
    ensures |ns| == |vars|
    ensures forall i :: 0 <= i < |vars| ==> ns[i] == vars[i].name
  {
    seq(|vars|, i requires 0 <= i < |vars| => vars[i].name)
  }

  /** No name is bound twice. */
  predicate UniqueNames(vars: seq<Binding>)
  {
    forall i, j :: 0 <= i < j < |vars| ==> vars[i].name != vars[j].name
  }

  /** `std::find_if` by name: the index of the first binding called `name`. */
  function Find(vars: seq<Binding>, name: string): (r: Option<nat>)
    ensures r.Some? ==> r.value < |vars| && vars[r.value].name == name
    ensures r.Some? ==> forall j :: 0 <= j < r.value ==> vars[j].name != name
    ensures r.None? <==> forall j :: 0 <= j < |vars| ==> vars[j].name != name
  {
    if |vars| == 0 then None
    else if vars[0].name == name then Some(0)
    else
      match Find(vars[1..], name)
      case None => None
      case Some(i) => Some(i + 1)
  }

  /** The value of binding `i` overwritten with `v`; its name, depth and position stay. */
  function Put(vars: seq<Binding>, i: nat, v: Value): (r: seq<Binding>)
    requires i < |vars|
    ensures |r| == |vars| && Names(r) == Names(vars)
    ensures r[i] == Binding(v, vars[i].name, vars[i].depth)
    ensures forall j :: 0 <= j < |vars| && j != i ==> r[j] == vars[j]
  {
    vars[i := vars[i].(value := v)]
  }

  /**
   * `remove_if` + `erase` with the predicate `deepness > d`: the bindings
   * of depth at most `d`, in their original order.
   */
  function Prune(vars: seq<Binding>, d: int): (r: seq<Binding>)
    ensures |r| <= |vars|
    ensures forall i :: 0 <= i < |r| ==> r[i].depth <= d
    ensures forall b :: b in r <==> b in vars && b.depth <= d
  {
    if |vars| == 0 then []
    else (if vars[0].depth <= d then [vars[0]] else []) + Prune(vars[1..], d)
  }

  /** Pruning keeps the relative order: it distributes over concatenation. */
  lemma {:induction false} PruneAppend(a: seq<Binding>, b: seq<Binding>, d: int)
    ensures Prune(a + b, d) == Prune(a, d) + Prune(b, d)
  {
    if |a| == 0 {
      assert a + b == b;
    } else {
      assert (a + b)[0] == a[0];
      assert (a + b)[1..] == a[1..] + b;
      PruneAppend(a[1..], b, d);
    }
  }

  /** Bindings no deeper than `d` all survive, so pruning them changes nothing. */
  lemma {:induction false} PruneKeepsShallow(vars: seq<Binding>, d: int)
    requires forall i :: 0 <= i < |vars| ==> vars[i].depth <= d
    ensures Prune(vars, d) == vars
  {
    if |vars| > 0 {
      PruneKeepsShallow(vars[1..], d);
      assert [vars[0]] + vars[1..] == vars;
    }
  }

  /** Pruning twice at the same depth is pruning once. */
  lemma PruneIdempotent(vars: seq<Binding>, d: int)
    ensures Prune(Prune(vars, d), d) == Prune(vars, d)
  {
    PruneKeepsShallow(Prune(vars, d), d);
  }

  /** A binding appended at depth `d` survives a prune at `d`, after everything else that survives. */
  lemma PruneKeepsNewBinding(vars: seq<Binding>, b: Binding, d: int)
    requires b.depth <= d
    ensures Prune(vars + [b], d) == Prune(vars, d) + [b]
  {
    PruneAppend(vars, [b], d);
    assert [b][1..] == [];
  }

  /** Finding a name looks only at names, so two stores with the same names agree on it. */
  lemma {:induction false} FindByNames(a: seq<Binding>, b: seq<Binding>, name: string)
    requires Names(a) == Names(b)
    ensures Find(a, name) == Find(b, name)
  {
    if |a| > 0 {
      assert a[0].name == Names(a)[0] == Names(b)[0] == b[0].name;
      assert Names(a[1..]) == Names(a)[1..];
      assert Names(b[1..]) == Names(b)[1..];
      FindByNames(a[1..], b[1..], name);
    }
  }

  /**
   * What `x = v` leaves in a store when the earlier lookup found `found`:
   * overwrite that binding, or append one at depth `d` when there was none.
   */
  function Assigned(vars: seq<Binding>, found: Option<nat>, name: string, v: Value, d: int): (r: seq<Binding>)
    requires found.Some? ==> found.value < |vars|
  {
    if found.Some? then Put(vars, found.value, v) else vars + [Binding(v, name, d)]
  }

  /**
   * Assigning to a name overwrites only its binding (depth and position
   * unchanged) or appends one binding at depth `d` for a new name; every
   * other binding is untouched, names stay unique, and reading the name
   * afterwards gives `v`.
   */
  lemma AssignedSpec(vars: seq<Binding>, name: string, v: Value, d: int)
    requires UniqueNames(vars)
    ensures var r := Assigned(vars, Find(vars, name), name, v, d);
      UniqueNames(r)
      && (Find(vars, name).Some? ==> |r| == |vars| && r[Find(vars, name).value] == vars[Find(vars, name).value].(value := v))
      && (Find(vars, name).None? ==> r == vars + [Binding(v, name, d)])
      && (forall j :: 0 <= j < |vars| && vars[j].name != name ==> r[j] == vars[j])
      && Find(r, name).Some? && r[Find(r, name).value].value == v
  {
    var found := Find(vars, name);
    var r := Assigned(vars, found, name, v, d);
    if found.None? {
      assert forall j :: 0 <= j < |vars| ==> r[j] == vars[j];
      assert r[|vars|].name == name;
      assert Find(r, name) == Some(|vars|);
    } else {
      assert Names(r) == Names(vars);
      FindByNames(r, vars, name);
    }
  }
}
