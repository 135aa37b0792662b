/** `ast.NodeVisitor` for the collectors whose only hook records a name:
    `generic_visit` visits the children in field order, so a visitor that
    records at a node and then visits its children sees the tree in
    pre-order. */
module NodeVisitor {
  import opened Wrappers
  import opened PyAst
  import opened Walk
  import opened VariableCollectorBase

  /** A node and all its descendants, depth first, parents before children. */
  function Preorder(n: Node): (r: seq<Node>)
    ensures |r| > 0 && r[0] == n
    decreases Height(n), 1
  {
    ChildrenLower(n);
    [n] + PreorderAll(Children(n), Height(n))
  }

  function PreorderAll(ns: seq<Node>, bound: nat): seq<Node>
    requires forall c :: c in ns ==> Height(c) < bound
    decreases bound, 0, |ns|
  {
    if ns == [] then [] else Preorder(ns[0]) + PreorderAll(ns[1..], bound)
  }

  /** The names a hook records along a list of nodes. */
  function Picks(ns: seq<Node>, pick: Node -> Option<string>): (r: seq<string>)
    ensures |r| <= |ns|
  {
    if ns == [] then []
    else (if pick(ns[0]).Some? then [pick(ns[0]).value] else []) + Picks(ns[1..], pick)
  }

  lemma {:induction false} PicksConcat(a: seq<Node>, b: seq<Node>, pick: Node -> Option<string>)
    ensures Picks(a + b, pick) == Picks(a, pick) + Picks(b, pick)
    decreases |a|
  {
    if a == [] {
      assert a + b == b;
    } else {
      assert (a + b)[1..] == a[1..] + b;
      PicksConcat(a[1..], b, pick);
    }
  }

  /** A record of the whole variable `name`, with no keys. */
  predicate PlainRecord(v: VarInfo, name: string) {
    v.name == StrC(name) && v.keys == [] && v.syntax == v.name && v.assignValue.None? && !v.isTemp
  }

  /** `getVarInfo(x, [], x, None)` for every name, in order. */
  function Records(c: Collector, names: seq<string>): (r: Collector)
    ensures Extends(c, r) && |r.variables| == |c.variables| + |names|
    decreases |names|
  {
    if names == [] then ExtendsRefl(c); c
    else
      var c1 := GetVarInfo(c, StrC(names[0]), [], StrC(names[0]), None);
      var r := Records(c1, names[1..]);
      ExtendsTrans(c, c1, r);
      r
  }

  /** The `i`-th record appended is the `i`-th name, with no keys. */
  lemma {:induction false} RecordsContent(c: Collector, names: seq<string>, i: nat)
    requires i < |names|
    ensures PlainRecord(Records(c, names).variables[|c.variables| + i], names[i])
    decreases |names|
  {
    var c1 := GetVarInfo(c, StrC(names[0]), [], StrC(names[0]), None);
    var r := Records(c1, names[1..]);
    if i == 0 {
      assert r.variables[..|c1.variables|] == c1.variables;
      assert r.variables[|c.variables|] == r.variables[..|c1.variables|][|c.variables|];
    } else {
      RecordsContent(c1, names[1..], i - 1);
    }
  }

  lemma {:induction false} RecordsConcat(c: Collector, a: seq<string>, b: seq<string>)
    ensures Records(c, a + b) == Records(Records(c, a), b)
    decreases |a|
  {
    if a == [] {
      assert a + b == b;
    } else {
      assert (a + b)[1..] == a[1..] + b;
      RecordsConcat(GetVarInfo(c, StrC(a[0]), [], StrC(a[0]), None), a[1..], b);
    }
  }

  /** The visitor itself: `hook` stands for the `visit_*` method's own
      work at a node, done before `generic_visit` visits the children. */
  function Visit<T>(n: Node, st: T, hook: (Node, T) -> T): T
    decreases Height(n), 1
  {
    ChildrenLower(n);
    VisitAll(Children(n), hook(n, st), hook, Height(n))
  }

  /** `generic_visit` over a list of nodes. */
  function VisitAll<T>(ns: seq<Node>, st: T, hook: (Node, T) -> T, bound: nat): T
    requires forall x :: x in ns ==> Height(x) < bound
    decreases bound, 0, |ns|
  {
    if ns == [] then st else VisitAll(ns[1..], Visit(ns[0], st, hook), hook, bound)
  }

  /** The hook applied to a list of nodes, left to right. */
  function FoldNodes<T>(ns: seq<Node>, st: T, hook: (Node, T) -> T): T
    decreases |ns|
  {
    if ns == [] then st else FoldNodes(ns[1..], hook(ns[0], st), hook)
  }

  lemma {:induction false} FoldConcat<T>(a: seq<Node>, b: seq<Node>, st: T, hook: (Node, T) -> T)
    ensures FoldNodes(a + b, st, hook) == FoldNodes(b, FoldNodes(a, st, hook), hook)
    decreases |a|
  {
    if a == [] {
      assert a + b == b;
    } else {
      assert (a + b)[1..] == a[1..] + b;
      FoldConcat(a[1..], b, hook(a[0], st), hook);
    }
  }

  /** The visitor applies its hook to the nodes in pre-order. */
  lemma {:induction false} VisitIsPreorder<T>(n: Node, st: T, hook: (Node, T) -> T)
    ensures Visit(n, st, hook) == FoldNodes(Preorder(n), st, hook)
    decreases Height(n), 1
  {
    ChildrenLower(n);
    VisitAllIsPreorder(Children(n), hook(n, st), hook, Height(n));
    assert Preorder(n)[1..] == PreorderAll(Children(n), Height(n));
  }

  lemma {:induction false} VisitAllIsPreorder<T>(ns: seq<Node>, st: T, hook: (Node, T) -> T, bound: nat)
    requires forall x :: x in ns ==> Height(x) < bound
    ensures VisitAll(ns, st, hook, bound) == FoldNodes(PreorderAll(ns, bound), st, hook)
    decreases bound, 0, |ns|
  {
    if ns != [] {
      VisitIsPreorder(ns[0], st, hook);
      VisitAllIsPreorder(ns[1..], Visit(ns[0], st, hook), hook, bound);
      FoldConcat(Preorder(ns[0]), PreorderAll(ns[1..], bound), st, hook);
    }
  }

  /** The hook of a collector whose `visit_*` method records one name. */
  function RecordHook(pick: Node -> Option<string>): (Node, Collector) -> Collector {
    (n: Node, c: Collector) =>
      if pick(n).Some? then GetVarInfo(c, StrC(pick(n).value), [], StrC(pick(n).value), None) else c
  }

  lemma {:induction false} FoldRecords(ns: seq<Node>, c: Collector, pick: Node -> Option<string>)
    ensures FoldNodes(ns, c, RecordHook(pick)) == Records(c, Picks(ns, pick))
    decreases |ns|
  {
    if ns != [] {
      var own := if pick(ns[0]).Some? then [pick(ns[0]).value] else [];
      FoldRecords(ns[1..], RecordHook(pick)(ns[0], c), pick);
      assert Records(c, own) == RecordHook(pick)(ns[0], c);
      RecordsConcat(c, own, Picks(ns[1..], pick));
    }
  }

  /** The descendants of a node, in pre-order. */
  function Descendants(n: Node): seq<Node> {
    ChildrenLower(n);
    PreorderAll(Children(n), Height(n))
  }

  /** `generic_visit(node)`: the node's children, not the node itself.  One
      record per name the hook picks among the descendants, in pre-order. */
  function VisitChildren(n: Node, c: Collector, pick: Node -> Option<string>): (r: Collector)
    ensures var names := Picks(Descendants(n), pick);
      && Extends(c, r) && |r.variables| == |c.variables| + |names|
      && forall i :: 0 <= i < |names| ==> PlainRecord(r.variables[|c.variables| + i], names[i])
  {
    ChildrenLower(n);
    VisitAllIsPreorder(Children(n), c, RecordHook(pick), Height(n));
    FoldRecords(Descendants(n), c, pick);
    RecordsAll(c, Picks(Descendants(n), pick));
    VisitAll(Children(n), c, RecordHook(pick), Height(n))
  }

  lemma RecordsAll(c: Collector, names: seq<string>)
    ensures forall i :: 0 <= i < |names| ==> PlainRecord(Records(c, names).variables[|c.variables| + i], names[i])
  {
    forall i | 0 <= i < |names|
      ensures PlainRecord(Records(c, names).variables[|c.variables| + i], names[i])
    {
      RecordsContent(c, names, i);
    }
  }
}
