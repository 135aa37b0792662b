/** `CollectVariableDefault`: every name a node stores to, for the nodes no
    other collector handles (loop targets, `with ... as x`, comprehension
    targets, and so on).  A node with a body is stripped first, so only its
    header is searched. */
module CollectVariableDefault {
  import opened Wrappers
  import opened PyAst
  import opened Walk
  import opened VariableCollectorBase
  import opened NodeVisitor

  /** `visit_Name` records a name whose context is `Store`. */
  function StoreName(n: Node): Option<string> {
    if n.E? && n.e.Name? && n.e.ctx == Store then Some(n.e.id) else None
  }

  function Root(node: Node): Node {
    if node.S? && HasBody(node.s) then S(Strip(node.s)) else node
  }

  /** The collector built for `node`, numbering from `counter`: one record
      per stored name below the (stripped) node, in pre-order, each logging
      the whole variable. */
  function Collect(node: Node, counter: int, logTypeId: int, funcId: int): (r: Collector)
    ensures var names := Picks(Descendants(Root(node)), StoreName);
      && Extends(New(counter, logTypeId, funcId), r) && |r.variables| == |names|
      && forall i :: 0 <= i < |names| ==> PlainRecord(r.variables[i], names[i])
  {
    VisitChildren(Root(node), New(counter, logTypeId, funcId), StoreName)
  }

  /** A picked name comes from a node the hook picks it from. */
  lemma {:induction false} PicksFrom(ns: seq<Node>, pick: Node -> Option<string>, x: string)
    requires x in Picks(ns, pick)
    ensures exists i :: 0 <= i < |ns| && pick(ns[i]) == Some(x)
    decreases |ns|
  {
    if pick(ns[0]) != Some(x) {
      PicksFrom(ns[1..], pick, x);
      var i :| 0 <= i < |ns[1..]| && pick(ns[1..][i]) == Some(x);
      assert pick(ns[i + 1]) == Some(x);
    }
  }

  /** Every record names a variable stored to below the node. */
  lemma RecordsAreStores(node: Node, counter: int, logTypeId: int, funcId: int, i: nat)
    requires i < |Collect(node, counter, logTypeId, funcId).variables|
    ensures exists d :: d in Descendants(Root(node)) && d.E? && d.e.Name? && d.e.ctx == Store
                        && Collect(node, counter, logTypeId, funcId).variables[i].name == StrC(d.e.id)
  {
    var names := Picks(Descendants(Root(node)), StoreName);
    PicksFrom(Descendants(Root(node)), StoreName, names[i]);
    var j :| 0 <= j < |Descendants(Root(node))| && StoreName(Descendants(Root(node))[j]) == Some(names[i]);
    assert Descendants(Root(node))[j] in Descendants(Root(node));
  }

  /** `for x in xs: ...` records only the loop variable `x`: the body is
      stripped and `xs` is only read. */
  lemma ForTarget(b: seq<Stmt>, o: seq<Stmt>, p: Option<Span>, counter: int, logTypeId: int, funcId: int)
    ensures var node := S(Compound(ForK(false), [], [Name("x", Store), Name("xs", Load)], b, [], o, [], [], p));
      var r := Collect(node, counter, logTypeId, funcId);
      |r.variables| == 1 && r.variables[0].name == StrC("x")
  {
    var node := S(Compound(ForK(false), [], [Name("x", Store), Name("xs", Load)], b, [], o, [], [], p));
    var root := Root(node);
    assert Children(root) == [E(Name("x", Store)), E(Name("xs", Load))];
    ChildrenLower(root);
    var h := Height(root);
    var x := E(Name("x", Store));
    var xs := E(Name("xs", Load));
    assert Preorder(x) == [x] + PreorderAll([], Height(x));
    assert Preorder(xs) == [xs] + PreorderAll([], Height(xs));
    assert PreorderAll([xs], h) == Preorder(xs) + PreorderAll([], h);
    assert Descendants(root) == [x, xs];
    assert Picks([x, xs], StoreName) == ["x"];
  }

  lemma GeneratorDescendants(y: string, ys: string)
    ensures var op := E(Op([Name(y, Store), Name(ys, Load)]));
      Descendants(E(GeneratorExp(Name(y, Load), [op.e])))
        == [E(Name(y, Load)), op, E(Name(y, Store)), E(Name(ys, Load))]
  {
    var op := E(Op([Name(y, Store), Name(ys, Load)]));
    var gen := E(GeneratorExp(Name(y, Load), [op.e]));
    var yl, yst, ysl := E(Name(y, Load)), E(Name(y, Store)), E(Name(ys, Load));
    assert Children(gen) == [yl, op];
    assert Children(op) == [yst, ysl];
    ChildrenLower(gen);
    ChildrenLower(op);
    var h := Height(gen);
    assert Preorder(yl) == [yl] + PreorderAll([], Height(yl));
    assert Preorder(yst) == [yst] + PreorderAll([], Height(yst));
    assert Preorder(ysl) == [ysl] + PreorderAll([], Height(ysl));
    assert PreorderAll([ysl], Height(op)) == Preorder(ysl) + PreorderAll([], Height(op));
    assert PreorderAll([yst, ysl], Height(op)) == Preorder(yst) + PreorderAll([ysl], Height(op));
    assert Preorder(op) == [op, yst, ysl];
    assert PreorderAll([op], h) == Preorder(op) + PreorderAll([], h);
    assert PreorderAll([yl, op], h) == Preorder(yl) + PreorderAll([op], h);
  }

  /** `(y for y in ys)` records only `y`: it is the only name stored to,
      and the element reads it. */
  lemma GeneratorTarget(y: string, ys: string, counter: int, logTypeId: int, funcId: int)
    ensures var gen := E(GeneratorExp(Name(y, Load), [Op([Name(y, Store), Name(ys, Load)])]));
      var r := Collect(gen, counter, logTypeId, funcId);
      |r.variables| == 1 && PlainRecord(r.variables[0], y) && r.variables[0].varId == counter + 1
      && r.counter == counter + 1
  {
    var op := E(Op([Name(y, Store), Name(ys, Load)]));
    var yl, yst, ysl := E(Name(y, Load)), E(Name(y, Store)), E(Name(ys, Load));
    GeneratorDescendants(y, ys);
    assert Picks([ysl], StoreName) == [] + Picks([], StoreName);
    assert Picks([yst, ysl], StoreName) == [y] + Picks([ysl], StoreName);
    assert Picks([op, yst, ysl], StoreName) == [] + Picks([yst, ysl], StoreName);
    assert Picks([yl, op, yst, ysl], StoreName) == [] + Picks([op, yst, ysl], StoreName);
  }
}
