/** `CollectFunctionArgInfo`: one record per parameter found below a
    function definition. */
module CollectFunctionArgInfo {
  import opened Wrappers
  import opened PyAst
  import opened Walk
  import opened VariableCollectorBase
  import opened NodeVisitor

  /** `visit_arg` records the parameter, then visits its annotation. */
  function ArgName(n: Node): Option<string> {
    if n.A? then Some(n.a.name) else None
  }

  /** The collector built for `node`, numbering from `counter`: the
      parameters of every function and lambda below the node, the nested
      ones included, in pre-order. */
  function Collect(node: Node, counter: int, logTypeId: int, funcId: int): (r: Collector)
    ensures var names := Picks(Descendants(node), ArgName);
      && Extends(New(counter, logTypeId, funcId), r) && |r.variables| == |names|
      && forall i :: 0 <= i < |names| ==> PlainRecord(r.variables[i], names[i])
  {
    VisitChildren(node, New(counter, logTypeId, funcId), ArgName)
  }

  /** `def f(a, b): ...` records `a`, then `b`, before anything in the body. */
  lemma TwoParameters(body: seq<Stmt>, counter: int, logTypeId: int, funcId: int)
    ensures var node := S(Compound(FunctionK("f", false), [Arg("a", None), Arg("b", None)], [], body, [], [], [], [], None));
      var r := Collect(node, counter, logTypeId, funcId);
      |r.variables| >= 2 && r.variables[0].name == StrC("a") && r.variables[1].name == StrC("b")
  {
    var node := S(Compound(FunctionK("f", false), [Arg("a", None), Arg("b", None)], [], body, [], [], [], [], None));
    var ps := Params([Arg("a", None), Arg("b", None)]);
    var front := [ps, A(Arg("a", None)), A(Arg("b", None))];
    TwoParamsDescendants(body);
    var rest := Descendants(node)[3..];
    assert Descendants(node) == front + rest;
    PicksConcat(front, rest, ArgName);
    assert Picks(front, ArgName) == ["a", "b"] by {
      TwoParamsPicks();
    }
  }

  /** The pre-order of the definition: the parameter list, each parameter,
      then the body. */
  lemma TwoParamsDescendants(body: seq<Stmt>)
    ensures var node := S(Compound(FunctionK("f", false), [Arg("a", None), Arg("b", None)], [], body, [], [], [], [], None));
      |Descendants(node)| >= 3
      && Descendants(node)[..3] == [Params([Arg("a", None), Arg("b", None)]), A(Arg("a", None)), A(Arg("b", None))]
  {
    var node := S(Compound(FunctionK("f", false), [Arg("a", None), Arg("b", None)], [], body, [], [], [], [], None));
    var ps := Params([Arg("a", None), Arg("b", None)]);
    assert Children(node) == [ps] + Ss(body);
    ChildrenLower(node);
    assert Preorder(ps) == [ps, A(Arg("a", None)), A(Arg("b", None))] by {
      TwoParamsPreorder();
    }
    assert ([ps] + Ss(body))[1..] == Ss(body);
  }

  lemma TwoParamsPreorder()
    ensures Preorder(Params([Arg("a", None), Arg("b", None)])) == [Params([Arg("a", None), Arg("b", None)]), A(Arg("a", None)), A(Arg("b", None))]
  {
    var ps := Params([Arg("a", None), Arg("b", None)]);
    var a := A(Arg("a", None));
    var b := A(Arg("b", None));
    assert Children(ps) == [a, b];
    ChildrenLower(ps);
    assert Preorder(a) == [a];
    assert Preorder(b) == [b];
    assert PreorderAll([b], Height(ps)) == [b];
  }

  lemma TwoParamsPicks()
    ensures Picks([Params([Arg("a", None), Arg("b", None)]), A(Arg("a", None)), A(Arg("b", None))], ArgName) == ["a", "b"]
  {
  }
}
