/** `CollectVariables`: the variables a node writes, the parameters of a
    function definition, and the known variables passed to calls.

    Its records carry no keys or syntax and are numbered by a counter of
    their own.  The node (stripped of its nested statements) is visited in
    pre-order; at a call every known name anywhere below the call is
    recorded, so a name inside nested calls is recorded once per enclosing
    call. */
module CollectVariables {
  import opened Wrappers
  import opened PyAst
  import opened Walk
  import opened NodeVisitor
  import CollectVariableDefault
  import VariableCollectorBase

  datatype Var = Var(varId: int, name: string, logType: int, funcId: int)

  /** The class-level counter and the instance's fields. */
  datatype VState = VState(counter: int, logTypeId: int, funcId: int, variables: seq<Var>)

  /** `getVarInfo`. */
  function Add(st: VState, name: string): (r: VState)
    ensures Numbered(st, r) && |r.variables| == |st.variables| + 1
    ensures r.variables[|st.variables|].name == name
  {
    st.(counter := st.counter + 1,
        variables := st.variables + [Var(st.counter + 1, name, st.logTypeId, st.funcId)])
  }

  /** `b` extends `a` by records numbered on from `a`'s counter. */
  predicate Numbered(a: VState, b: VState) {
    && b.logTypeId == a.logTypeId && b.funcId == a.funcId
    && |a.variables| <= |b.variables|
    && b.counter - a.counter == |b.variables| - |a.variables|
    && b.variables[..|a.variables|] == a.variables
    && forall i :: |a.variables| <= i < |b.variables| ==>
         b.variables[i].varId == a.counter + 1 + (i - |a.variables|)
         && b.variables[i].logType == a.logTypeId && b.variables[i].funcId == a.funcId
  }

  lemma NumberedTrans(a: VState, b: VState, c: VState)
    requires Numbered(a, b) && Numbered(b, c)
    ensures Numbered(a, c)
  {
    assert c.variables[..|a.variables|] == c.variables[..|b.variables|][..|a.variables|];
    forall i | |a.variables| <= i < |b.variables|
      ensures c.variables[i] == b.variables[i]
    {
      assert c.variables[..|b.variables|][i] == b.variables[i];
    }
  }

  function AddAll(st: VState, names: seq<string>): (r: VState)
    ensures Numbered(st, r) && |r.variables| == |st.variables| + |names|
    ensures Names(r.variables) == Names(st.variables) + names
    decreases |names|
  {
    if names == [] then st
    else
      var s1 := Add(st, names[0]);
      var r := AddAll(s1, names[1..]);
      NumberedTrans(st, s1, r);
      NamesSnoc(st.variables, Var(st.counter + 1, names[0], st.logTypeId, st.funcId));
      assert Names(st.variables) + [names[0]] + names[1..] == Names(st.variables) + names;
      r
  }

  function Names(vs: seq<Var>): (r: seq<string>)
    ensures |r| == |vs| && forall i :: 0 <= i < |vs| ==> r[i] == vs[i].name
  {
    if vs == [] then [] else [vs[0].name] + Names(vs[1..])
  }

  lemma NamesSnoc(vs: seq<Var>, v: Var)
    ensures Names(vs + [v]) == Names(vs) + [v.name]
  {
  }

  /** The parameters among walked nodes. */
  function ArgNames(ls: seq<Located>): seq<string> {
    if ls == [] then []
    else (if ls[0].n.A? then [ls[0].n.a.name] else []) + ArgNames(ls[1..])
  }

  /** The names among walked nodes that are known variables (`isValidVariable`). */
  function KnownNames(ls: seq<Located>, existing: seq<string>): (r: seq<string>)
    ensures forall x :: x in r ==> x in existing
  {
    if ls == [] then []
    else
      var n := ls[0].n;
      (if n.E? && n.e.Name? && n.e.id in existing then [n.e.id] else []) + KnownNames(ls[1..], existing)
  }

  /** The work of `visit_FunctionDef`, `visit_Name` and `visit_Call` at a
      node, before its children are visited. */
  function Hook(existing: seq<string>): (Node, VState) -> VState {
    (n: Node, st: VState) =>
      if n.S? && IsFunctionDef(n.s) then AddAll(st, ArgNames(WalkAt(n)))
      else if n.E? && n.e.Name? && n.e.ctx == Store then Add(st, n.e.id)
      else if n.E? && n.e.Call? then AddAll(st, KnownNames(WalkAt(n), existing))
      else st
  }

  lemma {:induction false} FoldNumbered(ns: seq<Node>, st: VState, existing: seq<string>)
    ensures Numbered(st, FoldNodes(ns, st, Hook(existing)))
    decreases |ns|
  {
    if ns != [] {
      var s1 := Hook(existing)(ns[0], st);
      FoldNumbered(ns[1..], s1, existing);
      NumberedTrans(st, s1, FoldNodes(ns[1..], s1, Hook(existing)));
    }
  }

  function Root(node: Node): Node {
    if node.S? && HasBody(node.s) then S(Strip(node.s)) else node
  }

  /** The collector built for `node` (`__init__`), numbering from `counter`:
      the stripped node itself and all below it, in pre-order. */
  function Collect(node: Node, counter: int, logTypeId: int, funcId: int, existing: seq<string>): (r: VState)
    ensures Numbered(VState(counter, logTypeId, funcId, []), r)
  {
    var st := VState(counter, logTypeId, funcId, []);
    VisitIsPreorder(Root(node), st, Hook(existing));
    FoldNumbered(Preorder(Root(node)), st, existing);
    Visit(Root(node), st, Hook(existing))
  }

  predicate NoCallOrDef(n: Node) {
    !(n.E? && n.e.Call?) && !(n.S? && IsFunctionDef(n.s))
  }

  lemma {:induction false} FoldStores(ns: seq<Node>, st: VState, existing: seq<string>)
    requires forall i :: 0 <= i < |ns| ==> NoCallOrDef(ns[i])
    ensures Names(FoldNodes(ns, st, Hook(existing)).variables) == Names(st.variables) + Picks(ns, CollectVariableDefault.StoreName)
    decreases |ns|
  {
    if ns == [] {
      assert Names(st.variables) + [] == Names(st.variables);
    } else {
      var s1 := Hook(existing)(ns[0], st);
      var own := if CollectVariableDefault.StoreName(ns[0]).Some? then [CollectVariableDefault.StoreName(ns[0]).value] else [];
      var base, tail := Names(st.variables), Picks(ns[1..], CollectVariableDefault.StoreName);
      assert Names(FoldNodes(ns, st, Hook(existing)).variables) == base + own + tail by {
        HookOnPlain(ns[0], st, existing);
        assert forall i :: 0 <= i < |ns[1..]| ==> NoCallOrDef(ns[1..][i]);
        FoldStores(ns[1..], s1, existing);
      }
      assert Picks(ns, CollectVariableDefault.StoreName) == own + tail;
      ConcatAssoc(base, own, tail);
    }
  }

  lemma ConcatAssoc(a: seq<string>, b: seq<string>, c: seq<string>)
    ensures a + b + c == a + (b + c)
  {
  }

  lemma HookOnPlain(n: Node, st: VState, existing: seq<string>)
    requires NoCallOrDef(n)
    ensures var own := if CollectVariableDefault.StoreName(n).Some? then [CollectVariableDefault.StoreName(n).value] else [];
      Names(Hook(existing)(n, st).variables) == Names(st.variables) + own
  {
    if CollectVariableDefault.StoreName(n).Some? {
      NamesSnoc(st.variables, Var(st.counter + 1, n.e.id, st.logTypeId, st.funcId));
    }
  }

  /** Without calls or function definitions, a statement's records are the
      names it stores to, exactly as `CollectVariableDefault` finds them. */
  lemma AgreesWithDefault(s: Stmt, counter: int, logTypeId: int, funcId: int, existing: seq<string>)
    requires forall n :: n in Preorder(Root(S(s))) ==> NoCallOrDef(n)
    ensures Names(Collect(S(s), counter, logTypeId, funcId, existing).variables)
         == NameStrings(CollectVariableDefault.Collect(S(s), counter, logTypeId, funcId).variables)
  {
    var root := Root(S(s));
    assert root == CollectVariableDefault.Root(S(s));
    var names := Picks(Descendants(root), CollectVariableDefault.StoreName);
    assert Names(Collect(S(s), counter, logTypeId, funcId, existing).variables) == names by {
      CollectStores(s, counter, logTypeId, funcId, existing);
    }
    assert NameStrings(CollectVariableDefault.Collect(S(s), counter, logTypeId, funcId).variables) == names;
  }

  /** Without calls or function definitions, the records are the stored
      names below the root. */
  lemma CollectStores(s: Stmt, counter: int, logTypeId: int, funcId: int, existing: seq<string>)
    requires forall n :: n in Preorder(Root(S(s))) ==> NoCallOrDef(n)
    ensures Names(Collect(S(s), counter, logTypeId, funcId, existing).variables)
         == Picks(Descendants(Root(S(s))), CollectVariableDefault.StoreName)
  {
    var root := Root(S(s));
    var st := VState(counter, logTypeId, funcId, []);
    VisitIsPreorder(root, st, Hook(existing));
    var pre := Preorder(root);
    assert forall i :: 0 <= i < |pre| ==> NoCallOrDef(pre[i]) by {
      forall i | 0 <= i < |pre| ensures NoCallOrDef(pre[i]) {
        assert pre[i] in pre;
      }
    }
    FoldStores(pre, st, existing);
    assert pre == [root] + Descendants(root);
    assert Picks(pre, CollectVariableDefault.StoreName) == Picks(Descendants(root), CollectVariableDefault.StoreName);
  }

  /** The identifiers of records whose names are strings. */
  function NameStrings(vs: seq<VariableCollectorBase.VarInfo>): (r: seq<string>)
    ensures |r| == |vs|
    ensures forall i :: 0 <= i < |vs| && vs[i].name.StrC? ==> r[i] == vs[i].name.s
  {
    if vs == [] then [] else [if vs[0].name.StrC? then vs[0].name.s else ""] + NameStrings(vs[1..])
  }

  lemma InnerCallWalk(g: string, x: string)
    ensures var inner := Call(Name(g, Load), [Name(x, Load)]);
      WalkAt(E(inner)) == [At([], E(inner)), At([0], E(Name(g, Load))), At([1], E(Name(x, Load)))]
  {
    var inner := Call(Name(g, Load), [Name(x, Load)]);
    var l0 := [At([], E(inner))];
    var l1 := [At([0], E(Name(g, Load))), At([1], E(Name(x, Load)))];
    assert NextLevel(l0) == l1 by {
      assert Children(E(inner)) == [E(Name(g, Load)), E(Name(x, Load))];
      var c0 := ChildrenAt(l0[0]);
      assert c0[0] == l1[0] && c0[1] == l1[1];
      assert l0[1..] == [];
    }
    assert NextLevel(l1) == [] by {
      assert ChildrenAt(l1[0]) == [] && ChildrenAt(l1[1]) == [];
      assert l1[1..] == [l1[1]] && l1[1..][1..] == [];
    }
    assert WalkLevels(l1) == l1 by {
      assert WalkLevels([]) == [];
    }
  }

  lemma OuterLevel(f: string, inner: Expr)
    ensures NextLevel([At([], E(Call(Name(f, Load), [inner])))]) == [At([0], E(Name(f, Load))), At([1], E(inner))]
  {
    var outer := Call(Name(f, Load), [inner]);
    var l0 := [At([], E(outer))];
    assert Children(E(outer)) == [E(Name(f, Load)), E(inner)];
    var c0 := ChildrenAt(l0[0]);
    assert c0[0] == At([0], E(Name(f, Load))) && c0[1] == At([1], E(inner));
    assert l0[1..] == [];
  }

  lemma InnerLevel(f: string, g: string, x: string)
    ensures var inner := Call(Name(g, Load), [Name(x, Load)]);
      NextLevel([At([0], E(Name(f, Load))), At([1], E(inner))])
        == [At([1, 0], E(Name(g, Load))), At([1, 1], E(Name(x, Load)))]
  {
    var inner := Call(Name(g, Load), [Name(x, Load)]);
    var l1 := [At([0], E(Name(f, Load))), At([1], E(inner))];
    assert ChildrenAt(l1[0]) == [];
    assert Children(E(inner)) == [E(Name(g, Load)), E(Name(x, Load))];
    var c1 := ChildrenAt(l1[1]);
    assert c1[0] == At([1, 0], E(Name(g, Load))) && c1[1] == At([1, 1], E(Name(x, Load)));
    assert l1[1..] == [l1[1]] && l1[1..][1..] == [];
    assert NextLevel(l1[1..]) == c1 + NextLevel([]);
  }

  lemma OuterCallWalk(f: string, g: string, x: string)
    ensures var inner := Call(Name(g, Load), [Name(x, Load)]);
      var outer := Call(Name(f, Load), [inner]);
      WalkAt(E(outer)) == [At([], E(outer)), At([0], E(Name(f, Load))), At([1], E(inner)),
                           At([1, 0], E(Name(g, Load))), At([1, 1], E(Name(x, Load)))]
  {
    var inner := Call(Name(g, Load), [Name(x, Load)]);
    var outer := Call(Name(f, Load), [inner]);
    var l0 := [At([], E(outer))];
    var l1 := [At([0], E(Name(f, Load))), At([1], E(inner))];
    var l2 := [At([1, 0], E(Name(g, Load))), At([1, 1], E(Name(x, Load)))];
    OuterLevel(f, inner);
    InnerLevel(f, g, x);
    LeafPairWalk(l2[0], l2[1]);
    assert WalkLevels(l1) == l1 + l2;
    assert WalkLevels(l0) == l0 + (l1 + l2);
  }

  lemma NestedCallPreorder(f: string, g: string, x: string)
    ensures var inner := Call(Name(g, Load), [Name(x, Load)]);
      var outer := Call(Name(f, Load), [inner]);
      var s := ExprStmt(outer, None);
      Preorder(S(s)) == [S(s), E(outer), E(Name(f, Load)), E(inner), E(Name(g, Load)), E(Name(x, Load))]
  {
    var inner := Call(Name(g, Load), [Name(x, Load)]);
    var outer := Call(Name(f, Load), [inner]);
    var s := ExprStmt(outer, None);
    assert Preorder(E(Name(x, Load))) == [E(Name(x, Load))];
    assert Preorder(E(Name(g, Load))) == [E(Name(g, Load))];
    assert Preorder(E(Name(f, Load))) == [E(Name(f, Load))];
    assert Preorder(E(inner)) == [E(inner), E(Name(g, Load)), E(Name(x, Load))] by {
      ChildrenLower(E(inner));
      assert Children(E(inner)) == [E(Name(g, Load)), E(Name(x, Load))];
      var h := Height(E(inner));
      assert PreorderAll([E(Name(x, Load))], h) == [E(Name(x, Load))];
    }
    assert Preorder(E(outer)) == [E(outer), E(Name(f, Load)), E(inner), E(Name(g, Load)), E(Name(x, Load))] by {
      ChildrenLower(E(outer));
      assert Children(E(outer)) == [E(Name(f, Load)), E(inner)];
      var h := Height(E(outer));
      assert PreorderAll([E(inner)], h) == Preorder(E(inner));
    }
    ChildrenLower(S(s));
    assert Children(S(s)) == [E(outer)];
    assert PreorderAll([E(outer)], Height(S(s))) == Preorder(E(outer));
  }

  lemma OuterKnown(f: string, g: string, x: string)
    requires x != f && x != g
    ensures KnownNames(WalkAt(E(Call(Name(f, Load), [Call(Name(g, Load), [Name(x, Load)])]))), [x]) == [x]
  {
    OuterCallWalk(f, g, x);
    var ls := WalkAt(E(Call(Name(f, Load), [Call(Name(g, Load), [Name(x, Load)])])));
    var t := ls[1..][1..][1..][1..];
    assert t == [At([1, 1], E(Name(x, Load)))];
    assert KnownNames(t, [x]) == [x];
    assert f !in [x] && g !in [x];
    assert KnownNames(ls[1..][1..][1..], [x]) == KnownNames(t, [x]);
    assert KnownNames(ls[1..][1..], [x]) == KnownNames(ls[1..][1..][1..], [x]);
    assert KnownNames(ls[1..], [x]) == KnownNames(ls[1..][1..], [x]);
  }

  lemma InnerKnown(g: string, x: string)
    requires x != g
    ensures KnownNames(WalkAt(E(Call(Name(g, Load), [Name(x, Load)]))), [x]) == [x]
  {
    InnerCallWalk(g, x);
    var ls := WalkAt(E(Call(Name(g, Load), [Name(x, Load)])));
    assert ls[1..][1..] == [At([1], E(Name(x, Load)))];
    assert KnownNames(ls[1..][1..], [x]) == [x];
    assert g !in [x];
    assert KnownNames(ls[1..], [x]) == KnownNames(ls[1..][1..], [x]);
  }

  lemma NestedCallHooks(f: string, g: string, x: string, st: VState)
    requires x != f && x != g && st.variables == []
    ensures var inner := Call(Name(g, Load), [Name(x, Load)]);
      var outer := Call(Name(f, Load), [inner]);
      Names(Hook([x])(E(inner), Hook([x])(E(outer), st)).variables) == [x, x]
  {
    var inner := Call(Name(g, Load), [Name(x, Load)]);
    var outer := Call(Name(f, Load), [inner]);
    OuterKnown(f, g, x);
    InnerKnown(g, x);
    var s1 := Hook([x])(E(outer), st);
    assert Names(s1.variables) == [x];
  }

  /** `f(g(x))` with `x` known and `f`, `g` not: `x` is recorded twice, once
      for each call it is below. */
  lemma NestedCallsRepeat(f: string, g: string, x: string, counter: int, logTypeId: int, funcId: int)
    requires x != f && x != g
    ensures var s := ExprStmt(Call(Name(f, Load), [Call(Name(g, Load), [Name(x, Load)])]), None);
      Names(Collect(S(s), counter, logTypeId, funcId, [x]).variables) == [x, x]
  {
    var inner := Call(Name(g, Load), [Name(x, Load)]);
    var outer := Call(Name(f, Load), [inner]);
    var s := ExprStmt(outer, None);
    var st := VState(counter, logTypeId, funcId, []);
    NestedCallPreorder(f, g, x);
    VisitIsPreorder(S(s), st, Hook([x]));
    NestedFold(f, g, x, st);
    NestedCallHooks(f, g, x, st);
  }

  /** Only the two calls change the state. */
  lemma NestedFold(f: string, g: string, x: string, st: VState)
    ensures var inner := Call(Name(g, Load), [Name(x, Load)]);
      var outer := Call(Name(f, Load), [inner]);
      var h := Hook([x]);
      FoldNodes([S(ExprStmt(outer, None)), E(outer), E(Name(f, Load)), E(inner), E(Name(g, Load)), E(Name(x, Load))], st, h)
        == h(E(inner), h(E(outer), st))
  {
    var inner := Call(Name(g, Load), [Name(x, Load)]);
    var outer := Call(Name(f, Load), [inner]);
    var h := Hook([x]);
    var s1 := h(E(outer), st);
    var s3 := h(E(inner), s1);
    var pre := [S(ExprStmt(outer, None)), E(outer), E(Name(f, Load)), E(inner), E(Name(g, Load)), E(Name(x, Load))];
    assert FoldNodes(pre[4..], s3, h) == s3 by {
      var t := pre[4..];
      assert t == [E(Name(g, Load)), E(Name(x, Load))];
      HookIdle(E(Name(x, Load)), s3, [x]);
      assert t[1..][1..] == [];
      assert FoldNodes(t[1..], s3, h) == s3;
      HookIdle(E(Name(g, Load)), s3, [x]);
    }
    assert FoldNodes(pre[2..], s1, h) == FoldNodes(pre[4..], s3, h) by {
      HookIdle(E(Name(f, Load)), s1, [x]);
      assert pre[2..][1..] == pre[3..] && pre[3..][1..] == pre[4..];
    }
    assert FoldNodes(pre, st, h) == FoldNodes(pre[2..], s1, h) by {
      HookIdle(S(ExprStmt(outer, None)), st, [x]);
      assert pre[1..][1..] == pre[2..];
    }
  }

  lemma HookIdle(n: Node, st: VState, existing: seq<string>)
    requires NoCallOrDef(n) && CollectVariableDefault.StoreName(n).None?
    ensures Hook(existing)(n, st) == st
  {
  }
}
