/** `CollectVarDependencies`: the variables a statement writes and the ones
    it reads, each as a name and the keys of its access path.

    The statement is walked in `ast.walk` order.  At the first node of an
    access chain (attribute, subscript or name) the whole chain is
    extracted and its nodes marked, so that the inner nodes of the chain
    are not reported again; names used inside an index are not part of the
    chain and are reported on their own. */
module CollectVarDependencies {
  import opened Wrappers
  import opened PyAst
  import opened Walk
  import K = CollectAssignVarInfo
  import opened VariableCollectorBase

  /** `[name, keys]`; `name` is `None` when the chain does not start at a name. */
  datatype Access = Access(name: Option<string>, keys: seq<Const>)

  /** `vars`, `deps` and `visitedNodes`, nodes being identified by path. */
  datatype Deps = Deps(vars: seq<Access>, deps: seq<Access>, visited: seq<seq<nat>>)

  predicate IsAccess(e: Expr) {
    e.Attribute? || e.Subscript? || e.Name?
  }

  /** `_get_subscript_key`: a constant's value, a name's identifier, or the
      index rendered as source by `render` (`ast.unparse`). */
  function SubscriptKey(sl: Expr, render: Expr -> string): Const {
    match sl
    case Constant(c) => c
    case Name(id, _) => StrC(id)
    case _ => StrC(render(sl))
  }

  /** `_extract_access_path` from the node `e` at `path`: the access and the
      paths of the nodes it marks, outermost first. */
  function Extract(e: Expr, path: seq<nat>, render: Expr -> string): (r: (Access, seq<seq<nat>>))
    ensures |r.1| >= 1 && r.1[0] == path
    ensures forall q :: q in r.1 ==> |path| <= |q| && q[..|path|] == path
    ensures r.0.name.None? ==> r.0.keys == []
    ensures r.0.name.Some? ==> |r.1| == |r.0.keys| + 1
    decreases e
  {
    match e
    case Attribute(v, a, _) =>
      var (acc, vis) := Extract(v, path + [0], render);
      (if acc.name.Some? then Access(acc.name, acc.keys + [StrC(a)]) else acc, [path] + vis)
    case Subscript(v, sl, _) =>
      var (acc, vis) := Extract(v, path + [0], render);
      (if acc.name.Some? then Access(acc.name, acc.keys + [SubscriptKey(sl, render)]) else acc, [path] + vis)
    case Name(id, _) => (Access(Some(id), []), [path])
    case _ => (Access(None, []), [path])
  }

  /** The chain extracted from `path` marks only the nodes reached through
      `value` links, never an index: a name used inside an index is
      reported on its own when the walk reaches it. */
  lemma {:induction false} ExtractMarksSpine(e: Expr, path: seq<nat>, render: Expr -> string)
    ensures forall q :: q in Extract(e, path, render).1 ==> forall j :: |path| <= j < |q| ==> q[j] == 0
    decreases e
  {
    match e
    case Attribute(v, _, _) =>
      ExtractMarksSpine(v, path + [0], render);
      SpineStep(path, Extract(v, path + [0], render).1);
    case Subscript(v, _, _) =>
      ExtractMarksSpine(v, path + [0], render);
      SpineStep(path, Extract(v, path + [0], render).1);
    case _ =>
  }

  lemma SpineStep(path: seq<nat>, vis: seq<seq<nat>>)
    requires forall q :: q in vis ==> |path + [0]| <= |q| && q[..|path + [0]|] == path + [0]
    requires forall q :: q in vis ==> forall j :: |path + [0]| <= j < |q| ==> q[j] == 0
    ensures forall q :: q in [path] + vis ==> forall j :: |path| <= j < |q| ==> q[j] == 0
  {
    forall q, j | q in vis && |path| <= j < |q|
      ensures q[j] == 0
    {
      if j == |path| {
        assert q[..|path| + 1][j] == (path + [0])[j];
      }
    }
  }

  /** `saveVarInfo`: by the context of the outermost node, a store is a
      written variable, a load a dependency, and any other context (a
      `del` target) is dropped. */
  function Save(d: Deps, ctx: Ctx, acc: Access): (r: Deps)
    ensures r.visited == d.visited
    ensures ctx.Store? ==> r.vars == d.vars + [acc] && r.deps == d.deps
    ensures ctx.Load? ==> r.deps == d.deps + [acc] && r.vars == d.vars
    ensures !ctx.Store? && !ctx.Load? ==> r == d
  {
    match ctx
    case Store => d.(vars := d.vars + [acc])
    case Load => d.(deps := d.deps + [acc])
    case _ => d
  }

  /** One node of the walk. */
  function Step(d: Deps, l: Located, render: Expr -> string): (r: Deps)
    ensures |d.vars| <= |r.vars| <= |d.vars| + 1 && |d.deps| <= |r.deps| <= |d.deps| + 1
    ensures |r.vars| + |r.deps| <= |d.vars| + |d.deps| + 1
    ensures r.vars[..|d.vars|] == d.vars && r.deps[..|d.deps|] == d.deps
    ensures (l.path in d.visited || !l.n.E? || !IsAccess(l.n.e)) ==> r == d
  {
    if l.path in d.visited || !l.n.E? || !IsAccess(l.n.e) then d
    else
      var (acc, vis) := Extract(l.n.e, l.path, render);
      Save(d.(visited := d.visited + vis), l.n.e.ctx, acc)
  }

  function Fold(ls: seq<Located>, d: Deps, render: Expr -> string): (r: Deps)
    ensures |r.vars| + |r.deps| <= |d.vars| + |d.deps| + |ls|
    ensures |d.vars| <= |r.vars| && r.vars[..|d.vars|] == d.vars
    ensures |d.deps| <= |r.deps| && r.deps[..|d.deps|] == d.deps
    decreases |ls|
  {
    if ls == [] then d
    else
      var s1 := Step(d, ls[0], render);
      var r := Fold(ls[1..], s1, render);
      assert r.vars[..|d.vars|] == r.vars[..|s1.vars|][..|d.vars|];
      assert r.deps[..|d.deps|] == r.deps[..|s1.deps|][..|d.deps|];
      r
  }

  /** The walked nodes at which an access chain starts: access nodes whose
      path no earlier chain has marked, in walk order. */
  function Heads(ls: seq<Located>, visited: seq<seq<nat>>, render: Expr -> string): (r: seq<Located>)
    ensures forall h :: h in r ==> h in ls && h.n.E? && IsAccess(h.n.e) && h.path !in visited
    ensures |r| <= |ls|
    decreases |ls|
  {
    if ls == [] then []
    else
      var l := ls[0];
      if l.path in visited || !l.n.E? || !IsAccess(l.n.e) then Heads(ls[1..], visited, render)
      else [l] + Heads(ls[1..], visited + Extract(l.n.e, l.path, render).1, render)
  }

  /** The context of a walked chain's outermost node. */
  function ChainCtx(l: Located): Ctx {
    if l.n.E? && IsAccess(l.n.e) then l.n.e.ctx else NoCtx
  }

  /** The access extracted from a walked node. */
  function ChainAccess(l: Located, render: Expr -> string): Access {
    if l.n.E? then Extract(l.n.e, l.path, render).0 else Access(None, [])
  }

  /** The accesses of the chains whose outermost node has context `ctx`, in
      order. */
  function Accesses(hs: seq<Located>, ctx: Ctx, render: Expr -> string): (r: seq<Access>)
    ensures |r| <= |hs|
    ensures forall h :: h in hs && ChainCtx(h) == ctx ==> ChainAccess(h, render) in r
    decreases |hs|
  {
    if hs == [] then []
    else
      var rest := Accesses(hs[1..], ctx, render);
      assert forall h :: h in hs ==> h == hs[0] || h in hs[1..];
      if ChainCtx(hs[0]) == ctx then [ChainAccess(hs[0], render)] + rest else rest
  }

  /** Every routed access comes from a chain with that context. */
  lemma {:induction false} AccessesFrom(hs: seq<Located>, ctx: Ctx, render: Expr -> string)
    ensures forall a :: a in Accesses(hs, ctx, render) ==>
      exists h :: h in hs && ChainCtx(h) == ctx && a == ChainAccess(h, render)
    decreases |hs|
  {
    if hs != [] {
      AccessesFrom(hs[1..], ctx, render);
      assert forall h :: h in hs[1..] ==> h in hs;
    }
  }

  /** The walk routes every chain by its outermost node's context: the
      records it adds are the stored chains' accesses and the loaded
      chains' accesses. */
  lemma {:induction false} FoldRoutes(ls: seq<Located>, d: Deps, render: Expr -> string)
    ensures Fold(ls, d, render).vars == d.vars + Accesses(Heads(ls, d.visited, render), Store, render)
    ensures Fold(ls, d, render).deps == d.deps + Accesses(Heads(ls, d.visited, render), Load, render)
    decreases |ls|
  {
    if ls == [] {
      assert d.vars + [] == d.vars && d.deps + [] == d.deps;
    } else {
      var l := ls[0];
      var s1 := Step(d, l, render);
      assert Fold(ls, d, render) == Fold(ls[1..], s1, render);
      FoldRoutes(ls[1..], s1, render);
      if l.path in d.visited || !l.n.E? || !IsAccess(l.n.e) {
        assert Heads(ls, d.visited, render) == Heads(ls[1..], d.visited, render);
      } else {
        assert ls == [l] + ls[1..];
        HeadsCons(l, ls[1..], d.visited, render);
        StepHead(l, d, render);
        var d1 := d.(visited := d.visited + Extract(l.n.e, l.path, render).1);
        RouteHead(l, Heads(ls[1..], s1.visited, render), d1, render);
      }
    }
  }

  /** A chain head starts the list of heads, and the walk goes on with its
      chain's nodes marked. */
  lemma HeadsCons(l: Located, rest: seq<Located>, visited: seq<seq<nat>>, render: Expr -> string)
    requires l.path !in visited && l.n.E? && IsAccess(l.n.e)
    ensures Heads([l] + rest, visited, render) == [l] + Heads(rest, visited + Extract(l.n.e, l.path, render).1, render)
  {
    assert ([l] + rest)[0] == l && ([l] + rest)[1..] == rest;
  }

  /** At a chain head the walk marks the chain and saves its access by
      the head's context. */
  lemma StepHead(l: Located, d: Deps, render: Expr -> string)
    requires l.path !in d.visited && l.n.E? && IsAccess(l.n.e)
    ensures Step(d, l, render)
         == Save(d.(visited := d.visited + Extract(l.n.e, l.path, render).1), ChainCtx(l), ChainAccess(l, render))
  {
  }

  /** Saving a head's access adds what routing that head adds. */
  lemma RouteHead(l: Located, hs: seq<Located>, d: Deps, render: Expr -> string)
    ensures var s1 := Save(d, ChainCtx(l), ChainAccess(l, render));
      && d.vars + Accesses([l] + hs, Store, render) == s1.vars + Accesses(hs, Store, render)
      && d.deps + Accesses([l] + hs, Load, render) == s1.deps + Accesses(hs, Load, render)
  {
    AccessesCons(l, hs, Store, render);
    AccessesCons(l, hs, Load, render);
    var acc := ChainAccess(l, render);
    if ChainCtx(l).Store? {
      assert d.vars + ([acc] + Accesses(hs, Store, render)) == (d.vars + [acc]) + Accesses(hs, Store, render);
    } else if ChainCtx(l).Load? {
      assert d.deps + ([acc] + Accesses(hs, Load, render)) == (d.deps + [acc]) + Accesses(hs, Load, render);
    }
  }

  lemma AccessesCons(h: Located, hs: seq<Located>, ctx: Ctx, render: Expr -> string)
    ensures Accesses([h] + hs, ctx, render)
         == (if ChainCtx(h) == ctx then [ChainAccess(h, render)] else []) + Accesses(hs, ctx, render)
  {
    assert ([h] + hs)[1..] == hs;
  }

  /** `processStatement(node)` on the walk of `node`: `vars` holds the
      access of every chain whose outermost node stores, `deps` of every
      chain whose outermost node loads, each chain starting at a walked
      access node no earlier chain marked. */
  function Collect(node: Node, render: Expr -> string): (r: Deps)
    ensures |r.vars| + |r.deps| <= |WalkAt(node)|
    ensures r.vars == Accesses(Heads(WalkAt(node), [], render), Store, render)
    ensures r.deps == Accesses(Heads(WalkAt(node), [], render), Load, render)
  {
    var d := Deps([], [], []);
    FoldRoutes(WalkAt(node), d, render);
    assert [] + Accesses(Heads(WalkAt(node), [], render), Store, render) == Accesses(Heads(WalkAt(node), [], render), Store, render);
    assert [] + Accesses(Heads(WalkAt(node), [], render), Load, render) == Accesses(Heads(WalkAt(node), [], render), Load, render);
    Fold(WalkAt(node), d, render)
  }

  /** The access names the chain's first key and holds the values of the
      rest, in order. */
  predicate AgreesWith(acc: Access, ks: seq<Key>) {
    && |ks| > 0 && acc.name.Some? && ks[0].value == StrC(acc.name.value)
    && |acc.keys| == |ks| - 1
    && forall i :: 0 <= i < |acc.keys| ==> acc.keys[i] == ks[i + 1].value
  }

  lemma AgreesSnoc(acc: Access, ks: seq<Key>, k: Key)
    requires AgreesWith(acc, ks)
    ensures AgreesWith(Access(acc.name, acc.keys + [k.value]), ks + [k])
  {
    var ks' := ks + [k];
    assert ks'[0] == ks[0];
    forall i | 0 <= i < |acc.keys| + 1
      ensures (acc.keys + [k.value])[i] == ks'[i + 1].value
    {
      if i < |acc.keys| {
        assert ks'[i + 1] == ks[i + 1];
      }
    }
  }

  /** On a plain access chain starting at a name, the path extracted here
      and the keys the assignment collector gathers agree: same name, and
      the same key values after it. */
  lemma {:induction false} ExtractAgreesWithChain(e: Expr, path: seq<nat>, render: Expr -> string)
    requires K.Chain(e).Some? && K.Chain(e).value[0].kind == VariableKey
    ensures var ks := K.Chain(e).value;
      var acc := Extract(e, path, render).0;
      && acc.name.Some? && ks[0].value == StrC(acc.name.value)
      && |acc.keys| == |ks| - 1
      && forall i :: 0 <= i < |acc.keys| ==> acc.keys[i] == ks[i + 1].value
    decreases e
  {
    ChainAgrees(e, path, render);
  }

  lemma {:induction false} ChainAgrees(e: Expr, path: seq<nat>, render: Expr -> string)
    requires K.Chain(e).Some? && K.Chain(e).value[0].kind == VariableKey
    ensures AgreesWith(Extract(e, path, render).0, K.Chain(e).value)
    decreases e
  {
    match e
    case Name(_, _) =>
    case Attribute(v, a, _) =>
      ChainAgrees(v, path + [0], render);
      var ks := K.Chain(v).value;
      assert K.Chain(e).value == ks + [Key(KeyKey, StrC(a))];
      assert K.Chain(v).value[0] == K.Chain(e).value[0];
      AgreesSnoc(Extract(v, path + [0], render).0, ks, Key(KeyKey, StrC(a)));
    case Subscript(v, sl, _) =>
      ChainAgrees(v, path + [0], render);
      var ks := K.Chain(v).value;
      var k := if sl.Constant? then Key(KeyKey, sl.c) else Key(VariableKey, StrC(sl.id));
      assert K.Chain(e).value == ks + [k];
      assert K.Chain(v).value[0] == K.Chain(e).value[0];
      assert SubscriptKey(sl, render) == k.value;
      AgreesSnoc(Extract(v, path + [0], render).0, ks, k);
  }

  /** The walk of `a.b = c`: the statement, the target and the value, then
      the name inside the target. */
  lemma AttributeAssignWalk(a: string, b: string, c: Const)
    ensures var t := Attribute(Name(a, Load), b, Store);
      var s := Assign([t], Constant(c), None);
      WalkAt(S(s)) == [At([], S(s)), At([0], E(t)), At([1], E(Constant(c))), At([0, 0], E(Name(a, Load)))]
  {
    var t := Attribute(Name(a, Load), b, Store);
    var s := Assign([t], Constant(c), None);
    var l0 := [At([], S(s))];
    var l1 := [At([0], E(t)), At([1], E(Constant(c)))];
    var l2 := [At([0, 0], E(Name(a, Load)))];
    assert NextLevel(l0) == l1 by {
      assert Children(S(s)) == [E(t), E(Constant(c))];
      var c0 := ChildrenAt(l0[0]);
      assert c0[0] == l1[0] && c0[1] == l1[1];
      assert l0[1..] == [];
    }
    assert NextLevel(l1) == l2 by {
      var c1 := ChildrenAt(l1[0]);
      assert c1[0] == l2[0];
      assert ChildrenAt(l1[1]) == [];
      assert l1[1..] == [l1[1]] && l1[1..][1..] == [];
      assert NextLevel(l1[1..]) == ChildrenAt(l1[1]) + NextLevel([]);
    }
    LeafWalk(l2[0]);
    assert WalkLevels(l1) == l1 + l2;
    assert WalkLevels(l0) == l0 + (l1 + l2);
  }

  /** `a.b = c` writes `a` with key `b` and reads nothing: the inner name
      `a` belongs to the chain already reported. */
  lemma AttributeTarget(a: string, b: string, c: Const, render: Expr -> string)
    ensures var r := Collect(S(Assign([Attribute(Name(a, Load), b, Store)], Constant(c), None)), render);
      r.vars == [Access(Some(a), [StrC(b)])] && r.deps == []
  {
    var t := Attribute(Name(a, Load), b, Store);
    var s := Assign([t], Constant(c), None);
    AttributeAssignWalk(a, b, c);
    var x0 := At([], S(s));
    var x1 := At([0], E(t));
    var x2 := At([1], E(Constant(c)));
    var x3 := At([0, 0], E(Name(a, Load)));
    var d0 := Deps([], [], []);
    var d2 := Deps([Access(Some(a), [StrC(b)])], [], [[0], [0, 0]]);
    AttributeStep(a, b, render);
    assert Fold([x2, x3], d2, render) == d2 by {
      assert Step(d2, x2, render) == d2;
      assert Step(d2, x3, render) == d2;
      assert Fold([x3], d2, render) == d2;
    }
    assert Step(d0, x0, render) == d0;
    assert Fold([x1, x2, x3], d0, render) == d2;
    assert Fold([x0, x1, x2, x3], d0, render) == d2;
  }

  /** The target `a.b` is one chain: `a` with key `b`, and both nodes
      marked. */
  lemma AttributeStep(a: string, b: string, render: Expr -> string)
    ensures Step(Deps([], [], []), At([0], E(Attribute(Name(a, Load), b, Store))), render)
         == Deps([Access(Some(a), [StrC(b)])], [], [[0], [0, 0]])
  {
    var t := Attribute(Name(a, Load), b, Store);
    assert [0] + [0] == [0, 0];
    assert Extract(Name(a, Load), [0, 0], render) == (Access(Some(a), []), [[0, 0]]);
    assert [[0]] + [[0, 0]] == [[0], [0, 0]];
    assert [] + [StrC(b)] == [StrC(b)];
    assert Extract(t, [0], render) == (Access(Some(a), [StrC(b)]), [[0], [0, 0]]);
  }

  lemma IndexAssignWalk(x: string, y: string, k: string)
    ensures var v := Subscript(Name(y, Load), Name(k, Load), Load);
      var s := Assign([Name(x, Store)], v, None);
      WalkAt(S(s)) == [At([], S(s)), At([0], E(Name(x, Store))), At([1], E(v)),
                       At([1, 0], E(Name(y, Load))), At([1, 1], E(Name(k, Load)))]
  {
    var v := Subscript(Name(y, Load), Name(k, Load), Load);
    var s := Assign([Name(x, Store)], v, None);
    var l0 := [At([], S(s))];
    var l1 := [At([0], E(Name(x, Store))), At([1], E(v))];
    var l2 := [At([1, 0], E(Name(y, Load))), At([1, 1], E(Name(k, Load)))];
    AssignLevel(x, v);
    IndexLevel(x, y, k);
    LeafPairWalk(l2[0], l2[1]);
    assert WalkLevels(l1) == l1 + l2;
    assert WalkLevels(l0) == l0 + (l1 + l2);
  }

  lemma AssignLevel(x: string, v: Expr)
    ensures NextLevel([At([], S(Assign([Name(x, Store)], v, None)))]) == [At([0], E(Name(x, Store))), At([1], E(v))]
  {
    var s := Assign([Name(x, Store)], v, None);
    var l0 := [At([], S(s))];
    assert Children(S(s)) == [E(Name(x, Store)), E(v)];
    var c0 := ChildrenAt(l0[0]);
    assert c0[0] == At([0], E(Name(x, Store))) && c0[1] == At([1], E(v));
    assert l0[1..] == [];
  }

  lemma IndexLevel(x: string, y: string, k: string)
    ensures var v := Subscript(Name(y, Load), Name(k, Load), Load);
      NextLevel([At([0], E(Name(x, Store))), At([1], E(v))])
        == [At([1, 0], E(Name(y, Load))), At([1, 1], E(Name(k, Load)))]
  {
    var v := Subscript(Name(y, Load), Name(k, Load), Load);
    var l1 := [At([0], E(Name(x, Store))), At([1], E(v))];
    assert ChildrenAt(l1[0]) == [];
    var c1 := ChildrenAt(l1[1]);
    assert c1[0] == At([1, 0], E(Name(y, Load))) && c1[1] == At([1, 1], E(Name(k, Load)));
    assert l1[1..] == [l1[1]] && l1[1..][1..] == [];
    assert NextLevel(l1[1..]) == c1 + NextLevel([]);
  }

  lemma IndexStepTarget(x: string, render: Expr -> string)
    ensures Step(Deps([], [], []), At([0], E(Name(x, Store))), render) == Deps([Access(Some(x), [])], [], [[0]])
  {
  }

  lemma IndexStepValue(x: string, y: string, k: string, render: Expr -> string)
    ensures var v := Subscript(Name(y, Load), Name(k, Load), Load);
      Step(Deps([Access(Some(x), [])], [], [[0]]), At([1], E(v)), render)
        == Deps([Access(Some(x), [])], [Access(Some(y), [StrC(k)])], [[0], [1], [1, 0]])
  {
    var v := Subscript(Name(y, Load), Name(k, Load), Load);
    assert [1] + [0] == [1, 0];
    assert Extract(Name(y, Load), [1, 0], render) == (Access(Some(y), []), [[1, 0]]);
    assert [[1]] + [[1, 0]] == [[1], [1, 0]];
    assert [] + [StrC(k)] == [StrC(k)];
    assert Extract(v, [1], render) == (Access(Some(y), [StrC(k)]), [[1], [1, 0]]);
  }

  lemma IndexStepIndex(x: string, y: string, k: string, render: Expr -> string)
    ensures var d2 := Deps([Access(Some(x), [])], [Access(Some(y), [StrC(k)])], [[0], [1], [1, 0]]);
      && Step(d2, At([1, 0], E(Name(y, Load))), render) == d2
      && Step(d2, At([1, 1], E(Name(k, Load))), render)
           == Deps([Access(Some(x), [])], [Access(Some(y), [StrC(k)]), Access(Some(k), [])], [[0], [1], [1, 0], [1, 1]])
  {
    var d2 := Deps([Access(Some(x), [])], [Access(Some(y), [StrC(k)])], [[0], [1], [1, 0]]);
    assert [1, 1] != [0] && [1, 1] != [1] && [1, 1] != [1, 0];
    assert [1, 1] !in d2.visited;
  }

  /** `x = y[k]` writes `x` and reads `y` with key `k`, and reads `k` itself:
      a name used as an index is not part of the chain. */
  lemma IndexNameIsRead(x: string, y: string, k: string, render: Expr -> string)
    ensures var v := Subscript(Name(y, Load), Name(k, Load), Load);
      var r := Collect(S(Assign([Name(x, Store)], v, None)), render);
      r.vars == [Access(Some(x), [])] && r.deps == [Access(Some(y), [StrC(k)]), Access(Some(k), [])]
  {
    var v := Subscript(Name(y, Load), Name(k, Load), Load);
    var s := Assign([Name(x, Store)], v, None);
    IndexAssignWalk(x, y, k);
    var x0 := At([], S(s));
    var x1 := At([0], E(Name(x, Store)));
    var x2 := At([1], E(v));
    var x3 := At([1, 0], E(Name(y, Load)));
    var x4 := At([1, 1], E(Name(k, Load)));
    var d0 := Deps([], [], []);
    var d1 := Deps([Access(Some(x), [])], [], [[0]]);
    var d2 := Deps([Access(Some(x), [])], [Access(Some(y), [StrC(k)])], [[0], [1], [1, 0]]);
    var d4 := Deps([Access(Some(x), [])], [Access(Some(y), [StrC(k)]), Access(Some(k), [])], [[0], [1], [1, 0], [1, 1]]);
    IndexStepTarget(x, render);
    IndexStepValue(x, y, k, render);
    IndexStepIndex(x, y, k, render);
    assert Step(d0, x0, render) == d0;
    assert Fold([x4], d2, render) == d4;
    assert Fold([x3, x4], d2, render) == d4;
    assert Fold([x2, x3, x4], d1, render) == d4;
    assert Fold([x1, x2, x3, x4], d0, render) == d4;
    assert Fold([x0, x1, x2, x3, x4], d0, render) == d4;
  }
}
