/** `FunctionCallCollector`: the names of the functions a statement calls,
    in the order a pre-order traversal meets the calls. */
module CallCollector {
  import opened Wrappers
  import opened PyAst

  /** `getFuncName`: a plain name gives its id, an attribute its attribute
      name, anything else nothing.  An empty name is falsy and is dropped
      like a missing one. */
  function FuncName(f: Expr): (r: seq<string>)
    ensures |r| <= 1
    ensures r != [] ==> r[0] != "" && ((f.Name? && r[0] == f.id) || (f.Attribute? && r[0] == f.attr))
  {
    match f
    case Name(id, _) => if id != "" then [id] else []
    case Attribute(_, a, _) => if a != "" then [a] else []
    case _ => []
  }

  /** `visit_Call` records the callee's name before visiting the callee and
      the arguments; every other node is visited generically. */
  function CallsE(e: Expr): seq<string>
    decreases e, 1
  {
    (if e.Call? then FuncName(e.func) else []) + CallsBelow(e)
  }

  /** What the visit of `e`'s children collects, in field order. */
  function CallsBelow(e: Expr): seq<string>
    decreases e, 0
  {
    match e
    case Call(f, args) => CallsE(f) + CallsEs(args)
    case Attribute(v, _, _) => CallsE(v)
    case Subscript(v, s, _) => CallsE(v) + CallsE(s)
    case Tuple(es, _) => CallsEs(es)
    case Slice(bs) => CallsEs(bs)
    case Lambda(ps, b) => CallsArgs(ps) + CallsE(b)
    case GeneratorExp(elt, gs) => CallsE(elt) + CallsEs(gs)
    case Op(os) => CallsEs(os)
    case FString(ps) => CallsEs(ps)
    case Formatted(v) => CallsE(v)
    case _ => []
  }

  function CallsEs(es: seq<Expr>): seq<string>
    decreases es
  {
    if es == [] then [] else CallsE(es[0]) + CallsEs(es[1..])
  }

  function CallsArgs(ps: seq<Arg>): seq<string>
    decreases ps
  {
    if ps == [] then []
    else (if ps[0].annotation.Some? then CallsE(ps[0].annotation.value) else []) + CallsArgs(ps[1..])
  }

  function CallsS(s: Stmt): seq<string>
    decreases s
  {
    match s
    case Assign(ts, v, _) => CallsEs(ts) + CallsE(v)
    case AugAssign(t, v, _) => CallsE(t) + CallsE(v)
    case AnnAssign(t, a, v, _) => CallsE(t) + CallsE(a) + (if v.Some? then CallsE(v.value) else [])
    case ExprStmt(v, _) => CallsE(v)
    case Simple(_, es, _) => CallsEs(es)
    case Compound(_, ps, hd, b, hs, o, f, tr, _) =>
      CallsArgs(ps) + CallsEs(hd) + CallsSs(b) + CallsSs(hs) + CallsSs(o) + CallsSs(f) + CallsEs(tr)
    case _ => []
  }

  function CallsSs(ss: seq<Stmt>): seq<string>
    decreases ss
  {
    if ss == [] then [] else CallsS(ss[0]) + CallsSs(ss[1..])
  }

  /** The constructor: the statement is wrapped in a module, so the
      statement itself is visited. */
  function Collect(s: Stmt): (r: seq<string>)
    ensures forall n :: n in r ==> n != ""
  {
    CallsNonEmptyS(s);
    CallsS(s)
  }

  /** Every subexpression of `e`, each before its children, children in
      field order: the order in which a visitor meets them. */
  function SubExprs(e: Expr): (r: seq<Expr>)
    ensures |r| > 0 && r[0] == e
    decreases e, 1
  {
    [e] + SubExprsBelow(e)
  }

  function SubExprsBelow(e: Expr): seq<Expr>
    decreases e, 0
  {
    match e
    case Call(f, args) => SubExprs(f) + SubExprsEs(args)
    case Attribute(v, _, _) => SubExprs(v)
    case Subscript(v, s, _) => SubExprs(v) + SubExprs(s)
    case Tuple(es, _) => SubExprsEs(es)
    case Slice(bs) => SubExprsEs(bs)
    case Lambda(ps, b) => SubExprsArgs(ps) + SubExprs(b)
    case GeneratorExp(elt, gs) => SubExprs(elt) + SubExprsEs(gs)
    case Op(os) => SubExprsEs(os)
    case FString(ps) => SubExprsEs(ps)
    case Formatted(v) => SubExprs(v)
    case _ => []
  }

  function SubExprsEs(es: seq<Expr>): seq<Expr>
    decreases es
  {
    if es == [] then [] else SubExprs(es[0]) + SubExprsEs(es[1..])
  }

  function SubExprsArgs(ps: seq<Arg>): seq<Expr>
    decreases ps
  {
    if ps == [] then []
    else (if ps[0].annotation.Some? then SubExprs(ps[0].annotation.value) else []) + SubExprsArgs(ps[1..])
  }

  /** The callee names of the calls among `xs`, in order. */
  function CalleeNames(xs: seq<Expr>): seq<string>
    decreases xs
  {
    if xs == [] then []
    else (if xs[0].Call? then FuncName(xs[0].func) else []) + CalleeNames(xs[1..])
  }

  lemma {:induction false} CalleeNamesConcat(a: seq<Expr>, b: seq<Expr>)
    ensures CalleeNames(a + b) == CalleeNames(a) + CalleeNames(b)
    decreases a
  {
    if a == [] {
      assert a + b == b;
    } else {
      assert (a + b)[0] == a[0] && (a + b)[1..] == a[1..] + b;
      CalleeNamesConcat(a[1..], b);
    }
  }

  /** The collector lists exactly the named callees of the calls among the
      subexpressions, in pre-order. */
  lemma {:induction false} CallsArePreOrderCallees(e: Expr)
    ensures CallsE(e) == CalleeNames(SubExprs(e))
    decreases e, 1
  {
    CalleeNamesConcat([e], SubExprsBelow(e));
    assert [e][1..] == [];
    CallsBelowPreOrder(e);
  }

  lemma {:induction false} CallsBelowPreOrder(e: Expr)
    ensures CallsBelow(e) == CalleeNames(SubExprsBelow(e))
    decreases e, 0
  {
    match e
    case Call(f, args) =>
      CallsArePreOrderCallees(f); CallsArePreOrderCalleesEs(args);
      CalleeNamesConcat(SubExprs(f), SubExprsEs(args));
    case Attribute(v, _, _) => CallsArePreOrderCallees(v);
    case Subscript(v, s, _) =>
      CallsArePreOrderCallees(v); CallsArePreOrderCallees(s);
      CalleeNamesConcat(SubExprs(v), SubExprs(s));
    case Tuple(es, _) => CallsArePreOrderCalleesEs(es);
    case Slice(bs) => CallsArePreOrderCalleesEs(bs);
    case Lambda(ps, b) =>
      CallsArePreOrderCalleesArgs(ps); CallsArePreOrderCallees(b);
      CalleeNamesConcat(SubExprsArgs(ps), SubExprs(b));
    case GeneratorExp(elt, gs) =>
      CallsArePreOrderCallees(elt); CallsArePreOrderCalleesEs(gs);
      CalleeNamesConcat(SubExprs(elt), SubExprsEs(gs));
    case Op(os) => CallsArePreOrderCalleesEs(os);
    case FString(ps) => CallsArePreOrderCalleesEs(ps);
    case Formatted(v) => CallsArePreOrderCallees(v);
    case _ =>
  }

  lemma {:induction false} CallsArePreOrderCalleesEs(es: seq<Expr>)
    ensures CallsEs(es) == CalleeNames(SubExprsEs(es))
    decreases es
  {
    if es != [] {
      CallsArePreOrderCallees(es[0]);
      CallsArePreOrderCalleesEs(es[1..]);
      CalleeNamesConcat(SubExprs(es[0]), SubExprsEs(es[1..]));
    }
  }

  lemma {:induction false} CallsArePreOrderCalleesArgs(ps: seq<Arg>)
    ensures CallsArgs(ps) == CalleeNames(SubExprsArgs(ps))
    decreases ps
  {
    if ps != [] {
      if ps[0].annotation.Some? {
        CallsArePreOrderCallees(ps[0].annotation.value);
        CalleeNamesConcat(SubExprs(ps[0].annotation.value), SubExprsArgs(ps[1..]));
      } else {
        assert CallsArgs(ps) == CallsArgs(ps[1..]);
        assert SubExprsArgs(ps) == SubExprsArgs(ps[1..]);
      }
      CallsArePreOrderCalleesArgs(ps[1..]);
    }
  }

  lemma {:induction false} CallsNonEmptyE(e: Expr)
    ensures forall n :: n in CallsE(e) ==> n != ""
  {
    CallsArePreOrderCallees(e);
    CalleeNamesNonEmpty(SubExprs(e));
  }

  lemma {:induction false} CalleeNamesNonEmpty(xs: seq<Expr>)
    ensures forall n :: n in CalleeNames(xs) ==> n != ""
    decreases xs
  {
    if xs != [] {
      CalleeNamesNonEmpty(xs[1..]);
    }
  }

  lemma CallsNonEmptyEs(es: seq<Expr>)
    ensures forall n :: n in CallsEs(es) ==> n != ""
  {
    CallsArePreOrderCalleesEs(es);
    CalleeNamesNonEmpty(SubExprsEs(es));
  }

  lemma CallsNonEmptyArgs(ps: seq<Arg>)
    ensures forall n :: n in CallsArgs(ps) ==> n != ""
  {
    CallsArePreOrderCalleesArgs(ps);
    CalleeNamesNonEmpty(SubExprsArgs(ps));
  }

  lemma {:induction false} CallsNonEmptyS(s: Stmt)
    ensures forall n :: n in CallsS(s) ==> n != ""
    decreases s, 0
  {
    match s
    case Assign(ts, v, _) => CallsNonEmptyEs(ts); CallsNonEmptyE(v);
    case AugAssign(t, v, _) => CallsNonEmptyE(t); CallsNonEmptyE(v);
    case AnnAssign(t, a, v, _) =>
      CallsNonEmptyE(t); CallsNonEmptyE(a);
      if v.Some? { CallsNonEmptyE(v.value); }
    case ExprStmt(v, _) => CallsNonEmptyE(v);
    case Simple(_, es, _) => CallsNonEmptyEs(es);
    case Compound(_, ps, hd, b, hs, o, f, tr, _) =>
      CallsNonEmptyArgs(ps); CallsNonEmptyEs(hd); CallsNonEmptyEs(tr);
      CallsNonEmptySs(b); CallsNonEmptySs(hs); CallsNonEmptySs(o); CallsNonEmptySs(f);
    case _ =>
  }

  lemma {:induction false} CallsNonEmptySs(ss: seq<Stmt>)
    ensures forall n :: n in CallsSs(ss) ==> n != ""
    decreases ss
  {
    if ss != [] {
      CallsNonEmptyS(ss[0]);
      CallsNonEmptySs(ss[1..]);
    }
  }

  /** A call of a plain name records the name, then the arguments'
      calls. */
  lemma NamedCall(id: string, args: seq<Expr>)
    requires id != ""
    ensures CallsE(Call(Name(id, Load), args)) == [id] + CallsEs(args)
  {
    assert CallsE(Name(id, Load)) == [];
  }

  lemma CallsEsOne(a: Expr)
    ensures CallsEs([a]) == CallsE(a)
  {
    assert [a][1..] == [];
  }

  lemma CallsEsTwo(a: Expr, b: Expr)
    ensures CallsEs([a, b]) == CallsE(a) + CallsE(b)
  {
    assert [a, b][1..] == [b];
    CallsEsOne(b);
  }

  /** The class's example: `print(bar(baz(2)), qux())` calls `print`,
      `bar`, `baz` and `qux`, in that order. */
  lemma CollectExample()
    ensures Collect(ExprStmt(Call(Name("print", Load),
                                  [Call(Name("bar", Load), [Call(Name("baz", Load), [Constant(IntC(2))])]),
                                   Call(Name("qux", Load), [])]), None))
         == ["print", "bar", "baz", "qux"]
  {
    var two := Constant(IntC(2));
    var baz := Call(Name("baz", Load), [two]);
    var bar := Call(Name("bar", Load), [baz]);
    var qux := Call(Name("qux", Load), []);
    var top := Call(Name("print", Load), [bar, qux]);
    assert CallsE(baz) == ["baz"] by {
      NamedCall("baz", [two]);
      CallsEsOne(two);
      assert CallsE(two) == [];
    }
    assert CallsE(bar) == ["bar", "baz"] by {
      NamedCall("bar", [baz]);
      CallsEsOne(baz);
    }
    assert CallsE(qux) == ["qux"] by {
      NamedCall("qux", []);
    }
    assert CallsE(top) == ["print", "bar", "baz", "qux"] by {
      NamedCall("print", [bar, qux]);
      CallsEsTwo(bar, qux);
    }
    assert CallsS(ExprStmt(top, None)) == CallsE(top);
  }
}
