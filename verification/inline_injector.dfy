/** `InlineInjector`: logging inside expressions that cannot hold a
    statement.  The element of a generator expression and the body of a
    lambda are replaced by

        (<log-type log>, <original>, <variable log>, ...)[1]

    which evaluates to the original value after evaluating the logs.  The
    variables logged are those `CollectVariableDefault` finds in the
    generator or lambda; a rewritten node is not searched any further.  A
    node with a body is stripped first, so only its header is searched. */
module InlineInjector {
  import opened Wrappers
  import opened PyAst
  import opened Walk
  import opened VariableCollectorBase
  import CollectVariableDefault

  /** `getVarLogStmt(syntax, varId).value` for every record, in order. */
  function VarLogs(vs: seq<VarInfo>): (r: seq<Expr>)
    ensures |r| == |vs|
    ensures forall i :: 0 <= i < |vs| ==> r[i] == Hook(VarLog(vs[i].syntax, vs[i].varId))
    decreases |vs|
  {
    if vs == [] then [] else VarLogs(vs[..|vs| - 1]) + [Hook(VarLog(vs[|vs| - 1].syntax, vs[|vs| - 1].varId))]
  }

  /** The tuple-subscript that replaces `x`. */
  function Wrap(lt: int, x: Expr, vs: seq<VarInfo>): Expr {
    Subscript(Tuple([Hook(LtLog(lt)), x] + VarLogs(vs), Load), Constant(IntC(1)), Load)
  }

  /** The element a constant subscript of a tuple display selects, when
      the index is within the tuple. */
  function Selected(e: Expr): Option<Expr> {
    if e.Subscript? && e.value.Tuple? && e.slice.Constant? && e.slice.c.IntC?
       && 0 <= e.slice.c.i < |e.value.elts|
    then Some(e.value.elts[e.slice.c.i])
    else None
  }

  /** The rewritten expression selects the original, after the log-type
      log and one log per variable, in collection order. */
  lemma WrapSelects(lt: int, x: Expr, vs: seq<VarInfo>)
    ensures Selected(Wrap(lt, x, vs)) == Some(x)
    ensures var es := Wrap(lt, x, vs).value.elts;
      |es| == 2 + |vs| && es[0] == Hook(LtLog(lt))
      && forall i :: 0 <= i < |vs| ==> es[2 + i] == Hook(VarLog(vs[i].syntax, vs[i].varId))
  {
    var logs := VarLogs(vs);
    var es := [Hook(LtLog(lt)), x] + logs;
    assert Wrap(lt, x, vs).value.elts == es;
    forall i | 0 <= i < |vs|
      ensures es[2 + i] == Hook(VarLog(vs[i].syntax, vs[i].varId))
    {
      assert es[2 + i] == logs[i];
    }
  }

  /** `self.variables += variables`: the records a fresh default collector
      made, numbered on from `c`'s counter, joined to `c`'s. */
  function Absorb(c: Collector, sub: Collector): (r: Collector)
    requires Extends(New(c.counter, c.logTypeId, c.funcId), sub)
    ensures Extends(c, r) && r.variables == c.variables + sub.variables
  {
    var r := Collector(sub.counter, c.logTypeId, c.funcId, c.variables + sub.variables);
    assert r.variables[..|c.variables|] == c.variables;
    forall i | |c.variables| <= i < |r.variables|
      ensures Stamped(c, r.variables[i], c.counter + 1 + (i - |c.variables|))
    {
      assert r.variables[i] == sub.variables[i - |c.variables|];
    }
    r
  }

  /** The records `CollectVariableDefault` makes for `e`, numbered on from
      `c`'s counter. */
  function Collected(e: Expr, c: Collector): (r: Collector)
    ensures Extends(New(c.counter, c.logTypeId, c.funcId), r)
  {
    CollectVariableDefault.Collect(E(e), c.counter, c.logTypeId, c.funcId)
  }

  /** No generator expression and no lambda anywhere in the tree. */
  predicate Free(e: Expr)
    decreases e
  {
    match e
    case GeneratorExp(_, _) => false
    case Lambda(_, _) => false
    case Attribute(v, _, _) => Free(v)
    case Subscript(v, sl, _) => Free(v) && Free(sl)
    case Call(f, args) => Free(f) && FreeEs(args)
    case Tuple(es, _) => FreeEs(es)
    case Slice(bs) => FreeEs(bs)
    case Op(os) => FreeEs(os)
    case FString(ps) => FreeEs(ps)
    case Formatted(v) => Free(v)
    case _ => true
  }

  predicate FreeEs(es: seq<Expr>)
    decreases es
  {
    es == [] || (Free(es[0]) && FreeEs(es[1..]))
  }

  /** The inverse of the rewrite: the element of every generator and the
      body of every lambda reached is replaced by what its subscript
      selects. */
  function Unwrap(e: Expr): Expr {
    match Selected(e)
    case Some(x) => x
    case None => e
  }

  function EraseE(e: Expr): Expr
    decreases e
  {
    match e
    case GeneratorExp(elt, gs) => GeneratorExp(Unwrap(elt), gs)
    case Lambda(ps, b) => Lambda(ps, Unwrap(b))
    case Attribute(v, a, ctx) => Attribute(EraseE(v), a, ctx)
    case Subscript(v, sl, ctx) => Subscript(EraseE(v), EraseE(sl), ctx)
    case Call(f, args) => Call(EraseE(f), EraseEs(args))
    case Tuple(es, ctx) => Tuple(EraseEs(es), ctx)
    case Slice(bs) => Slice(EraseEs(bs))
    case Op(os) => Op(EraseEs(os))
    case FString(ps) => FString(EraseEs(ps))
    case Formatted(v) => Formatted(EraseE(v))
    case _ => e
  }

  function EraseEs(es: seq<Expr>): seq<Expr>
    decreases es
  {
    if es == [] then [] else [EraseE(es[0])] + EraseEs(es[1..])
  }

  /** `visit` of an expression: a generator or lambda is rewritten and not
      entered; any other node has its children visited in field order.
      The rewrite is undone by `EraseE`, and a tree with nothing to rewrite
      comes back unchanged with no records. */
  function RewriteE(e: Expr, c: Collector): (r: (Expr, Collector))
    ensures Extends(c, r.1)
    ensures EraseE(r.0) == e
    ensures Free(e) ==> r == (e, c)
    decreases e, 1
  {
    match e
    case GeneratorExp(_, _) => RewriteInline(e, c)
    case Lambda(_, _) => RewriteInline(e, c)
    case Attribute(_, _, _) => RewriteInner(e, c)
    case Subscript(_, _, _) => RewriteInner(e, c)
    case Call(_, _) => RewriteInner(e, c)
    case Formatted(_) => RewriteInner(e, c)
    case Tuple(_, _) => RewriteList(e, c)
    case Slice(_) => RewriteList(e, c)
    case Op(_) => RewriteList(e, c)
    case FString(_) => RewriteList(e, c)
    case _ =>
      ExtendsRefl(c);
      (e, c)
  }

  /** The nodes with a single child or a fixed pair of them. */
  function RewriteInner(e: Expr, c: Collector): (r: (Expr, Collector))
    requires e.Attribute? || e.Subscript? || e.Call? || e.Formatted?
    ensures Extends(c, r.1)
    ensures EraseE(r.0) == e
    ensures Free(e) ==> r == (e, c)
    decreases e, 0
  {
    match e
    case Attribute(v, a, ctx) =>
      var (v1, c1) := RewriteE(v, c);
      (Attribute(v1, a, ctx), c1)
    case Subscript(v, sl, ctx) =>
      var (v1, c1) := RewriteE(v, c);
      var (s1, c2) := RewriteE(sl, c1);
      ExtendsTrans(c, c1, c2);
      (Subscript(v1, s1, ctx), c2)
    case Call(f, args) =>
      var (f1, c1) := RewriteE(f, c);
      var (a1, c2) := RewriteEs(args, c1);
      ExtendsTrans(c, c1, c2);
      (Call(f1, a1), c2)
    case Formatted(v) =>
      var (v1, c1) := RewriteE(v, c);
      (Formatted(v1), c1)
  }

  /** The nodes whose children form one list. */
  function RewriteList(e: Expr, c: Collector): (r: (Expr, Collector))
    requires e.Tuple? || e.Slice? || e.Op? || e.FString?
    ensures Extends(c, r.1)
    ensures EraseE(r.0) == e
    ensures Free(e) ==> r == (e, c)
    decreases e, 0
  {
    match e
    case Tuple(es, ctx) =>
      var (es1, c1) := RewriteEs(es, c);
      (Tuple(es1, ctx), c1)
    case Slice(bs) =>
      var (bs1, c1) := RewriteEs(bs, c);
      (Slice(bs1), c1)
    case Op(os) =>
      var (os1, c1) := RewriteEs(os, c);
      (Op(os1), c1)
    case FString(ps) =>
      var (ps1, c1) := RewriteEs(ps, c);
      (FString(ps1), c1)
  }

  /** `visit_GeneratorExp` and `visit_Lambda`: the element (the body)
      is wrapped so that it still evaluates to itself, with one log per
      variable the default collector finds in the node. */
  function RewriteInline(e: Expr, c: Collector): (r: (Expr, Collector))
    requires e.GeneratorExp? || e.Lambda?
    ensures Extends(c, r.1)
    ensures EraseE(r.0) == e
    ensures r.1.variables == c.variables + Collected(e, c).variables
    ensures e.GeneratorExp? ==> r.0 == GeneratorExp(Wrap(c.logTypeId, e.elt, Collected(e, c).variables), e.generators)
    ensures e.Lambda? ==> r.0 == Lambda(e.params, Wrap(c.logTypeId, e.body, Collected(e, c).variables))
  {
    var sub := Collected(e, c);
    if e.GeneratorExp? then
      var w := Wrap(c.logTypeId, e.elt, sub.variables);
      WrapSelects(c.logTypeId, e.elt, sub.variables);
      assert Unwrap(w) == e.elt;
      (GeneratorExp(w, e.generators), Absorb(c, sub))
    else
      var w := Wrap(c.logTypeId, e.body, sub.variables);
      WrapSelects(c.logTypeId, e.body, sub.variables);
      assert Unwrap(w) == e.body;
      (Lambda(e.params, w), Absorb(c, sub))
  }

  function RewriteEs(es: seq<Expr>, c: Collector): (r: (seq<Expr>, Collector))
    ensures Extends(c, r.1)
    ensures EraseEs(r.0) == es
    ensures FreeEs(es) ==> r == (es, c)
    decreases es
  {
    if es == [] then ExtendsRefl(c); ([], c)
    else
      var (x, c1) := RewriteE(es[0], c);
      var (xs, c2) := RewriteEs(es[1..], c1);
      ExtendsTrans(c, c1, c2);
      assert ([x] + xs)[1..] == xs;
      assert FreeEs(es) ==> [x] + xs == es;
      ([x] + xs, c2)
  }

  function RewriteArgs(ps: seq<Arg>, c: Collector): (r: (seq<Arg>, Collector))
    ensures Extends(c, r.1)
    ensures EraseArgs(r.0) == ps
    ensures FreeArgs(ps) ==> r == (ps, c)
    decreases ps
  {
    if ps == [] then ExtendsRefl(c); ([], c)
    else
      var (a, c1) :=
        if ps[0].annotation.None? then (ExtendsRefl(c); (ps[0], c))
        else
          var (x, c0) := RewriteE(ps[0].annotation.value, c);
          (Arg(ps[0].name, Some(x)), c0);
      var (rest, c2) := RewriteArgs(ps[1..], c1);
      ExtendsTrans(c, c1, c2);
      assert ([a] + rest)[1..] == rest;
      assert FreeArgs(ps) ==> [a] + rest == ps;
      ([a] + rest, c2)
  }

  predicate FreeArgs(ps: seq<Arg>)
    decreases ps
  {
    ps == [] || ((ps[0].annotation.None? || Free(ps[0].annotation.value)) && FreeArgs(ps[1..]))
  }

  function EraseArgs(ps: seq<Arg>): seq<Arg>
    decreases ps
  {
    if ps == [] then []
    else
      var a := if ps[0].annotation.None? then ps[0] else Arg(ps[0].name, Some(EraseE(ps[0].annotation.value)));
      [a] + EraseArgs(ps[1..])
  }

  function RewriteOpt(v: Option<Expr>, c: Collector): (r: (Option<Expr>, Collector))
    ensures Extends(c, r.1)
    ensures r.0.Some? == v.Some? && (v.Some? ==> EraseE(r.0.value) == v.value)
    ensures (v.None? || Free(v.value)) ==> r == (v, c)
  {
    if v.None? then ExtendsRefl(c); (None, c)
    else
      var (x, c1) := RewriteE(v.value, c);
      (Some(x), c1)
  }

  predicate FreeS(s: Stmt)
    decreases s
  {
    match s
    case Assign(ts, v, _) => FreeEs(ts) && Free(v)
    case AugAssign(t, v, _) => Free(t) && Free(v)
    case AnnAssign(t, a, v, _) => Free(t) && Free(a) && (v.None? || Free(v.value))
    case ExprStmt(v, _) => Free(v)
    case Simple(_, es, _) => FreeEs(es)
    case Compound(_, ps, h, b, hs, o, f, t, _) =>
      FreeArgs(ps) && FreeEs(h) && FreeSs(b) && FreeSs(hs) && FreeSs(o) && FreeSs(f) && FreeEs(t)
    case Group(ss) => FreeSs(ss)
    case _ => true
  }

  predicate FreeSs(ss: seq<Stmt>)
    decreases ss
  {
    ss == [] || (FreeS(ss[0]) && FreeSs(ss[1..]))
  }

  function EraseS(s: Stmt): Stmt
    decreases s
  {
    match s
    case Assign(ts, v, p) => Assign(EraseEs(ts), EraseE(v), p)
    case AugAssign(t, v, p) => AugAssign(EraseE(t), EraseE(v), p)
    case AnnAssign(t, a, v, p) => AnnAssign(EraseE(t), EraseE(a), if v.None? then None else Some(EraseE(v.value)), p)
    case ExprStmt(v, p) => ExprStmt(EraseE(v), p)
    case Simple(k, es, p) => Simple(k, EraseEs(es), p)
    case Compound(k, ps, h, b, hs, o, f, t, p) =>
      Compound(k, EraseArgs(ps), EraseEs(h), EraseSs(b), EraseSs(hs), EraseSs(o), EraseSs(f), EraseEs(t), p)
    case Group(ss) => Group(EraseSs(ss))
    case _ => s
  }

  function EraseSs(ss: seq<Stmt>): seq<Stmt>
    decreases ss
  {
    if ss == [] then [] else [EraseS(ss[0])] + EraseSs(ss[1..])
  }

  /** `generic_visit` of a statement: every field, in field order. */
  function RewriteS(s: Stmt, c: Collector): (r: (Stmt, Collector))
    ensures Extends(c, r.1)
    ensures EraseS(r.0) == s
    ensures FreeS(s) ==> r == (s, c)
    decreases s, 2
  {
    match s
    case Assign(_, _, _) => RewriteAssign(s, c)
    case AugAssign(_, _, _) => RewriteAssign(s, c)
    case AnnAssign(_, _, _, _) => RewriteAssign(s, c)
    case ExprStmt(v, p) =>
      var (v1, c1) := RewriteE(v, c);
      (ExprStmt(v1, p), c1)
    case Simple(k, es, p) =>
      var (es1, c1) := RewriteEs(es, c);
      (Simple(k, es1, p), c1)
    case Compound(_, _, _, _, _, _, _, _, _) => RewriteCompound(s, c)
    case Group(ss) =>
      var (ss1, c1) := RewriteSs(ss, c);
      (Group(ss1), c1)
    case _ =>
      ExtendsRefl(c);
      (s, c)
  }

  /** The three assignment statements: targets, then annotation and
      value. */
  function RewriteAssign(s: Stmt, c: Collector): (r: (Stmt, Collector))
    requires s.Assign? || s.AugAssign? || s.AnnAssign?
    ensures Extends(c, r.1)
    ensures EraseS(r.0) == s
    ensures FreeS(s) ==> r == (s, c)
    decreases s, 0
  {
    match s
    case Assign(ts, v, p) =>
      var (ts1, c1) := RewriteEs(ts, c);
      var (v1, c2) := RewriteE(v, c1);
      ExtendsTrans(c, c1, c2);
      (Assign(ts1, v1, p), c2)
    case AugAssign(t, v, p) =>
      var (t1, c1) := RewriteE(t, c);
      var (v1, c2) := RewriteE(v, c1);
      ExtendsTrans(c, c1, c2);
      (AugAssign(t1, v1, p), c2)
    case AnnAssign(t, a, v, p) =>
      var (t1, c1) := RewriteE(t, c);
      var (a1, c2) := RewriteE(a, c1);
      var (v1, c3) := RewriteOpt(v, c2);
      ExtendsTrans(c, c1, c2);
      ExtendsTrans(c, c2, c3);
      (AnnAssign(t1, a1, v1, p), c3)
  }

  function RewriteCompound(s: Stmt, c: Collector): (r: (Stmt, Collector))
    requires s.Compound?
    ensures Extends(c, r.1)
    ensures EraseS(r.0) == s
    ensures FreeS(s) ==> r == (s, c)
    decreases s, 1
  {
    var (ps1, c1) := RewriteArgs(s.params, c);
    var (h1, c2) := RewriteEs(s.header, c1);
    var (b1, hs1, o1, f1, c6) := RewriteBlocks(s, c2);
    var (t1, c7) := RewriteEs(s.trailer, c6);
    ExtendsTrans(c, c1, c2);
    ExtendsTrans(c, c2, c6);
    ExtendsTrans(c, c6, c7);
    (Compound(s.kind, ps1, h1, b1, hs1, o1, f1, t1, s.pos), c7)
  }

  /** The four statement lists of a compound statement, in field order. */
  function RewriteBlocks(s: Stmt, c: Collector): (r: (seq<Stmt>, seq<Stmt>, seq<Stmt>, seq<Stmt>, Collector))
    requires s.Compound?
    ensures Extends(c, r.4)
    ensures EraseSs(r.0) == s.body && EraseSs(r.1) == s.handlers
    ensures EraseSs(r.2) == s.orelse && EraseSs(r.3) == s.finalbody
    ensures FreeSs(s.body) && FreeSs(s.handlers) && FreeSs(s.orelse) && FreeSs(s.finalbody) ==>
      r == (s.body, s.handlers, s.orelse, s.finalbody, c)
    decreases s, 0
  {
    var (b1, c1) := RewriteSs(s.body, c);
    var (hs1, c2) := RewriteSs(s.handlers, c1);
    var (o1, c3) := RewriteSs(s.orelse, c2);
    var (f1, c4) := RewriteSs(s.finalbody, c3);
    ExtendsTrans(c, c1, c2);
    ExtendsTrans(c, c2, c3);
    ExtendsTrans(c, c3, c4);
    (b1, hs1, o1, f1, c4)
  }

  function RewriteSs(ss: seq<Stmt>, c: Collector): (r: (seq<Stmt>, Collector))
    ensures Extends(c, r.1)
    ensures EraseSs(r.0) == ss
    ensures FreeSs(ss) ==> r == (ss, c)
    decreases ss
  {
    if ss == [] then ExtendsRefl(c); ([], c)
    else
      var (x, c1) := RewriteS(ss[0], c);
      var (xs, c2) := RewriteSs(ss[1..], c1);
      ExtendsTrans(c, c1, c2);
      assert ([x] + xs)[1..] == xs;
      assert FreeSs(ss) ==> [x] + xs == ss;
      ([x] + xs, c2)
  }

  /** `InlineInjector(node, logTypeId, funcId)`: the rewritten (stripped)
      node and the collector whose `variables` are every record made, all
      numbered on from `counter`.  Erasing the rewrite gives the stripped
      node back, and a node with no generator or lambda in its header is
      left as it is with no records. */
  function Inject(node: Stmt, logTypeId: int, funcId: int, start: int): (r: (Stmt, Collector))
    ensures Extends(New(start, logTypeId, funcId), r.1)
    ensures EraseS(r.0) == Strip(node)
    ensures FreeS(Strip(node)) ==> r.0 == Strip(node) && r.1.variables == [] && r.1.counter == start
  {
    RewriteS(Strip(node), New(start, logTypeId, funcId))
  }

  /** `x = (y for y in ys)`: the generator's element becomes the tuple
      selecting `y`, logging the one variable `y` the generator stores, and
      that record is the injector's only one. */
  lemma GeneratorInAssignment(x: string, y: string, ys: string, lt: int, f: int, counter: int)
    ensures var gen := GeneratorExp(Name(y, Load), [Op([Name(y, Store), Name(ys, Load)])]);
      var r := Inject(Assign([Name(x, Store)], gen, None), lt, f, counter);
      |r.1.variables| == 1 && r.1.variables[0].name == StrC(y) && r.1.variables[0].varId == counter + 1
      && r.0 == Assign([Name(x, Store)],
                       GeneratorExp(Subscript(Tuple([Hook(LtLog(lt)), Name(y, Load), Hook(VarLog(StrC(y), counter + 1))], Load),
                                              Constant(IntC(1)), Load),
                                    [Op([Name(y, Store), Name(ys, Load)])]), None)
  {
    var gen := GeneratorExp(Name(y, Load), [Op([Name(y, Store), Name(ys, Load)])]);
    var c0 := New(counter, lt, f);
    CollectVariableDefault.GeneratorTarget(y, ys, counter, lt, f);
    var sub := Collected(gen, c0);
    assert |sub.variables| == 1 && sub.variables[0].name == StrC(y) && sub.variables[0].syntax == StrC(y);
    assert sub.variables[0].varId == counter + 1;
    assert VarLogs(sub.variables) == [Hook(VarLog(StrC(y), counter + 1))];
    var c1 := RewriteEs([Name(x, Store)], c0);
    assert c1 == ([Name(x, Store)], c0);
  }
}
