/** Transformers whose only `visit_*` method is `visit_Name`: every `Name`
    node is replaced by what the visitor returns for it and every other
    node is rebuilt from its visited children (`generic_visit`).  Their
    inverse replaces chosen nodes back, top-down. */
module NameMap {
  import opened Wrappers
  import opened PyAst

  function MapE(e: Expr, h: Expr -> Expr): Expr
    decreases e
  {
    match e
    case Name(_, _) => h(e)
    case Attribute(v, a, c) => Attribute(MapE(v, h), a, c)
    case Subscript(v, s, c) => Subscript(MapE(v, h), MapE(s, h), c)
    case Constant(_) => e
    case Call(f, args) => Call(MapE(f, h), MapEs(args, h))
    case Tuple(es, c) => Tuple(MapEs(es, h), c)
    case Slice(bs) => Slice(MapEs(bs, h))
    case Lambda(ps, b) => Lambda(MapArgs(ps, h), MapE(b, h))
    case GeneratorExp(elt, gs) => GeneratorExp(MapE(elt, h), MapEs(gs, h))
    case Op(os) => Op(MapEs(os, h))
    case FString(ps) => FString(MapEs(ps, h))
    case Formatted(v) => Formatted(MapE(v, h))
    case RawId(_) => e
    case Hook(_) => e
  }

  function MapEs(es: seq<Expr>, h: Expr -> Expr): (r: seq<Expr>)
    ensures |r| == |es|
    decreases es
  {
    if es == [] then [] else [MapE(es[0], h)] + MapEs(es[1..], h)
  }

  function MapOpt(o: Option<Expr>, h: Expr -> Expr): Option<Expr> {
    match o
    case Some(x) => Some(MapE(x, h))
    case None => None
  }

  function MapArgs(ps: seq<Arg>, h: Expr -> Expr): (r: seq<Arg>)
    ensures |r| == |ps|
    decreases ps
  {
    if ps == [] then []
    else [Arg(ps[0].name, MapOpt(ps[0].annotation, h))] + MapArgs(ps[1..], h)
  }

  /** `generic_visit` of a statement: its expressions and nested statement
      lists; helper-built statements and plain lists are left alone. */
  function MapS(s: Stmt, h: Expr -> Expr): Stmt
    decreases s
  {
    match s
    case Assign(ts, v, p) => Assign(MapEs(ts, h), MapE(v, h), p)
    case AugAssign(t, v, p) => AugAssign(MapE(t, h), MapE(v, h), p)
    case AnnAssign(t, a, v, p) => AnnAssign(MapE(t, h), MapE(a, h), MapOpt(v, h), p)
    case ExprStmt(v, p) => ExprStmt(MapE(v, h), p)
    case Simple(k, es, p) => Simple(k, MapEs(es, h), p)
    case Compound(k, ps, hd, b, hs, o, f, tr, p) =>
      Compound(k, MapArgs(ps, h), MapEs(hd, h), MapSs(b, h), MapSs(hs, h), MapSs(o, h), MapSs(f, h), MapEs(tr, h), p)
    case _ => s
  }

  function MapSs(ss: seq<Stmt>, h: Expr -> Expr): (r: seq<Stmt>)
    ensures |r| == |ss|
    decreases ss
  {
    if ss == [] then [] else [MapS(ss[0], h)] + MapSs(ss[1..], h)
  }

  /** Top-down replacement: a node `u` maps to `Some(n)` becomes `n`;
      every other node is rebuilt from its children. */
  function UnmapE(e: Expr, u: Expr -> Option<Expr>): Expr
    decreases e
  {
    if u(e).Some? then u(e).value
    else match e
      case Name(_, _) => e
      case Attribute(v, a, c) => Attribute(UnmapE(v, u), a, c)
      case Subscript(v, s, c) => Subscript(UnmapE(v, u), UnmapE(s, u), c)
      case Constant(_) => e
      case Call(f, args) => Call(UnmapE(f, u), UnmapEs(args, u))
      case Tuple(es, c) => Tuple(UnmapEs(es, u), c)
      case Slice(bs) => Slice(UnmapEs(bs, u))
      case Lambda(ps, b) => Lambda(UnmapArgs(ps, u), UnmapE(b, u))
      case GeneratorExp(elt, gs) => GeneratorExp(UnmapE(elt, u), UnmapEs(gs, u))
      case Op(os) => Op(UnmapEs(os, u))
      case FString(ps) => FString(UnmapEs(ps, u))
      case Formatted(v) => Formatted(UnmapE(v, u))
      case RawId(_) => e
      case Hook(_) => e
  }

  function UnmapEs(es: seq<Expr>, u: Expr -> Option<Expr>): seq<Expr>
    decreases es
  {
    if es == [] then [] else [UnmapE(es[0], u)] + UnmapEs(es[1..], u)
  }

  function UnmapOpt(o: Option<Expr>, u: Expr -> Option<Expr>): Option<Expr> {
    match o
    case Some(x) => Some(UnmapE(x, u))
    case None => None
  }

  function UnmapArgs(ps: seq<Arg>, u: Expr -> Option<Expr>): seq<Arg>
    decreases ps
  {
    if ps == [] then []
    else [Arg(ps[0].name, UnmapOpt(ps[0].annotation, u))] + UnmapArgs(ps[1..], u)
  }

  function UnmapS(s: Stmt, u: Expr -> Option<Expr>): Stmt
    decreases s
  {
    match s
    case Assign(ts, v, p) => Assign(UnmapEs(ts, u), UnmapE(v, u), p)
    case AugAssign(t, v, p) => AugAssign(UnmapE(t, u), UnmapE(v, u), p)
    case AnnAssign(t, a, v, p) => AnnAssign(UnmapE(t, u), UnmapE(a, u), UnmapOpt(v, u), p)
    case ExprStmt(v, p) => ExprStmt(UnmapE(v, u), p)
    case Simple(k, es, p) => Simple(k, UnmapEs(es, u), p)
    case Compound(k, ps, hd, b, hs, o, f, tr, p) =>
      Compound(k, UnmapArgs(ps, u), UnmapEs(hd, u), UnmapSs(b, u), UnmapSs(hs, u), UnmapSs(o, u), UnmapSs(f, u), UnmapEs(tr, u), p)
    case _ => s
  }

  function UnmapSs(ss: seq<Stmt>, u: Expr -> Option<Expr>): seq<Stmt>
    decreases ss
  {
    if ss == [] then [] else [UnmapS(ss[0], u)] + UnmapSs(ss[1..], u)
  }

  /** Every subscript carries a context instance, as in any tree `ast.parse`
      produces. */
  predicate ParsedE(e: Expr)
    decreases e
  {
    match e
    case Subscript(v, s, c) => c != NoCtx && ParsedE(v) && ParsedE(s)
    case Attribute(v, _, _) => ParsedE(v)
    case Call(f, args) => ParsedE(f) && ParsedEs(args)
    case Tuple(es, _) => ParsedEs(es)
    case Slice(bs) => ParsedEs(bs)
    case Lambda(ps, b) => ParsedArgs(ps) && ParsedE(b)
    case GeneratorExp(elt, gs) => ParsedE(elt) && ParsedEs(gs)
    case Op(os) => ParsedEs(os)
    case FString(ps) => ParsedEs(ps)
    case Formatted(v) => ParsedE(v)
    case _ => true
  }

  predicate ParsedEs(es: seq<Expr>)
    decreases es
  {
    es == [] || (ParsedE(es[0]) && ParsedEs(es[1..]))
  }

  predicate ParsedArgs(ps: seq<Arg>)
    decreases ps
  {
    ps == [] || ((ps[0].annotation.None? || ParsedE(ps[0].annotation.value)) && ParsedArgs(ps[1..]))
  }

  predicate ParsedS(s: Stmt)
    decreases s
  {
    match s
    case Assign(ts, v, _) => ParsedEs(ts) && ParsedE(v)
    case AugAssign(t, v, _) => ParsedE(t) && ParsedE(v)
    case AnnAssign(t, a, v, _) => ParsedE(t) && ParsedE(a) && (v.None? || ParsedE(v.value))
    case ExprStmt(v, _) => ParsedE(v)
    case Simple(_, es, _) => ParsedEs(es)
    case Compound(_, ps, hd, b, hs, o, f, tr, _) =>
      ParsedArgs(ps) && ParsedEs(hd) && ParsedSs(b) && ParsedSs(hs) && ParsedSs(o) && ParsedSs(f) && ParsedEs(tr)
    case _ => true
  }

  predicate ParsedSs(ss: seq<Stmt>)
    decreases ss
  {
    ss == [] || (ParsedS(ss[0]) && ParsedSs(ss[1..]))
  }

  /** `u` undoes `h` on names and only ever matches subscripts without a
      context instance. */
  ghost predicate Undoes(h: Expr -> Expr, u: Expr -> Option<Expr>) {
    && (forall n: Expr {:trigger h(n)} :: n.Name? ==> u(h(n)) == Some(n) || (h(n) == n && u(n).None?))
    && (forall x: Expr {:trigger u(x)} :: u(x).Some? ==> x.Subscript? && x.ctx == NoCtx)
  }

  lemma {:induction false} UnmapMapE(e: Expr, h: Expr -> Expr, u: Expr -> Option<Expr>)
    requires Undoes(h, u) && ParsedE(e)
    ensures UnmapE(MapE(e, h), u) == e
    decreases e
  {
    match e
    case Name(_, _) =>
    case Attribute(v, a, c) => UnmapMapE(v, h, u);
    case Subscript(v, s, c) => UnmapMapE(v, h, u); UnmapMapE(s, h, u);
    case Constant(_) =>
    case Call(f, args) => UnmapMapE(f, h, u); UnmapMapEs(args, h, u);
    case Tuple(es, c) => UnmapMapEs(es, h, u);
    case Slice(bs) => UnmapMapEs(bs, h, u);
    case Lambda(ps, b) => UnmapMapArgs(ps, h, u); UnmapMapE(b, h, u);
    case GeneratorExp(elt, gs) => UnmapMapE(elt, h, u); UnmapMapEs(gs, h, u);
    case Op(os) => UnmapMapEs(os, h, u);
    case FString(ps) => UnmapMapEs(ps, h, u);
    case Formatted(v) => UnmapMapE(v, h, u);
    case RawId(_) =>
    case Hook(_) =>
  }

  lemma {:induction false} UnmapMapEs(es: seq<Expr>, h: Expr -> Expr, u: Expr -> Option<Expr>)
    requires Undoes(h, u) && ParsedEs(es)
    ensures UnmapEs(MapEs(es, h), u) == es
    decreases es
  {
    if es != [] {
      UnmapMapE(es[0], h, u);
      UnmapMapEs(es[1..], h, u);
      assert MapEs(es, h)[1..] == MapEs(es[1..], h);
    }
  }

  lemma {:induction false} UnmapMapArgs(ps: seq<Arg>, h: Expr -> Expr, u: Expr -> Option<Expr>)
    requires Undoes(h, u) && ParsedArgs(ps)
    ensures UnmapArgs(MapArgs(ps, h), u) == ps
    decreases ps
  {
    if ps != [] {
      if ps[0].annotation.Some? {
        UnmapMapE(ps[0].annotation.value, h, u);
      }
      UnmapMapArgs(ps[1..], h, u);
      assert MapArgs(ps, h)[1..] == MapArgs(ps[1..], h);
    }
  }

  lemma {:induction false} UnmapMapS(s: Stmt, h: Expr -> Expr, u: Expr -> Option<Expr>)
    requires Undoes(h, u) && ParsedS(s)
    ensures UnmapS(MapS(s, h), u) == s
    decreases s
  {
    match s
    case Assign(ts, v, p) => UnmapMapEs(ts, h, u); UnmapMapE(v, h, u);
    case AugAssign(t, v, p) => UnmapMapE(t, h, u); UnmapMapE(v, h, u);
    case AnnAssign(t, a, v, p) =>
      UnmapMapE(t, h, u); UnmapMapE(a, h, u);
      if v.Some? { UnmapMapE(v.value, h, u); }
    case ExprStmt(v, p) => UnmapMapE(v, h, u);
    case Simple(k, es, p) => UnmapMapEs(es, h, u);
    case Compound(k, ps, hd, b, hs, o, f, tr, p) =>
      UnmapMapArgs(ps, h, u); UnmapMapEs(hd, h, u); UnmapMapEs(tr, h, u);
      UnmapMapSs(b, h, u); UnmapMapSs(hs, h, u); UnmapMapSs(o, h, u); UnmapMapSs(f, h, u);
    case _ =>
  }

  lemma {:induction false} UnmapMapSs(ss: seq<Stmt>, h: Expr -> Expr, u: Expr -> Option<Expr>)
    requires Undoes(h, u) && ParsedSs(ss)
    ensures UnmapSs(MapSs(ss, h), u) == ss
    decreases ss
  {
    if ss != [] {
      UnmapMapS(ss[0], h, u);
      UnmapMapSs(ss[1..], h, u);
      assert MapSs(ss, h)[1..] == MapSs(ss[1..], h);
    }
  }

  /** What `h` returns for a name is left alone by a second pass. */
  ghost predicate Stable(h: Expr -> Expr) {
    forall n: Expr {:trigger h(n)} :: n.Name? ==> MapE(h(n), h) == h(n)
  }

  lemma {:induction false} MapTwiceE(e: Expr, h: Expr -> Expr)
    requires Stable(h)
    ensures MapE(MapE(e, h), h) == MapE(e, h)
    decreases e
  {
    match e
    case Name(_, _) =>
    case Attribute(v, a, c) => MapTwiceE(v, h);
    case Subscript(v, s, c) => MapTwiceE(v, h); MapTwiceE(s, h);
    case Constant(_) =>
    case Call(f, args) => MapTwiceE(f, h); MapTwiceEs(args, h);
    case Tuple(es, c) => MapTwiceEs(es, h);
    case Slice(bs) => MapTwiceEs(bs, h);
    case Lambda(ps, b) => MapTwiceArgs(ps, h); MapTwiceE(b, h);
    case GeneratorExp(elt, gs) => MapTwiceE(elt, h); MapTwiceEs(gs, h);
    case Op(os) => MapTwiceEs(os, h);
    case FString(ps) => MapTwiceEs(ps, h);
    case Formatted(v) => MapTwiceE(v, h);
    case RawId(_) =>
    case Hook(_) =>
  }

  lemma {:induction false} MapTwiceEs(es: seq<Expr>, h: Expr -> Expr)
    requires Stable(h)
    ensures MapEs(MapEs(es, h), h) == MapEs(es, h)
    decreases es
  {
    if es != [] {
      MapTwiceE(es[0], h);
      MapTwiceEs(es[1..], h);
      assert MapEs(es, h)[1..] == MapEs(es[1..], h);
    }
  }

  lemma {:induction false} MapTwiceArgs(ps: seq<Arg>, h: Expr -> Expr)
    requires Stable(h)
    ensures MapArgs(MapArgs(ps, h), h) == MapArgs(ps, h)
    decreases ps
  {
    if ps != [] {
      if ps[0].annotation.Some? {
        MapTwiceE(ps[0].annotation.value, h);
      }
      MapTwiceArgs(ps[1..], h);
      assert MapArgs(ps, h)[1..] == MapArgs(ps[1..], h);
    }
  }

  lemma {:induction false} MapTwiceS(s: Stmt, h: Expr -> Expr)
    requires Stable(h)
    ensures MapS(MapS(s, h), h) == MapS(s, h)
    decreases s
  {
    match s
    case Assign(ts, v, p) => MapTwiceEs(ts, h); MapTwiceE(v, h);
    case AugAssign(t, v, p) => MapTwiceE(t, h); MapTwiceE(v, h);
    case AnnAssign(t, a, v, p) =>
      MapTwiceE(t, h); MapTwiceE(a, h);
      if v.Some? { MapTwiceE(v.value, h); }
    case ExprStmt(v, p) => MapTwiceE(v, h);
    case Simple(k, es, p) => MapTwiceEs(es, h);
    case Compound(k, ps, hd, b, hs, o, f, tr, p) =>
      MapTwiceArgs(ps, h); MapTwiceEs(hd, h); MapTwiceEs(tr, h);
      MapTwiceSs(b, h); MapTwiceSs(hs, h); MapTwiceSs(o, h); MapTwiceSs(f, h);
    case _ =>
  }

  lemma {:induction false} MapTwiceSs(ss: seq<Stmt>, h: Expr -> Expr)
    requires Stable(h)
    ensures MapSs(MapSs(ss, h), h) == MapSs(ss, h)
    decreases ss
  {
    if ss != [] {
      MapTwiceS(ss[0], h);
      MapTwiceSs(ss[1..], h);
      assert MapSs(ss, h)[1..] == MapSs(ss[1..], h);
    }
  }

  /** Every `Name` node the transformer reaches satisfies `p`: the nodes
      `MapE`/`MapS` hand to the visitor, and no others. */
  predicate NamesE(e: Expr, p: Expr -> bool)
    decreases e
  {
    match e
    case Name(_, _) => p(e)
    case Attribute(v, _, _) => NamesE(v, p)
    case Subscript(v, s, _) => NamesE(v, p) && NamesE(s, p)
    case Call(f, args) => NamesE(f, p) && NamesEs(args, p)
    case Tuple(es, _) => NamesEs(es, p)
    case Slice(bs) => NamesEs(bs, p)
    case Lambda(ps, b) => NamesArgs(ps, p) && NamesE(b, p)
    case GeneratorExp(elt, gs) => NamesE(elt, p) && NamesEs(gs, p)
    case Op(os) => NamesEs(os, p)
    case FString(ps) => NamesEs(ps, p)
    case Formatted(v) => NamesE(v, p)
    case _ => true
  }

  predicate NamesEs(es: seq<Expr>, p: Expr -> bool)
    decreases es
  {
    es == [] || (NamesE(es[0], p) && NamesEs(es[1..], p))
  }

  predicate NamesArgs(ps: seq<Arg>, p: Expr -> bool)
    decreases ps
  {
    ps == [] || ((ps[0].annotation.None? || NamesE(ps[0].annotation.value, p)) && NamesArgs(ps[1..], p))
  }

  predicate NamesS(s: Stmt, p: Expr -> bool)
    decreases s
  {
    match s
    case Assign(ts, v, _) => NamesEs(ts, p) && NamesE(v, p)
    case AugAssign(t, v, _) => NamesE(t, p) && NamesE(v, p)
    case AnnAssign(t, a, v, _) => NamesE(t, p) && NamesE(a, p) && (v.None? || NamesE(v.value, p))
    case ExprStmt(v, _) => NamesE(v, p)
    case Simple(_, es, _) => NamesEs(es, p)
    case Compound(_, ps, hd, b, hs, o, f, tr, _) =>
      NamesArgs(ps, p) && NamesEs(hd, p) && NamesSs(b, p) && NamesSs(hs, p) && NamesSs(o, p) && NamesSs(f, p) && NamesEs(tr, p)
    case _ => true
  }

  predicate NamesSs(ss: seq<Stmt>, p: Expr -> bool)
    decreases ss
  {
    ss == [] || (NamesS(ss[0], p) && NamesSs(ss[1..], p))
  }

  /** What `h` returns for any name has only names satisfying `p`. */
  ghost predicate Yields(h: Expr -> Expr, p: Expr -> bool) {
    forall n: Expr {:trigger h(n)} :: n.Name? ==> NamesE(h(n), p)
  }

  lemma {:induction false} MapNamesE(e: Expr, h: Expr -> Expr, p: Expr -> bool)
    requires Yields(h, p)
    ensures NamesE(MapE(e, h), p)
    decreases e
  {
    match e
    case Name(_, _) =>
    case Attribute(v, a, c) => MapNamesE(v, h, p);
    case Subscript(v, s, c) => MapNamesE(v, h, p); MapNamesE(s, h, p);
    case Constant(_) =>
    case Call(f, args) => MapNamesE(f, h, p); MapNamesEs(args, h, p);
    case Tuple(es, c) => MapNamesEs(es, h, p);
    case Slice(bs) => MapNamesEs(bs, h, p);
    case Lambda(ps, b) => MapNamesArgs(ps, h, p); MapNamesE(b, h, p);
    case GeneratorExp(elt, gs) => MapNamesE(elt, h, p); MapNamesEs(gs, h, p);
    case Op(os) => MapNamesEs(os, h, p);
    case FString(ps) => MapNamesEs(ps, h, p);
    case Formatted(v) => MapNamesE(v, h, p);
    case RawId(_) =>
    case Hook(_) =>
  }

  lemma {:induction false} MapNamesEs(es: seq<Expr>, h: Expr -> Expr, p: Expr -> bool)
    requires Yields(h, p)
    ensures NamesEs(MapEs(es, h), p)
    decreases es
  {
    if es != [] {
      MapNamesE(es[0], h, p);
      MapNamesEs(es[1..], h, p);
      assert MapEs(es, h)[1..] == MapEs(es[1..], h);
    }
  }

  lemma {:induction false} MapNamesArgs(ps: seq<Arg>, h: Expr -> Expr, p: Expr -> bool)
    requires Yields(h, p)
    ensures NamesArgs(MapArgs(ps, h), p)
    decreases ps
  {
    if ps != [] {
      if ps[0].annotation.Some? {
        MapNamesE(ps[0].annotation.value, h, p);
      }
      MapNamesArgs(ps[1..], h, p);
      assert MapArgs(ps, h)[1..] == MapArgs(ps[1..], h);
    }
  }

  /** After the transformer, every name it reached is one `h` produced. */
  lemma {:induction false} MapNamesS(s: Stmt, h: Expr -> Expr, p: Expr -> bool)
    requires Yields(h, p)
    ensures NamesS(MapS(s, h), p)
    decreases s
  {
    match s
    case Assign(ts, v, _) => MapNamesEs(ts, h, p); MapNamesE(v, h, p);
    case AugAssign(t, v, _) => MapNamesE(t, h, p); MapNamesE(v, h, p);
    case AnnAssign(t, a, v, _) =>
      MapNamesE(t, h, p); MapNamesE(a, h, p);
      if v.Some? { MapNamesE(v.value, h, p); }
    case ExprStmt(v, _) => MapNamesE(v, h, p);
    case Simple(_, es, _) => MapNamesEs(es, h, p);
    case Compound(_, ps, hd, b, hs, o, f, tr, _) =>
      MapNamesArgs(ps, h, p); MapNamesEs(hd, h, p); MapNamesEs(tr, h, p);
      MapNamesSs(b, h, p); MapNamesSs(hs, h, p); MapNamesSs(o, h, p); MapNamesSs(f, h, p);
    case _ =>
  }

  lemma {:induction false} MapNamesSs(ss: seq<Stmt>, h: Expr -> Expr, p: Expr -> bool)
    requires Yields(h, p)
    ensures NamesSs(MapSs(ss, h), p)
    decreases ss
  {
    if ss != [] {
      MapNamesS(ss[0], h, p);
      MapNamesSs(ss[1..], h, p);
      assert MapSs(ss, h)[1..] == MapSs(ss[1..], h);
    }
  }
}
