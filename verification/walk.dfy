/** `ast.walk` and `ast.iter_child_nodes` over the abstract syntax tree.

    `ast.walk` keeps a first-in first-out queue: it yields a node, then
    enqueues its children in field order.  Its output is therefore the tree
    in level order, which is how `Walk` is defined here.  Every node carries
    its path from the root (child indices), which gives the node an identity
    independent of its contents, as Python object identity does. */
module Walk {
  import opened Wrappers
  import opened PyAst

  /** Any node of the tree.  `Params` is the `ast.arguments` node that sits
      between a function or lambda and its `arg` nodes. */
  datatype Node = S(s: Stmt) | E(e: Expr) | A(a: Arg) | Params(args: seq<Arg>)

  datatype Located = At(path: seq<nat>, n: Node)

  function Es(es: seq<Expr>): (r: seq<Node>)
    ensures |r| == |es| && forall i :: 0 <= i < |es| ==> r[i] == E(es[i])
  {
    if es == [] then [] else [E(es[0])] + Es(es[1..])
  }

  function Ss(ss: seq<Stmt>): (r: seq<Node>)
    ensures |r| == |ss| && forall i :: 0 <= i < |ss| ==> r[i] == S(ss[i])
  {
    if ss == [] then [] else [S(ss[0])] + Ss(ss[1..])
  }

  function As(args: seq<Arg>): (r: seq<Node>)
    ensures |r| == |args| && forall i :: 0 <= i < |args| ==> r[i] == A(args[i])
  {
    if args == [] then [] else [A(args[0])] + As(args[1..])
  }

  function OptE(e: Option<Expr>): seq<Node> {
    if e.Some? then [E(e.value)] else []
  }

  /** `ast.iter_child_nodes`, leaving out the context, operator and alias
      leaves, which no visitor of the instrumenter looks at. */
  function Children(n: Node): seq<Node> {
    match n
    case S(s) => StmtChildren(s)
    case E(e) => ExprChildren(e)
    case A(a) => OptE(a.annotation)
    case Params(args) => As(args)
  }

  function StmtChildren(s: Stmt): seq<Node> {
    match s
    case Assign(ts, v, _) => Es(ts) + [E(v)]
    case AugAssign(t, v, _) => [E(t), E(v)]
    case AnnAssign(t, a, v, _) => [E(t), E(a)] + OptE(v)
    case ExprStmt(v, _) => [E(v)]
    case Global(_, _) => []
    case Import(_, _) => []
    case ImportFrom(_, _, _) => []
    case Simple(_, es, _) => Es(es)
    case Compound(k, ps, h, b, hs, o, f, t, _) =>
      (if k.FunctionK? then [Params(ps)] else []) + Es(h) + Ss(b) + Ss(hs) + Ss(o) + Ss(f) + Es(t)
    case Marker(_) => []
    case Group(ss) => Ss(ss)
  }

  function ExprChildren(e: Expr): seq<Node> {
    match e
    case Name(_, _) => []
    case Attribute(v, _, _) => [E(v)]
    case Subscript(v, sl, _) => [E(v), E(sl)]
    case Constant(_) => []
    case Call(f, args) => [E(f)] + Es(args)
    case Tuple(elts, _) => Es(elts)
    case Slice(bs) => Es(bs)
    case Lambda(ps, b) => [Params(ps), E(b)]
    case GeneratorExp(elt, gens) => [E(elt)] + Es(gens)
    case Op(xs) => Es(xs)
    case FString(xs) => Es(xs)
    case Formatted(v) => [E(v)]
    case RawId(_) => []
    case Hook(_) => []
  }

  function Max(a: nat, b: nat): nat { if a < b then b else a }

  function HE(e: Expr): nat
    decreases e
  {
    match e
    case Name(_, _) => 1
    case Attribute(v, _, _) => 1 + HE(v)
    case Subscript(v, sl, _) => 1 + Max(HE(v), HE(sl))
    case Constant(_) => 1
    case Call(f, args) => 1 + Max(HE(f), HEs(args))
    case Tuple(elts, _) => 1 + HEs(elts)
    case Slice(bs) => 1 + HEs(bs)
    case Lambda(ps, b) => 1 + Max(1 + HAs(ps), HE(b))
    case GeneratorExp(elt, gens) => 1 + Max(HE(elt), HEs(gens))
    case Op(xs) => 1 + HEs(xs)
    case FString(xs) => 1 + HEs(xs)
    case Formatted(v) => 1 + HE(v)
    case RawId(_) => 1
    case Hook(_) => 1
  }

  function HEs(es: seq<Expr>): nat
    decreases es
  {
    if es == [] then 0 else Max(HE(es[0]), HEs(es[1..]))
  }

  function HA(a: Arg): nat
    decreases a
  {
    if a.annotation.Some? then 1 + HE(a.annotation.value) else 1
  }

  function HAs(args: seq<Arg>): nat
    decreases args
  {
    if args == [] then 0 else Max(HA(args[0]), HAs(args[1..]))
  }

  function HS(s: Stmt): nat
    decreases s
  {
    match s
    case Assign(ts, v, _) => 1 + Max(HEs(ts), HE(v))
    case AugAssign(t, v, _) => 1 + Max(HE(t), HE(v))
    case AnnAssign(t, a, v, _) => 1 + Max(Max(HE(t), HE(a)), if v.Some? then HE(v.value) else 0)
    case ExprStmt(v, _) => 1 + HE(v)
    case Global(_, _) => 1
    case Import(_, _) => 1
    case ImportFrom(_, _, _) => 1
    case Simple(_, es, _) => 1 + HEs(es)
    case Compound(_, ps, h, b, hs, o, f, t, _) =>
      1 + Max(Max(Max(1 + HAs(ps), HEs(h)), Max(HSs(b), HSs(hs))), Max(Max(HSs(o), HSs(f)), HEs(t)))
    case Marker(_) => 1
    case Group(ss) => 1 + HSs(ss)
  }

  function HSs(ss: seq<Stmt>): nat
    decreases ss
  {
    if ss == [] then 0 else Max(HS(ss[0]), HSs(ss[1..]))
  }

  /** The height of a node: one more than the height of its tallest child. */
  function Height(n: Node): nat {
    match n
    case S(s) => HS(s)
    case E(e) => HE(e)
    case A(a) => HA(a)
    case Params(args) => 1 + HAs(args)
  }

  lemma {:induction false} HEsBound(es: seq<Expr>, i: nat)
    requires i < |es|
    ensures HE(es[i]) <= HEs(es)
    decreases i
  {
    if i > 0 { HEsBound(es[1..], i - 1); }
  }

  lemma {:induction false} HSsBound(ss: seq<Stmt>, i: nat)
    requires i < |ss|
    ensures HS(ss[i]) <= HSs(ss)
    decreases i
  {
    if i > 0 { HSsBound(ss[1..], i - 1); }
  }

  lemma {:induction false} HAsBound(args: seq<Arg>, i: nat)
    requires i < |args|
    ensures HA(args[i]) <= HAs(args)
    decreases i
  {
    if i > 0 { HAsBound(args[1..], i - 1); }
  }

  lemma EsLower(es: seq<Expr>, bound: nat)
    requires HEs(es) < bound
    ensures forall c :: c in Es(es) ==> Height(c) < bound
  {
    forall c | c in Es(es) ensures Height(c) < bound {
      var i :| 0 <= i < |es| && Es(es)[i] == c;
      HEsBound(es, i);
    }
  }

  lemma SsLower(ss: seq<Stmt>, bound: nat)
    requires HSs(ss) < bound
    ensures forall c :: c in Ss(ss) ==> Height(c) < bound
  {
    forall c | c in Ss(ss) ensures Height(c) < bound {
      var i :| 0 <= i < |ss| && Ss(ss)[i] == c;
      HSsBound(ss, i);
    }
  }

  lemma AsLower(args: seq<Arg>, bound: nat)
    requires HAs(args) < bound
    ensures forall c :: c in As(args) ==> Height(c) < bound
  {
    forall c | c in As(args) ensures Height(c) < bound {
      var i :| 0 <= i < |args| && As(args)[i] == c;
      HAsBound(args, i);
    }
  }

  /** Every child is strictly lower than its parent. */
  lemma ChildrenLower(n: Node)
    ensures forall c :: c in Children(n) ==> Height(c) < Height(n)
  {
    match n
    case S(s) => StmtChildrenLower(s);
    case E(e) => ExprChildrenLower(e);
    case A(_) =>
    case Params(args) => AsLower(args, Height(n));
  }

  lemma StmtChildrenLower(s: Stmt)
    ensures forall c :: c in Children(S(s)) ==> Height(c) < Height(S(s))
  {
    var h := Height(S(s));
    match s {
      case Assign(ts, v, _) => EsLower(ts, h);
      case Simple(_, es, _) => EsLower(es, h);
      case Compound(_, _, _, _, _, _, _, _, _) => CompoundChildrenLower(s);
      case Group(ss) => SsLower(ss, h);
      case _ =>
    }
  }

  lemma CompoundChildrenLower(s: Stmt)
    requires s.Compound?
    ensures forall c :: c in StmtChildren(s) ==> Height(c) < Height(S(s))
  {
    var h := Height(S(s));
    var cs := StmtChildren(s);
    var front := (if s.kind.FunctionK? then [Params(s.params)] else []) + Es(s.header);
    assert cs == front + Ss(s.body) + Ss(s.handlers) + Ss(s.orelse) + Ss(s.finalbody) + Es(s.trailer);
    EsLower(s.header, h); SsLower(s.body, h); SsLower(s.handlers, h);
    SsLower(s.orelse, h); SsLower(s.finalbody, h); EsLower(s.trailer, h);
  }

  lemma ExprChildrenLower(e: Expr)
    ensures forall c :: c in Children(E(e)) ==> Height(c) < Height(E(e))
  {
    var h := Height(E(e));
    match e {
      case Call(_, args) => EsLower(args, h);
      case Tuple(elts, _) => EsLower(elts, h);
      case Slice(bs) => EsLower(bs, h);
      case GeneratorExp(_, gens) => EsLower(gens, h);
      case Op(xs) => EsLower(xs, h);
      case FString(xs) => EsLower(xs, h);
      case _ =>
    }
  }

  function ChildrenAt(l: Located): (r: seq<Located>)
    ensures |r| == |Children(l.n)|
    ensures forall i :: 0 <= i < |r| ==> r[i] == At(l.path + [i], Children(l.n)[i])
  {
    var cs := Children(l.n);
    seq(|cs|, i requires 0 <= i < |cs| => At(l.path + [i], cs[i]))
  }

  /** The children of every node of a level, level by level. */
  function NextLevel(level: seq<Located>): seq<Located> {
    if level == [] then [] else ChildrenAt(level[0]) + NextLevel(level[1..])
  }

  function MaxHeight(level: seq<Located>): nat {
    if level == [] then 0 else Max(Height(level[0].n), MaxHeight(level[1..]))
  }

  lemma {:induction false} MaxHeightConcat(a: seq<Located>, b: seq<Located>)
    ensures MaxHeight(a + b) == Max(MaxHeight(a), MaxHeight(b))
    decreases |a|
  {
    if a != [] {
      assert (a + b)[1..] == a[1..] + b;
      MaxHeightConcat(a[1..], b);
    } else {
      assert a + b == b;
    }
  }

  lemma {:induction false} MaxHeightBelow(level: seq<Located>, bound: nat)
    requires forall l :: l in level ==> Height(l.n) < bound
    ensures MaxHeight(level) < bound || level == []
    ensures level == [] ==> MaxHeight(level) == 0
    decreases |level|
  {
    if level != [] {
      MaxHeightBelow(level[1..], bound);
    }
  }

  /** The next level is strictly lower than the current one. */
  lemma {:induction false} NextLevelLower(level: seq<Located>)
    requires level != []
    ensures MaxHeight(NextLevel(level)) < MaxHeight(level)
    decreases |level|
  {
    var x := level[0];
    ChildrenLower(x.n);
    MaxHeightBelow(ChildrenAt(x), Height(x.n));
    MaxHeightConcat(ChildrenAt(x), NextLevel(level[1..]));
    if level[1..] != [] {
      NextLevelLower(level[1..]);
    } else {
      assert NextLevel(level[1..]) == [];
    }
  }

  /** The nodes reachable from a level, in `ast.walk` order. */
  function WalkLevels(level: seq<Located>): seq<Located>
    decreases MaxHeight(level)
  {
    if level == [] then []
    else
      NextLevelLower(level);
      level + WalkLevels(NextLevel(level))
  }

  /** `ast.walk(n)`: the node itself, then its descendants in level order. */
  function WalkAt(n: Node): (r: seq<Located>)
    ensures |r| > 0 && r[0] == At([], n)
  {
    WalkLevels([At([], n)])
  }

  /** Two leaves end the walk. */
  lemma LeafPairWalk(a: Located, b: Located)
    requires Children(a.n) == [] && Children(b.n) == []
    ensures WalkLevels([a, b]) == [a, b]
  {
    assert ChildrenAt(a) == [] && ChildrenAt(b) == [];
    assert [b][1..] == [] && [a, b][1..] == [b];
    assert NextLevel([b]) == [];
    assert NextLevel([a, b]) == [];
    assert WalkLevels([]) == [];
  }

  /** A leaf ends the walk. */
  lemma LeafWalk(a: Located)
    requires Children(a.n) == []
    ensures WalkLevels([a]) == [a]
  {
    assert ChildrenAt(a) == [];
    assert [a][1..] == [];
    assert NextLevel([a]) == [];
    assert WalkLevels([]) == [];
  }
}
