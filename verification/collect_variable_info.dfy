/** `CollectVariableInfo`: the early key collector over a whole statement.

    It differs from `CollectAssignVarInfo` in three ways: every index that
    is not a constant or a name is hoisted, slices and tuples included; the
    node walked is any statement, every field of which is visited; and the
    first key is popped unconditionally, so a statement without any key
    raises.  The hoisted index is replaced by a name built with the class
    `ast.Load` rather than an instance, which is `NoCtx` here. */
module CollectVariableInfo {
  import opened Wrappers
  import opened PyAst
  import opened Text
  import opened VariableCollectorBase
  import K = CollectAssignVarInfo

  /** A record: `varId`, `name`, `keys`, `syntax`, `node` and `isTemp`. */
  datatype Info = Info(varId: int, name: Const, keys: seq<Key>, syntax: Const, node: Option<Expr>, isTemp: bool)

  /** The module counter `VAR_COUNT`, the key list and the records. */
  datatype IState = IState(counter: int, keys: seq<Key>, vars: seq<Info>)

  /** `getVarInfo`. */
  function GetVarInfo(st: IState, name: Const, keys: seq<Key>, syntax: Const, node: Option<Expr>): (r: IState)
    ensures r.counter == st.counter + 1 && r.keys == st.keys
    ensures r.vars == st.vars + [Info(st.counter + 1, name, keys, syntax, node, node.Some?)]
  {
    IState(st.counter + 1, st.keys, st.vars + [Info(st.counter + 1, name, keys, syntax, node, node.Some?)])
  }

  /** A record for a hoisted index. */
  predicate IsTemp(v: Info) {
    v.isTemp && v.node.Some? && v.keys == [] && v.name == v.syntax && v.name.StrC? && StartsWith(v.name.s, K.TempPrefix)
  }

  /** `b` is a later state than `a`: keys and records are only appended,
      every record appended is a hoisted index numbered on from `a`'s
      counter, with one temporary key per such record. */
  predicate Grows(a: IState, b: IState) {
    && a.counter <= b.counter
    && |b.vars| == |a.vars| + (b.counter - a.counter)
    && b.vars[..|a.vars|] == a.vars
    && |a.keys| <= |b.keys| && b.keys[..|a.keys|] == a.keys
    && K.TempCount(b.keys) - K.TempCount(a.keys) == |b.vars| - |a.vars|
    && forall i :: |a.vars| <= i < |b.vars| ==> IsTemp(b.vars[i]) && b.vars[i].varId == a.counter + 1 + (i - |a.vars|)
  }

  lemma GrowsRefl(a: IState)
    ensures Grows(a, a)
  {
  }

  lemma GrowsTrans(a: IState, b: IState, c: IState)
    requires Grows(a, b) && Grows(b, c)
    ensures Grows(a, c)
  {
    assert c.keys[..|a.keys|] == c.keys[..|b.keys|][..|a.keys|];
    assert c.vars[..|a.vars|] == c.vars[..|b.vars|][..|a.vars|];
    forall i | |a.vars| <= i < |c.vars|
      ensures IsTemp(c.vars[i]) && c.vars[i].varId == a.counter + 1 + (i - |a.vars|)
    {
      if i < |b.vars| {
        assert c.vars[i] == c.vars[..|b.vars|][i];
      }
    }
  }

  /** `self.keys.append(...)` of every key of `ks`. */
  function AddKeys(st: IState, ks: seq<Key>): IState {
    st.(keys := st.keys + ks)
  }

  lemma AddKeysTwice(st: IState, a: seq<Key>, b: seq<Key>)
    ensures AddKeys(AddKeys(st, a), b) == AddKeys(st, a + b)
  {
    assert st.keys + a + b == st.keys + (a + b);
  }

  lemma AddNothing(st: IState)
    ensures AddKeys(st, []) == st
  {
    assert st.keys + [] == st.keys;
  }

  /** Appending keys other than temporaries is growth. */
  lemma AddKeyGrows(st: IState, k: Key)
    requires k.kind != TempKey
    ensures Grows(st, AddKeys(st, [k]))
  {
    var b := AddKeys(st, [k]);
    assert b.keys[..|b.keys| - 1] == st.keys;
    assert b.vars[..|st.vars|] == st.vars;
  }

  /** Every index left is a constant or a name. */
  predicate Named(e: Expr)
    decreases e
  {
    match e
    case Name(_, _) => true
    case Attribute(v, _, _) => Named(v)
    case Subscript(v, sl, _) => (sl.Constant? || sl.Name?) && Named(v) && Named(sl)
    case Constant(_) => true
    case Call(f, args) => Named(f) && NamedEs(args)
    case Tuple(es, _) => NamedEs(es)
    case Slice(bs) => NamedEs(bs)
    case Lambda(ps, b) => NamedArgs(ps) && Named(b)
    case GeneratorExp(elt, gs) => Named(elt) && NamedEs(gs)
    case Op(os) => NamedEs(os)
    case FString(ps) => NamedEs(ps)
    case Formatted(v) => Named(v)
    case RawId(_) => true
    case Hook(_) => true
  }

  predicate NamedEs(es: seq<Expr>)
    decreases es
  {
    es == [] || (Named(es[0]) && NamedEs(es[1..]))
  }

  predicate NamedArgs(ps: seq<Arg>)
    decreases ps
  {
    ps == [] || ((ps[0].annotation.None? || Named(ps[0].annotation.value)) && NamedArgs(ps[1..]))
  }

  predicate NamedS(s: Stmt)
    decreases s
  {
    match s
    case Assign(ts, v, _) => NamedEs(ts) && Named(v)
    case AugAssign(t, v, _) => Named(t) && Named(v)
    case AnnAssign(t, a, v, _) => Named(t) && Named(a) && (v.None? || Named(v.value))
    case ExprStmt(v, _) => Named(v)
    case Simple(_, es, _) => NamedEs(es)
    case Compound(_, ps, h, b, hs, o, f, t, _) =>
      NamedArgs(ps) && NamedEs(h) && NamedSs(b) && NamedSs(hs) && NamedSs(o) && NamedSs(f) && NamedEs(t)
    case Group(ss) => NamedSs(ss)
    case _ => true
  }

  predicate NamedSs(ss: seq<Stmt>)
    decreases ss
  {
    ss == [] || (NamedS(ss[0]) && NamedSs(ss[1..]))
  }

  /** The keys of a tree whose indices are all constants or names: one per
      name (a variable key), attribute and constant (key keys), each after
      the keys of its own children, fields in order. */
  function KeysE(e: Expr): seq<Key>
    decreases e
  {
    match e
    case Name(id, _) => [Key(VariableKey, StrC(id))]
    case Attribute(v, a, _) => KeysE(v) + [Key(KeyKey, StrC(a))]
    case Subscript(v, sl, _) => KeysE(v) + KeysE(sl)
    case Constant(c) => [Key(KeyKey, c)]
    case Call(f, args) => KeysE(f) + KeysEs(args)
    case Tuple(es, _) => KeysEs(es)
    case Slice(bs) => KeysEs(bs)
    case Lambda(ps, b) => KeysArgs(ps) + KeysE(b)
    case GeneratorExp(elt, gs) => KeysE(elt) + KeysEs(gs)
    case Op(os) => KeysEs(os)
    case FString(ps) => KeysEs(ps)
    case Formatted(v) => KeysE(v)
    case RawId(_) => []
    case Hook(_) => []
  }

  function KeysEs(es: seq<Expr>): seq<Key>
    decreases es
  {
    if es == [] then [] else KeysE(es[0]) + KeysEs(es[1..])
  }

  function KeysArgs(ps: seq<Arg>): seq<Key>
    decreases ps
  {
    if ps == [] then []
    else (if ps[0].annotation.Some? then KeysE(ps[0].annotation.value) else []) + KeysArgs(ps[1..])
  }

  function KeysS(s: Stmt): seq<Key>
    decreases s
  {
    match s
    case Assign(ts, v, _) => KeysEs(ts) + KeysE(v)
    case AugAssign(t, v, _) => KeysE(t) + KeysE(v)
    case AnnAssign(t, a, v, _) => KeysE(t) + KeysE(a) + (if v.Some? then KeysE(v.value) else [])
    case ExprStmt(v, _) => KeysE(v)
    case Simple(_, es, _) => KeysEs(es)
    case Compound(_, ps, h, b, hs, o, f, t, _) =>
      KeysArgs(ps) + KeysEs(h) + KeysSs(b) + KeysSs(hs) + KeysSs(o) + KeysSs(f) + KeysEs(t)
    case Group(ss) => KeysSs(ss)
    case _ => []
  }

  function KeysSs(ss: seq<Stmt>): seq<Key>
    decreases ss
  {
    if ss == [] then [] else KeysS(ss[0]) + KeysSs(ss[1..])
  }

  /** One visit of `e`: the node as the in-place rewriting leaves it, and
      the new state.  The uuid of a temporary is drawn from `uuid`, keyed
      by the counter. */
  function VisitE(e: Expr, st: IState, uuid: int -> string): (r: (Expr, IState))
    ensures Grows(st, r.1)
    ensures Named(r.0)
    ensures Named(e) ==> r == (e, AddKeys(st, KeysE(e)))
    decreases e, 2
  {
    match e
    case Name(id, _) =>
      AddKeyGrows(st, Key(VariableKey, StrC(id)));
      (e, AddKeys(st, [Key(VariableKey, StrC(id))]))
    case Attribute(v, a, ctx) =>
      var (v', s1) := VisitE(v, st, uuid);
      var s2 := AddKeys(s1, [Key(KeyKey, StrC(a))]);
      AddKeyGrows(s1, Key(KeyKey, StrC(a)));
      GrowsTrans(st, s1, s2);
      AddKeysTwice(st, KeysE(v), [Key(KeyKey, StrC(a))]);
      (Attribute(v', a, ctx), s2)
    case Constant(c) =>
      AddKeyGrows(st, Key(KeyKey, c));
      (e, AddKeys(st, [Key(KeyKey, c)]))
    case Subscript(_, _, _) => VisitSubscript(e, st, uuid)
    case Call(_, _) => VisitPair(e, st, uuid)
    case Lambda(_, _) => VisitPair(e, st, uuid)
    case GeneratorExp(_, _) => VisitPair(e, st, uuid)
    case Tuple(_, _) => VisitList(e, st, uuid)
    case Slice(_) => VisitList(e, st, uuid)
    case Op(_) => VisitList(e, st, uuid)
    case FString(_) => VisitList(e, st, uuid)
    case Formatted(v) =>
      var (v', s1) := VisitE(v, st, uuid);
      (Formatted(v'), s1)
    case RawId(_) => GrowsRefl(st); AddNothing(st); (e, st)
    case Hook(_) => GrowsRefl(st); AddNothing(st); (e, st)
  }

  /** `generic_visit` of a node with two visited parts. */
  function VisitPair(e: Expr, st: IState, uuid: int -> string): (r: (Expr, IState))
    requires e.Call? || e.Lambda? || e.GeneratorExp?
    ensures Grows(st, r.1)
    ensures Named(r.0)
    ensures Named(e) ==> r == (e, AddKeys(st, KeysE(e)))
    decreases e, 0
  {
    match e
    case Call(f, args) =>
      var (f', s1) := VisitE(f, st, uuid);
      var (args', s2) := VisitEs(args, s1, uuid);
      GrowsTrans(st, s1, s2);
      AddKeysTwice(st, KeysE(f), KeysEs(args));
      (Call(f', args'), s2)
    case Lambda(ps, b) =>
      var (ps', s1) := VisitArgs(ps, st, uuid);
      var (b', s2) := VisitE(b, s1, uuid);
      GrowsTrans(st, s1, s2);
      AddKeysTwice(st, KeysArgs(ps), KeysE(b));
      (Lambda(ps', b'), s2)
    case GeneratorExp(elt, gs) =>
      var (elt', s1) := VisitE(elt, st, uuid);
      var (gs', s2) := VisitEs(gs, s1, uuid);
      GrowsTrans(st, s1, s2);
      AddKeysTwice(st, KeysE(elt), KeysEs(gs));
      (GeneratorExp(elt', gs'), s2)
  }

  /** `generic_visit` of a node with one list of expressions. */
  function VisitList(e: Expr, st: IState, uuid: int -> string): (r: (Expr, IState))
    requires e.Tuple? || e.Slice? || e.Op? || e.FString?
    ensures Grows(st, r.1)
    ensures Named(r.0)
    ensures Named(e) ==> r == (e, AddKeys(st, KeysE(e)))
    ensures e.Tuple? ==> r.0.Tuple?
    ensures e.Slice? ==> r.0.Slice?
    decreases e, 0
  {
    match e
    case Tuple(es, ctx) =>
      var (es', s1) := VisitEs(es, st, uuid);
      (Tuple(es', ctx), s1)
    case Slice(bs) =>
      var (bs', s1) := VisitEs(bs, st, uuid);
      (Slice(bs'), s1)
    case Op(os) =>
      var (os', s1) := VisitEs(os, st, uuid);
      (Op(os'), s1)
    case FString(ps) =>
      var (ps', s1) := VisitEs(ps, st, uuid);
      (FString(ps'), s1)
  }

  /** `visit_Subscript`: an index that is not a constant or a name is
      hoisted after the value is visited; otherwise value and index are
      visited as any node. */
  function VisitSubscript(e: Expr, st: IState, uuid: int -> string): (r: (Expr, IState))
    requires e.Subscript?
    ensures Grows(st, r.1)
    ensures Named(r.0)
    ensures Named(e) ==> r == (e, AddKeys(st, KeysE(e)))
    decreases e, 1
  {
    if !(e.slice.Constant? || e.slice.Name?) then VisitHoistedIndex(e, st, uuid)
    else
      var Subscript(v, sl, ctx) := e;
      var (v', s1) := VisitE(v, st, uuid);
      var (sl', s2) := VisitE(sl, s1, uuid);
      GrowsTrans(st, s1, s2);
      AddKeysTwice(st, KeysE(v), KeysE(sl));
      (Subscript(v', sl', ctx), s2)
  }

  /** The hoisting branch of `visit_Subscript`: the index is recorded as a
      temporary and replaced by its name. */
  function VisitHoistedIndex(e: Expr, st: IState, uuid: int -> string): (r: (Expr, IState))
    requires e.Subscript? && !(e.slice.Constant? || e.slice.Name?)
    ensures Grows(st, r.1)
    ensures Named(r.0)
    ensures !Named(e)
    decreases e, 0
  {
    var Subscript(v, sl, ctx) := e;
    var (v', s1) := VisitE(v, st, uuid);
    var name := K.TempName(uuid(s1.counter));
    var s2 := GetVarInfo(AddKeys(s1, [Key(TempKey, StrC(name))]), StrC(name), [], StrC(name), Some(sl));
    assert s2.keys[..|s2.keys| - 1] == s1.keys;
    assert s2.vars[..|s1.vars|] == s1.vars;
    GrowsTrans(st, s1, s2);
    (Subscript(v', Name(name, NoCtx), ctx), s2)
  }

  function VisitEs(es: seq<Expr>, st: IState, uuid: int -> string): (r: (seq<Expr>, IState))
    ensures Grows(st, r.1)
    ensures |r.0| == |es| && NamedEs(r.0)
    ensures NamedEs(es) ==> r == (es, AddKeys(st, KeysEs(es)))
    decreases es
  {
    if es == [] then GrowsRefl(st); AddNothing(st); ([], st)
    else
      var (x, s1) := VisitE(es[0], st, uuid);
      var (xs, s2) := VisitEs(es[1..], s1, uuid);
      GrowsTrans(st, s1, s2);
      AddKeysTwice(st, KeysE(es[0]), KeysEs(es[1..]));
      assert ([x] + xs)[1..] == xs;
      assert NamedEs(es) ==> [x] + xs == es;
      ([x] + xs, s2)
  }

  function VisitArgs(ps: seq<Arg>, st: IState, uuid: int -> string): (r: (seq<Arg>, IState))
    ensures Grows(st, r.1)
    ensures |r.0| == |ps| && NamedArgs(r.0)
    ensures NamedArgs(ps) ==> r == (ps, AddKeys(st, KeysArgs(ps)))
    decreases ps
  {
    if ps == [] then GrowsRefl(st); AddNothing(st); ([], st)
    else
      var (x, s1) := VisitOpt(ps[0].annotation, st, uuid);
      var a := Arg(ps[0].name, x);
      var (rest, s2) := VisitArgs(ps[1..], s1, uuid);
      GrowsTrans(st, s1, s2);
      AddKeysTwice(st, if ps[0].annotation.Some? then KeysE(ps[0].annotation.value) else [], KeysArgs(ps[1..]));
      assert ([a] + rest)[1..] == rest;
      assert NamedArgs(ps) ==> [a] + rest == ps;
      ([a] + rest, s2)
  }

  function VisitOpt(v: Option<Expr>, st: IState, uuid: int -> string): (r: (Option<Expr>, IState))
    ensures Grows(st, r.1)
    ensures r.0.Some? == v.Some? && (r.0.None? || Named(r.0.value))
    ensures (v.None? || Named(v.value)) ==> r == (v, AddKeys(st, if v.Some? then KeysE(v.value) else []))
  {
    if v.None? then GrowsRefl(st); AddNothing(st); (None, st)
    else
      var (x, s1) := VisitE(v.value, st, uuid);
      (Some(x), s1)
  }

  /** One visit of a statement: every field, in field order. */
  function VisitS(s: Stmt, st: IState, uuid: int -> string): (r: (Stmt, IState))
    ensures Grows(st, r.1)
    ensures NamedS(r.0)
    ensures NamedS(s) ==> r == (s, AddKeys(st, KeysS(s)))
    decreases s, 2
  {
    match s
    case Assign(_, _, _) => VisitAssign(s, st, uuid)
    case AugAssign(_, _, _) => VisitAssign(s, st, uuid)
    case AnnAssign(_, _, _, _) => VisitAssign(s, st, uuid)
    case ExprStmt(v, p) =>
      var (v', s1) := VisitE(v, st, uuid);
      (ExprStmt(v', p), s1)
    case Simple(k, es, p) =>
      var (es', s1) := VisitEs(es, st, uuid);
      (Simple(k, es', p), s1)
    case Compound(_, _, _, _, _, _, _, _, _) => VisitCompound(s, st, uuid)
    case Group(ss) =>
      var (ss', s1) := VisitSs(ss, st, uuid);
      (Group(ss'), s1)
    case _ => GrowsRefl(st); AddNothing(st); (s, st)
  }

  /** The three assignment statements: targets, then annotation, then
      value. */
  function VisitAssign(s: Stmt, st: IState, uuid: int -> string): (r: (Stmt, IState))
    requires s.Assign? || s.AugAssign? || s.AnnAssign?
    ensures Grows(st, r.1)
    ensures NamedS(r.0)
    ensures NamedS(s) ==> r == (s, AddKeys(st, KeysS(s)))
    decreases s, 0
  {
    match s
    case Assign(ts, v, p) =>
      var (ts', s1) := VisitEs(ts, st, uuid);
      var (v', s2) := VisitE(v, s1, uuid);
      GrowsTrans(st, s1, s2);
      AddKeysTwice(st, KeysEs(ts), KeysE(v));
      (Assign(ts', v', p), s2)
    case AugAssign(t, v, p) =>
      var (t', s1) := VisitE(t, st, uuid);
      var (v', s2) := VisitE(v, s1, uuid);
      GrowsTrans(st, s1, s2);
      AddKeysTwice(st, KeysE(t), KeysE(v));
      (AugAssign(t', v', p), s2)
    case AnnAssign(t, a, v, p) =>
      var (t', s1) := VisitE(t, st, uuid);
      var (a', s2) := VisitE(a, s1, uuid);
      var (v', s3) := VisitOpt(v, s2, uuid);
      GrowsTrans(st, s1, s2);
      GrowsTrans(st, s2, s3);
      AddKeysTwice(st, KeysE(t), KeysE(a));
      AddKeysTwice(st, KeysE(t) + KeysE(a), if v.Some? then KeysE(v.value) else []);
      (AnnAssign(t', a', v', p), s3)
  }

  function VisitCompound(s: Stmt, st: IState, uuid: int -> string): (r: (Stmt, IState))
    requires s.Compound?
    ensures Grows(st, r.1)
    ensures NamedS(r.0)
    ensures NamedS(s) ==> r == (s, AddKeys(st, KeysS(s)))
    decreases s, 1
  {
    var Compound(k, ps, h, b, hs, o, f, t, p) := s;
    var (ps', h', s2) := VisitHead(s, st, uuid);
    var (b', hs', o', f', s6) := VisitBlocks(s, s2, uuid);
    var (t', s7) := VisitEs(t, s6, uuid);
    GrowsTrans(st, s2, s6); GrowsTrans(st, s6, s7);
    if NamedS(s) then
      CompoundKeys(st, KeysArgs(ps), KeysEs(h), KeysSs(b), KeysSs(hs), KeysSs(o), KeysSs(f), KeysEs(t));
      (Compound(k, ps', h', b', hs', o', f', t', p), s7)
    else
      (Compound(k, ps', h', b', hs', o', f', t', p), s7)
  }

  /** The parameters and the header expressions of a compound statement. */
  function VisitHead(s: Stmt, st: IState, uuid: int -> string): (r: (seq<Arg>, seq<Expr>, IState))
    requires s.Compound?
    ensures Grows(st, r.2)
    ensures NamedArgs(r.0) && NamedEs(r.1)
    ensures NamedArgs(s.params) && NamedEs(s.header) ==>
      r == (s.params, s.header, AddKeys(AddKeys(st, KeysArgs(s.params)), KeysEs(s.header)))
    decreases s, 0
  {
    var (ps', s1) := VisitArgs(s.params, st, uuid);
    var (h', s2) := VisitEs(s.header, s1, uuid);
    GrowsTrans(st, s1, s2);
    (ps', h', s2)
  }

  /** The four statement lists of a compound statement, in field order. */
  function VisitBlocks(s: Stmt, st: IState, uuid: int -> string): (r: (seq<Stmt>, seq<Stmt>, seq<Stmt>, seq<Stmt>, IState))
    requires s.Compound?
    ensures Grows(st, r.4)
    ensures NamedSs(r.0) && NamedSs(r.1) && NamedSs(r.2) && NamedSs(r.3)
    ensures NamedSs(s.body) && NamedSs(s.handlers) && NamedSs(s.orelse) && NamedSs(s.finalbody) ==>
      r == (s.body, s.handlers, s.orelse, s.finalbody,
            AddKeys(AddKeys(AddKeys(AddKeys(st, KeysSs(s.body)), KeysSs(s.handlers)), KeysSs(s.orelse)), KeysSs(s.finalbody)))
    decreases s, 0
  {
    var (b', s3) := VisitSs(s.body, st, uuid);
    var (hs', s4) := VisitSs(s.handlers, s3, uuid);
    var (o', s5) := VisitSs(s.orelse, s4, uuid);
    var (f', s6) := VisitSs(s.finalbody, s5, uuid);
    GrowsTrans(st, s3, s4); GrowsTrans(st, s4, s5); GrowsTrans(st, s5, s6);
    (b', hs', o', f', s6)
  }

  lemma CompoundKeys(st: IState, a: seq<Key>, b: seq<Key>, c: seq<Key>, d: seq<Key>, e: seq<Key>, f: seq<Key>, g: seq<Key>)
    ensures AddKeys(AddKeys(AddKeys(AddKeys(AddKeys(AddKeys(AddKeys(st, a), b), c), d), e), f), g)
         == AddKeys(st, a + b + c + d + e + f + g)
  {
    assert st.keys + a + b + c + d + e + f + g == st.keys + (a + b + c + d + e + f + g);
  }

  function VisitSs(ss: seq<Stmt>, st: IState, uuid: int -> string): (r: (seq<Stmt>, IState))
    ensures Grows(st, r.1)
    ensures |r.0| == |ss| && NamedSs(r.0)
    ensures NamedSs(ss) ==> r == (ss, AddKeys(st, KeysSs(ss)))
    decreases ss
  {
    if ss == [] then GrowsRefl(st); AddNothing(st); ([], st)
    else
      var (x, s1) := VisitS(ss[0], st, uuid);
      var (xs, s2) := VisitSs(ss[1..], s1, uuid);
      GrowsTrans(st, s1, s2);
      AddKeysTwice(st, KeysS(ss[0]), KeysSs(ss[1..]));
      assert ([x] + xs)[1..] == xs;
      assert NamedSs(ss) ==> [x] + xs == ss;
      ([x] + xs, s2)
  }

  /** `CollectVariableInfo(node)`: the statement as the visit rewrites it,
      the records, and the counter after.  The first key, popped, names
      the variable; the remaining keys are its keys and the rewritten
      statement, rendered by `render` (`ast.unparse`), its syntax.  The
      hoisted indices' records come first. */
  function Collect(node: Stmt, counter: int, render: Stmt -> string, uuid: int -> string): (r: Result<(Stmt, seq<Info>, int)>)
    ensures r.Err? <==> VisitS(node, IState(counter, [], []), uuid).1.keys == []
    ensures r.Err? ==> r.error == IndexError("pop from empty list")
    ensures r.Ok? ==> NamedS(r.value.0) && |r.value.1| > 0 && |r.value.1| == r.value.2 - counter
    ensures r.Ok? ==> forall i :: 0 <= i < |r.value.1| ==> r.value.1[i].varId == counter + 1 + i
    ensures r.Ok? ==> forall i :: 0 <= i < |r.value.1| - 1 ==> IsTemp(r.value.1[i])
    ensures r.Ok? ==> var main := r.value.1[|r.value.1| - 1];
      !main.isTemp && main.node.None? && main.syntax == StrC(render(r.value.0))
  {
    var (s', st) := VisitS(node, IState(counter, [], []), uuid);
    if st.keys == [] then Err(IndexError("pop from empty list"))
    else
      var st2 := GetVarInfo(st, st.keys[0].value, st.keys[1..], StrC(render(s')), None);
      assert st2.vars[..|st.vars|] == st.vars;
      Ok((s', st2.vars, st2.counter))
  }

  /** A statement whose indices are all constants or names is left as it
      is and gives one record: its first key as name, the rest as keys.
      A statement without any key raises. */
  lemma NamedStatement(node: Stmt, counter: int, render: Stmt -> string, uuid: int -> string)
    requires NamedS(node)
    ensures var ks := KeysS(node);
      Collect(node, counter, render, uuid)
        == if ks == [] then Err(IndexError("pop from empty list"))
           else Ok((node, [Info(counter + 1, ks[0].value, ks[1..], StrC(render(node)), None, false)], counter + 1))
  {
    var st0 := IState(counter, [], []);
    var ks := KeysS(node);
    assert VisitS(node, st0, uuid) == (node, IState(counter, ks, [])) by {
      assert [] + ks == ks;
    }
    if ks != [] {
      var st2 := GetVarInfo(IState(counter, ks, []), ks[0].value, ks[1..], StrC(render(node)), None);
      assert Collect(node, counter, render, uuid) == Ok((node, st2.vars, st2.counter));
      assert st2.vars == [Info(counter + 1, ks[0].value, ks[1..], StrC(render(node)), None, false)];
    } else {
      assert Collect(node, counter, render, uuid) == Err(IndexError("pop from empty list"));
    }
  }

  lemma LoadedNameVisit(v: string, st: IState, uuid: int -> string)
    ensures VisitE(Name(v, Load), st, uuid) == (Name(v, Load), AddKeys(st, [Key(VariableKey, StrC(v))]))
  {
  }

  lemma HoistedVisit(v: string, sl: Expr, ctx: Ctx, st: IState, uuid: int -> string)
    requires !(sl.Constant? || sl.Name?)
    ensures var s1 := AddKeys(st, [Key(VariableKey, StrC(v))]);
      var t := K.TempName(uuid(s1.counter));
      VisitE(Subscript(Name(v, Load), sl, ctx), st, uuid)
        == (Subscript(Name(v, Load), Name(t, NoCtx), ctx),
            GetVarInfo(AddKeys(s1, [Key(TempKey, StrC(t))]), StrC(t), [], StrC(t), Some(sl)))
  {
    var e := Subscript(Name(v, Load), sl, ctx);
    assert VisitE(e, st, uuid) == VisitSubscript(e, st, uuid) == VisitHoistedIndex(e, st, uuid);
    LoadedNameVisit(v, st, uuid);
  }

  /** Unlike `CollectAssignVarInfo`, a slice index is hoisted: `v[lo:hi]`
      becomes `v[t]` for a fresh temporary `t` whose record holds the
      slice. */
  lemma SliceIsHoisted(v: string, bs: seq<Expr>, ctx: Ctx, st: IState, uuid: int -> string)
    ensures var t := K.TempName(uuid(st.counter));
      VisitE(Subscript(Name(v, Load), Slice(bs), ctx), st, uuid)
        == (Subscript(Name(v, Load), Name(t, NoCtx), ctx),
            IState(st.counter + 1, st.keys + [Key(VariableKey, StrC(v)), Key(TempKey, StrC(t))],
                   st.vars + [Info(st.counter + 1, StrC(t), [], StrC(t), Some(Slice(bs)), true)]))
  {
    var t := K.TempName(uuid(st.counter));
    var s1 := AddKeys(st, [Key(VariableKey, StrC(v))]);
    assert s1.counter == st.counter;
    HoistedVisit(v, Slice(bs), ctx, st, uuid);
    assert st.keys + [Key(VariableKey, StrC(v))] + [Key(TempKey, StrC(t))]
        == st.keys + [Key(VariableKey, StrC(v)), Key(TempKey, StrC(t))];
  }
}
