/** `CollectAssignVarInfo`: the key visitor over an assignment target.

    The visitor records, in post-order, one key per `Name` (a variable key),
    `Attribute` and `Constant` (key keys).  An index that must be evaluated
    (anything but a constant, a name, a slice or a tuple) is hoisted into a
    temporary variable: it gets its own record, whose assigned value is the
    index expression, and the index is replaced by the temporary's name.
    `CollectCallVariables` carries a verbatim copy of the same visitor, so
    it is defined once, here. */
module CollectAssignVarInfo {
  import opened Wrappers
  import opened PyAst
  import opened Text
  import opened VariableCollectorBase
  import Walk

  const TempPrefix := "asp_temp_var_"

  /** `getVariableName`: the prefix and a uuid with its dashes removed. */
  function TempName(uuid: string): (r: string)
    ensures StartsWith(r, TempPrefix)
    ensures '-' !in r[|TempPrefix|..]
  {
    var r := TempPrefix + RemoveChar(uuid, '-');
    assert r[|TempPrefix|..] == RemoveChar(uuid, '-');
    r
  }

  /** The visitor's fields besides the collector: the key list and whether a
      slice or tuple index was seen. */
  datatype KState = KState(c: Collector, keys: seq<Key>, containsSlice: bool)

  function AddKey(st: KState, k: Key): KState {
    st.(keys := st.keys + [k])
  }

  /** A record for a hoisted index. */
  predicate IsTempRecord(v: VarInfo) {
    v.isTemp && v.keys == [] && v.name == v.syntax && v.name.StrC? && StartsWith(v.name.s, TempPrefix)
  }

  function TempCount(keys: seq<Key>): nat {
    if keys == [] then 0
    else (if keys[|keys| - 1].kind == TempKey then 1 else 0) + TempCount(keys[..|keys| - 1])
  }

  /** `b` is a later state of the visitor than `a`: keys and records are only
      appended, the slice flag is never cleared, every record appended is a
      hoisted index, and there is one temporary key per such record. */
  predicate Grows(a: KState, b: KState) {
    && Extends(a.c, b.c)
    && |a.keys| <= |b.keys| && b.keys[..|a.keys|] == a.keys
    && (a.containsSlice ==> b.containsSlice)
    && TempCount(b.keys) - TempCount(a.keys) == |b.c.variables| - |a.c.variables|
    && forall i :: |a.c.variables| <= i < |b.c.variables| ==> IsTempRecord(b.c.variables[i])
  }

  lemma GrowsRefl(a: KState)
    ensures Grows(a, a)
  {
  }

  lemma GrowsTrans(a: KState, b: KState, c: KState)
    requires Grows(a, b) && Grows(b, c)
    ensures Grows(a, c)
  {
    ExtendsTrans(a.c, b.c, c.c);
    assert c.keys[..|a.keys|] == c.keys[..|b.keys|][..|a.keys|];
    forall i | |a.c.variables| <= i < |c.c.variables|
      ensures IsTempRecord(c.c.variables[i])
    {
      if i < |b.c.variables| {
        assert c.c.variables[..|b.c.variables|] == b.c.variables;
        assert c.c.variables[i] == b.c.variables[i];
      }
    }
  }

  lemma AddKeyGrows(a: KState, k: Key)
    requires k.kind != TempKey
    ensures Grows(a, AddKey(a, k))
  {
    var b := AddKey(a, k);
    assert b.keys[..|b.keys| - 1] == a.keys;
    assert b.c.variables[..|a.c.variables|] == a.c.variables;
  }

  lemma HEPositive(e: Expr)
    ensures Walk.HE(e) >= 1
  {
  }

  /** No index is left that would need evaluating. */
  predicate IndicesSimple(e: Expr)
    decreases e
  {
    match e
    case Name(_, _) => true
    case Attribute(v, _, _) => IndicesSimple(v)
    case Subscript(v, sl, _) =>
      (sl.Constant? || sl.Name? || sl.Slice? || sl.Tuple?) && IndicesSimple(v) && IndicesSimple(sl)
    case Constant(_) => true
    case Call(f, args) => IndicesSimple(f) && IndicesSimpleEs(args)
    case Tuple(es, _) => IndicesSimpleEs(es)
    case Slice(bs) => IndicesSimpleEs(bs)
    case Lambda(ps, b) => IndicesSimpleArgs(ps) && IndicesSimple(b)
    case GeneratorExp(elt, gs) => IndicesSimple(elt) && IndicesSimpleEs(gs)
    case Op(os) => IndicesSimpleEs(os)
    case FString(ps) => IndicesSimpleEs(ps)
    case Formatted(v) => IndicesSimple(v)
    case RawId(_) => true
    case Hook(_) => true
  }

  predicate IndicesSimpleEs(es: seq<Expr>)
    decreases es
  {
    es == [] || (IndicesSimple(es[0]) && IndicesSimpleEs(es[1..]))
  }

  predicate IndicesSimpleArgs(ps: seq<Arg>)
    decreases ps
  {
    ps == [] || ((ps[0].annotation.None? || IndicesSimple(ps[0].annotation.value)) && IndicesSimpleArgs(ps[1..]))
  }

  /** One visit of `e` (`visit_Subscript`, `visit_Name`, `visit_Attribute`,
      `visit_Constant`, and `generic_visit` for every other node).  The result
      is the node as the in-place rewriting leaves it, and the new state; the
      uuid of a temporary is drawn from `uuid`, keyed by the shared counter. */
  function VisitE(e: Expr, st: KState, uuid: int -> string): (r: (Expr, KState))
    ensures Grows(st, r.1)
    ensures Walk.HE(r.0) <= Walk.HE(e)
    ensures IndicesSimple(r.0)
    ensures IndicesSimple(e) ==> r.0 == e && r.1.c == st.c
    decreases e, 2
  {
    match e
    case Name(id, _) =>
      AddKeyGrows(st, Key(VariableKey, StrC(id)));
      (e, AddKey(st, Key(VariableKey, StrC(id))))
    case Attribute(v, a, ctx) =>
      var (v', s1) := VisitE(v, st, uuid);
      AddKeyGrows(s1, Key(KeyKey, StrC(a)));
      GrowsTrans(st, s1, AddKey(s1, Key(KeyKey, StrC(a))));
      (Attribute(v', a, ctx), AddKey(s1, Key(KeyKey, StrC(a))))
    case Constant(c) =>
      AddKeyGrows(st, Key(KeyKey, c));
      (e, AddKey(st, Key(KeyKey, c)))
    case Subscript(_, _, _) => VisitSubscript(e, st, uuid)
    case Call(_, _) => VisitPair(e, st, uuid)
    case Lambda(_, _) => VisitPair(e, st, uuid)
    case GeneratorExp(_, _) => VisitPair(e, st, uuid)
    case Tuple(_, _) => VisitList(e, st, uuid)
    case Slice(_) => VisitList(e, st, uuid)
    case Op(_) => VisitList(e, st, uuid)
    case FString(_) => VisitList(e, st, uuid)
    case Formatted(v) =>
      var (v', s1) := VisitE(v, st, uuid);
      (Formatted(v'), s1)
    case RawId(_) => GrowsRefl(st); (e, st)
    case Hook(_) => GrowsRefl(st); (e, st)
  }

  /** `generic_visit` of a node with two visited parts. */
  function VisitPair(e: Expr, st: KState, uuid: int -> string): (r: (Expr, KState))
    requires e.Call? || e.Lambda? || e.GeneratorExp?
    ensures Grows(st, r.1)
    ensures Walk.HE(r.0) <= Walk.HE(e)
    ensures IndicesSimple(r.0)
    ensures IndicesSimple(e) ==> r.0 == e && r.1.c == st.c
    decreases e, 0
  {
    match e
    case Call(f, args) =>
      var (f', s1) := VisitE(f, st, uuid);
      var (args', s2) := VisitEs(args, s1, uuid);
      GrowsTrans(st, s1, s2);
      (Call(f', args'), s2)
    case Lambda(ps, b) =>
      var (ps', s1) := VisitArgs(ps, st, uuid);
      var (b', s2) := VisitE(b, s1, uuid);
      GrowsTrans(st, s1, s2);
      (Lambda(ps', b'), s2)
    case GeneratorExp(elt, gs) =>
      var (elt', s1) := VisitE(elt, st, uuid);
      var (gs', s2) := VisitEs(gs, s1, uuid);
      GrowsTrans(st, s1, s2);
      (GeneratorExp(elt', gs'), s2)
  }

  /** `generic_visit` of a node with one list of expressions. */
  function VisitList(e: Expr, st: KState, uuid: int -> string): (r: (Expr, KState))
    requires e.Tuple? || e.Slice? || e.Op? || e.FString?
    ensures Grows(st, r.1)
    ensures Walk.HE(r.0) <= Walk.HE(e)
    ensures IndicesSimple(r.0)
    ensures IndicesSimple(e) ==> r.0 == e && r.1.c == st.c
    ensures e.Tuple? ==> r.0.Tuple?
    ensures e.Slice? ==> r.0.Slice?
    decreases e, 0
  {
    match e
    case Tuple(es, ctx) =>
      var (es', s1) := VisitEs(es, st, uuid);
      (Tuple(es', ctx), s1)
    case Slice(bs) =>
      var (bs', s1) := VisitEs(bs, st, uuid);
      (Slice(bs'), s1)
    case Op(os) =>
      var (os', s1) := VisitEs(os, st, uuid);
      (Op(os'), s1)
    case FString(ps) =>
      var (ps', s1) := VisitEs(ps, st, uuid);
      (FString(ps'), s1)
  }

  /** `visit_Subscript`: a slice or tuple index is visited and sets the flag;
      an index that must be evaluated is hoisted; a constant or name index is
      visited as any node. */
  function VisitSubscript(e: Expr, st: KState, uuid: int -> string): (r: (Expr, KState))
    requires e.Subscript?
    ensures Grows(st, r.1)
    ensures Walk.HE(r.0) <= Walk.HE(e)
    ensures IndicesSimple(r.0)
    ensures IndicesSimple(e) ==> r.0 == e && r.1.c == st.c
    decreases e, 1
  {
    if e.slice.Slice? || e.slice.Tuple? then VisitSliced(e, st, uuid)
    else if !(e.slice.Constant? || e.slice.Name?) then VisitHoisted(e, st, uuid)
    else
      var Subscript(v, sl, ctx) := e;
      var (v', s1) := VisitE(v, st, uuid);
      var (sl', s2) := VisitE(sl, s1, uuid);
      GrowsTrans(st, s1, s2);
      (Subscript(v', sl', ctx), s2)
  }

  /** A slice or tuple index: visited, and the flag is set. */
  function VisitSliced(e: Expr, st: KState, uuid: int -> string): (r: (Expr, KState))
    requires e.Subscript? && (e.slice.Slice? || e.slice.Tuple?)
    ensures Grows(st, r.1)
    ensures Walk.HE(r.0) <= Walk.HE(e)
    ensures IndicesSimple(r.0)
    ensures IndicesSimple(e) ==> r.0 == e && r.1.c == st.c
    decreases e, 0
  {
    var Subscript(v, sl, ctx) := e;
    var (v', s1) := VisitE(v, st, uuid);
    var (sl', s2) := VisitE(sl, s1, uuid);
    GrowsTrans(st, s1, s2);
    GrowsTrans(st, s2, s2.(containsSlice := true));
    (Subscript(v', sl', ctx), s2.(containsSlice := true))
  }

  /** An index that must be evaluated: recorded as a temporary and replaced
      by its name. */
  function VisitHoisted(e: Expr, st: KState, uuid: int -> string): (r: (Expr, KState))
    requires e.Subscript? && !(e.slice.Slice? || e.slice.Tuple? || e.slice.Constant? || e.slice.Name?)
    ensures Grows(st, r.1)
    ensures Walk.HE(r.0) <= Walk.HE(e)
    ensures IndicesSimple(r.0)
    ensures !IndicesSimple(e)
    decreases e, 0
  {
    var Subscript(v, sl, ctx) := e;
    var (v', s1) := VisitE(v, st, uuid);
    var name := TempName(uuid(s1.c.counter));
    var s2 := KState(GetVarInfo(s1.c, StrC(name), [], StrC(name), Some(sl)),
                     s1.keys + [Key(TempKey, StrC(name))], s1.containsSlice);
    HEPositive(sl);
    assert s2.keys[..|s2.keys| - 1] == s1.keys;
    assert s2.c.variables[..|s1.c.variables|] == s1.c.variables;
    GrowsTrans(st, s1, s2);
    (Subscript(v', Name(name, Load), ctx), s2)
  }

  function VisitEs(es: seq<Expr>, st: KState, uuid: int -> string): (r: (seq<Expr>, KState))
    ensures Grows(st, r.1)
    ensures |r.0| == |es| && Walk.HEs(r.0) <= Walk.HEs(es)
    ensures IndicesSimpleEs(r.0)
    ensures IndicesSimpleEs(es) ==> r.0 == es && r.1.c == st.c
    decreases es
  {
    if es == [] then GrowsRefl(st); ([], st)
    else
      var (x, s1) := VisitE(es[0], st, uuid);
      var (xs, s2) := VisitEs(es[1..], s1, uuid);
      GrowsTrans(st, s1, s2);
      assert ([x] + xs)[1..] == xs;
      ([x] + xs, s2)
  }

  function VisitArgs(ps: seq<Arg>, st: KState, uuid: int -> string): (r: (seq<Arg>, KState))
    ensures Grows(st, r.1)
    ensures |r.0| == |ps| && Walk.HAs(r.0) <= Walk.HAs(ps)
    ensures IndicesSimpleArgs(r.0)
    ensures IndicesSimpleArgs(ps) ==> r.0 == ps && r.1.c == st.c
    decreases ps
  {
    if ps == [] then GrowsRefl(st); ([], st)
    else
      var (a, s1) :=
        if ps[0].annotation.None? then (GrowsRefl(st); (ps[0], st))
        else
          var (x, s) := VisitE(ps[0].annotation.value, st, uuid);
          (Arg(ps[0].name, Some(x)), s);
      var (rest, s2) := VisitArgs(ps[1..], s1, uuid);
      GrowsTrans(st, s1, s2);
      assert ([a] + rest)[1..] == rest;
      ([a] + rest, s2)
  }

  /** The keys of a plain access chain: a name or constant followed by
      attribute accesses and constant or name indices.  `None` for any
      other expression. */
  function Chain(e: Expr): (r: Option<seq<Key>>)
    ensures r.Some? ==> |r.value| > 0
    decreases e
  {
    match e
    case Name(id, _) => Some([Key(VariableKey, StrC(id))])
    case Constant(c) => Some([Key(KeyKey, c)])
    case Attribute(v, a, _) =>
      (match Chain(v)
       case Some(ks) => Some(ks + [Key(KeyKey, StrC(a))])
       case None => None)
    case Subscript(v, Constant(c), _) =>
      (match Chain(v)
       case Some(ks) => Some(ks + [Key(KeyKey, c)])
       case None => None)
    case Subscript(v, Name(id, _), _) =>
      (match Chain(v)
       case Some(ks) => Some(ks + [Key(VariableKey, StrC(id))])
       case None => None)
    case _ => None
  }

  /** Visiting a plain access chain appends exactly its keys, leaves the node
      as it is and records nothing. */
  lemma {:induction false} ChainVisit(e: Expr, st: KState, uuid: int -> string)
    requires Chain(e).Some?
    ensures VisitE(e, st, uuid) == (e, st.(keys := st.keys + Chain(e).value))
    decreases e
  {
    match e
    case Name(_, _) =>
    case Constant(_) =>
    case Attribute(v, a, _) =>
      ChainVisit(v, st, uuid);
      assert st.keys + Chain(v).value + [Key(KeyKey, StrC(a))] == st.keys + (Chain(v).value + [Key(KeyKey, StrC(a))]);
    case Subscript(v, sl, _) =>
      ChainVisit(v, st, uuid);
      var s1 := st.(keys := st.keys + Chain(v).value);
      ChainVisit(sl, s1, uuid);
      assert s1.keys + Chain(sl).value == st.keys + (Chain(v).value + Chain(sl).value);
  }

  /** The collector built for an assignment target (`__init__`): the target
      as the visit rewrites it, and the collector with its records.  With a
      slice index the whole variable is recorded under its name; otherwise
      the first key names the variable and the rest are its keys, with the
      rewritten target, rendered by `render` (`ast.unparse`), as syntax.
      Popping the first key of an empty list raises.  In terms of the visit
      (`t'` the rewritten target, `st` the visitor afterwards): the pop
      fails exactly for a slice with no key; a slice otherwise records the
      whole variable under its first key; without a slice the first key
      names the variable; no key and no slice adds no record. */
  function Collect(target: Expr, c: Collector, render: Expr -> string, uuid: int -> string): (r: Result<(Expr, Collector)>)
    ensures r.Ok? ==> Extends(c, r.value.1) && IndicesSimple(r.value.0)
    ensures r.Ok? ==> forall i :: |c.variables| <= i < |r.value.1.variables| - 1 ==> IsTempRecord(r.value.1.variables[i])
    ensures r.Err? ==> r.error.IndexError?
    ensures var (t', st) := VisitE(target, KState(c, [], false), uuid);
      && (r.Err? <==> st.containsSlice && st.keys == [])
      && (r.Ok? ==> r.value.0 == t')
      && (st.containsSlice && st.keys != [] ==>
            AddsOne(st.c, r.value.1, st.keys[0].value, [], st.keys[0].value))
      && (!st.containsSlice && st.keys != [] ==>
            AddsOne(st.c, r.value.1, st.keys[0].value, st.keys[1..], StrC(render(t'))))
      && (!st.containsSlice && st.keys == [] ==> r.value.1 == st.c)
  {
    var (t', st) := VisitE(target, KState(c, [], false), uuid);
    if st.containsSlice then
      if |st.keys| == 0 then Err(IndexError("pop from empty list"))
      else
        var name := st.keys[0].value;
        Ok((t', GetVarInfo(st.c, name, [], name, None)))
    else if |st.keys| > 0 then
      Ok((t', GetVarInfo(st.c, st.keys[0].value, st.keys[1..], StrC(render(t')), None)))
    else
      Ok((t', st.c))
  }

  /** A plain access chain as target gives exactly one record: the first key
      as name, the remaining keys, and the target itself as syntax. */
  lemma ChainRecord(target: Expr, c: Collector, render: Expr -> string, uuid: int -> string)
    requires Chain(target).Some?
    ensures var ks := Chain(target).value;
      Collect(target, c, render, uuid) == Ok((target, GetVarInfo(c, ks[0].value, ks[1..], StrC(render(target)), None)))
  {
    ChainVisit(target, KState(c, [], false), uuid);
  }

  /** `[][:] = x`: a slice index with no key before it makes the pop fail. */
  lemma EmptySliceFails(c: Collector, render: Expr -> string, uuid: int -> string)
    ensures Collect(Subscript(Op([]), Slice([]), Store), c, render, uuid).Err?
  {
    var st := KState(c, [], false);
    assert VisitEs([], st, uuid) == ([], st);
  }

  /** `a[lo:] = v`: the slice's bound adds a key, yet the whole of `a` is
      recorded, with no keys and its name as syntax. */
  lemma SlicedTargetRecord(c: Collector, lo: int, render: Expr -> string, uuid: int -> string)
    ensures var t := Subscript(Name("a", Store), Slice([Constant(IntC(lo))]), Store);
      Collect(t, c, render, uuid) == Ok((t, GetVarInfo(c, StrC("a"), [], StrC("a"), None)))
  {
    var st := KState(c, [], false);
    var s1 := AddKey(st, Key(VariableKey, StrC("a")));
    var s2 := AddKey(s1, Key(KeyKey, IntC(lo)));
    ChainVisit(Name("a", Store), st, uuid);
    ChainVisit(Constant(IntC(lo)), s1, uuid);
    assert VisitEs([Constant(IntC(lo))], s1, uuid) == ([Constant(IntC(lo))], s2);
    assert VisitE(Slice([Constant(IntC(lo))]), s1, uuid) == (Slice([Constant(IntC(lo))]), s2);
    var t := Subscript(Name("a", Store), Slice([Constant(IntC(lo))]), Store);
    assert VisitSliced(t, st, uuid) == (t, s2.(containsSlice := true));
    assert VisitE(t, st, uuid) == (t, s2.(containsSlice := true));
  }

  /** A target with a hoisted index: `a[i + 1] = v` records the temporary
      first (its value is the index), then `a` with the temporary's key. */
  lemma HoistedIndex(c: Collector, ix: Expr, render: Expr -> string, uuid: int -> string)
    requires ix.Op?
    ensures var name := TempName(uuid(c.counter));
      var t' := Subscript(Name("a", Store), Name(name, Load), Store);
      var c1 := GetVarInfo(c, StrC(name), [], StrC(name), Some(ix));
      Collect(Subscript(Name("a", Store), ix, Store), c, render, uuid)
        == Ok((t', GetVarInfo(c1, StrC("a"), [Key(TempKey, StrC(name))], StrC(render(t')), None)))
  {
    var st := KState(c, [], false);
    var s1 := AddKey(st, Key(VariableKey, StrC("a")));
    assert VisitE(Name("a", Store), st, uuid) == (Name("a", Store), s1);
    var name := TempName(uuid(c.counter));
    var s2 := KState(GetVarInfo(c, StrC(name), [], StrC(name), Some(ix)), s1.keys + [Key(TempKey, StrC(name))], false);
    assert VisitSubscript(Subscript(Name("a", Store), ix, Store), st, uuid)
        == (Subscript(Name("a", Store), Name(name, Load), Store), s2);
    assert s2.keys[1..] == [Key(TempKey, StrC(name))];
  }
}
