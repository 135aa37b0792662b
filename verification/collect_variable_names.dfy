/** `CollectVariable` and `extractVariables`: the earliest variable
    collector.  It pushes the identifiers, constants and attribute names of
    an assignment target (post-order) onto a key list and makes a record
    whose name is the first key popped off that list.

    The collector keeps one live key list, `self.keys`, and every record
    stores a reference to the list that was live when it was made.  Python
    lists are shared by reference, so a later append or pop on that list
    shows in the record.  The model keeps every list the collector ever
    creates in `lists`, by creation order; a record names its list by index
    and is resolved against the final lists at the end. */
module CollectVariableNames {
  import opened Wrappers
  import opened PyAst
  import opened Walk

  /** A record as it is made: its key list is a reference. */
  datatype Rec = Rec(varId: int, at: Node, name: Const, keysRef: nat, syntax: string)

  /** A record as the caller sees it once collection is over.  `at` is the
      node whose `lineno`, `end_lineno`, `col_offset` and `end_col_offset`
      the record copies. */
  datatype VarRecord = VarRecord(varId: int, at: Node, name: Const, keys: seq<Const>, syntax: string)

  /** The module-level counter `VAR_COUNT`, every list created so far, the
      index of the live one, and the records. */
  datatype NState = NState(counter: int, lists: seq<seq<Const>>, cur: nat, vars: seq<Rec>)

  predicate Valid(st: NState) {
    st.cur < |st.lists| && forall i :: 0 <= i < |st.vars| ==> st.vars[i].keysRef < |st.lists|
  }

  /** A new collector: `self.keys = []`. */
  function Init(counter: int): (st: NState)
    ensures Valid(st) && st.vars == [] && st.lists[st.cur] == []
  {
    NState(counter, [[]], 0, [])
  }

  /** `self.keys = []`: a new list becomes the live one. */
  function Fresh(st: NState): (r: NState)
    requires Valid(st)
    ensures Valid(r) && r.cur == |st.lists| && r.lists == st.lists + [[]]
    ensures r.vars == st.vars && r.counter == st.counter
  {
    st.(lists := st.lists + [[]], cur := |st.lists|)
  }

  /** `self.keys.append(k)` for every `k` of `ks`, in order. */
  function AppendAll(st: NState, ks: seq<Const>): (r: NState)
    requires Valid(st)
    ensures Valid(r) && |r.lists| == |st.lists| && r.cur == st.cur && r.vars == st.vars && r.counter == st.counter
    ensures r.lists[st.cur] == st.lists[st.cur] + ks
    ensures forall j :: 0 <= j < |st.lists| && j != st.cur ==> r.lists[j] == st.lists[j]
  {
    st.(lists := st.lists[st.cur := st.lists[st.cur] + ks])
  }

  lemma AppendNothing(st: NState)
    requires Valid(st)
    ensures AppendAll(st, []) == st
  {
    assert st.lists[st.cur] + [] == st.lists[st.cur];
    assert AppendAll(st, []).lists == st.lists;
  }

  lemma AppendTwice(st: NState, a: seq<Const>, b: seq<Const>)
    requires Valid(st)
    ensures AppendAll(AppendAll(st, a), b) == AppendAll(st, a + b)
  {
    assert st.lists[st.cur] + a + b == st.lists[st.cur] + (a + b);
    assert AppendAll(AppendAll(st, a), b).lists == AppendAll(st, a + b).lists;
  }

  lemma FreshThenAppend(st: NState, ks: seq<Const>)
    requires Valid(st)
    ensures AppendAll(Fresh(st), ks).lists == st.lists + [ks]
  {
    assert [] + ks == ks;
  }

  lemma TargetsLower(ts: seq<Expr>, v: Expr, p: Option<Span>)
    ensures forall i :: 0 <= i < |ts| ==> HE(ts[i]) < HS(Assign(ts, v, p))
  {
    forall i | 0 <= i < |ts| ensures HE(ts[i]) < HS(Assign(ts, v, p)) {
      HEsBound(ts, i);
    }
  }

  /** `b` is `a` after the collector went on working: records are only
      appended, numbered on from `a`'s counter, and lists only added. */
  predicate Grows(a: NState, b: NState) {
    && Valid(b)
    && |a.lists| <= |b.lists|
    && a.counter <= b.counter
    && |b.vars| == |a.vars| + (b.counter - a.counter)
    && b.vars[..|a.vars|] == a.vars
    && forall i :: |a.vars| <= i < |b.vars| ==> b.vars[i].varId == a.counter + 1 + (i - |a.vars|)
  }

  lemma GrowsRefl(a: NState)
    requires Valid(a)
    ensures Grows(a, a)
  {
  }

  lemma GrowsTrans(a: NState, b: NState, c: NState)
    requires Grows(a, b) && Grows(b, c)
    ensures Grows(a, c)
  {
    assert c.vars[..|a.vars|] == c.vars[..|b.vars|][..|a.vars|];
    forall i | |a.vars| <= i < |c.vars|
      ensures c.vars[i].varId == a.counter + 1 + (i - |a.vars|)
    {
      if i < |b.vars| {
        assert c.vars[i] == b.vars[i];
      }
    }
  }

  /** No record refers to the live list. */
  predicate Owned(st: NState) {
    forall i :: 0 <= i < |st.vars| ==> st.vars[i].keysRef != st.cur
  }

  /** The lists the records of `a` refer to are the same in `b`. */
  predicate Frozen(a: NState, b: NState) {
    forall i :: 0 <= i < |a.vars| && a.vars[i].keysRef < |a.lists| && a.vars[i].keysRef < |b.lists| ==>
      b.lists[a.vars[i].keysRef] == a.lists[a.vars[i].keysRef]
  }

  lemma FrozenTrans(a: NState, b: NState, c: NState)
    requires Valid(a) && Grows(a, b) && Grows(b, c) && Frozen(a, b) && Frozen(b, c)
    ensures Frozen(a, c)
  {
    forall i | 0 <= i < |a.vars| && a.vars[i].keysRef < |a.lists| && a.vars[i].keysRef < |c.lists|
      ensures c.lists[a.vars[i].keysRef] == a.lists[a.vars[i].keysRef]
    {
      assert b.vars[i] == b.vars[..|a.vars|][i];
    }
  }

  /** `saveVariableInfo(node, self.keys, syntax)`: `keys.pop(0)` is the
      name, and the record keeps the live list itself.  With `fixed` the
      record keeps that list to itself and the collector goes on with a new
      one, the corrected behaviour of the Findings. */
  function Save(st: NState, at: Node, syntax: string, fixed: bool): (r: Result<NState>)
    requires Valid(st)
    ensures r.Err? <==> st.lists[st.cur] == []
    ensures r.Err? ==> r.error == IndexError("pop from empty list")
    ensures r.Ok? ==> Grows(st, r.value) && r.value.counter == st.counter + 1
    ensures r.Ok? ==> r.value.vars[|st.vars|] == Rec(st.counter + 1, at, st.lists[st.cur][0], st.cur, syntax)
    ensures r.Ok? ==> r.value.lists[st.cur] == st.lists[st.cur][1..]
    ensures r.Ok? ==> r.value.lists[..|st.lists|] == st.lists[st.cur := st.lists[st.cur][1..]]
    ensures r.Ok? ==> (r.value.cur == st.cur <==> !fixed)
    ensures r.Ok? && fixed && Owned(st) ==> Owned(r.value) && Frozen(st, r.value)
  {
    var keys := st.lists[st.cur];
    if keys == [] then Err(IndexError("pop from empty list"))
    else
      var s1 := st.(counter := st.counter + 1,
                    lists := st.lists[st.cur := keys[1..]],
                    vars := st.vars + [Rec(st.counter + 1, at, keys[0], st.cur, syntax)]);
      assert s1.lists[..|st.lists|] == s1.lists;
      Ok(if fixed then Fresh(s1) else s1)
  }

  /** The nodes the visitor walks through without making a record: no
      statement, no `arg`; `Call` subtrees are never entered. */
  predicate Plain(n: Node)
    decreases Height(n)
  {
    match n
    case S(_) => false
    case A(_) => false
    case Params(_) => false
    case E(e) =>
      match e
      case Call(_, _) => true
      case Name(_, _) => true
      case Constant(_) => true
      case _ => ChildrenLower(n); forall c :: c in Children(n) ==> Plain(c)
  }

  /** The keys a plain node pushes: identifiers, constants and attribute
      names, each after its own sub-expressions, nothing under a call. */
  function KeysOf(n: Node): seq<Const>
    decreases Height(n), 1
  {
    ChildrenLower(n);
    match n
    case E(Name(id, _)) => [StrC(id)]
    case E(Constant(c)) => [c]
    case E(Attribute(v, attr, _)) => KeysOf(E(v)) + [StrC(attr)]
    case E(Call(_, _)) => []
    case _ => KeysAll(Children(n), Height(n))
  }

  function KeysAll(ns: seq<Node>, bound: nat): seq<Const>
    requires forall c :: c in ns ==> Height(c) < bound
    decreases bound, 0, |ns|
  {
    if ns == [] then [] else KeysOf(ns[0]) + KeysAll(ns[1..], bound)
  }

  /** `visit(node)`.  An `Assign` makes one record per target, each on a
      new list; `AnnAssign` and `AugAssign` one record for their target,
      positioned at the statement; an `arg` pushes its annotation's keys and
      its own name on the live list and makes a record rendered without the
      annotation.  A call is not entered. */
  function Visit(n: Node, st: NState, render: Node -> string, fixed: bool): (r: Result<NState>)
    requires Valid(st)
    ensures r.Ok? ==> Grows(st, r.value)
    ensures r.Ok? && fixed && Owned(st) ==> Owned(r.value) && Frozen(st, r.value)
    ensures Plain(n) ==> r == Ok(AppendAll(st, KeysOf(n)))
    decreases Height(n), 2
  {
    match n
    case S(_) => VisitStmt(n, st, render, fixed)
    case E(_) => VisitExpr(n, st, render, fixed)
    case A(_) => VisitArg(n, st, render, fixed)
    case Params(_) => ChildrenLower(n); VisitAll(Children(n), st, render, fixed, Height(n))
  }

  function VisitStmt(n: Node, st: NState, render: Node -> string, fixed: bool): (r: Result<NState>)
    requires n.S? && Valid(st)
    ensures r.Ok? ==> Grows(st, r.value)
    ensures r.Ok? && fixed && Owned(st) ==> Owned(r.value) && Frozen(st, r.value)
    decreases Height(n), 0
  {
    ChildrenLower(n);
    match n.s
    case Assign(ts, v, p) =>
      TargetsLower(ts, v, p);
      VisitTargets(ts, st, render, fixed, Height(n))
    case AugAssign(t, _, _) =>
      assert Children(n)[0] == E(t);
      VisitTarget(t, n, st, render, fixed, Height(n))
    case AnnAssign(t, _, _, _) =>
      assert Children(n)[0] == E(t);
      VisitTarget(t, n, st, render, fixed, Height(n))
    case _ => VisitAll(Children(n), st, render, fixed, Height(n))
  }

  function VisitExpr(n: Node, st: NState, render: Node -> string, fixed: bool): (r: Result<NState>)
    requires n.E? && Valid(st)
    ensures r.Ok? ==> Grows(st, r.value)
    ensures r.Ok? && fixed && Owned(st) ==> Owned(r.value) && Frozen(st, r.value)
    ensures Plain(n) ==> r == Ok(AppendAll(st, KeysOf(n)))
    decreases Height(n), 1
  {
    ChildrenLower(n);
    match n.e
    case Call(_, _) => AppendNothing(st); Ok(st)
    case Name(id, _) => Ok(AppendAll(st, [StrC(id)]))
    case Constant(c) => Ok(AppendAll(st, [c]))
    case Attribute(_, _, _) => VisitAttribute(n, st, render, fixed)
    case _ => VisitAll(Children(n), st, render, fixed, Height(n))
  }

  /** An attribute pushes its value's keys, then its own name. */
  function VisitAttribute(n: Node, st: NState, render: Node -> string, fixed: bool): (r: Result<NState>)
    requires n.E? && n.e.Attribute? && Valid(st)
    ensures r.Ok? ==> Grows(st, r.value)
    ensures r.Ok? && fixed && Owned(st) ==> Owned(r.value) && Frozen(st, r.value)
    ensures Plain(n) ==> r == Ok(AppendAll(st, KeysOf(n)))
    decreases Height(n), 0
  {
    var Attribute(v, attr, _) := n.e;
    ChildrenLower(n);
    assert Children(n) == [E(v)];
    match Visit(E(v), st, render, fixed)
    case Err(e) => Err(e)
    case Ok(s1) =>
      AppendTwice(st, KeysOf(E(v)), [StrC(attr)]);
      var s2 := AppendAll(s1, [StrC(attr)]);
      GrowsTrans(st, s1, s2);
      Ok(s2)
  }

  /** `visit_arg`: the annotation is visited first, then the argument's own
      name is pushed and saved.  With `fixed` the argument starts a list of
      its own and the annotation is not visited. */
  function VisitArg(n: Node, st: NState, render: Node -> string, fixed: bool): (r: Result<NState>)
    requires n.A? && Valid(st)
    ensures r.Ok? ==> Grows(st, r.value)
    ensures r.Ok? && fixed && Owned(st) ==> Owned(r.value) && Frozen(st, r.value)
    decreases Height(n), 0
  {
    ChildrenLower(n);
    var bare := A(Arg(n.a.name, None));
    var s1 := if fixed then Ok(Fresh(st)) else VisitAll(Children(n), st, render, fixed, Height(n));
    match s1
    case Err(e) => Err(e)
    case Ok(s1) =>
      var s2 := AppendAll(s1, [StrC(n.a.name)]);
      var r := Save(s2, bare, render(bare), fixed);
      GrowsTrans(st, s1, s2);
      if r.Ok? then GrowsTrans(st, s2, r.value); r else r
  }

  /** Corrected, an argument always makes exactly one record: its own
      name, rendered without annotation, on a list of its own that ends up
      empty. */
  lemma ArgRecordFixed(n: Node, st: NState, render: Node -> string)
    requires n.A? && Valid(st)
    ensures var r := VisitArg(n, st, render, true);
      && r.Ok? && r.value.vars == st.vars + [Rec(st.counter + 1, A(Arg(n.a.name, None)), StrC(n.a.name),
                                                 |st.lists|, render(A(Arg(n.a.name, None))))]
      && r.value.lists[|st.lists|] == [] && r.value.counter == st.counter + 1
  {
    var s1 := Fresh(st);
    var s2 := AppendAll(s1, [StrC(n.a.name)]);
    assert s2.lists[s2.cur] == [StrC(n.a.name)];
    var r := Save(s2, A(Arg(n.a.name, None)), render(A(Arg(n.a.name, None))), true);
    assert r.value.vars == s2.vars + [r.value.vars[|s2.vars|]];
  }

  /** One target: a new list, the target's keys, then the record. */
  function VisitTarget(t: Expr, at: Node, st: NState, render: Node -> string, fixed: bool, bound: nat): (r: Result<NState>)
    requires Valid(st) && HE(t) < bound
    ensures r.Ok? ==> Grows(st, r.value)
    ensures r.Ok? && fixed && Owned(st) ==> Owned(r.value) && Frozen(st, r.value)
    decreases bound, 0, 0
  {
    var s1 := Fresh(st);
    match Visit(E(t), s1, render, fixed)
    case Err(e) => Err(e)
    case Ok(s2) =>
      var r := Save(s2, at, render(E(t)), fixed);
      GrowsTrans(st, s1, s2);
      if r.Ok? then
        GrowsTrans(st, s2, r.value);
        if fixed then FrozenTrans(st, s1, s2); r else r
      else r
  }

  /** The record of a plain target: its first key is the name, the rest
      stay on the target's own new list; no key at all is an error. */
  lemma TargetRecord(t: Expr, at: Node, st: NState, render: Node -> string, fixed: bool, bound: nat)
    requires Valid(st) && HE(t) < bound && Plain(E(t))
    ensures var r := VisitTarget(t, at, st, render, fixed, bound);
      && (r.Err? <==> KeysOf(E(t)) == [])
      && (r.Ok? ==>
           && r.value.vars == st.vars + [Rec(st.counter + 1, at, KeysOf(E(t))[0], |st.lists|, render(E(t)))]
           && r.value.lists[..|st.lists| + 1] == st.lists + [KeysOf(E(t))[1..]]
           && (!fixed ==> r.value.cur == |st.lists| && |r.value.lists| == |st.lists| + 1))
  {
    var ks := KeysOf(E(t));
    var s1 := Fresh(st);
    assert Visit(E(t), s1, render, fixed) == Ok(AppendAll(s1, ks));
    assert VisitTarget(t, at, st, render, fixed, bound) == Save(AppendAll(s1, ks), at, render(E(t)), fixed);
    SaveFresh(st, ks, at, render(E(t)), fixed);
  }

  /** A new list, the keys `ks` pushed on it, then a save. */
  lemma SaveFresh(st: NState, ks: seq<Const>, at: Node, syntax: string, fixed: bool)
    requires Valid(st)
    ensures var r := Save(AppendAll(Fresh(st), ks), at, syntax, fixed);
      && (r.Err? <==> ks == [])
      && (r.Ok? ==>
           && r.value.vars == st.vars + [Rec(st.counter + 1, at, ks[0], |st.lists|, syntax)]
           && r.value.lists[..|st.lists| + 1] == st.lists + [ks[1..]]
           && (!fixed ==> r.value.cur == |st.lists| && |r.value.lists| == |st.lists| + 1))
  {
    var s2 := AppendAll(Fresh(st), ks);
    FreshThenAppend(st, ks);
    assert s2.cur == |st.lists| && s2.lists[s2.cur] == ks;
    var r := Save(s2, at, syntax, fixed);
    if r.Ok? {
      assert r.value.vars == s2.vars + [r.value.vars[|s2.vars|]];
      assert s2.lists[s2.cur := ks[1..]] == st.lists + [ks[1..]];
      if !fixed {
        SaveShared(s2, at, syntax);
      }
    }
  }

  function VisitTargets(ts: seq<Expr>, st: NState, render: Node -> string, fixed: bool, bound: nat): (r: Result<NState>)
    requires Valid(st) && forall i :: 0 <= i < |ts| ==> HE(ts[i]) < bound
    ensures r.Ok? ==> Grows(st, r.value)
    ensures r.Ok? && fixed && Owned(st) ==> Owned(r.value) && Frozen(st, r.value)
    decreases bound, 0, |ts| + 1
  {
    if ts == [] then GrowsRefl(st); Ok(st)
    else
      match VisitTarget(ts[0], E(ts[0]), st, render, fixed, bound)
      case Err(e) => Err(e)
      case Ok(s1) =>
        var r := VisitTargets(ts[1..], s1, render, fixed, bound);
        if r.Ok? then
          GrowsTrans(st, s1, r.value);
          if fixed && Owned(st) then FrozenTrans(st, s1, r.value); r else r
        else r
  }

  /** `generic_visit`: the children in field order. */
  function VisitAll(ns: seq<Node>, st: NState, render: Node -> string, fixed: bool, bound: nat): (r: Result<NState>)
    requires Valid(st) && forall c :: c in ns ==> Height(c) < bound
    ensures r.Ok? ==> Grows(st, r.value)
    ensures r.Ok? && fixed && Owned(st) ==> Owned(r.value) && Frozen(st, r.value)
    ensures (forall c :: c in ns ==> Plain(c)) ==> r == Ok(AppendAll(st, KeysAll(ns, bound)))
    decreases bound, 0, |ns|
  {
    if ns == [] then GrowsRefl(st); AppendNothing(st); Ok(st)
    else
      match Visit(ns[0], st, render, fixed)
      case Err(e) => Err(e)
      case Ok(s1) =>
        var r := VisitAll(ns[1..], s1, render, fixed, bound);
        AppendTwice(st, KeysOf(ns[0]), KeysAll(ns[1..], bound));
        if r.Ok? then
          GrowsTrans(st, s1, r.value);
          if fixed && Owned(st) then FrozenTrans(st, s1, r.value); r else r
        else r
  }

  predicate AllPlain(ts: seq<Expr>, bound: nat) {
    forall i :: 0 <= i < |ts| ==> HE(ts[i]) < bound && Plain(E(ts[i]))
  }

  /** `b` holds, after `a`, one record per target in order: each target
      got a new list, its first key is the record's name and the rest of
      its keys stay on that list. */
  predicate Laid(ts: seq<Expr>, a: NState, b: NState, render: Node -> string) {
    && |b.vars| == |a.vars| + |ts| && |b.lists| == |a.lists| + |ts|
    && b.lists[..|a.lists|] == a.lists
    && forall k :: 0 <= k < |ts| ==> LaidAt(ts[k], a, b, render, k)
  }

  /** The `k`-th target `t` after `a`: its record and its key list in `b`. */
  predicate LaidAt(t: Expr, a: NState, b: NState, render: Node -> string, k: int) {
    && 0 <= |a.vars| + k < |b.vars| && 0 <= |a.lists| + k < |b.lists|
    && KeysOf(E(t)) != []
    && b.vars[|a.vars| + k] == Rec(a.counter + 1 + k, E(t), KeysOf(E(t))[0], |a.lists| + k, render(E(t)))
    && b.lists[|a.lists| + k] == KeysOf(E(t))[1..]
  }

  lemma LaidShift(t: Expr, st: NState, s1: NState, b: NState, render: Node -> string, j: int)
    requires LaidAt(t, s1, b, render, j)
    requires |s1.vars| == |st.vars| + 1 && s1.counter == st.counter + 1 && |s1.lists| == |st.lists| + 1
    ensures LaidAt(t, st, b, render, j + 1)
  {
  }

  /** Some target pushes no key at all. */
  predicate SomeKeyless(ts: seq<Expr>) {
    exists k :: 0 <= k < |ts| && KeysOf(E(ts[k])) == []
  }

  lemma KeylessSplit(ts: seq<Expr>)
    requires ts != []
    ensures SomeKeyless(ts) <==> KeysOf(E(ts[0])) == [] || SomeKeyless(ts[1..])
  {
    if SomeKeyless(ts) && KeysOf(E(ts[0])) != [] {
      var k :| 0 <= k < |ts| && KeysOf(E(ts[k])) == [];
      assert ts[1..][k - 1] == ts[k];
    }
    if SomeKeyless(ts[1..]) {
      var k :| 0 <= k < |ts[1..]| && KeysOf(E(ts[1..][k])) == [];
      assert ts[k + 1] == ts[1..][k];
    }
  }

  /** A target with no key at all raises, and only then. */
  lemma {:induction false} TargetsFail(ts: seq<Expr>, st: NState, render: Node -> string, bound: nat)
    requires Valid(st) && AllPlain(ts, bound)
    ensures VisitTargets(ts, st, render, false, bound).Err? <==> SomeKeyless(ts)
    decreases |ts|
  {
    if ts != [] {
      TargetRecord(ts[0], E(ts[0]), st, render, false, bound);
      KeylessSplit(ts);
      var r0 := VisitTarget(ts[0], E(ts[0]), st, render, false, bound);
      if r0.Ok? {
        assert AllPlain(ts[1..], bound);
        TargetsFail(ts[1..], r0.value, render, bound);
      }
    }
  }

  lemma {:induction false} TargetsRecords(ts: seq<Expr>, st: NState, render: Node -> string, bound: nat)
    requires Valid(st) && AllPlain(ts, bound)
    ensures var r := VisitTargets(ts, st, render, false, bound);
      r.Ok? ==> Laid(ts, st, r.value, render)
    decreases |ts|
  {
    if ts != [] {
      TargetRecord(ts[0], E(ts[0]), st, render, false, bound);
      var r0 := VisitTarget(ts[0], E(ts[0]), st, render, false, bound);
      if r0.Ok? {
        var s1 := r0.value;
        assert AllPlain(ts[1..], bound);
        TargetsRecords(ts[1..], s1, render, bound);
        var r := VisitTargets(ts[1..], s1, render, false, bound);
        if r.Ok? {
          LaidStep(ts, st, s1, r.value, render);
        }
      }
    }
  }

  lemma LaidStep(ts: seq<Expr>, st: NState, s1: NState, b: NState, render: Node -> string)
    requires ts != [] && Grows(s1, b) && Laid(ts[1..], s1, b, render)
    requires KeysOf(E(ts[0])) != []
    requires s1.vars == st.vars + [Rec(st.counter + 1, E(ts[0]), KeysOf(E(ts[0]))[0], |st.lists|, render(E(ts[0])))]
    requires s1.counter == st.counter + 1 && |s1.lists| == |st.lists| + 1
    requires s1.lists[..|st.lists| + 1] == st.lists + [KeysOf(E(ts[0]))[1..]]
    ensures Laid(ts, st, b, render)
  {
    assert b.lists[..|st.lists|] == st.lists by {
      assert b.lists[..|st.lists|] == b.lists[..|s1.lists|][..|st.lists|];
      assert s1.lists[..|st.lists|] == s1.lists[..|st.lists| + 1][..|st.lists|];
    }
    LaidFirst(ts, st, s1, b, render);
    forall k | 0 <= k < |ts| ensures LaidAt(ts[k], st, b, render, k) {
      if k > 0 {
        assert ts[1..][k - 1] == ts[k];
        LaidShift(ts[k], st, s1, b, render, k - 1);
      }
    }
  }

  /** The first target's record and list, kept by the later targets. */
  lemma LaidFirst(ts: seq<Expr>, st: NState, s1: NState, b: NState, render: Node -> string)
    requires ts != [] && Grows(s1, b) && |b.lists| >= |s1.lists|
    requires KeysOf(E(ts[0])) != []
    requires s1.vars == st.vars + [Rec(st.counter + 1, E(ts[0]), KeysOf(E(ts[0]))[0], |st.lists|, render(E(ts[0])))]
    requires |s1.lists| == |st.lists| + 1 && b.lists[..|s1.lists|] == s1.lists
    requires s1.lists[..|st.lists| + 1] == st.lists + [KeysOf(E(ts[0]))[1..]]
    ensures b.vars[|st.vars|] == Rec(st.counter + 1, E(ts[0]), KeysOf(E(ts[0]))[0], |st.lists|, render(E(ts[0])))
    ensures b.lists[|st.lists|] == KeysOf(E(ts[0]))[1..]
  {
    assert b.vars[|st.vars|] == b.vars[..|s1.vars|][|st.vars|];
    assert b.lists[|st.lists|] == b.lists[..|s1.lists|][|st.lists|];
    assert s1.lists[|st.lists|] == s1.lists[..|st.lists| + 1][|st.lists|];
  }

  /** The records once collection is over: each record's keys are its
      list as it finally stands. */
  function Resolve(st: NState): (r: seq<VarRecord>)
    requires Valid(st)
    ensures |r| == |st.vars|
    ensures forall i :: 0 <= i < |r| ==>
      var v := st.vars[i];
      r[i] == VarRecord(v.varId, v.at, v.name, st.lists[v.keysRef], v.syntax)
  {
    seq(|st.vars|, i requires 0 <= i < |st.vars| =>
      var v := st.vars[i]; VarRecord(v.varId, v.at, v.name, st.lists[v.keysRef], v.syntax))
  }

  /** `CollectVariable(node).vars`, with the module counter before and
      after.  The constructor visits `node` itself. */
  function Collect(node: Stmt, counter: int, render: Node -> string, fixed: bool): (r: Result<(seq<VarRecord>, int)>)
    ensures r.Ok? ==> r.value.1 >= counter && |r.value.0| == r.value.1 - counter
    ensures r.Ok? ==> forall i :: 0 <= i < |r.value.0| ==> r.value.0[i].varId == counter + 1 + i
  {
    match Visit(S(node), Init(counter), render, fixed)
    case Err(e) => Err(e)
    case Ok(st) => Ok((Resolve(st), st.counter))
  }

  /** `extractVariables`: only assignments, annotated assignments with a
      value, augmented assignments and function definitions are
      collected. */
  predicate Collected(node: Stmt) {
    || node.Assign?
    || (node.AnnAssign? && node.annValue.Some?)
    || node.AugAssign?
    || (node.Compound? && node.kind.FunctionK?)
  }

  function ExtractVariables(node: Stmt, counter: int, render: Node -> string): (r: Result<(seq<VarRecord>, int)>)
    ensures !Collected(node) ==> r == Ok(([], counter))
    ensures r.Ok? ==> r.value.1 >= counter && |r.value.0| == r.value.1 - counter
    ensures r.Ok? ==> forall i :: 0 <= i < |r.value.0| ==> r.value.0[i].varId == counter + 1 + i
  {
    if Collected(node) then Collect(node, counter, render, false) else Ok(([], counter))
  }

  /** An assignment whose targets are plain makes one record per target:
      named by the target's first key, keyed by the rest, rendered as the
      target and positioned at it. */
  lemma AssignRecords(ts: seq<Expr>, v: Expr, p: Option<Span>, counter: int, render: Node -> string)
    requires forall i :: 0 <= i < |ts| ==> Plain(E(ts[i]))
    ensures var r := Collect(Assign(ts, v, p), counter, render, false);
      && (r.Err? <==> exists k :: 0 <= k < |ts| && KeysOf(E(ts[k])) == [])
      && (r.Ok? ==>
           && r.value.1 == counter + |ts| && |r.value.0| == |ts|
           && forall k :: 0 <= k < |ts| ==>
                r.value.0[k] == VarRecord(counter + 1 + k, E(ts[k]), KeysOf(E(ts[k]))[0],
                                          KeysOf(E(ts[k]))[1..], render(E(ts[k]))))
  {
    var n := S(Assign(ts, v, p));
    var st0 := Init(counter);
    TargetsLower(ts, v, p);
    var r := VisitTargets(ts, st0, render, false, Height(n));
    assert Visit(n, st0, render, false) == r by {
      assert VisitStmt(n, st0, render, false) == r;
    }
    assert AllPlain(ts, Height(n));
    TargetsFail(ts, st0, render, Height(n));
    TargetsRecords(ts, st0, render, Height(n));
    if r.Ok? {
      ResolveLaid(ts, counter, r.value, render);
    }
  }

  /** An augmented or annotated assignment to a plain target makes one
      record, positioned at the statement and rendered as the target. */
  lemma SingleTargetRecord(s: Stmt, counter: int, render: Node -> string)
    requires (s.AugAssign? || s.AnnAssign?) && Plain(E(s.target))
    ensures var r := Collect(s, counter, render, false);
      && (r.Err? <==> KeysOf(E(s.target)) == [])
      && (r.Ok? ==> r.value == ([VarRecord(counter + 1, S(s), KeysOf(E(s.target))[0],
                                           KeysOf(E(s.target))[1..], render(E(s.target)))], counter + 1))
  {
    var n := S(s);
    var st0 := Init(counter);
    ChildrenLower(n);
    assert Children(n)[0] == E(s.target);
    var r := VisitTarget(s.target, n, st0, render, false, Height(n));
    assert Visit(n, st0, render, false) == r by {
      assert VisitStmt(n, st0, render, false) == r;
    }
    TargetRecord(s.target, n, st0, render, false, Height(n));
    if r.Ok? {
      var b := r.value;
      assert b.lists[1] == b.lists[..2][1];
      assert Resolve(b) == [VarRecord(counter + 1, S(s), KeysOf(E(s.target))[0],
                                      KeysOf(E(s.target))[1..], render(E(s.target)))];
    }
  }

  lemma ResolveLaid(ts: seq<Expr>, counter: int, b: NState, render: Node -> string)
    requires Grows(Init(counter), b) && Laid(ts, Init(counter), b, render)
    ensures b.counter == counter + |ts|
    ensures forall k :: 0 <= k < |ts| ==>
      Resolve(b)[k] == VarRecord(counter + 1 + k, E(ts[k]), KeysOf(E(ts[k]))[0], KeysOf(E(ts[k]))[1..], render(E(ts[k])))
  {
    forall k | 0 <= k < |ts|
      ensures Resolve(b)[k] == VarRecord(counter + 1 + k, E(ts[k]), KeysOf(E(ts[k]))[0],
                                         KeysOf(E(ts[k]))[1..], render(E(ts[k])))
    {
      assert b.vars[k] == b.vars[|Init(counter).vars| + k];
    }
  }

  /** `def f(a: t)` with its body stripped. */
  function AnnotatedDef(f: string, a: string, t: string, pos: Option<Span>): Stmt {
    Compound(FunctionK(f, false), [Arg(a, Some(Name(t, Load)))], [], [], [], [], [], [], pos)
  }

  lemma DefChildren(f: string, a: string, t: string, pos: Option<Span>)
    ensures Children(S(AnnotatedDef(f, a, t, pos))) == [Params([Arg(a, Some(Name(t, Load)))])]
    ensures Children(Params([Arg(a, Some(Name(t, Load)))])) == [A(Arg(a, Some(Name(t, Load))))]
    ensures Children(A(Arg(a, Some(Name(t, Load))))) == [E(Name(t, Load))]
  {
    assert Es([]) == [] && Ss([]) == [];
  }

  /** Visiting the stripped definition is visiting its only argument. */
  lemma DefVisitsArg(f: string, a: string, t: string, pos: Option<Span>, st: NState, render: Node -> string, fixed: bool)
    requires Valid(st)
    ensures Visit(S(AnnotatedDef(f, a, t, pos)), st, render, fixed)
         == VisitArg(A(Arg(a, Some(Name(t, Load)))), st, render, fixed)
  {
    var d := S(AnnotatedDef(f, a, t, pos));
    var ps := Params([Arg(a, Some(Name(t, Load)))]);
    var arg := A(Arg(a, Some(Name(t, Load))));
    DefChildren(f, a, t, pos);
    ChildrenLower(d);
    ChildrenLower(ps);
    var r := VisitArg(arg, st, render, fixed);
    assert Visit(arg, st, render, fixed) == r;
    assert VisitAll([arg], st, render, fixed, Height(ps)) == r;
    assert Visit(ps, st, render, fixed) == r;
    assert VisitAll([ps], st, render, fixed, Height(d)) == r;
    assert VisitStmt(d, st, render, fixed) == r;
  }

  /** The annotation of `a: t` pushes `t` on the live list. */
  lemma AnnotationVisit(t: string, st: NState, render: Node -> string, bound: nat)
    requires Valid(st) && Height(E(Name(t, Load))) < bound
    ensures VisitAll([E(Name(t, Load))], st, render, false, bound) == Ok(AppendAll(st, [StrC(t)]))
  {
    assert Visit(E(Name(t, Load)), st, render, false) == Ok(AppendAll(st, [StrC(t)]));
    AppendNothing(AppendAll(st, [StrC(t)]));
  }

  /** As written, `a: t` on a fresh collector leaves one record named `t`
      on the only list, which still holds `a`. */
  lemma ArgVisitAsWritten(a: string, t: string, counter: int, render: Node -> string)
    ensures VisitArg(A(Arg(a, Some(Name(t, Load)))), Init(counter), render, false)
         == Ok(NState(counter + 1, [[StrC(a)]], 0, [Rec(counter + 1, A(Arg(a, None)), StrC(t), 0, render(A(Arg(a, None))))]))
  {
    var s0 := Init(counter);
    var arg := A(Arg(a, Some(Name(t, Load))));
    var bare := A(Arg(a, None));
    var s1 := AppendAll(s0, [StrC(t)]);
    assert VisitAll(Children(arg), s0, render, false, Height(arg)) == Ok(s1) by {
      DefChildren("", a, t, None);
      ChildrenLower(arg);
      AnnotationVisit(t, s0, render, Height(arg));
    }
    var s2 := AppendAll(s1, [StrC(a)]);
    assert s2 == NState(counter, [[StrC(t), StrC(a)]], 0, []) by {
      assert [] + [StrC(t)] == [StrC(t)];
      assert [StrC(t)] + [StrC(a)] == [StrC(t), StrC(a)];
    }
    var s3 := NState(counter + 1, [[StrC(a)]], 0, [Rec(counter + 1, bare, StrC(t), 0, render(bare))]);
    assert Save(s2, bare, render(bare), false) == Ok(s3) by {
      SaveShared(s2, bare, render(bare));
      assert [StrC(t), StrC(a)][1..] == [StrC(a)];
      assert [[StrC(t), StrC(a)]][0 := [StrC(a)]] == [[StrC(a)]];
      assert [] + [Rec(counter + 1, bare, StrC(t), 0, render(bare))] == s3.vars;
    }
  }

  /** As written, a save pops the live list in place and stays on it. */
  lemma SaveShared(st: NState, at: Node, syntax: string)
    requires Valid(st) && st.lists[st.cur] != []
    ensures Save(st, at, syntax, false)
         == Ok(st.(counter := st.counter + 1, lists := st.lists[st.cur := st.lists[st.cur][1..]],
                   vars := st.vars + [Rec(st.counter + 1, at, st.lists[st.cur][0], st.cur, syntax)]))
  {
  }

  /** As written, the annotation's name is pushed before the argument's
      own and is popped as the record's name: `def f(a: t)` records a
      variable `t` whose keys hold `a`. */
  lemma AnnotatedArgAsWritten(f: string, a: string, t: string, pos: Option<Span>, counter: int, render: Node -> string)
    ensures Collect(AnnotatedDef(f, a, t, pos), counter, render, false)
         == Ok(([VarRecord(counter + 1, A(Arg(a, None)), StrC(t), [StrC(a)], render(A(Arg(a, None))))], counter + 1))
  {
    var s3 := NState(counter + 1, [[StrC(a)]], 0, [Rec(counter + 1, A(Arg(a, None)), StrC(t), 0, render(A(Arg(a, None))))]);
    ArgVisitAsWritten(a, t, counter, render);
    DefVisitsArg(f, a, t, pos, Init(counter), render, false);
    assert Resolve(s3) == [VarRecord(counter + 1, A(Arg(a, None)), StrC(t), [StrC(a)], render(A(Arg(a, None))))];
  }

  /** Corrected, the argument gets a list of its own and its annotation is
      left alone: `def f(a: t)` records `a` with no keys. */
  lemma AnnotatedArgFixed(f: string, a: string, t: string, pos: Option<Span>, counter: int, render: Node -> string)
    ensures Collect(AnnotatedDef(f, a, t, pos), counter, render, true)
         == Ok(([VarRecord(counter + 1, A(Arg(a, None)), StrC(a), [], render(A(Arg(a, None))))], counter + 1))
  {
    var arg := A(Arg(a, Some(Name(t, Load))));
    var s0 := Init(counter);
    ArgRecordFixed(arg, s0, render);
    DefVisitsArg(f, a, t, pos, s0, render, true);
    var r := VisitArg(arg, s0, render, true).value;
    assert Collect(AnnotatedDef(f, a, t, pos), counter, render, true) == Ok((Resolve(r), r.counter));
    assert r.vars == [Rec(counter + 1, A(Arg(a, None)), StrC(a), 1, render(A(Arg(a, None))))];
    assert Resolve(r) == [VarRecord(counter + 1, A(Arg(a, None)), StrC(a), [], render(A(Arg(a, None))))];
  }
}
