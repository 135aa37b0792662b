/** `CollectCallVariables`: for every call reachable from a statement, the
    variable whose method is called.

    The statement (stripped of its nested statements) is walked in
    `ast.walk` order; at each `Call` the key visitor runs over the callee
    expression, rewriting it in place, so the rest of the walk sees the
    rewritten callee.  The key list and the slice flag belong to the
    collector, not to a call: they are never reset, and a record made for a
    known variable holds the live key list itself, so its keys are whatever
    that list holds when the walk ends. */
module CollectCallVariables {
  import opened Wrappers
  import opened PyAst
  import opened Text
  import opened VariableCollectorBase
  import opened Walk
  import K = CollectAssignVarInfo

  /** The visitor state and the positions of the records that share the
      live key list. */
  datatype CallState = CallState(k: K.KState, shared: seq<nat>)

  /** The syntax of a method's receiver: the rendered callee up to its last
      dot (`''.join(s.rpartition('.')[:-2])`), or all of it without a dot. */
  function Receiver(rendered: string): (r: string)
    ensures '.' in rendered ==> |r| < |rendered| && rendered[..|r|] == r && rendered[|r|] == '.' && '.' !in rendered[|r| + 1..]
    ensures '.' !in rendered ==> r == rendered
  {
    if '.' in rendered then BeforeLast(rendered, '.') else rendered
  }

  /** Every record is a hoisted index, logs a whole variable, or names a
      variable that already exists; every shared record is of the last kind. */
  predicate Sound(st: CallState, existing: seq<Const>) {
    var vs := st.k.c.variables;
    && (forall j :: j in st.shared ==> j < |vs| && vs[j].name in existing)
    && forall i :: 0 <= i < |vs| ==>
         K.IsTempRecord(vs[i]) || (vs[i].keys == [] && vs[i].syntax == vs[i].name) || vs[i].name in existing
  }

  /** Appending hoisted-index records keeps a state sound. */
  lemma SoundAfterVisit(st: CallState, k1: K.KState, existing: seq<Const>)
    requires Extends(st.k.c, k1.c)
    requires forall i :: |st.k.c.variables| <= i < |k1.c.variables| ==> K.IsTempRecord(k1.c.variables[i])
    ensures Sound(st, existing) ==> Sound(CallState(k1, st.shared), existing)
  {
    var vs := st.k.c.variables;
    forall i | 0 <= i < |vs|
      ensures k1.c.variables[i] == vs[i]
    {
      assert k1.c.variables[..|vs|][i] == vs[i];
    }
  }

  /** `saveVariableInfo`.  With `perCall` the keys are private to the call
      and copied into the record: the evidently intended behaviour.
      Fewer than two keys change nothing.  Otherwise the first key (the
      variable) and the last (the method) are popped; a slice records the
      whole variable without checking that it exists; a known variable is
      recorded with the keys in between and the receiver's syntax; an
      unknown one is not recorded. */
  function Save(func: Expr, st: CallState, existing: seq<Const>, render: Expr -> string, perCall: bool): (r: CallState)
    ensures Extends(st.k.c, r.k.c) && |r.k.c.variables| <= |st.k.c.variables| + 1
    ensures Sound(st, existing) ==> Sound(r, existing)
    ensures perCall ==> r.shared == st.shared
    ensures |st.k.keys| <= 1 ==> r == st
    ensures var ks := st.k.keys;
      |ks| > 1 ==>
        && r.k.keys == ks[1..|ks| - 1] && r.k.containsSlice == st.k.containsSlice
        && (st.k.containsSlice ==>
              AddsOne(st.k.c, r.k.c, ks[0].value, [], ks[0].value) && r.shared == st.shared)
        && (!st.k.containsSlice && ks[0].value in existing ==>
              && AddsOne(st.k.c, r.k.c, ks[0].value, ks[1..|ks| - 1], StrC(Receiver(render(func))))
              && r.shared == if perCall then st.shared else st.shared + [|st.k.c.variables|])
        && (!st.k.containsSlice && ks[0].value !in existing ==>
              r.k.c == st.k.c && r.shared == st.shared)
  {
    var keys := st.k.keys;
    if |keys| <= 1 then st
    else
      var name := keys[0].value;
      var rest := keys[1..|keys| - 1];
      var k1 := st.k.(keys := rest);
      if st.k.containsSlice then
        CallState(k1.(c := GetVarInfo(k1.c, name, [], name, None)), st.shared)
      else if name in existing then
        var c' := GetVarInfo(k1.c, name, rest, StrC(Receiver(render(func))), None);
        CallState(k1.(c := c'), if perCall then st.shared else st.shared + [|k1.c.variables|])
      else
        CallState(k1, st.shared)
  }

  /** The work done at one `Call` node: the key visitor over the callee, then
      `saveVariableInfo`.  The result is the rewritten callee. */
  function VisitCall(func: Expr, st: CallState, existing: seq<Const>, render: Expr -> string,
                     uuid: int -> string, perCall: bool): (r: (Expr, CallState))
    ensures Extends(st.k.c, r.1.k.c)
    ensures Sound(st, existing) ==> Sound(r.1, existing)
    ensures HE(r.0) <= HE(func)
    ensures perCall ==> r.1.shared == st.shared
  {
    var k0 := if perCall then K.KState(st.k.c, [], false) else st.k;
    var (f', k1) := K.VisitE(func, k0, uuid);
    SoundAfterVisit(st, k1, existing);
    (f', Save(f', CallState(k1, st.shared), existing, render, perCall))
  }

  /** One node of a level: a call gets its callee rewritten. */
  function ProcessNode(l: Located, st: CallState, existing: seq<Const>, render: Expr -> string,
                       uuid: int -> string, perCall: bool): (r: (Located, CallState))
    ensures Height(r.0.n) <= Height(l.n)
    ensures Extends(st.k.c, r.1.k.c)
    ensures Sound(st, existing) ==> Sound(r.1, existing)
    ensures perCall ==> r.1.shared == st.shared
  {
    if l.n.E? && l.n.e.Call? then
      var (f', s) := VisitCall(l.n.e.func, st, existing, render, uuid, perCall);
      (At(l.path, E(Call(f', l.n.e.args))), s)
    else
      ExtendsRefl(st.k.c);
      (l, st)
  }

  /** One level of the walk, left to right; calls on it get rewritten callees. */
  function ProcessLevel(level: seq<Located>, st: CallState, existing: seq<Const>, render: Expr -> string,
                        uuid: int -> string, perCall: bool): (r: (seq<Located>, CallState))
    ensures |r.0| == |level| && MaxHeight(r.0) <= MaxHeight(level)
    ensures Extends(st.k.c, r.1.k.c)
    ensures Sound(st, existing) ==> Sound(r.1, existing)
    ensures perCall ==> r.1.shared == st.shared
    decreases |level|
  {
    if level == [] then ExtendsRefl(st.k.c); ([], st)
    else
      var (l', s1) := ProcessNode(level[0], st, existing, render, uuid, perCall);
      var (rest, s2) := ProcessLevel(level[1..], s1, existing, render, uuid, perCall);
      ExtendsTrans(st.k.c, s1.k.c, s2.k.c);
      assert ([l'] + rest)[1..] == rest;
      ([l'] + rest, s2)
  }

  /** The walk, level by level, each level taken from the rewritten one
      above it. */
  function WalkCalls(level: seq<Located>, st: CallState, existing: seq<Const>, render: Expr -> string,
                     uuid: int -> string, perCall: bool): (r: CallState)
    ensures Extends(st.k.c, r.k.c)
    ensures Sound(st, existing) ==> Sound(r, existing)
    ensures perCall ==> r.shared == st.shared
    decreases MaxHeight(level)
  {
    if level == [] then ExtendsRefl(st.k.c); st
    else
      var (level', s1) := ProcessLevel(level, st, existing, render, uuid, perCall);
      NextLevelLower(level');
      var s2 := WalkCalls(NextLevel(level'), s1, existing, render, uuid, perCall);
      ExtendsTrans(st.k.c, s1.k.c, s2.k.c);
      s2
  }

  /** The shared records take the final content of the live key list. */
  function Resolve(st: CallState): (r: Collector)
    ensures r.counter == st.k.c.counter && r.logTypeId == st.k.c.logTypeId && r.funcId == st.k.c.funcId
    ensures |r.variables| == |st.k.c.variables|
    ensures forall i :: 0 <= i < |r.variables| ==>
      r.variables[i] == if i in st.shared then st.k.c.variables[i].(keys := st.k.keys) else st.k.c.variables[i]
  {
    var vs := st.k.c.variables;
    st.k.c.(variables := seq(|vs|, i requires 0 <= i < |vs| => if i in st.shared then vs[i].(keys := st.k.keys) else vs[i]))
  }

  /** The collector built for `node` (`__init__`), numbering from `counter`.
      `existing` holds the names of the variables known so far. */
  function Collect(node: Stmt, counter: int, logTypeId: int, funcId: int, existing: seq<Const>,
                   render: Expr -> string, uuid: int -> string): (r: Collector)
    ensures Extends(New(counter, logTypeId, funcId), r)
    ensures forall i :: 0 <= i < |r.variables| ==>
      var v := r.variables[i];
      K.IsTempRecord(v) || (v.keys == [] && v.syntax == v.name) || v.name in existing
  {
    var st0 := CallState(K.KState(New(counter, logTypeId, funcId), [], false), []);
    var st := WalkCalls([At([], S(Strip(node)))], st0, existing, render, uuid, false);
    ResolveSound(New(counter, logTypeId, funcId), st, existing);
    Resolve(st)
  }

  /** Resolving the shared records of a sound walk from an empty collector
      keeps both the numbering and the record shapes. */
  lemma ResolveSound(c0: Collector, st: CallState, existing: seq<Const>)
    requires c0.variables == [] && Extends(c0, st.k.c) && Sound(st, existing)
    ensures Extends(c0, Resolve(st))
    ensures forall i :: 0 <= i < |Resolve(st).variables| ==>
      var v := Resolve(st).variables[i];
      K.IsTempRecord(v) || (v.keys == [] && v.syntax == v.name) || v.name in existing
  {
    var r := Resolve(st);
    var vs := st.k.c.variables;
    forall i | 0 <= i < |r.variables|
      ensures Stamped(c0, r.variables[i], c0.counter + 1 + i)
      ensures r.variables[i].name == vs[i].name
    {
      assert Stamped(c0, vs[i], c0.counter + 1 + i);
    }
    assert r.variables[..0] == [];
  }

  /** The same walk with the key list reset for every call and copied into
      its record. */
  function CollectPerCall(node: Stmt, counter: int, logTypeId: int, funcId: int, existing: seq<Const>,
                          render: Expr -> string, uuid: int -> string): (r: Collector)
    ensures Extends(New(counter, logTypeId, funcId), r)
    ensures forall i :: 0 <= i < |r.variables| ==>
      var v := r.variables[i];
      K.IsTempRecord(v) || (v.keys == [] && v.syntax == v.name) || v.name in existing
  {
    var st0 := CallState(K.KState(New(counter, logTypeId, funcId), [], false), []);
    var st := WalkCalls([At([], S(Strip(node)))], st0, existing, render, uuid, true);
    assert st.shared == [];
    st.k.c
  }

  /** With per-call keys, a method call on a known variable through a plain
      access chain records that variable with the chain's inner keys, no
      matter what earlier calls left behind. */
  lemma PerCallRecordsReceiver(func: Expr, st: CallState, existing: seq<Const>, render: Expr -> string, uuid: int -> string)
    requires K.Chain(func).Some? && |K.Chain(func).value| > 1
    requires K.Chain(func).value[0].value in existing
    ensures var ks := K.Chain(func).value;
      var r := VisitCall(func, st, existing, render, uuid, true);
      && r.0 == func
      && r.1.k.c == GetVarInfo(st.k.c, ks[0].value, ks[1..|ks| - 1], StrC(Receiver(render(func))), None)
  {
    K.ChainVisit(func, K.KState(st.k.c, [], false), uuid);
  }

  /** As written, a key left over by an earlier call becomes the name of the
      next one: in `f(x.y.z())` with `f` known, the call `f(...)` leaves the
      key `f` behind, and the call `x.y.z()` is recorded as variable `f`
      with keys `x`, `y`. */
  lemma StaleKeyNamesRecord(st: CallState, render: Expr -> string, uuid: int -> string)
    requires st.k.keys == [Key(VariableKey, StrC("f"))] && !st.k.containsSlice
    ensures var func := Attribute(Attribute(Name("x", Load), "y", Load), "z", Load);
      var r := VisitCall(func, st, [StrC("f")], render, uuid, false);
      var v := r.1.k.c.variables[|r.1.k.c.variables| - 1];
      && |r.1.k.c.variables| == |st.k.c.variables| + 1
      && v.name == StrC("f")
      && v.keys == [Key(VariableKey, StrC("x")), Key(KeyKey, StrC("y"))]
  {
    var func := Attribute(Attribute(Name("x", Load), "y", Load), "z", Load);
    K.ChainVisit(func, st.k, uuid);
    var ks := st.k.keys + K.Chain(func).value;
    assert ks == [Key(VariableKey, StrC("f")), Key(VariableKey, StrC("x")), Key(KeyKey, StrC("y")), Key(KeyKey, StrC("z"))];
    assert ks[1..|ks| - 1] == [Key(VariableKey, StrC("x")), Key(KeyKey, StrC("y"))];
  }

  /** With per-call keys the same call records `x` with key `y`. */
  lemma PerCallIgnoresStaleKey(st: CallState, render: Expr -> string, uuid: int -> string)
    ensures var func := Attribute(Attribute(Name("x", Load), "y", Load), "z", Load);
      var r := VisitCall(func, st, [StrC("x")], render, uuid, true);
      var v := r.1.k.c.variables[|r.1.k.c.variables| - 1];
      && |r.1.k.c.variables| == |st.k.c.variables| + 1
      && v.name == StrC("x") && v.keys == [Key(KeyKey, StrC("y"))]
  {
    var func := Attribute(Attribute(Name("x", Load), "y", Load), "z", Load);
    PerCallRecordsReceiver(func, st, [StrC("x")], render, uuid);
    var ks := K.Chain(func).value;
    assert ks[1..|ks| - 1] == [Key(KeyKey, StrC("y"))];
  }
}
