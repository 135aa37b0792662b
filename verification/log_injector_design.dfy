/** The checkpoint injection engine of `injector/LogInjectorDesign.py`.

    The engine walks a module's statements in pre-order.  Every statement it
    instruments receives a checkpoint id taken from a counter threaded
    through the walk (`logTypeCount`), one side-table entry in `ltMap`, and
    one of five fixed shapes of injected statements.  Rendering
    (`ast.unparse`), directive decoding (`getAdliConfiguration`) and source
    segments (`ast.get_source_segment`) are parameters of the walk. */
module LogInjectorDesign {
  import opened Wrappers
  import opened PyAst
  import Text

  datatype LtType = FunctionLt | ChildLt

  /** One entry of `ltMap`. */
  datatype LtEntry = LtEntry(
    id: int,
    file: string,
    funcid: int,
    lineno: int,
    endLineno: int,
    ltType: LtType,
    statement: string,
    abstractionId: Option<string>,
    injectedLineno: Option<int>)

  /** What `getAdliConfiguration` decodes from an expression statement. */
  datatype Directive =
    | DisableVariable(names: seq<string>)
    | Metadata(value: string)
    | EncodeOutput(values: seq<string>)
    | OtherDirective

  /** The read-only context of one file's walk. */
  datatype Env = Env(
    file: string,
    fileAbsMap: Option<map<int, string>>,   // line -> abstraction id
    sdgAbstractions: Option<set<string>>,   // the keys of sdg_meta["abstractions"]; None when sdg_meta is None
    render: Stmt -> string,                 // ast.unparse
    config: Stmt -> Option<Directive>,      // getAdliConfiguration
    segment: Stmt -> Option<string>)        // ast.get_source_segment(source, node)

  /** The mutable fields of the transformer. */
  datatype State = State(
    count: int,                      // logTypeCount
    ltMap: map<int, LtEntry>,
    funcId: int,
    globalsInFunc: seq<string>,
    globalDisabled: seq<string>,
    localDisabled: seq<string>,
    metadata: Option<string>)

  datatype Visited = Visited(stmts: seq<Stmt>, st: State)

  /** The initial values of the fields the constructor never assigns. */
  function InitialState(logTypeCount: int): State {
    State(logTypeCount, map[], 0, [], [], [], None)
  }

  /** Every checkpoint id already handed out is at most the counter. */
  predicate Fresh(st: State) {
    forall k :: k in st.ltMap ==> k <= st.count
  }

  /** The ids `lo + 1 .. hi`. */
  function IdRange(lo: int, hi: int): (r: set<int>)
    ensures forall k :: k in r <==> lo < k <= hi
    ensures lo <= hi ==> |r| == hi - lo
    decreases hi - lo
  {
    if hi <= lo then {} else IdRange(lo, hi - 1) + {hi}
  }

  lemma IdRangeSplit(a: int, b: int, c: int)
    requires a <= b <= c
    ensures IdRange(a, c) == IdRange(a, b) + IdRange(b, c)
  {
  }

  /** `b` extends `a` by fresh checkpoints `a.count + 1 .. b.count` and by
      nothing else. */
  ghost predicate Grows(env: Env, a: State, b: State) {
    && a.count <= b.count
    && b.funcId == a.funcId
    && Fresh(b)
    && (forall k :: k in b.ltMap <==> k in a.ltMap || a.count < k <= b.count)
    && (forall k :: k in a.ltMap ==> b.ltMap[k] == a.ltMap[k])
    && (forall k :: k in b.ltMap && k !in a.ltMap ==>
          b.ltMap[k].id == k && b.ltMap[k].file == env.file && b.ltMap[k].funcid == a.funcId)
  }

  lemma GrowsRefl(env: Env, a: State)
    requires Fresh(a)
    ensures Grows(env, a, a)
  {
    assert IdRange(a.count, a.count) == {};
  }

  lemma GrowsTrans(env: Env, a: State, b: State, c: State)
    requires Fresh(a) && Grows(env, a, b) && Grows(env, b, c)
    ensures Grows(env, a, c)
  {
  }

  /** The checkpoint ids of the injected log (`LtLog`) and tag statements of
      a tree; with `tagsOnly` only those of the tags. */
  function MarkId(m: Injected, tagsOnly: bool): set<int> {
    match m
    case Tag(k, _) => {k}
    case LtLog(k) => if tagsOnly then {} else {k}
    case _ => {}
  }

  function IdsS(s: Stmt, tagsOnly: bool): set<int>
    decreases s
  {
    match s
    case Marker(m) => MarkId(m, tagsOnly)
    case Group(ss) => IdsL(ss, tagsOnly)
    case Compound(_, _, _, b, h, o, f, _, _) =>
      IdsL(b, tagsOnly) + IdsL(h, tagsOnly) + IdsL(o, tagsOnly) + IdsL(f, tagsOnly)
    case _ => {}
  }

  function IdsL(ss: seq<Stmt>, tagsOnly: bool): set<int>
    decreases ss
  {
    if ss == [] then {} else IdsS(ss[0], tagsOnly) + IdsL(ss[1..], tagsOnly)
  }

  lemma {:induction false} IdsConcat(a: seq<Stmt>, b: seq<Stmt>, tagsOnly: bool)
    ensures IdsL(a + b, tagsOnly) == IdsL(a, tagsOnly) + IdsL(b, tagsOnly)
    decreases |a|
  {
    if a == [] {
      assert a + b == b;
    } else {
      assert (a + b)[1..] == a[1..] + b;
      IdsConcat(a[1..], b, tagsOnly);
    }
  }

  lemma IdsSingle(s: Stmt, tagsOnly: bool)
    ensures IdsL([s], tagsOnly) == IdsS(s, tagsOnly)
  {
    assert [s][1..] == [];
  }

  /** The abstraction id of a line, when the file's abstraction map is
      present, non-empty and has the line. */
  function AbstractionOf(env: Env, line: int): (r: Option<string>)
    ensures r.Some? <==> env.fileAbsMap.Some? && |env.fileAbsMap.value| > 0 && line in env.fileAbsMap.value
    ensures r.Some? ==> r.value == env.fileAbsMap.value[line]
  {
    if env.fileAbsMap.Some? && |env.fileAbsMap.value| > 0 && line in env.fileAbsMap.value
    then Some(env.fileAbsMap.value[line]) else None
  }

  /** The `statement` text of a checkpoint: the rendering of the node, with
      its nested statement lists emptied when it has a body. */
  function StatementText(env: Env, s: Stmt): string {
    env.render(Strip(s))
  }

  /** Whether `generateLtLogStmts` can hand out a checkpoint for `s`: the
      node has a position, and an abstraction placed on its line is one of
      `sdg_meta["abstractions"]`. */
  predicate Checkpointable(env: Env, s: Stmt) {
    && Position(s).Some?
    && var abs := AbstractionOf(env, Position(s).value.lineno);
       abs.None? || (env.sdgAbstractions.Some? && abs.value in env.sdgAbstractions.value)
  }

  /** The failure of `generateLtLogStmts` for an abstraction `abs` placed on
      the node's line: subscripting a `None` `sdg_meta` is a TypeError, and an
      abstraction missing from `sdg_meta["abstractions"]` a KeyError. */
  function AbstractionError(env: Env, abs: string): Error {
    if env.sdgAbstractions.None? then TypeError("sdg_meta") else KeyError(abs)
  }

  /** `generateLtLogStmts`: the next checkpoint id and its `ltMap` entry.
      The log statement it returns is always `LtLog(count)`, so callers
      build it themselves from the new counter.  A node without a position
      fails before the counter moves; the error message calls `type(...)`,
      which the parameter named `type` shadows, so the failure is a
      TypeError. */
  function NewCheckpoint(env: Env, s: Stmt, ltType: LtType, st: State): (r: Result<State>)
    requires Fresh(st)
    ensures r.Ok? <==> Checkpointable(env, s)
    ensures Position(s).None? ==> r == Err(TypeError("type(node)"))
    ensures Position(s).Some? && !Checkpointable(env, s) ==>
      var abs := AbstractionOf(env, Position(s).value.lineno);
      abs.Some? && r == Err(AbstractionError(env, abs.value))
    ensures r.Ok? ==> Grows(env, st, r.value) && r.value.count == st.count + 1
    ensures r.Ok? ==> var e := r.value.ltMap[st.count + 1];
      && e.lineno == Position(s).value.lineno && e.endLineno == Position(s).value.endLineno
      && e.ltType == ltType && e.statement == env.render(Strip(s)) && e.injectedLineno.None?
      && e.abstractionId == AbstractionOf(env, e.lineno)
    ensures r.Ok? ==>
      && r.value.globalsInFunc == st.globalsInFunc && r.value.metadata == st.metadata
      && r.value.globalDisabled == st.globalDisabled && r.value.localDisabled == st.localDisabled
  {
    if Position(s).None? then Err(TypeError("type(node)"))
    else
      var p := Position(s).value;
      var k := st.count + 1;
      var abs := AbstractionOf(env, p.lineno);
      if abs.Some? && !(env.sdgAbstractions.Some? && abs.value in env.sdgAbstractions.value) then
        Err(AbstractionError(env, abs.value))
      else
        var e := LtEntry(k, env.file, st.funcId, p.lineno, p.endLineno, ltType, StatementText(env, s), abs, None);
        var st' := st.(count := k, ltMap := st.ltMap[k := e]);
        Ok(st')
  }

  /** The attributes `__init__` assigns before its walk starts: `funcId`
      is not among them. */
  const ConstructorAttributes: set<string> :=
    {"metadata", "ltMap", "varMap", "logTypeCount", "file", "source", "sdg_meta",
     "fileAbsMap", "nodeVarInfo", "minLogTypeCount"}

  /** `generateLtLogStmts` as written, for an object whose assigned
      attributes are `attrs`: building the entry reads `self.funcId`. */
  function NewCheckpointAsWritten(attrs: set<string>, env: Env, s: Stmt, ltType: LtType, st: State): (r: Result<State>)
    requires Fresh(st)
    ensures "funcId" in attrs ==> r == NewCheckpoint(env, s, ltType, st)
    ensures "funcId" !in attrs ==> r.Err?
    ensures "funcId" !in attrs && Position(s).Some? && AbstractionOf(env, Position(s).value.lineno).None? ==>
      r == Err(AttributeError("funcId"))
  {
    if Position(s).None? || "funcId" in attrs then NewCheckpoint(env, s, ltType, st)
    else
      var abs := AbstractionOf(env, Position(s).value.lineno);
      if abs.Some? && !(env.sdgAbstractions.Some? && abs.value in env.sdgAbstractions.value) then
        Err(AbstractionError(env, abs.value))
      else Err(AttributeError("funcId"))
  }

  /** The object the constructor builds has no `funcId`, so the first
      checkpoint of any file fails: no statement can ever be instrumented. */
  lemma ConstructorCannotCheckpoint(env: Env, s: Stmt, ltType: LtType, st: State)
    requires Fresh(st)
    ensures NewCheckpointAsWritten(ConstructorAttributes, env, s, ltType, st).Err?
  {
  }

  /** Injection patterns, by the statement class of the visited node. */
  datatype Pattern =
    | PatternA          // simple statements:          [log, tag(next), node]
    | PatternB          // if / with:                  [log, tag(next), node]
    | PatternC          // class / while / try / except: [node], body = [tag(prev), log] + body
    | PatternD          // for:                        [log, tag(next), node], body = body + [log]
    | PatternFunction   // def:                        [node], body = [tag(prev)] + body
    | PatternExpr       // expression statements: directives first
    | Untouched         // no visitor: the node itself, children visited

  function PatternOf(s: Stmt): Pattern {
    match s
    case Assign(_, _, _) => PatternA
    case AugAssign(_, _, _) => PatternA
    case AnnAssign(_, _, _, _) => PatternA
    case ExprStmt(_, _) => PatternExpr
    case Global(_, _) => PatternA
    case Import(_, _) => PatternA
    case ImportFrom(_, _, _) => PatternA
    case Simple(k, _, _) => if k == OtherSimpleK then Untouched else PatternA
    case Compound(k, _, _, _, _, _, _, _, _) =>
      (match k
       case FunctionK(_, _) => PatternFunction
       case ClassK(_) => PatternC
       case WhileK => PatternC
       case TryK => PatternC
       case HandlerK(_) => PatternC
       case IfK => PatternB
       case WithK(_) => PatternB
       case ForK(_) => PatternD
       case TryStarK => Untouched)
    case Marker(_) => Untouched
    case Group(_) => Untouched
  }

  /** The postcondition shared by every visitor: the state grows by the
      checkpoints handed out, the output holds exactly the input's
      checkpoint ids plus the new ones, and every new checkpoint has a tag. */
  ghost predicate Sound(env: Env, st: State, inIds: set<int>, r: Result<Visited>) {
    r.Ok? ==> Step(env, st, inIds, r.value.stmts, r.value.st)
  }

  ghost predicate Step(env: Env, st: State, inIds: set<int>, out: seq<Stmt>, st': State) {
    && Grows(env, st, st')
    && IdsL(out, false) == inIds + IdRange(st.count, st'.count)
    && IdRange(st.count, st'.count) <= IdsL(out, true)
  }

  lemma StepJoin(env: Env, s1: State, s2: State, s3: State, in1: set<int>, in2: set<int>, o1: seq<Stmt>, o2: seq<Stmt>)
    requires Fresh(s1) && Step(env, s1, in1, o1, s2) && Step(env, s2, in2, o2, s3)
    ensures Step(env, s1, in1 + in2, o1 + o2, s3)
  {
    GrowsTrans(env, s1, s2, s3);
    IdRangeSplit(s1.count, s2.count, s3.count);
    IdsConcat(o1, o2, false);
    IdsConcat(o1, o2, true);
  }

  lemma StepNone(env: Env, st: State, ss: seq<Stmt>)
    requires Fresh(st)
    ensures Step(env, st, IdsL(ss, false), ss, st)
  {
    GrowsRefl(env, st);
  }

  lemma IdsThree(a: Stmt, b: Stmt, c: Stmt, t: bool)
    ensures IdsL([a, b, c], t) == IdsS(a, t) + IdsS(b, t) + IdsS(c, t)
  {
    assert [a, b, c][1..] == [b, c];
    assert [b, c][1..] == [c];
    IdsSingle(c, t);
  }

  /** Pattern A for statements without nested statement lists. */
  function VisitSimple(env: Env, s: Stmt, st: State): (r: Result<Visited>)
    requires Fresh(st) && !s.Compound? && !s.Marker? && !s.Group?
    ensures Sound(env, st, {}, r)
    ensures r.Ok? <==> Checkpointable(env, s)
    ensures r.Ok? ==> var k := st.count + 1;
      r.value.st.count == k && r.value.stmts == [Marker(LtLog(k)), Marker(Tag(k, Next)), s]
  {
    var st1 :- NewCheckpoint(env, s, ChildLt, st);
    var k := st1.count;
    var out := [Marker(LtLog(k)), Marker(Tag(k, Next)), s];
    SimpleStep(env, s, st, st1);
    Ok(Visited(out, st1))
  }

  /** Pattern A around a statement without nested lists takes exactly the
      one new id. */
  lemma SimpleStep(env: Env, s: Stmt, st: State, st1: State)
    requires Fresh(st) && !s.Compound? && !s.Marker? && !s.Group?
    requires Grows(env, st, st1) && st1.count == st.count + 1
    ensures Step(env, st, {}, [Marker(LtLog(st1.count)), Marker(Tag(st1.count, Next)), s], st1)
  {
    var k := st1.count;
    var out := [Marker(LtLog(k)), Marker(Tag(k, Next)), s];
    IdsThree(out[0], out[1], out[2], false);
    IdsThree(out[0], out[1], out[2], true);
    assert IdRange(st.count, k) == {k};
  }

  /** `visit_Expr`: directives first, then docstring-like statements are
      left alone and every other expression statement gets pattern A. */
  function VisitExpr(env: Env, s: Stmt, st: State): (r: Result<Visited>)
    requires Fresh(st) && s.ExprStmt?
    ensures Sound(env, st, {}, r)
    ensures env.config(s).Some? && env.config(s).value.EncodeOutput? ==>
      var vs := env.config(s).value.values;
      r == if |vs| == 0 then Err(IndexError("parsed[\"value\"][0]")) else Ok(Visited([Marker(EncodedOutput(vs[0]))], st))
    ensures !(env.config(s).Some? && env.config(s).value.EncodeOutput?) && IsTripleQuoted(env.segment(s)) ==>
      r == Ok(Visited([s], ApplyDirective(env.config(s), st)))
    ensures !(env.config(s).Some? && env.config(s).value.EncodeOutput?) && !IsTripleQuoted(env.segment(s)) ==>
      var st1 := ApplyDirective(env.config(s), st); var k := st.count + 1;
      && (r.Ok? <==> Checkpointable(env, s))
      && (r.Ok? ==>
            && r.value.stmts == [Marker(LtLog(k)), Marker(Tag(k, Next)), s]
            && r.value.st == NewCheckpoint(env, s, ChildLt, st1).value)
  {
    var d := env.config(s);
    var st1 := ApplyDirective(d, st);
    if d.Some? && d.value.EncodeOutput? then
      if |d.value.values| == 0 then Err(IndexError("parsed[\"value\"][0]"))
      else
        var out := [Marker(EncodedOutput(d.value.values[0]))];
        StepNone(env, st, out);
        Ok(Visited(out, st))
    else if IsTripleQuoted(env.segment(s)) then
      GrowsRefl(env, st1);
      assert IdRange(st.count, st.count) == {};
      IdsSingle(s, false);
      IdsSingle(s, true);
      Ok(Visited([s], st1))
    else
      VisitSimple(env, s, st1)
  }

  /** The state effect of a directive: disable-variable extends the
      global list at module level (`funcId == 0`) and the local list
      otherwise; metadata is remembered. */
  function ApplyDirective(d: Option<Directive>, st: State): (r: State)
    ensures r.count == st.count && r.ltMap == st.ltMap && r.funcId == st.funcId && r.globalsInFunc == st.globalsInFunc
    ensures d.Some? && d.value.DisableVariable? && st.funcId == 0 ==>
      r.globalDisabled == st.globalDisabled + d.value.names && r.localDisabled == st.localDisabled
    ensures d.Some? && d.value.DisableVariable? && st.funcId != 0 ==>
      r.localDisabled == st.localDisabled + d.value.names && r.globalDisabled == st.globalDisabled
    ensures !(d.Some? && d.value.DisableVariable?) ==>
      r.localDisabled == st.localDisabled && r.globalDisabled == st.globalDisabled
    ensures r.metadata == if d.Some? && d.value.Metadata? then Some(d.value.value) else st.metadata
  {
    match d
    case Some(DisableVariable(names)) =>
      if st.funcId == 0 then st.(globalDisabled := st.globalDisabled + names)
      else st.(localDisabled := st.localDisabled + names)
    case Some(Metadata(v)) => st.(metadata := Some(v))
    case _ => st
  }

  /** `segment and segment.lstrip().startswith(("'''", '"""'))`. */
  predicate IsTripleQuoted(segment: Option<string>) {
    && segment.Some? && segment.value != ""
    && (Text.StartsWith(Text.Lstrip(segment.value), "'''")
        || Text.StartsWith(Text.Lstrip(segment.value), "\"\"\""))
  }

  /** `self.visit(node)` for one statement. */
  function VisitStmt(env: Env, s: Stmt, st: State): (r: Result<Visited>)
    requires Fresh(st)
    ensures Sound(env, st, IdsS(s, false), r)
    decreases s, 2
  {
    match PatternOf(s)
    case PatternA =>
      if s.Global? then VisitSimple(env, s, st.(globalsInFunc := st.globalsInFunc + s.names))
      else VisitSimple(env, s, st)
    case PatternExpr => VisitExpr(env, s, st)
    case Untouched =>
      if s.Compound? then VisitChildren(env, s, st)
      else
        StepNone(env, st, [s]);
        IdsSingle(s, false);
        Ok(Visited([s], st))
    case _ => VisitBlockNode(env, s, st)
  }

  /** Patterns B, C, D and the function pattern: a checkpoint for the node,
      then its children, then the node's shape. */
  function VisitBlockNode(env: Env, s: Stmt, st: State): (r: Result<Visited>)
    requires Fresh(st) && s.Compound?
    ensures Sound(env, st, IdsS(s, false), r)
    decreases s, 1
  {
    var p := PatternOf(s);
    var st1 :- NewCheckpoint(env, s, if p == PatternFunction then FunctionLt else ChildLt, st);
    var k := st1.count;
    var v :- VisitChildren(env, s, st1);
    var n := v.stmts[0];
    var out := Shape(p, k, n);
    ShapeStep(env, s, n, p, st, st1, v.st);
    Ok(Visited(out, v.st))
  }

  /** The statements that replace a node with a body, by pattern, for
      checkpoint `k` and the node `n` with visited children. */
  function Shape(p: Pattern, k: int, n: Stmt): seq<Stmt>
    requires n.Compound?
  {
    var log := Marker(LtLog(k));
    var tagNext := Marker(Tag(k, Next));
    var tagPrev := Marker(Tag(k, Prev));
    if p == PatternC then [n.(body := [tagPrev, log] + n.body)]
    else if p == PatternD then [log, tagNext, n.(body := n.body + [log])]
    else if p == PatternFunction then [n.(body := [tagPrev] + n.body)]
    else [log, tagNext, n]
  }

  lemma ShapeStep(env: Env, s: Stmt, n: Stmt, p: Pattern, s0: State, s1: State, s2: State)
    requires n.Compound? && Fresh(s0) && Grows(env, s0, s1) && s1.count == s0.count + 1
    requires Step(env, s1, IdsS(s, false), [n], s2)
    ensures Step(env, s0, IdsS(s, false), Shape(p, s1.count, n), s2)
  {
    var out := Shape(p, s1.count, n);
    assert Grows(env, s0, s2) by {
      GrowsTrans(env, s0, s1, s2);
    }
    assert IdsL(out, false) == IdsS(s, false) + IdRange(s0.count, s2.count)
        && IdRange(s0.count, s2.count) <= IdsL(out, true) by {
      IdsSingle(n, false);
      IdsSingle(n, true);
      ShapeIdsStep(IdsS(s, false), n, p, s0.count, s2.count);
    }
  }

  /** The id bookkeeping of `ShapeStep`, apart from the states. */
  lemma ShapeIdsStep(inIds: set<int>, n: Stmt, p: Pattern, c0: int, c2: int)
    requires n.Compound? && c0 + 1 <= c2
    requires IdsS(n, false) == inIds + IdRange(c0 + 1, c2) && IdRange(c0 + 1, c2) <= IdsS(n, true)
    ensures IdsL(Shape(p, c0 + 1, n), false) == inIds + IdRange(c0, c2)
    ensures IdRange(c0, c2) <= IdsL(Shape(p, c0 + 1, n), true)
  {
    ShapeIds(n, c0 + 1, p, false);
    ShapeIds(n, c0 + 1, p, true);
    ShapeRange(c0, c2, inIds, IdsS(n, false), IdsS(n, true),
               IdsL(Shape(p, c0 + 1, n), false), IdsL(Shape(p, c0 + 1, n), true));
  }

  lemma ShapeRange(c0: int, c2: int, inIds: set<int>, nIds: set<int>, nTags: set<int>, outIds: set<int>, outTags: set<int>)
    requires c0 + 1 <= c2
    requires nIds == inIds + IdRange(c0 + 1, c2) && IdRange(c0 + 1, c2) <= nTags
    requires outIds == {c0 + 1} + nIds && outTags == {c0 + 1} + nTags
    ensures outIds == inIds + IdRange(c0, c2) && IdRange(c0, c2) <= outTags
  {
    IdRangeSplit(c0, c0 + 1, c2);
    assert IdRange(c0, c0 + 1) == {c0 + 1};
  }

  lemma ShapeIds(n: Stmt, k: int, p: Pattern, t: bool)
    requires n.Compound?
    ensures IdsL(Shape(p, k, n), t) == {k} + IdsS(n, t)
  {
    if p == PatternC {
      ShapeIdsC(n, k, t);
    } else if p == PatternD {
      ShapeIdsD(n, k, t);
    } else if p == PatternFunction {
      ShapeIdsFunction(n, k, t);
    } else {
      var log := Marker(LtLog(k));
      var tagNext := Marker(Tag(k, Next));
      assert IdsS(log, t) + IdsS(tagNext, t) == {k};
      IdsThree(log, tagNext, n, t);
    }
  }

  lemma ShapeIdsC(n: Stmt, k: int, t: bool)
    requires n.Compound?
    ensures IdsL(Shape(PatternC, k, n), t) == {k} + IdsS(n, t)
  {
    var log := Marker(LtLog(k));
    var tagPrev := Marker(Tag(k, Prev));
    var n' := n.(body := [tagPrev, log] + n.body);
    IdsConcat([tagPrev, log], n.body, t);
    assert [tagPrev, log][1..] == [log];
    IdsSingle(log, t);
    assert IdsS(tagPrev, t) == {k};
    assert IdsL([tagPrev, log], t) == {k};
    assert IdsS(n', t) == {k} + IdsS(n, t);
    IdsSingle(n', t);
  }

  lemma ShapeIdsD(n: Stmt, k: int, t: bool)
    requires n.Compound?
    ensures IdsL(Shape(PatternD, k, n), t) == {k} + IdsS(n, t)
  {
    var log := Marker(LtLog(k));
    var tagNext := Marker(Tag(k, Next));
    var n' := n.(body := n.body + [log]);
    IdsConcat(n.body, [log], t);
    IdsSingle(log, t);
    assert IdsS(tagNext, t) == {k};
    assert IdsS(n', t) == IdsS(n, t) + IdsS(log, t);
    IdsThree(log, tagNext, n', t);
  }

  lemma ShapeIdsFunction(n: Stmt, k: int, t: bool)
    requires n.Compound?
    ensures IdsL(Shape(PatternFunction, k, n), t) == {k} + IdsS(n, t)
  {
    var tagPrev := Marker(Tag(k, Prev));
    var n' := n.(body := [tagPrev] + n.body);
    IdsConcat([tagPrev], n.body, t);
    IdsSingle(tagPrev, t);
    assert IdsS(tagPrev, t) == {k};
    assert IdsS(n', t) == {k} + IdsS(n, t);
    IdsSingle(n', t);
  }

  /** `generic_visit` of a node with statement lists: body, handlers,
      orelse and finalbody are visited in that order (the field order of
      `ast.Try`; the other classes lack some of the lists). */
  function VisitChildren(env: Env, s: Stmt, st: State): (r: Result<Visited>)
    requires Fresh(st) && s.Compound?
    ensures Sound(env, st, IdsS(s, false), r)
    ensures r.Ok? ==> |r.value.stmts| == 1 && r.value.stmts[0].Compound?
    ensures r.Ok? ==> var n := r.value.stmts[0];
      n.kind == s.kind && n.params == s.params && n.header == s.header && n.trailer == s.trailer && n.pos == s.pos
    ensures r.Ok? ==> IdsS(r.value.stmts[0], false) == IdsS(s, false) + IdRange(st.count, r.value.st.count)
    ensures r.Ok? ==> IdRange(st.count, r.value.st.count) <= IdsS(r.value.stmts[0], true)
    decreases s, 0
  {
    var b :- VisitBlock(env, s.body, st);
    var h :- VisitBlock(env, s.handlers, b.st);
    var o :- VisitBlock(env, s.orelse, h.st);
    var f :- VisitBlock(env, s.finalbody, o.st);
    var n := s.(body := b.stmts, handlers := h.stmts, orelse := o.stmts, finalbody := f.stmts);
    ChildrenStep(env, s, n, st, b.st, h.st, o.st, f.st);
    Ok(Visited([n], f.st))
  }

  lemma ChildrenStep(env: Env, s: Stmt, n: Stmt, s0: State, s1: State, s2: State, s3: State, s4: State)
    requires s.Compound? && n.Compound? && Fresh(s0)
    requires Step(env, s0, IdsL(s.body, false), n.body, s1)
    requires Step(env, s1, IdsL(s.handlers, false), n.handlers, s2)
    requires Step(env, s2, IdsL(s.orelse, false), n.orelse, s3)
    requires Step(env, s3, IdsL(s.finalbody, false), n.finalbody, s4)
    ensures Step(env, s0, IdsS(s, false), [n], s4)
    ensures IdsS(n, false) == IdsS(s, false) + IdRange(s0.count, s4.count)
    ensures IdRange(s0.count, s4.count) <= IdsS(n, true)
  {
    var ins := IdsL(s.body, false) + IdsL(s.handlers, false) + IdsL(s.orelse, false) + IdsL(s.finalbody, false);
    assert Step(env, s0, ins, n.body + n.handlers + n.orelse + n.finalbody, s4) by {
      StepJoin(env, s0, s1, s2, IdsL(s.body, false), IdsL(s.handlers, false), n.body, n.handlers);
      StepJoin(env, s0, s2, s3, IdsL(s.body, false) + IdsL(s.handlers, false), IdsL(s.orelse, false),
               n.body + n.handlers, n.orelse);
      StepJoin(env, s0, s3, s4, IdsL(s.body, false) + IdsL(s.handlers, false) + IdsL(s.orelse, false),
               IdsL(s.finalbody, false), n.body + n.handlers + n.orelse, n.finalbody);
    }
    assert IdsS(s, false) == ins;
    CompoundIds(n, false);
    CompoundIds(n, true);
  }

  /** A compound statement's ids are those of its four lists in order. */
  lemma CompoundIds(n: Stmt, t: bool)
    requires n.Compound?
    ensures IdsS(n, t) == IdsL(n.body + n.handlers + n.orelse + n.finalbody, t)
    ensures IdsL([n], t) == IdsS(n, t)
  {
    IdsConcat(n.body + n.handlers + n.orelse, n.finalbody, t);
    IdsConcat(n.body + n.handlers, n.orelse, t);
    IdsConcat(n.body, n.handlers, t);
    IdsSingle(n, t);
  }

  /** `generic_visit` of a statement list: each statement is replaced by the
      statements its visit returns. */
  function VisitBlock(env: Env, ss: seq<Stmt>, st: State): (r: Result<Visited>)
    requires Fresh(st)
    ensures Sound(env, st, IdsL(ss, false), r)
    decreases ss, 3
  {
    if ss == [] then
      StepNone(env, st, []);
      Ok(Visited([], st))
    else
      var h :- VisitStmt(env, ss[0], st);
      var t :- VisitBlock(env, ss[1..], h.st);
      StepJoin(env, st, h.st, t.st, IdsS(ss[0], false), IdsL(ss[1..], false), h.stmts, t.stmts);
      Ok(Visited(h.stmts + t.stmts, t.st))
  }

  /* ---------------------------------------------------------------------
     When the walk succeeds: every checkpoint it hands out can be built,
     and every encode-output directive it meets has a value.
     --------------------------------------------------------------------- */

  predicate StmtSucceeds(env: Env, s: Stmt)
    decreases s, 1
  {
    && (Checkpointed(env, s) ==> Checkpointable(env, s))
    && (s.ExprStmt? && env.config(s).Some? && env.config(s).value.EncodeOutput? ==>
          |env.config(s).value.values| > 0)
    && (s.Compound? ==> ChildrenSucceed(env, s))
  }

  predicate ChildrenSucceed(env: Env, s: Stmt)
    requires s.Compound?
    decreases s, 0
  {
    && ListSucceeds(env, s.body) && ListSucceeds(env, s.handlers)
    && ListSucceeds(env, s.orelse) && ListSucceeds(env, s.finalbody)
  }

  predicate ListSucceeds(env: Env, ss: seq<Stmt>)
    decreases ss, 2
  {
    ss == [] || (StmtSucceeds(env, ss[0]) && ListSucceeds(env, ss[1..]))
  }

  /** A statement's visit fails exactly when some checkpoint in it cannot
      be built or some encode-output directive in it has no value. */
  lemma {:induction false} VisitStmtSucceeds(env: Env, s: Stmt, st: State)
    requires Fresh(st)
    ensures VisitStmt(env, s, st).Ok? <==> StmtSucceeds(env, s)
    decreases s, 2
  {
    match PatternOf(s)
    case PatternA =>
    case PatternExpr =>
    case Untouched =>
      if s.Compound? {
        VisitChildrenSucceeds(env, s, st);
      }
    case _ =>
      VisitBlockNodeSucceeds(env, s, st);
  }

  lemma {:induction false} VisitBlockNodeSucceeds(env: Env, s: Stmt, st: State)
    requires Fresh(st) && s.Compound?
    ensures VisitBlockNode(env, s, st).Ok? <==> Checkpointable(env, s) && ChildrenSucceed(env, s)
    decreases s, 1
  {
    var c := NewCheckpoint(env, s, BlockLt(s), st);
    if c.Ok? {
      VisitChildrenSucceeds(env, s, c.value);
    }
  }

  lemma {:induction false} VisitChildrenSucceeds(env: Env, s: Stmt, st: State)
    requires Fresh(st) && s.Compound?
    ensures VisitChildren(env, s, st).Ok? <==> ChildrenSucceed(env, s)
    decreases s, 0
  {
    VisitBlockSucceeds(env, s.body, st);
    var b := VisitBlock(env, s.body, st);
    if b.Ok? {
      VisitBlockSucceeds(env, s.handlers, b.value.st);
      var h := VisitBlock(env, s.handlers, b.value.st);
      if h.Ok? {
        VisitBlockSucceeds(env, s.orelse, h.value.st);
        var o := VisitBlock(env, s.orelse, h.value.st);
        if o.Ok? {
          VisitBlockSucceeds(env, s.finalbody, o.value.st);
        }
      }
    }
  }

  lemma {:induction false} VisitBlockSucceeds(env: Env, ss: seq<Stmt>, st: State)
    requires Fresh(st)
    ensures VisitBlock(env, ss, st).Ok? <==> ListSucceeds(env, ss)
    decreases ss, 3
  {
    if ss != [] {
      VisitStmtSucceeds(env, ss[0], st);
      var h := VisitStmt(env, ss[0], st);
      if h.Ok? {
        VisitBlockSucceeds(env, ss[1..], h.value.st);
      }
    }
  }

  /* ---------------------------------------------------------------------
     What the walk promises about each instrumented statement.
     --------------------------------------------------------------------- */

  /** Whether the visit of `s` hands out a checkpoint for `s` itself. */
  predicate Checkpointed(env: Env, s: Stmt) {
    match PatternOf(s)
    case Untouched => false
    case PatternExpr =>
      !(env.config(s).Some? && env.config(s).value.EncodeOutput?) && !IsTripleQuoted(env.segment(s))
    case _ => true
  }

  /** The statements that replace a checkpointed statement `s` whose
      checkpoint id is `k`. */
  predicate HasShape(s: Stmt, k: int, out: seq<Stmt>) {
    var log := Marker(LtLog(k));
    match PatternOf(s)
    case PatternC =>
      && |out| == 1 && out[0].Compound? && out[0].kind == s.kind
      && |out[0].body| >= 2 && out[0].body[0] == Marker(Tag(k, Prev)) && out[0].body[1] == log
    case PatternFunction =>
      && |out| == 1 && out[0].Compound? && out[0].kind == s.kind
      && |out[0].body| >= 1 && out[0].body[0] == Marker(Tag(k, Prev))
    case PatternD =>
      && |out| == 3 && out[0] == log && out[1] == Marker(Tag(k, Next))
      && out[2].Compound? && out[2].kind == s.kind
      && |out[2].body| >= 1 && out[2].body[|out[2].body| - 1] == log
    case PatternB =>
      && |out| == 3 && out[0] == log && out[1] == Marker(Tag(k, Next))
      && out[2].Compound? && out[2].kind == s.kind && out[2].header == s.header
    case _ =>
      |out| == 3 && out[0] == log && out[1] == Marker(Tag(k, Next)) && out[2] == s
  }

  /** A checkpointed statement gets the next id, an `ltMap` entry describing
      it, the injected statements of its pattern around it, and every id
      handed out inside it is larger than its own (pre-order numbering). */
  lemma CheckpointFacts(env: Env, s: Stmt, st: State)
    requires Fresh(st) && Checkpointed(env, s) && VisitStmt(env, s, st).Ok?
    ensures CheckpointOk(env, s, st, VisitStmt(env, s, st).value)
  {
    var p := PatternOf(s);
    if p == PatternExpr {
      ExprCheckpoint(env, s, st);
    } else if p == PatternA {
      SimpleCheckpoint(env, s, st);
    } else {
      BlockCheckpoint(env, s, st);
    }
  }

  lemma ExprCheckpoint(env: Env, s: Stmt, st: State)
    requires Fresh(st) && Checkpointed(env, s) && VisitStmt(env, s, st).Ok? && PatternOf(s) == PatternExpr
    ensures CheckpointOk(env, s, st, VisitStmt(env, s, st).value)
  {
    var st1 := ApplyDirective(env.config(s), st);
    assert VisitStmt(env, s, st) == VisitSimple(env, s, st1);
    SimpleFacts(env, s, st1);
  }

  lemma SimpleCheckpoint(env: Env, s: Stmt, st: State)
    requires Fresh(st) && VisitStmt(env, s, st).Ok? && PatternOf(s) == PatternA
    ensures CheckpointOk(env, s, st, VisitStmt(env, s, st).value)
  {
    if s.Global? {
      var st0 := st.(globalsInFunc := st.globalsInFunc + s.names);
      assert VisitStmt(env, s, st) == VisitSimple(env, s, st0);
      SimpleFacts(env, s, st0);
    } else {
      assert VisitStmt(env, s, st) == VisitSimple(env, s, st);
      SimpleFacts(env, s, st);
    }
  }

  lemma BlockCheckpoint(env: Env, s: Stmt, st: State)
    requires Fresh(st) && VisitStmt(env, s, st).Ok?
    requires PatternOf(s) != PatternA && PatternOf(s) != PatternExpr && PatternOf(s) != Untouched
    ensures CheckpointOk(env, s, st, VisitStmt(env, s, st).value)
  {
    assert VisitStmt(env, s, st) == VisitBlockNode(env, s, st);
    BlockNodeFacts(env, s, st);
  }

  /** What a checkpointed statement `s`, visited from `st`, leaves in `r`:
      the next id `k`, an entry for it with the statement's lines, text and
      kind, the pattern's shape around it, and only larger ids inside. */
  ghost predicate CheckpointOk(env: Env, s: Stmt, st: State, r: Visited) {
    EntryOk(env, s, st, r) && OutputOk(s, st, r)
  }

  /** The entry for `k`: the statement's lines, text and kind. */
  ghost predicate EntryOk(env: Env, s: Stmt, st: State, r: Visited) {
    var k := st.count + 1;
    && k in r.st.ltMap && k !in st.ltMap
    && Position(s).Some?
    && r.st.ltMap[k].lineno == Position(s).value.lineno
    && r.st.ltMap[k].endLineno == Position(s).value.endLineno
    && r.st.ltMap[k].statement == env.render(Strip(s))
    && (r.st.ltMap[k].ltType == FunctionLt <==> s.Compound? && s.kind.FunctionK?)
  }

  /** The output: the pattern's shape around `k`, and only larger ids
      inside. */
  ghost predicate OutputOk(s: Stmt, st: State, r: Visited) {
    var k := st.count + 1;
    && HasShape(s, k, r.stmts)
    && (forall j :: j in IdsL(r.stmts, false) && j !in IdsS(s, false) ==> k <= j)
  }

  lemma SimpleFacts(env: Env, s: Stmt, st: State)
    requires Fresh(st) && !s.Compound? && !s.Marker? && !s.Group?
    requires PatternOf(s) == PatternA || PatternOf(s) == PatternExpr
    requires VisitSimple(env, s, st).Ok?
    ensures var r := VisitSimple(env, s, st).value; var k := st.count + 1;
      && k in r.st.ltMap && k !in st.ltMap
      && Position(s).Some?
      && r.st.ltMap[k].lineno == Position(s).value.lineno
      && r.st.ltMap[k].endLineno == Position(s).value.endLineno
      && r.st.ltMap[k].statement == env.render(Strip(s))
      && r.st.ltMap[k].ltType == ChildLt
      && HasShape(s, k, r.stmts)
      && (forall j :: j in IdsL(r.stmts, false) ==> k <= j)
  {
    var r := VisitSimple(env, s, st).value;
    assert r.st == NewCheckpoint(env, s, ChildLt, st).value;
  }

  lemma BlockNodeFacts(env: Env, s: Stmt, st: State)
    requires Fresh(st) && s.Compound? && PatternOf(s) != Untouched && VisitBlockNode(env, s, st).Ok?
    ensures CheckpointOk(env, s, st, VisitBlockNode(env, s, st).value)
  {
    BlockNodeEntry(env, s, st);
    BlockNodeOutput(env, s, st);
  }

  /** The kind of entry a block node's checkpoint gets. */
  function BlockLt(s: Stmt): LtType {
    if PatternOf(s) == PatternFunction then FunctionLt else ChildLt
  }

  /** A successful visit of a block node, taken apart: the checkpoint, the
      visit of the children, and the shape around the visited node. */
  lemma BlockNodeParts(env: Env, s: Stmt, st: State)
    requires Fresh(st) && s.Compound? && VisitBlockNode(env, s, st).Ok?
    ensures NewCheckpoint(env, s, BlockLt(s), st).Ok?
    ensures var st1 := NewCheckpoint(env, s, BlockLt(s), st).value;
      && VisitChildren(env, s, st1).Ok?
      && VisitBlockNode(env, s, st).value
         == Visited(Shape(PatternOf(s), st1.count, VisitChildren(env, s, st1).value.stmts[0]),
                    VisitChildren(env, s, st1).value.st)
  {
  }

  lemma BlockNodeEntry(env: Env, s: Stmt, st: State)
    requires Fresh(st) && s.Compound? && PatternOf(s) != Untouched && VisitBlockNode(env, s, st).Ok?
    ensures EntryOk(env, s, st, VisitBlockNode(env, s, st).value)
  {
    BlockNodeParts(env, s, st);
    var k := st.count + 1;
    var st1 := NewCheckpoint(env, s, BlockLt(s), st).value;
    var v := VisitChildren(env, s, st1).value;
    assert VisitBlockNode(env, s, st).value.st == v.st;
    assert k in v.st.ltMap && v.st.ltMap[k] == st1.ltMap[k] by {
      assert Grows(env, st1, v.st);
    }
  }

  lemma BlockNodeOutput(env: Env, s: Stmt, st: State)
    requires Fresh(st) && s.Compound? && PatternOf(s) != Untouched && VisitBlockNode(env, s, st).Ok?
    ensures OutputOk(s, st, VisitBlockNode(env, s, st).value)
  {
    BlockNodeParts(env, s, st);
    var k := st.count + 1;
    var st1 := NewCheckpoint(env, s, BlockLt(s), st).value;
    var v := VisitChildren(env, s, st1).value;
    var n := v.stmts[0];
    assert VisitBlockNode(env, s, st).value.stmts == Shape(PatternOf(s), k, n);
    ShapeHasShape(s, k, n);
    ShapeLater(s, n, k, PatternOf(s), v.st.count);
  }

  /** Around a node whose own ids are `s`'s plus ids above `k`, the shape
      for checkpoint `k` adds only `k`. */
  lemma ShapeLater(s: Stmt, n: Stmt, k: int, p: Pattern, c: int)
    requires n.Compound? && IdsS(n, false) == IdsS(s, false) + IdRange(k, c)
    ensures forall j :: j in IdsL(Shape(p, k, n), false) && j !in IdsS(s, false) ==> k <= j
  {
    ShapeIds(n, k, p, false);
  }

  lemma ShapeHasShape(s: Stmt, k: int, n: Stmt)
    requires s.Compound? && n.Compound? && n.kind == s.kind && n.header == s.header
    requires PatternOf(s) != Untouched
    ensures HasShape(s, k, Shape(PatternOf(s), k, n))
  {
    if PatternOf(s) == PatternD {
      var b := n.body + [Marker(LtLog(k))];
      assert b[|b| - 1] == Marker(LtLog(k));
    }
  }

  /* ---------------------------------------------------------------------
     Instrumentation only adds statements: erasing the injected ones gives
     back the input, provided no statement is an encode-output directive
     (which replaces the statement).
     --------------------------------------------------------------------- */

  function EraseS(s: Stmt): seq<Stmt>
    decreases s
  {
    match s
    case Marker(_) => []
    case Compound(_, _, _, b, h, o, f, _, _) =>
      [s.(body := EraseL(b), handlers := EraseL(h), orelse := EraseL(o), finalbody := EraseL(f))]
    case _ => [s]
  }

  function EraseL(ss: seq<Stmt>): seq<Stmt>
    decreases ss
  {
    if ss == [] then [] else EraseS(ss[0]) + EraseL(ss[1..])
  }

  lemma {:induction false} EraseConcat(a: seq<Stmt>, b: seq<Stmt>)
    ensures EraseL(a + b) == EraseL(a) + EraseL(b)
    decreases |a|
  {
    if a == [] {
      assert a + b == b;
    } else {
      assert (a + b)[1..] == a[1..] + b;
      EraseConcat(a[1..], b);
    }
  }

  lemma EraseSingle(s: Stmt)
    ensures EraseL([s]) == EraseS(s)
  {
    assert [s][1..] == [];
  }

  /** No statement the walk reaches is an encode-output directive. */
  predicate NoEncodeS(env: Env, s: Stmt)
    decreases s
  {
    match s
    case ExprStmt(_, _) => !(env.config(s).Some? && env.config(s).value.EncodeOutput?)
    case Compound(_, _, _, b, h, o, f, _, _) =>
      NoEncodeL(env, b) && NoEncodeL(env, h) && NoEncodeL(env, o) && NoEncodeL(env, f)
    case _ => true
  }

  predicate NoEncodeL(env: Env, ss: seq<Stmt>)
    decreases ss
  {
    ss == [] || (NoEncodeS(env, ss[0]) && NoEncodeL(env, ss[1..]))
  }

  lemma EraseShape(p: Pattern, k: int, n: Stmt)
    requires n.Compound?
    ensures EraseL(Shape(p, k, n)) == EraseS(n)
  {
    if p == PatternC {
      EraseShapeC(k, n);
    } else if p == PatternD {
      EraseShapeD(k, n);
    } else if p == PatternFunction {
      EraseShapeFunction(k, n);
    } else {
      EraseThree(Marker(LtLog(k)), Marker(Tag(k, Next)), n);
    }
  }

  lemma EraseShapeC(k: int, n: Stmt)
    requires n.Compound?
    ensures EraseL(Shape(PatternC, k, n)) == EraseS(n)
  {
    var log := Marker(LtLog(k));
    var tagPrev := Marker(Tag(k, Prev));
    EraseConcat([tagPrev, log], n.body);
    assert [tagPrev, log][1..] == [log];
    EraseSingle(log);
    assert EraseL([tagPrev, log] + n.body) == EraseL(n.body);
    EraseSingle(n.(body := [tagPrev, log] + n.body));
  }

  lemma EraseShapeD(k: int, n: Stmt)
    requires n.Compound?
    ensures EraseL(Shape(PatternD, k, n)) == EraseS(n)
  {
    var log := Marker(LtLog(k));
    EraseConcat(n.body, [log]);
    EraseSingle(log);
    assert EraseL(n.body + [log]) == EraseL(n.body);
    EraseThree(log, Marker(Tag(k, Next)), n.(body := n.body + [log]));
  }

  lemma EraseShapeFunction(k: int, n: Stmt)
    requires n.Compound?
    ensures EraseL(Shape(PatternFunction, k, n)) == EraseS(n)
  {
    var tagPrev := Marker(Tag(k, Prev));
    EraseConcat([tagPrev], n.body);
    EraseSingle(tagPrev);
    assert EraseL([tagPrev] + n.body) == EraseL(n.body);
    EraseSingle(n.(body := [tagPrev] + n.body));
  }

  lemma EraseThree(a: Stmt, b: Stmt, c: Stmt)
    ensures EraseL([a, b, c]) == EraseS(a) + EraseS(b) + EraseS(c)
  {
    assert [a, b, c][1..] == [b, c];
    assert [b, c][1..] == [c];
    EraseSingle(c);
  }

  lemma {:induction false} VisitStmtErase(env: Env, s: Stmt, st: State)
    requires Fresh(st) && NoEncodeS(env, s) && VisitStmt(env, s, st).Ok?
    ensures EraseL(VisitStmt(env, s, st).value.stmts) == EraseS(s)
    decreases s, 2
  {
    match PatternOf(s)
    case PatternA =>
      PatternAErase(env, s, st);
    case PatternExpr =>
      assert VisitStmt(env, s, st) == VisitExpr(env, s, st);
      ExprErase(env, s, st);
    case Untouched =>
      if s.Compound? {
        assert VisitStmt(env, s, st) == VisitChildren(env, s, st);
        VisitChildrenErase(env, s, st);
        EraseSingle(VisitChildren(env, s, st).value.stmts[0]);
      } else {
        assert VisitStmt(env, s, st) == Ok(Visited([s], st));
        EraseSingle(s);
      }
    case _ =>
      assert VisitStmt(env, s, st) == VisitBlockNode(env, s, st);
      VisitBlockNodeErase(env, s, st);
  }

  lemma PatternAErase(env: Env, s: Stmt, st: State)
    requires Fresh(st) && PatternOf(s) == PatternA && VisitStmt(env, s, st).Ok?
    ensures EraseL(VisitStmt(env, s, st).value.stmts) == EraseS(s)
  {
    if s.Global? {
      var st0 := st.(globalsInFunc := st.globalsInFunc + s.names);
      assert VisitStmt(env, s, st) == VisitSimple(env, s, st0);
      SimpleErase(env, s, st0);
    } else {
      assert VisitStmt(env, s, st) == VisitSimple(env, s, st);
      SimpleErase(env, s, st);
    }
  }

  lemma SimpleErase(env: Env, s: Stmt, st: State)
    requires Fresh(st) && !s.Compound? && !s.Marker? && !s.Group? && VisitSimple(env, s, st).Ok?
    ensures EraseL(VisitSimple(env, s, st).value.stmts) == EraseS(s)
  {
    var out := VisitSimple(env, s, st).value.stmts;
    EraseThree(out[0], out[1], out[2]);
  }

  lemma ExprErase(env: Env, s: Stmt, st: State)
    requires Fresh(st) && s.ExprStmt? && NoEncodeS(env, s) && VisitExpr(env, s, st).Ok?
    ensures EraseL(VisitExpr(env, s, st).value.stmts) == EraseS(s)
  {
    var st1 := ApplyDirective(env.config(s), st);
    if IsTripleQuoted(env.segment(s)) {
      EraseSingle(s);
    } else {
      assert VisitExpr(env, s, st) == VisitSimple(env, s, st1);
      SimpleErase(env, s, st1);
    }
  }

  lemma {:induction false} VisitBlockNodeErase(env: Env, s: Stmt, st: State)
    requires Fresh(st) && s.Compound? && NoEncodeS(env, s) && VisitBlockNode(env, s, st).Ok?
    ensures EraseL(VisitBlockNode(env, s, st).value.stmts) == EraseS(s)
    decreases s, 1
  {
    var p := PatternOf(s);
    var st1 := NewCheckpoint(env, s, if p == PatternFunction then FunctionLt else ChildLt, st).value;
    var v := VisitChildren(env, s, st1).value;
    VisitChildrenErase(env, s, st1);
    EraseShape(p, st1.count, v.stmts[0]);
  }

  lemma {:induction false} VisitChildrenErase(env: Env, s: Stmt, st: State)
    requires Fresh(st) && s.Compound? && NoEncodeS(env, s) && VisitChildren(env, s, st).Ok?
    ensures EraseS(VisitChildren(env, s, st).value.stmts[0]) == EraseS(s)
    decreases s, 0
  {
    var b := VisitBlock(env, s.body, st).value;
    var h := VisitBlock(env, s.handlers, b.st).value;
    var o := VisitBlock(env, s.orelse, h.st).value;
    VisitBlockErase(env, s.body, st);
    VisitBlockErase(env, s.handlers, b.st);
    VisitBlockErase(env, s.orelse, h.st);
    VisitBlockErase(env, s.finalbody, o.st);
  }

  lemma {:induction false} VisitBlockErase(env: Env, ss: seq<Stmt>, st: State)
    requires Fresh(st) && NoEncodeL(env, ss) && VisitBlock(env, ss, st).Ok?
    ensures EraseL(VisitBlock(env, ss, st).value.stmts) == EraseL(ss)
    decreases ss, 3
  {
    if ss != [] {
      var h := VisitStmt(env, ss[0], st).value;
      var t := VisitBlock(env, ss[1..], h.st).value;
      VisitStmtErase(env, ss[0], st);
      VisitBlockErase(env, ss[1..], h.st);
      EraseConcat(h.stmts, t.stmts);
    }
  }

  /* ---------------------------------------------------------------------
     The constructor: one file's walk, the root uid assignment, the logging
     setup, and the relocation of checkpoints to the injected source.
     --------------------------------------------------------------------- */

  /** The instrumented module: the logging setup chosen by `isRoot` (whose
      statements live in `helper` functions outside this model) wrapped
      around the instrumented body. */
  datatype Instrumented = Instrumented(isRoot: bool, body: seq<Stmt>)

  /** A decoded JSON object with the three fields the relocation reads;
      `None` for a missing field or, for `lt`, a non-integer value.  A `dir`
      that is not a string is represented by a string other than "prev" and
      "next", which the relocation treats alike. */
  datatype TagJson = TagJson(typ: Option<string>, lt: Option<int>, dir: Option<string>)

  /** An expression statement holding a constant, as `ast.walk` of the
      re-parsed instrumented source meets it. */
  datatype WalkedConst = WalkedConst(lineno: int, value: Const)

  datatype Oracles = Oracles(
    render: Stmt -> string,
    config: Stmt -> Option<Directive>,
    segment: Stmt -> Option<string>,
    reparse: Instrumented -> seq<WalkedConst>,   // ast.walk(ast.parse(ast.unparse(tree)))
    decode: string -> Option<TagJson>)          // json.loads; None when it raises or gives no object

  datatype Design = Design(
    tree: Instrumented,
    ltMap: map<int, LtEntry>,
    minLogTypeCount: int,
    maxLogTypeCount: int,
    metadata: Option<string>,
    globalDisabled: seq<string>,
    localDisabled: seq<string>,
    globalsInFunc: seq<string>)

  /** `absMap[file]` when `absMap` is a non-empty dict. */
  function FileAbsMap(absMap: Option<map<string, map<int, string>>>, file: string): (r: Result<Option<map<int, string>>>)
    ensures absMap.None? || |absMap.value| == 0 ==> r == Ok(None)
    ensures absMap.Some? && |absMap.value| > 0 ==>
      r == if file in absMap.value then Ok(Some(absMap.value[file])) else Err(KeyError(file))
  {
    if absMap.Some? && |absMap.value| > 0 then
      if file in absMap.value then Ok(Some(absMap.value[file])) else Err(KeyError(file))
    else Ok(None)
  }

  /** The constructor of `LogInjectorDesign`. */
  function Inject(o: Oracles, file: string, body: seq<Stmt>, logTypeCount: int, isRoot: bool,
                  absMap: Option<map<string, map<int, string>>>, sdgAbstractions: Option<set<string>>): (r: Result<Design>)
    ensures r.Ok? ==>
      && r.value.minLogTypeCount == logTypeCount <= r.value.maxLogTypeCount
      && r.value.ltMap.Keys == IdRange(logTypeCount, r.value.maxLogTypeCount)
      && |r.value.ltMap| == r.value.maxLogTypeCount - logTypeCount
      && (forall k :: k in r.value.ltMap ==> r.value.ltMap[k].id == k && r.value.ltMap[k].file == file && r.value.ltMap[k].funcid == 0)
    ensures r.Ok? ==> var t := r.value.tree;
      && t.isRoot == isRoot && |t.body| >= 1 && t.body[0] == Marker(RootUidAssign)
      && IdsL(t.body, false) == IdsL(body, false) + r.value.ltMap.Keys
      && r.value.ltMap.Keys <= IdsL(t.body, true)
  {
    var fileAbs :- FileAbsMap(absMap, file);
    var env := Env(file, fileAbs, sdgAbstractions, o.render, o.config, o.segment);
    var st0 := InitialState(logTypeCount);
    var v :- VisitBlock(env, body, st0);
    var tree := Instrumented(isRoot, [Marker(RootUidAssign)] + v.stmts);
    RootFacts(env, body, logTypeCount, v);
    var lt := Relocate(v.st.ltMap, o.reparse(tree), o.decode, None);
    assert lt.Keys == v.st.ltMap.Keys;
    Ok(Design(tree, lt, logTypeCount, v.st.count, v.st.metadata, v.st.globalDisabled, v.st.localDisabled, v.st.globalsInFunc))
  }

  /** The constructor fails exactly when the file is missing from a
      non-empty abstraction map or the walk of its body fails. */
  lemma InjectSucceeds(o: Oracles, file: string, body: seq<Stmt>, logTypeCount: int, isRoot: bool,
                       absMap: Option<map<string, map<int, string>>>, sdgAbstractions: Option<set<string>>)
    ensures Inject(o, file, body, logTypeCount, isRoot, absMap, sdgAbstractions).Ok? <==>
      && FileAbsMap(absMap, file).Ok?
      && ListSucceeds(Env(file, FileAbsMap(absMap, file).value, sdgAbstractions, o.render, o.config, o.segment), body)
  {
    var fa := FileAbsMap(absMap, file);
    if fa.Ok? {
      var env := Env(file, fa.value, sdgAbstractions, o.render, o.config, o.segment);
      VisitBlockSucceeds(env, body, InitialState(logTypeCount));
    }
  }

  /** What the file's visit leaves for the root: the ids handed out form
      the map's keys, and the uid marker in front adds no id. */
  lemma RootFacts(env: Env, body: seq<Stmt>, logTypeCount: int, v: Visited)
    requires Step(env, InitialState(logTypeCount), IdsL(body, false), v.stmts, v.st)
    ensures logTypeCount <= v.st.count && v.st.ltMap.Keys == IdRange(logTypeCount, v.st.count)
    ensures IdsL([Marker(RootUidAssign)] + v.stmts, false) == IdsL(body, false) + v.st.ltMap.Keys
    ensures v.st.ltMap.Keys <= IdsL([Marker(RootUidAssign)] + v.stmts, true)
  {
    var st0 := InitialState(logTypeCount);
    assert v.st.ltMap.Keys == IdRange(logTypeCount, v.st.count) by {
      assert Grows(env, st0, v.st);
      forall k ensures k in v.st.ltMap.Keys <==> k in IdRange(logTypeCount, v.st.count) {
        assert k !in st0.ltMap;
      }
    }
    UidMarkerNoIds(v.stmts, false);
    UidMarkerNoIds(v.stmts, true);
  }

  /** The root's uid assignment carries no checkpoint id. */
  lemma UidMarkerNoIds(ss: seq<Stmt>, tagsOnly: bool)
    ensures IdsL([Marker(RootUidAssign)] + ss, tagsOnly) == IdsL(ss, tagsOnly)
  {
    var m := Marker(RootUidAssign);
    assert IdsS(m, tagsOnly) == {};
    IdsConcat([m], ss, tagsOnly);
    IdsSingle(m, tagsOnly);
  }

  /** `val["type"] == "adli_tag"` and `val["lt"] == k`. */
  predicate TagFor(decode: string -> Option<TagJson>, w: WalkedConst, k: int) {
    && w.value.StrC? && decode(w.value.s).Some?
    && decode(w.value.s).value.typ == Some("adli_tag")
    && decode(w.value.s).value.lt == Some(k)
  }

  /** The line `updateLineNumbers` computes for a tag at `line`, given the
      line computed last (`newLineno` keeps its value across iterations). */
  function TagLine(dir: string, line: int, last: Option<int>): Option<int> {
    if dir == "prev" then Some(line - 1)
    else if dir == "next" then Some(line + 1)
    else last
  }

  /** One iteration of `updateLineNumbers`; every exception it catches
      leaves the map as it was. */
  function RelocateOne(lt: map<int, LtEntry>, w: WalkedConst, decode: string -> Option<TagJson>, last: Option<int>):
    (r: (map<int, LtEntry>, Option<int>))
    ensures r.0.Keys == lt.Keys
    ensures forall k :: k in lt && !TagFor(decode, w, k) ==> r.0[k] == lt[k]
    ensures forall k :: k in lt ==> r.0[k] == lt[k].(injectedLineno := r.0[k].injectedLineno)
  {
    if !w.value.StrC? || decode(w.value.s).None? then (lt, last)
    else
      var j := decode(w.value.s).value;
      if j.typ != Some("adli_tag") || j.lt.None? || j.lt.value !in lt || j.dir.None? then (lt, last)
      else
        var line := TagLine(j.dir.value, w.lineno, last);
        if line.None? then (lt, last)
        else (lt[j.lt.value := lt[j.lt.value].(injectedLineno := line)], line)
  }

  /** `updateLineNumbers`: the loop over the walked constants. */
  function Relocate(lt: map<int, LtEntry>, ws: seq<WalkedConst>, decode: string -> Option<TagJson>, last: Option<int>):
    (r: map<int, LtEntry>)
    ensures r.Keys == lt.Keys
    ensures forall k :: k in lt ==> r[k] == lt[k].(injectedLineno := r[k].injectedLineno)
    ensures forall k :: k in lt && (forall i :: 0 <= i < |ws| ==> !TagFor(decode, ws[i], k)) ==> r[k] == lt[k]
    decreases |ws|
  {
    if ws == [] then lt
    else
      var step := RelocateOne(lt, ws[0], decode, last);
      Relocate(step.0, ws[1..], decode, step.1)
  }

  /** A tag whose direction is "prev" or "next". */
  predicate DirectedTag(decode: string -> Option<TagJson>, w: WalkedConst) {
    && w.value.StrC? && decode(w.value.s).Some?
    && decode(w.value.s).value.dir in {Some("prev"), Some("next")}
  }

  /** The line a directed tag points at: the line above a "prev" tag, the
      line below a "next" tag. */
  function DirLine(decode: string -> Option<TagJson>, w: WalkedConst): int
    requires DirectedTag(decode, w)
  {
    if decode(w.value.s).value.dir == Some("prev") then w.lineno - 1 else w.lineno + 1
  }

  /** The last tag of checkpoint `k` in walk order decides its injected
      line: one line above a "prev" tag, one line below a "next" tag. */
  lemma {:induction false} RelocateLastTag(lt: map<int, LtEntry>, ws: seq<WalkedConst>, decode: string -> Option<TagJson>,
                                           last: Option<int>, i: int, k: int)
    requires k in lt && 0 <= i < |ws| && TagFor(decode, ws[i], k) && DirectedTag(decode, ws[i])
    requires forall j :: i < j < |ws| ==> !TagFor(decode, ws[j], k)
    ensures k in Relocate(lt, ws, decode, last)
    ensures Relocate(lt, ws, decode, last)[k].injectedLineno == Some(DirLine(decode, ws[i]))
    decreases |ws|
  {
    var step := RelocateOne(lt, ws[0], decode, last);
    var tail := ws[1..];
    assert Relocate(lt, ws, decode, last) == Relocate(step.0, tail, decode, step.1);
    assert k in step.0;
    if i == 0 {
      RelocateOneTag(lt, ws[0], decode, last, k);
      forall j | 0 <= j < |tail| ensures !TagFor(decode, tail[j], k) {
        assert tail[j] == ws[j + 1];
      }
      RelocateUntouched(step.0, tail, decode, step.1, k);

    } else {
      assert tail[i - 1] == ws[i];
      forall j | i - 1 < j < |tail| ensures !TagFor(decode, tail[j], k) {
        assert tail[j] == ws[j + 1];
      }
      RelocateLastTag(step.0, tail, decode, step.1, i - 1, k);
    }
  }

  /** A checkpoint no tag mentions keeps its entry. */
  lemma RelocateUntouched(lt: map<int, LtEntry>, ws: seq<WalkedConst>, decode: string -> Option<TagJson>, last: Option<int>, k: int)
    requires k in lt && forall j :: 0 <= j < |ws| ==> !TagFor(decode, ws[j], k)
    ensures Relocate(lt, ws, decode, last)[k] == lt[k]
  {
  }

  lemma RelocateOneTag(lt: map<int, LtEntry>, w: WalkedConst, decode: string -> Option<TagJson>, last: Option<int>, k: int)
    requires k in lt && TagFor(decode, w, k) && DirectedTag(decode, w)
    ensures RelocateOne(lt, w, decode, last).0[k].injectedLineno == Some(DirLine(decode, w))
  {
  }
}
