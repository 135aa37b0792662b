/** `NodeExtractor`: for one statement, its rendered syntax, the variables
    it assigns, the log-type entry (`ltMap`) that describes it, and the five
    ways of surrounding it with log statements (types A to E).

    The variables are those `CollectVariable` collects, run on the
    statement with its nested statement lists removed; the corrected
    argument handling of that collector is used (see its module). */
module NodeExtractor {
  import opened Wrappers
  import opened PyAst
  import opened Text
  import opened Walk
  import N = CollectVariableNames

  /** A collected variable with its `global` flag. */
  datatype Var = Var(rec: N.VarRecord, global: bool)

  /** The log-type entry: `name` is present only for a function. */
  datatype LtMap = LtMap(id: int, funcId: int, syntax: string, lineno: int, endLineno: int,
                         typ: string, name: Option<string>, vars: seq<Var>)

  /** A constructed extractor; `counter` is the variable counter after
      collection. */
  datatype Extractor = Extractor(astNode: Stmt, logTypeId: int, syntax: string, vars: seq<Var>,
                                 ltMap: LtMap, counter: int)

  /** `var["name"] in globalsInFunc`: only a string can equal one of the
      declared global names. */
  predicate IsGlobal(name: Const, globalsInFunc: seq<string>) {
    name.StrC? && name.s in globalsInFunc
  }

  function MarkGlobals(recs: seq<N.VarRecord>, globalsInFunc: seq<string>): (r: seq<Var>)
    ensures |r| == |recs|
    ensures forall i :: 0 <= i < |r| ==> r[i].rec == recs[i]
    ensures forall i :: 0 <= i < |r| ==> (r[i].global <==> IsGlobal(recs[i].name, globalsInFunc))
    decreases |recs|
  {
    if recs == [] then []
    else [Var(recs[0], IsGlobal(recs[0].name, globalsInFunc))] + MarkGlobals(recs[1..], globalsInFunc)
  }

  /** `NodeExtractor(node, logType, logTypeFuncId, globalsInFunc)`.
      Collection fails first (a key list popped while empty); a node
      without a position then fails on `node.lineno`. */
  function New(node: Stmt, logType: int, funcId: int, globalsInFunc: seq<string>,
               counter: int, render: Node -> string): (r: Result<Extractor>)
    ensures N.Collect(Strip(node), counter, render, true).Err? ==> r == Err(N.Collect(Strip(node), counter, render, true).error)
    ensures N.Collect(Strip(node), counter, render, true).Ok? ==> (r.Err? <==> Position(node).None?)
    ensures r.Ok? ==> r.value.astNode == node && r.value.logTypeId == logType
    ensures r.Ok? ==> r.value.syntax == render(S(Group([Strip(node)]))) && r.value.ltMap.syntax == r.value.syntax
    ensures r.Ok? ==> r.value.ltMap.id == logType && r.value.ltMap.funcId == funcId
    ensures r.Ok? ==> r.value.ltMap.lineno == Position(node).value.lineno
                      && r.value.ltMap.endLineno == Position(node).value.endLineno
    ensures r.Ok? ==> (r.value.ltMap.typ == "function" <==> IsFunctionDef(node))
    ensures r.Ok? ==> (r.value.ltMap.typ == "child" <==> !IsFunctionDef(node))
    ensures r.Ok? ==> (r.value.ltMap.name.Some? <==> IsFunctionDef(node))
    ensures r.Ok? && IsFunctionDef(node) ==> r.value.ltMap.name == Some(node.kind.name)
    ensures r.Ok? ==> r.value.ltMap.vars == r.value.vars
    ensures r.Ok? ==> r.value.counter >= counter && |r.value.vars| == r.value.counter - counter
    ensures r.Ok? ==> forall i :: 0 <= i < |r.value.vars| ==> r.value.vars[i].rec.varId == counter + 1 + i
    ensures r.Ok? ==> forall i :: 0 <= i < |r.value.vars| ==>
                        (r.value.vars[i].global <==> IsGlobal(r.value.vars[i].rec.name, globalsInFunc))
  {
    var root := Strip(node);
    var syntax := render(S(Group([root])));
    match N.Collect(root, counter, render, true)
    case Err(e) => Err(e)
    case Ok((recs, c)) =>
      var vars := MarkGlobals(recs, globalsInFunc);
      match Position(node)
      case None => Err(AttributeError("lineno"))
      case Some(p) =>
        var isFunction := IsFunctionDef(node);
        var lt := LtMap(logType, funcId, syntax, p.lineno, p.endLineno,
                        if isFunction then "function" else "child",
                        if isFunction then Some(node.kind.name) else None, vars);
        Ok(Extractor(node, logType, syntax, vars, lt, c))
  }

  /** `f"{v}"` for a Python value. */
  function Str(c: Const): string {
    match c
    case IntC(i) => IntToString(i)
    case StrC(s) => s
    case NoneC => "None"
    case OtherC(repr) => repr
  }

  /** The text `aspAdliLog(<name>, <varId>)` that is parsed into one
      variable-log statement. */
  function LogText(name: Const, varId: int): string {
    LogCall(LogArgs(Str(name), varId))
  }

  /** `aspAdliLog(<args>)`. */
  function LogCall(args: string): string {
    "aspAdliLog(" + args + ")"
  }

  /** `<name>, <varId>`. */
  function LogArgs(name: string, varId: int): string {
    name + ", " + IntToString(varId)
  }

  /** `getVariableLogStatements`: one parsed `aspAdliLog` call per
      variable, in collection order. */
  function VariableLogStatements(vars: seq<Var>): (r: seq<Stmt>)
    ensures |r| == |vars|
    ensures forall i :: 0 <= i < |r| ==> r[i].Marker? && r[i].m.ParsedText?
  {
    seq(|vars|, i requires 0 <= i < |vars| => Marker(ParsedText(LogText(vars[i].rec.name, vars[i].rec.varId))))
  }

  /** Reads a variable-log text back: the name is everything between the
      opening parenthesis and the last `", "`, the id everything after. */
  function DecodeLog(src: string): Option<(string, int)> {
    var prefix := "aspAdliLog(";
    if |src| < |prefix| + 1 || src[..|prefix|] != prefix || src[|src| - 1] != ')' then None
    else DecodeArgs(src[|prefix|..|src| - 1])
  }

  function DecodeArgs(inner: string): Option<(string, int)> {
    match LastIndex(inner, ' ')
    case None => None
    case Some(i) =>
      if i == 0 || inner[i - 1] != ',' then None
      else Some((inner[..i - 1], ParseInt(inner[i + 1..])))
  }

  lemma NoSpaceInNumber(i: int)
    ensures ' ' !in IntToString(i)
  {
    var r := IntToString(i);
    if i < 0 {
      assert r == "-" + NatToString(-i);
      forall k | 0 <= k < |r| ensures r[k] != ' ' {
        if k > 0 {
          assert r[k] == NatToString(-i)[k - 1];
        }
      }
    }
  }

  /** The space of `", "` is the last one when no space follows it. */
  lemma LastSpace(n: string, d: string)
    requires ' ' !in d
    ensures LastIndex(n + ", " + d, ' ') == Some(|n| + 1)
  {
    var inner := n + ", " + d;
    var j := |n| + 1;
    assert inner[j] == ' ';
    assert inner[j + 1..] == d;
  }

  lemma DecodeArgsText(n: string, i: int)
    ensures DecodeArgs(LogArgs(n, i)) == Some((n, i))
  {
    NoSpaceInNumber(i);
    DecodeArgsSplit(n, IntToString(i));
    IntToStringRoundTrip(i);
  }

  /** The arguments split at the last space, after the comma before it. */
  lemma DecodeArgsSplit(n: string, d: string)
    requires ' ' !in d
    ensures DecodeArgs(n + ", " + d) == Some((n, ParseInt(d)))
  {
    var inner := n + ", " + d;
    LastSpace(n, d);
    assert inner[|n|] == ',';
    assert inner[..|n|] == n;
    assert inner[|n| + 2..] == d;
  }

  /** Every variable-log statement names its variable and its id: the
      text reads back as the variable's printed name and its id. */
  lemma DecodeLogText(name: Const, varId: int)
    ensures DecodeLog(LogText(name, varId)) == Some((Str(name), varId))
  {
    DecodeWrapped(LogArgs(Str(name), varId));
    DecodeArgsText(Str(name), varId);
  }

  /** The call's parentheses are taken off before the arguments are read. */
  lemma DecodeWrapped(args: string)
    ensures DecodeLog(LogCall(args)) == DecodeArgs(args)
  {
    var src := LogCall(args);
    assert src[..11] == "aspAdliLog(";
    assert src[11..|src| - 1] == args;
  }

  lemma VariableLogText(vars: seq<Var>, i: nat)
    requires i < |vars|
    ensures VariableLogStatements(vars)[i] == Marker(ParsedText(LogText(vars[i].rec.name, vars[i].rec.varId)))
  {
  }

  /** The i-th variable log reads back as the i-th variable. */
  lemma VariableLogsDecode(vars: seq<Var>, i: nat)
    requires i < |vars|
    ensures DecodeLog(VariableLogStatements(vars)[i].m.src) == Some((Str(vars[i].rec.name), vars[i].rec.varId))
  {
    VariableLogText(vars, i);
    DecodeLogText(vars[i].rec.name, vars[i].rec.varId);
  }

  /** `getLoggingStatement`: `logger.info(<logTypeId>)`. */
  function LoggingStatement(x: Extractor): Stmt {
    LoggerInfo(Constant(IntC(x.logTypeId)))
  }

  /** The log-type id a `logger.info(<int>)` statement logs. */
  function LoggedId(s: Stmt): Option<int> {
    if s.ExprStmt? && s.value.Call? && s.value.func == Name("logger.info", Load)
       && |s.value.args| == 1 && s.value.args[0].Constant? && s.value.args[0].c.IntC?
    then Some(s.value.args[0].c.i)
    else None
  }

  /** The variable logs, as one list standing where a statement belongs. */
  function VarLogs(x: Extractor): Stmt {
    Group(VariableLogStatements(x.vars))
  }

  /** Type A: the log statement, then the node. */
  function InjectA(x: Extractor): (r: seq<Stmt>)
    ensures |r| == 2 && LoggedId(r[0]) == Some(x.logTypeId) && r[1] == x.astNode
  {
    [LoggingStatement(x), x.astNode]
  }

  /** Type B: as type A, followed by the variable logs. */
  function InjectB(x: Extractor): (r: seq<Stmt>)
    ensures |r| == 3 && r[..2] == InjectA(x)
    ensures r[2] == VarLogs(x) && |r[2].stmts| == |x.vars|
  {
    [LoggingStatement(x), x.astNode, VarLogs(x)]
  }

  /** Type C: the log statement before the node, the variable logs at the
      head of its body.  A node without a body raises on `node.body`. */
  function InjectC(x: Extractor): (r: Result<seq<Stmt>>)
    ensures r.Err? <==> !HasBody(x.astNode)
    ensures r.Ok? ==> HasBody(x.astNode) && |r.value| == 2 && LoggedId(r.value[0]) == Some(x.logTypeId)
    ensures r.Ok? ==> HasBody(x.astNode) && |r.value| == 2 && HasBody(r.value[1])
                      && |r.value[1].body| == |x.astNode.body| + 1 && r.value[1].body[0] == VarLogs(x)
                      && r.value[1].(body := r.value[1].body[1..]) == x.astNode
  {
    if !HasBody(x.astNode) then Err(AttributeError("body"))
    else
      var n := x.astNode.(body := [VarLogs(x)] + x.astNode.body);
      assert n.body[1..] == x.astNode.body;
      Ok([LoggingStatement(x), n])
  }

  /** Type D: the log statement and then the variable logs at the head of
      the node's body; the node alone is returned. */
  function InjectD(x: Extractor): (r: Result<seq<Stmt>>)
    ensures r.Err? <==> !HasBody(x.astNode)
    ensures r.Ok? ==> HasBody(x.astNode) && |r.value| == 1 && HasBody(r.value[0])
                      && |r.value[0].body| == |x.astNode.body| + 2
                      && LoggedId(r.value[0].body[0]) == Some(x.logTypeId) && r.value[0].body[1] == VarLogs(x)
                      && r.value[0].(body := r.value[0].body[2..]) == x.astNode
  {
    if !HasBody(x.astNode) then Err(AttributeError("body"))
    else
      var n := x.astNode.(body := [LoggingStatement(x), VarLogs(x)] + x.astNode.body);
      assert n.body[2..] == x.astNode.body;
      Ok([n])
  }

  /** Type E: the log statement before the node; in its body, the variable
      logs first and the log statement again last. */
  function InjectE(x: Extractor): (r: Result<seq<Stmt>>)
    ensures r.Err? <==> !HasBody(x.astNode)
    ensures r.Ok? ==> HasBody(x.astNode) && |r.value| == 2 && LoggedId(r.value[0]) == Some(x.logTypeId)
    ensures r.Ok? ==> HasBody(x.astNode) && |r.value| == 2 && HasBody(r.value[1])
                      && var b := r.value[1].body;
                      && |b| == |x.astNode.body| + 2 && b[0] == VarLogs(x) && LoggedId(b[|b| - 1]) == Some(x.logTypeId)
                      && r.value[1].(body := b[1..|b| - 1]) == x.astNode
  {
    if !HasBody(x.astNode) then Err(AttributeError("body"))
    else
      var n := x.astNode.(body := [VarLogs(x)] + x.astNode.body + [LoggingStatement(x)]);
      assert n.body[1..|n.body| - 1] == x.astNode.body;
      Ok([LoggingStatement(x), n])
  }

  /** `def f(a: t): <body>` logged as a function: typed "function" and
      named, with the argument `a` as its one variable, and its type-D
      shape puts the log and the variable log ahead of the original body. */
  lemma FunctionEntry(f: string, a: string, t: string, body: seq<Stmt>, p: Span,
                      lt: int, fid: int, counter: int, render: Node -> string)
    ensures var node := Compound(FunctionK(f, false), [Arg(a, Some(Name(t, Load)))], [], body, [], [], [], [], Some(p));
      var r := New(node, lt, fid, [], counter, render);
      && r.Ok? && r.value.ltMap.typ == "function" && r.value.ltMap.name == Some(f)
      && |r.value.vars| == 1 && r.value.vars[0].rec.name == StrC(a) && r.value.vars[0].rec.varId == counter + 1
      && InjectD(r.value) == Ok([node.(body := [LoggerInfo(Constant(IntC(lt))),
                                               Group([Marker(ParsedText(LogText(StrC(a), counter + 1)))])] + body)])
  {
    var node := Compound(FunctionK(f, false), [Arg(a, Some(Name(t, Load)))], [], body, [], [], [], [], Some(p));
    assert Strip(node) == N.AnnotatedDef(f, a, t, Some(p));
    N.AnnotatedArgFixed(f, a, t, Some(p), counter, render);
    var x := New(node, lt, fid, [], counter, render).value;
    assert x.vars == [Var(N.VarRecord(counter + 1, A(Arg(a, None)), StrC(a), [], render(A(Arg(a, None)))), false)];
    assert VariableLogStatements(x.vars) == [Marker(ParsedText(LogText(StrC(a), counter + 1)))];
  }
}
