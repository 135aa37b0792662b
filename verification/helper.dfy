/** The statement builders and the import check of `injector/helper.py`. */
module Helper {
  import opened Wrappers
  import opened PyAst
  import Text

  /** The candidates of `pathsToCheck` that satisfy `opens`, in order. */
  function Existing(paths: seq<string>, opens: string -> bool): (r: seq<string>)
    ensures |r| <= |paths|
    ensures forall p :: p in r <==> p in paths && opens(p)
    ensures paths != [] && opens(paths[0]) ==> r != [] && r[0] == paths[0]
  {
    if paths == [] then []
    else if opens(paths[0]) then [paths[0]] + Existing(paths[1..], opens)
    else Existing(paths[1..], opens)
  }

  /** Filtering distributes over concatenation: the order of the
      candidates is kept. */
  lemma {:induction false} ExistingConcat(a: seq<string>, b: seq<string>, opens: string -> bool)
    ensures Existing(a + b, opens) == Existing(a, opens) + Existing(b, opens)
    decreases |a|
  {
    if a == [] {
      assert a + b == b;
    } else {
      assert (a + b)[1..] == a[1..] + b;
      ExistingConcat(a[1..], b, opens);
    }
  }

  /** The paths `checkImport` tries: only the first alias is looked at. */
  function ImportCandidates(node: Stmt): (r: Result<seq<string>>)
    ensures node.Import? && |node.names| > 0 ==>
      r == Ok([Text.ReplaceChar(node.names[0], '.', '/') + ".py"])
    ensures node.ImportFrom? && node.modName.Some? && |node.names| > 0 ==>
      var m := Text.ReplaceChar(node.modName.value, '.', '/');
      r == Ok([m + "/" + Text.ReplaceChar(node.names[0], '.', '/') + ".py", m + ".py"])
    ensures node.ImportFrom? && node.modName.None? ==> r.Err? && r.error.AttributeError?
    ensures !node.Import? && !node.ImportFrom? ==> r == Ok([])
  {
    match node
    case Import(names, _) =>
      if |names| == 0 then Err(IndexError("node.names[0]"))
      else Ok([Text.ReplaceChar(names[0], '.', '/') + ".py"])
    case ImportFrom(m, names, _) =>
      if m.None? then Err(AttributeError("'NoneType' object has no attribute 'replace'"))
      else if |names| == 0 then Err(IndexError("node.names[0]"))
      else
        var mdir := Text.ReplaceChar(m.value, '.', '/');
        Ok([mdir + "/" + Text.ReplaceChar(names[0], '.', '/') + ".py", mdir + ".py"])
    case _ => Ok([])
  }

  /** `checkImport(filePath, node)`: the candidates that open, in order;
      a candidate that fails to open is dropped. */
  function CheckImport(node: Stmt, opens: string -> bool): (r: Result<seq<string>>)
    ensures ImportCandidates(node).Err? <==> r.Err?
    ensures r.Ok? ==> forall p :: p in r.value <==> p in ImportCandidates(node).value && opens(p)
    ensures r.Ok? ==> r.value == Existing(ImportCandidates(node).value, opens)
  {
    var c :- ImportCandidates(node);
    Ok(Existing(c, opens))
  }

  /** The line of the root setup that names the log file. */
  function HandlerLine(logFileName: string): string {
    "clp_handler = CLPFileHandler(Path('" + "./" + logFileName + ".cdl" + "'))"
  }

  /** `getRootLoggingSetup(logFileName)`: seven parsed statements. */
  function RootLoggingSetup(logFileName: string): (r: seq<Stmt>)
    ensures |r| == 7
    ensures r[3] == Marker(ParsedText(HandlerLine(logFileName)))
  {
    [Marker(ParsedText("import logging")),
     Marker(ParsedText("from pathlib import Path")),
     Marker(ParsedText("from clp_logging.handlers import CLPFileHandler")),
     Marker(ParsedText(HandlerLine(logFileName))),
     Marker(ParsedText("logger = logging.getLogger('root')")),
     Marker(ParsedText("logger.setLevel(logging.INFO)")),
     Marker(ParsedText("logger.addHandler(clp_handler)"))]
  }

  /** `getLoggingSetup()`: two parsed statements. */
  function LoggingSetup(): (r: seq<Stmt>)
    ensures |r| == 2
  {
    [Marker(ParsedText("import logging")), Marker(ParsedText("logger = logging.getLogger('root')"))]
  }

  /** Imported files share the root logger: their setup is the root setup's
      import and `getLogger` lines. */
  lemma LoggingSetupIsPartOfRoot(logFileName: string)
    ensures LoggingSetup() == [RootLoggingSetup(logFileName)[0], RootLoggingSetup(logFileName)[4]]
  {
  }

  /** Distinct log file names give distinct root setups. */
  lemma {:induction false} RootLoggingSetupInjective(a: string, b: string)
    requires RootLoggingSetup(a) == RootLoggingSetup(b)
    ensures a == b
  {
    var p := "clp_handler = CLPFileHandler(Path('" + "./";
    var q := ".cdl" + "'))";
    var la := HandlerLine(a);
    var lb := HandlerLine(b);
    assert RootLoggingSetup(a)[3] == RootLoggingSetup(b)[3];
    assert la == lb;
    assert la == p + a + q;
    assert lb == p + b + q;
    assert |a| == |b|;
    assert a == la[|p|..|p| + |a|];
    assert b == lb[|p|..|p| + |b|];
  }

  /** The constant a `logger.info(<constant>)` statement logs. */
  function LoggedConstant(s: Stmt): Option<Const> {
    match s
    case ExprStmt(Call(Name("logger.info", Load), args), _) =>
      if |args| == 1 && args[0].Constant? then Some(args[0].c) else None
    case _ => None
  }

  /** `getLoggingStatement(syntax)`. */
  function LoggingStatement(syntax: Const): (r: Stmt)
    ensures LoggedConstant(r) == Some(syntax)
    ensures Position(r).None?
  {
    LoggerInfo(Constant(syntax))
  }

  /** Two logging statements are equal exactly when they log the same value. */
  lemma LoggingStatementInjective(a: Const, b: Const)
    ensures LoggingStatement(a) == LoggingStatement(b) <==> a == b
  {
    if LoggingStatement(a) == LoggingStatement(b) {
      assert LoggedConstant(LoggingStatement(a)) == LoggedConstant(LoggingStatement(b));
    }
  }

  /** An `except Exception as <n>:` handler whose body ends by re-raising
      `<n>`: it never swallows the exception it catches. */
  predicate Reraises(h: Stmt) {
    && h.Compound? && h.kind.HandlerK? && h.kind.boundName.Some?
    && h.header == [Name("Exception", Load)]
    && |h.body| > 0 && h.body[|h.body| - 1] == Marker(ParsedText("raise " + h.kind.boundName.value))
  }

  /** `getExceptionLog(logtype_id)`. */
  function ExceptionLog(logTypeId: int): (r: Stmt)
    ensures Reraises(r)
    ensures |r.body| == 2
    ensures r.body[0] == Marker(ParsedText("logger.info(f\"? " + Text.IntToString(logTypeId) + " {str(e)}\")"))
  {
    Compound(HandlerK(Some("e")), [], [Name("Exception", Load)],
             [Marker(ParsedText("logger.info(f\"? " + Text.IntToString(logTypeId) + " {str(e)}\")")),
              Marker(ParsedText("raise " + "e"))],
             [], [], [], [], None)
  }
}
