/** `AdliLogger`, the runtime logger the instrumented program calls: four
    counters and the records it writes.  The handler, the clock-based file
    name and traceback formatting are outside the model; the serialiser and
    `str` are parameters. */
module AdliLogger {
  import opened Wrappers
  import opened PyAst
  import Text

  /** A Python value as the logger sees it. */
  datatype Value =
    | Prim(c: Const)
    | Dict(items: seq<Item>)
    | Obj(repr: string)               // any other object
  datatype Item = Item(key: Const, value: Value)

  /** How values are turned into text: `json.dumps` with the `__dict__`
      fallback (`None` when it raises) and `str`. */
  datatype Serialiser = Serialiser(dumps: Value -> Option<string>, str: Value -> string)

  datatype Level = Info | Error
  datatype Record = Record(level: Level, text: string)

  datatype Logger = Logger(count: int, variableLog: int, stmtLog: int, exceptionLog: int)

  /** The calls the instrumented program makes. */
  datatype Call =
    | LogVariable(varid: int, value: Value)
    | LogStmt(stmtId: int)
    | LogException(trace: string)     // the formatted traceback
    | LogHeader(header: string)
    | EncodeOutput(v: Value)
    | DecodeInput(v: Value)

  function Init(): (l: Logger)
    ensures l.count == 0 && l.variableLog == 0 && l.stmtLog == 0 && l.exceptionLog == 0
  {
    Logger(0, 0, 0, 0)
  }

  /** The text of a variable record: `# <varid> <value>`, with the value
      serialised when possible and `str` of it otherwise. */
  function VariableRecord(ser: Serialiser, varid: int, v: Value): (t: string)
    ensures Text.StartsWith(t, "# " + Text.IntToString(varid) + " ")
  {
    var shown := match ser.dumps(v) case Some(j) => j case None => ser.str(v);
    var t := "# " + Text.IntToString(varid) + " " + shown;
    assert t[..|"# " + Text.IntToString(varid) + " "|] == "# " + Text.IntToString(varid) + " ";
    t
  }

  /** One call: the new counters and the records written. */
  function Apply(ser: Serialiser, l: Logger, c: Call): (r: (Logger, seq<Record>))
    ensures c.LogVariable? ==> r.0 == l.(count := l.count + 1, variableLog := l.variableLog + 1)
    ensures c.LogStmt? ==> r.0 == l.(count := l.count + 1, stmtLog := l.stmtLog + 1)
    ensures c.LogException? ==> r.0 == l.(count := l.count + 1, exceptionLog := l.exceptionLog + 1)
    ensures c.LogHeader? ==> r.0 == l.(count := l.count + 1)
    ensures c.EncodeOutput? || c.DecodeInput? ==> r == (l, [])
    ensures c.LogVariable? ==> r.1 == [Record(Info, VariableRecord(ser, c.varid, c.value))]
    ensures c.LogException? ==> r.1 == [Record(Error, c.trace)]
    ensures !c.EncodeOutput? && !c.DecodeInput? ==> |r.1| == 1
  {
    match c
    case LogVariable(varid, v) =>
      (l.(count := l.count + 1, variableLog := l.variableLog + 1), [Record(Info, VariableRecord(ser, varid, v))])
    case LogStmt(id) =>
      (l.(count := l.count + 1, stmtLog := l.stmtLog + 1), [Record(Info, Text.IntToString(id))])
    case LogException(trace) =>
      (l.(count := l.count + 1, exceptionLog := l.exceptionLog + 1), [Record(Error, trace)])
    case LogHeader(h) =>
      (l.(count := l.count + 1), [Record(Info, h)])
    case EncodeOutput(_) => (l, [])
    case DecodeInput(_) => (l, [])
  }

  /** A run of calls from a fresh logger. */
  function Run(ser: Serialiser, cs: seq<Call>): (r: (Logger, seq<Record>))
    decreases |cs|
  {
    if cs == [] then (Init(), [])
    else
      var prev := Run(ser, cs[..|cs| - 1]);
      var step := Apply(ser, prev.0, cs[|cs| - 1]);
      (step.0, prev.1 + step.1)
  }

  function Headers(cs: seq<Call>): nat
    decreases |cs|
  {
    if cs == [] then 0 else Headers(cs[..|cs| - 1]) + (if cs[|cs| - 1].LogHeader? then 1 else 0)
  }

  /** Every counted call writes one record, and `count` is the sum of the
      three kinds of log plus the headers. */
  lemma {:induction false} CountInvariant(ser: Serialiser, cs: seq<Call>)
    ensures var (l, recs) := Run(ser, cs);
      && l.count == l.variableLog + l.stmtLog + l.exceptionLog + Headers(cs)
      && |recs| == l.count
      && l.variableLog >= 0 && l.stmtLog >= 0 && l.exceptionLog >= 0
    decreases |cs|
  {
    if cs != [] {
      CountInvariant(ser, cs[..|cs| - 1]);
    }
  }
}
