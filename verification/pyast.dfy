/** An abstract Python syntax tree, reduced to what the instrumenter inspects.

    Field order inside every constructor follows the `_fields` order of the
    corresponding Python `ast` class, because the visitors of the instrumenter
    walk fields in that order.  Intermediate nodes that only group expressions
    (`withitem`, `comprehension`, `keyword`) are written as `Op` wrappers: a
    wrapper has the same place in a traversal as the node it stands for. */
module PyAst {
  import opened Wrappers

  /** A Python constant value.  Attribute names, identifiers and string
      literals are all `StrC`, so they compare equal exactly when Python's
      `==` says so. */
  datatype Const = IntC(i: int) | StrC(s: string) | NoneC | OtherC(repr: string)

  /** Expression context.  `NoCtx` stands for a node built without a context
      instance (no `ctx` argument, or the class `ast.Load` itself passed
      instead of an instance), which satisfies none of the `isinstance`
      tests on contexts. */
  datatype Ctx = Load | Store | Del | NoCtx

  datatype TagDir = Prev | Next

  /** Statements and expressions built by helpers whose definitions are not
      part of this model; each is an uninterpreted constructor. */
  datatype Injected =
    | LtLog(id: int)                       // getLtLogStmt(id)
    | Tag(lt: int, dir: TagDir)            // getTag(lt, dir)
    | EncodedOutput(name: string)          // getEncodedOutputStmt(name)
    | RootUidAssign                        // getRootUidAssign()
    | VarLog(syntax: Const, varId: int)    // getVarLogStmt(syntax, varId)
    | ParsedText(src: string)              // ast.parse(src), left unparsed

  datatype Expr =
    | Name(id: string, ctx: Ctx)
    | Attribute(value: Expr, attr: string, ctx: Ctx)
    | Subscript(value: Expr, slice: Expr, ctx: Ctx)
    | Constant(c: Const)
    | Call(func: Expr, args: seq<Expr>)
    | Tuple(elts: seq<Expr>, ctx: Ctx)
    | Slice(bounds: seq<Expr>)
    | Lambda(params: seq<Arg>, body: Expr)
    | GeneratorExp(elt: Expr, generators: seq<Expr>)
    | Op(operands: seq<Expr>)              // any other expression, children in field order
    | FString(parts: seq<Expr>)            // ast.JoinedStr
    | Formatted(value: Expr)               // ast.FormattedValue
    | RawId(id: string)                    // a bare identifier string where a node belongs
    | Hook(h: Injected)                    // a helper-built node in expression position

  datatype Arg = Arg(name: string, annotation: Option<Expr>)

  datatype Span = Span(lineno: int, endLineno: int, col: int, endCol: int)

  datatype SimpleKind =
    | PassK | DeleteK | NonlocalK | BreakK | ContinueK | AssertK | RaiseK | ReturnK
    | OtherSimpleK                          // a simple statement no visitor handles (e.g. TypeAlias)

  datatype CompoundKind =
    | FunctionK(name: string, isAsync: bool)
    | ClassK(name: string)
    | IfK
    | WithK(isAsync: bool)
    | WhileK
    | ForK(isAsync: bool)
    | TryK
    | TryStarK
    | HandlerK(boundName: Option<string>)        // ast.ExceptHandler

  datatype Stmt =
    | Assign(targets: seq<Expr>, value: Expr, pos: Option<Span>)
    | AugAssign(target: Expr, value: Expr, pos: Option<Span>)
    | AnnAssign(target: Expr, annotation: Expr, annValue: Option<Expr>, pos: Option<Span>)
    | ExprStmt(value: Expr, pos: Option<Span>)
    | Global(names: seq<string>, pos: Option<Span>)
    | Import(names: seq<string>, pos: Option<Span>)
    | ImportFrom(modName: Option<string>, names: seq<string>, pos: Option<Span>)
    | Simple(skind: SimpleKind, exprs: seq<Expr>, pos: Option<Span>)
    | Compound(kind: CompoundKind, params: seq<Arg>, header: seq<Expr>, body: seq<Stmt>,
               handlers: seq<Stmt>, orelse: seq<Stmt>, finalbody: seq<Stmt>,
               trailer: seq<Expr>, pos: Option<Span>)
    | Marker(m: Injected)                  // a helper-built statement
    | Group(stmts: seq<Stmt>)              // a module or plain list standing where a statement belongs

  /** The source position of a statement; helper-built statements have none. */
  function Position(s: Stmt): Option<Span> {
    match s
    case Marker(_) => None
    case Group(_) => None
    case _ => s.pos
  }

  /** `'body' in node._fields`. */
  predicate HasBody(s: Stmt) {
    s.Compound?
  }

  predicate IsFunctionDef(s: Stmt) {
    s.Compound? && s.kind.FunctionK? && !s.kind.isAsync
  }

  /** `getEmptyRootNode`: a copy of the node whose statement lists (body,
      handlers, orelse, finalbody) are emptied. */
  function Strip(s: Stmt): (r: Stmt)
    ensures !HasBody(s) ==> r == s
    ensures HasBody(s) ==> HasBody(r) && r.body == [] && r.handlers == [] && r.orelse == [] && r.finalbody == []
    ensures HasBody(s) ==> r.kind == s.kind && r.params == s.params && r.header == s.header
                            && r.trailer == s.trailer && r.pos == s.pos
  {
    if s.Compound? then s.(body := [], handlers := [], orelse := [], finalbody := []) else s
  }

  /** Two statements that differ only in their nested statement lists are
      the same after stripping. */
  lemma StripIgnoresBodies(s: Stmt, b: seq<Stmt>, h: seq<Stmt>, o: seq<Stmt>, f: seq<Stmt>)
    requires HasBody(s)
    ensures Strip(s.(body := b, handlers := h, orelse := o, finalbody := f)) == Strip(s)
  {
  }

  /** `ast.Expr(ast.Call(func=ast.Name(id='logger.info', ctx=ast.Load()), args=[arg]))`. */
  function LoggerInfo(arg: Expr): Stmt {
    ExprStmt(Call(Name("logger.info", Load), [arg]), None)
  }

  /** The `value` field of a statement, when its class has one (`Expr`,
      `Assign`, `AugAssign`, `AnnAssign`, `Return`); the inner option is the
      field's possibly-`None` content. */
  function ValueField(s: Stmt): Option<Option<Expr>> {
    match s
    case Assign(_, v, _) => Some(Some(v))
    case AugAssign(_, v, _) => Some(Some(v))
    case AnnAssign(_, _, v, _) => Some(v)
    case ExprStmt(v, _) => Some(Some(v))
    case Simple(ReturnK, es, _) => Some(if |es| > 0 then Some(es[0]) else None)
    case _ => None
  }
}
