/** `ValueKeyInjector`: a loaded name that resolves to a known variable is
    read through its `"asp_value"` key. */
module ValueKeyInjector {
  import opened Wrappers
  import opened PyAst
  import opened NameMap

  /** One entry of the variable map, in the map's insertion order. */
  datatype VarEntry = VarEntry(name: string, funcId: int, isGlobal: bool)

  /** A variable named `name` is visible from function `funcId` when it was
      defined there or is global. */
  predicate Visible(v: VarEntry, name: string, funcId: int) {
    v.name == name && (funcId == v.funcId || v.isGlobal)
  }

  /** `getVariable`: the first visible entry in map order. */
  function GetVariable(varMap: seq<VarEntry>, name: string, funcId: int): (r: Option<VarEntry>)
    ensures r.Some? ==> exists i :: 0 <= i < |varMap| && varMap[i] == r.value
                                    && Visible(r.value, name, funcId)
                                    && forall j :: 0 <= j < i ==> !Visible(varMap[j], name, funcId)
    ensures r.None? <==> forall i :: 0 <= i < |varMap| ==> !Visible(varMap[i], name, funcId)
    decreases varMap
  {
    if varMap == [] then None
    else if Visible(varMap[0], name, funcId) then Some(varMap[0])
    else
      var r := GetVariable(varMap[1..], name, funcId);
      assert forall i :: 1 <= i < |varMap| ==> varMap[i] == varMap[1..][i - 1];
      r
  }

  /** `insertValueKey`: a subscript built without a context. */
  function ValueKey(n: Expr): Expr {
    Subscript(n, Constant(StrC("asp_value")), NoCtx)
  }

  /** `visit_Name`. */
  function VisitName(varMap: seq<VarEntry>, funcId: int): Expr -> Expr {
    (n: Expr) => if n.Name? && GetVariable(varMap, n.id, funcId).Some? && n.ctx == Load then ValueKey(n) else n
  }

  /** The constructor: statements with a body are stripped first, then the
      children are visited. */
  function Inject(s: Stmt, varMap: seq<VarEntry>, funcId: int): (r: Stmt)
    ensures HasBody(s) ==> r.Compound? && r.body == [] && r.handlers == [] && r.orelse == [] && r.finalbody == []
    ensures Position(r) == Position(s)
  {
    MapS(Strip(s), VisitName(varMap, funcId))
  }

  /** Reads an `"asp_value"` subscript of a loaded name back as the name. */
  function Unwrap(x: Expr): Option<Expr> {
    if x.Subscript? && x.value.Name? && x.value.ctx == Load
       && x.slice == Constant(StrC("asp_value")) && x.ctx == NoCtx
    then Some(x.value) else None
  }

  /** Only names were wrapped, and only once each: unwrapping gives back the
      stripped statement. */
  lemma InjectUnwraps(s: Stmt, varMap: seq<VarEntry>, funcId: int)
    requires ParsedS(s)
    ensures UnmapS(Inject(s, varMap, funcId), Unwrap) == Strip(s)
  {
    UnmapMapS(Strip(s), VisitName(varMap, funcId), Unwrap);
  }

  /** A name is wrapped exactly when it is loaded and a visible variable has
      its name. */
  lemma WrapsVisibleLoads(varMap: seq<VarEntry>, funcId: int, id: string, c: Ctx)
    ensures (MapE(Name(id, c), VisitName(varMap, funcId)) == ValueKey(Name(id, c)))
        <==> (c == Load && exists i :: 0 <= i < |varMap| && Visible(varMap[i], id, funcId))
  {
  }
}
