/** `UpdateVariableInfo`: every loaded name of a variable in scope is read
    through the `"value"` key of the record that holds it
    (`a = b + 1` becomes `a = b["value"] + 1`). */
module UpdateVariableInfo {
  import opened Wrappers
  import opened PyAst
  import opened NameMap

  /** The subscript that replaces a loaded name; its value is the bare
      identifier string and its context is the class `ast.Load`, not an
      instance. */
  function ValueRead(id: string): Expr {
    Subscript(RawId(id), Constant(StrC("value")), NoCtx)
  }

  /** `visit_Name`. */
  function VisitName(varNames: seq<string>): Expr -> Expr {
    (n: Expr) => if n.Name? && n.id in varNames && n.ctx == Load then ValueRead(n.id) else n
  }

  /** A name the visit leaves alone: not a loaded name in scope. */
  function NotInScopeLoad(varNames: seq<string>): Expr -> bool {
    (n: Expr) => !(n.Name? && n.id in varNames && n.ctx == Load)
  }

  /** The constructor's `generic_visit(node)` on a statement: afterwards no
      name the visit reaches is a loaded name in scope. */
  function Update(s: Stmt, varNames: seq<string>): (r: Stmt)
    ensures r.Assign? <==> s.Assign?
    ensures r.Compound? <==> s.Compound?
    ensures Position(r) == Position(s)
    ensures NamesS(r, NotInScopeLoad(varNames))
  {
    var h := VisitName(varNames);
    forall n: Expr | n.Name?
      ensures NamesE(h(n), NotInScopeLoad(varNames))
    {
    }
    MapNamesS(s, h, NotInScopeLoad(varNames));
    MapS(s, h)
  }

  /** A name becomes a `"value"` read exactly when it is loaded and in
      scope; any other name is kept. */
  lemma RewritesLoadsInScope(varNames: seq<string>, id: string, c: Ctx)
    ensures (MapE(Name(id, c), VisitName(varNames)) == ValueRead(id)) <==> (c == Load && id in varNames)
    ensures !(c == Load && id in varNames) ==> MapE(Name(id, c), VisitName(varNames)) == Name(id, c)
  {
  }

  /** Reads a rewritten subscript back as the loaded name it replaced. */
  function Restore(x: Expr): Option<Expr> {
    if x.Subscript? && x.value.RawId? && x.slice == Constant(StrC("value")) && x.ctx == NoCtx
    then Some(Name(x.value.id, Load)) else None
  }

  /** Nothing but the loaded names of `varNames` changes: turning every
      `"value"` read back into its name gives the parsed statement back. */
  lemma UpdateRestores(s: Stmt, varNames: seq<string>)
    requires ParsedS(s)
    ensures UnmapS(Update(s, varNames), Restore) == s
  {
    UnmapMapS(s, VisitName(varNames), Restore);
  }

  /** A second pass changes nothing: the names it would rewrite are gone. */
  lemma UpdateIdempotent(s: Stmt, varNames: seq<string>)
    ensures Update(Update(s, varNames), varNames) == Update(s, varNames)
  {
    var h := VisitName(varNames);
    forall n: Expr | n.Name?
      ensures MapE(h(n), h) == h(n)
    {
      if n.id in varNames && n.ctx == Load {
        assert MapE(RawId(n.id), h) == RawId(n.id);
      }
    }
    MapTwiceS(s, h);
  }

  /** The class's own example, with both names in scope: the stored `a` is
      kept and the loaded `b` is read through its `"value"` key. */
  lemma UpdateExample()
    ensures Update(Assign([Name("a", Store)], Op([Name("b", Load), Constant(IntC(1))]), None), ["a", "b"])
         == Assign([Name("a", Store)], Op([ValueRead("b"), Constant(IntC(1))]), None)
  {
    var h := VisitName(["a", "b"]);
    var ops := [Name("b", Load), Constant(IntC(1))];
    assert MapEs(ops[1..], h) == [Constant(IntC(1))];
    assert MapEs(ops, h) == [ValueRead("b"), Constant(IntC(1))];
    assert MapEs([Name("a", Store)], h) == [Name("a", Store)];
  }
}
