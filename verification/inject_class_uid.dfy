/** `InjectClassUid`: one uuid per class, and a first statement in each of
    its methods.  `__init__` assigns the uuid to `self.asp_uid`; every other
    method logs `"@ "` followed by `self.asp_uid`.  Method bodies are not
    entered, so the search stops at the first function definition on every
    path; a statement that is not a (non-async) function definition is
    searched through. */
module InjectClassUid {
  import opened Wrappers
  import opened PyAst

  /** `self.asp_uid = <uid>`.  Both the `Name` and the `Attribute` are
      built without a context instance.  `ast.fix_missing_locations` gives
      the statement the locations it starts from: line 1, column 0, ending
      on line 1 at column 0. */
  function UidAssign(uid: string): Stmt {
    Assign([Attribute(Name("self", NoCtx), "asp_uid", NoCtx)], Constant(StrC(uid)), Some(Span(1, 1, 0, 0)))
  }

  /** `logger.info(f"@ {self.asp_uid}")`. */
  function UidLog(): Stmt {
    LoggerInfo(FString([Constant(StrC("@ ")), Formatted(Attribute(Name("self", NoCtx), "asp_uid", NoCtx))]))
  }

  /** The statement `visit_FunctionDef` inserts at the head of a method. */
  function Prologue(name: string, uid: string): Stmt {
    if name == "__init__" then UidAssign(uid) else UidLog()
  }

  /** `visit(s)` inside the class. */
  function VisitS(s: Stmt, uid: string): (r: Stmt)
    ensures IsFunctionDef(s) ==> r == s.(body := [Prologue(s.kind.name, uid)] + s.body)
    ensures !s.Compound? && !s.Group? ==> r == s
    decreases s
  {
    if IsFunctionDef(s) then s.(body := [Prologue(s.kind.name, uid)] + s.body)
    else
      match s
      case Compound(_, _, _, b, h, o, f, _, _) =>
        s.(body := VisitL(b, uid), handlers := VisitL(h, uid), orelse := VisitL(o, uid), finalbody := VisitL(f, uid))
      case Group(ss) => Group(VisitL(ss, uid))
      case _ => s
  }

  function VisitL(ss: seq<Stmt>, uid: string): (r: seq<Stmt>)
    ensures |r| == |ss|
    decreases ss
  {
    if ss == [] then [] else [VisitS(ss[0], uid)] + VisitL(ss[1..], uid)
  }

  /** `InjectClassUid(node)`: a class has the statements of its body
      visited with the class's uuid, drawn once; any other node is left
      as it is. */
  function Inject(node: Stmt, uid: string): (r: Stmt)
    ensures !(node.Compound? && node.kind.ClassK?) ==> r == node
    ensures node.Compound? && node.kind.ClassK? ==>
      r.Compound? && r.kind == node.kind && |r.body| == |node.body| && r.header == node.header
  {
    if node.Compound? && node.kind.ClassK? then VisitS(node, uid) else node
  }

  /** The inverse: the first statement of every method reached is
      dropped. */
  function EraseS(s: Stmt): Stmt
    decreases s
  {
    if IsFunctionDef(s) then s.(body := if s.body == [] then [] else s.body[1..])
    else
      match s
      case Compound(_, _, _, b, h, o, f, _, _) =>
        s.(body := EraseL(b), handlers := EraseL(h), orelse := EraseL(o), finalbody := EraseL(f))
      case Group(ss) => Group(EraseL(ss))
      case _ => s
  }

  function EraseL(ss: seq<Stmt>): seq<Stmt>
    decreases ss
  {
    if ss == [] then [] else [EraseS(ss[0])] + EraseL(ss[1..])
  }

  /** Every method reached grows by exactly its prologue, and nothing else
      changes: erasing the prologues gives the class back. */
  lemma {:induction false} EraseVisitS(s: Stmt, uid: string)
    ensures EraseS(VisitS(s, uid)) == s
    decreases s
  {
    if IsFunctionDef(s) {
      assert ([Prologue(s.kind.name, uid)] + s.body)[1..] == s.body;
    } else {
      match s
      case Compound(_, _, _, b, h, o, f, _, _) =>
        EraseVisitL(b, uid); EraseVisitL(h, uid); EraseVisitL(o, uid); EraseVisitL(f, uid);
      case Group(ss) => EraseVisitL(ss, uid);
      case _ =>
    }
  }

  lemma {:induction false} EraseVisitL(ss: seq<Stmt>, uid: string)
    ensures EraseL(VisitL(ss, uid)) == ss
    decreases ss
  {
    if ss != [] {
      EraseVisitS(ss[0], uid);
      EraseVisitL(ss[1..], uid);
      assert ([VisitS(ss[0], uid)] + VisitL(ss[1..], uid))[1..] == VisitL(ss[1..], uid);
    }
  }

  lemma InjectErase(node: Stmt, uid: string)
    ensures node.Compound? && node.kind.ClassK? ==> EraseS(Inject(node, uid)) == node
  {
    EraseVisitS(node, uid);
  }

  /** `class C: def __init__(self): ...; def m(self): ...` gets the uid
      assigned in `__init__` and logged in `m`, both with the same uid. */
  lemma TwoMethods(c: string, init: seq<Stmt>, m: string, mb: seq<Stmt>, uid: string, p: Option<Span>)
    requires m != "__init__"
    ensures var i := Compound(FunctionK("__init__", false), [Arg("self", None)], [], init, [], [], [], [], p);
      var f := Compound(FunctionK(m, false), [Arg("self", None)], [], mb, [], [], [], [], p);
      var cls := Compound(ClassK(c), [], [], [i, f], [], [], [], [], p);
      Inject(cls, uid).body == [i.(body := [UidAssign(uid)] + init), f.(body := [UidLog()] + mb)]
  {
    var i := Compound(FunctionK("__init__", false), [Arg("self", None)], [], init, [], [], [], [], p);
    var f := Compound(FunctionK(m, false), [Arg("self", None)], [], mb, [], [], [], [], p);
    assert VisitL([i, f], uid) == [VisitS(i, uid)] + VisitL([f], uid);
    assert VisitL([f], uid) == [VisitS(f, uid)] + VisitL([], uid);
  }
}
