/** `SetUniqueId`: in the logger's own source, the assignment to
    `ADLI_UNIQUE_ID` receives the run's unique id. */
module SetUniqueId {
  import opened Wrappers
  import opened PyAst

  /** The assignments `visit_Assign` rewrites: the first target is the name
      `ADLI_UNIQUE_ID`. */
  predicate SetsUid(s: Stmt) {
    s.Assign? && |s.targets| > 0 && s.targets[0].Name? && s.targets[0].id == "ADLI_UNIQUE_ID"
  }

  /** `visit_Assign`, reached through `generic_visit` for assignments nested
      in statement lists.  An assignment without targets fails on
      `targets[0]`. */
  function VisitS(s: Stmt, uid: string): (r: Result<Stmt>)
    ensures r.Ok? && SetsUid(s) ==> r.value == Assign(s.targets, Constant(StrC(uid)), s.pos)
    ensures r.Ok? && !SetsUid(s) && !s.Compound? ==> r.value == s
    ensures s.Assign? && |s.targets| == 0 ==> r == Err(IndexError("targets[0]"))
    decreases s
  {
    match s
    case Assign(ts, v, p) =>
      if |ts| == 0 then Err(IndexError("targets[0]"))
      else if SetsUid(s) then Ok(Assign(ts, Constant(StrC(uid)), p))
      else Ok(s)
    case Compound(k, ps, hd, b, hs, o, f, tr, p) =>
      var b' :- VisitSs(b, uid);
      var hs' :- VisitSs(hs, uid);
      var o' :- VisitSs(o, uid);
      var f' :- VisitSs(f, uid);
      Ok(Compound(k, ps, hd, b', hs', o', f', tr, p))
    case _ => Ok(s)
  }

  function VisitSs(ss: seq<Stmt>, uid: string): (r: Result<seq<Stmt>>)
    ensures r.Ok? ==> |r.value| == |ss|
    decreases ss
  {
    if ss == [] then Ok([])
    else
      var x :- VisitS(ss[0], uid);
      var xs :- VisitSs(ss[1..], uid);
      Ok([x] + xs)
  }

  /** The statement with every `ADLI_UNIQUE_ID` value blanked: what the
      transformer must leave alone. */
  function BlankS(s: Stmt): Stmt
    decreases s
  {
    match s
    case Assign(ts, v, p) => if SetsUid(s) then Assign(ts, Constant(NoneC), p) else s
    case Compound(k, ps, hd, b, hs, o, f, tr, p) =>
      Compound(k, ps, hd, BlankSs(b), BlankSs(hs), BlankSs(o), BlankSs(f), tr, p)
    case _ => s
  }

  function BlankSs(ss: seq<Stmt>): seq<Stmt>
    decreases ss
  {
    if ss == [] then [] else [BlankS(ss[0])] + BlankSs(ss[1..])
  }

  /** Every `ADLI_UNIQUE_ID` assignment, at any depth, holds `uid`. */
  predicate HoldsS(s: Stmt, uid: string)
    decreases s
  {
    match s
    case Assign(_, v, _) => SetsUid(s) ==> v == Constant(StrC(uid))
    case Compound(_, _, _, b, hs, o, f, _, _) => HoldsSs(b, uid) && HoldsSs(hs, uid) && HoldsSs(o, uid) && HoldsSs(f, uid)
    case _ => true
  }

  predicate HoldsSs(ss: seq<Stmt>, uid: string)
    decreases ss
  {
    ss == [] || (HoldsS(ss[0], uid) && HoldsSs(ss[1..], uid))
  }

  /** The id lands in every `ADLI_UNIQUE_ID` assignment and nothing else
      changes. */
  lemma {:induction false} VisitSets(s: Stmt, uid: string)
    requires VisitS(s, uid).Ok?
    ensures HoldsS(VisitS(s, uid).value, uid)
    ensures BlankS(VisitS(s, uid).value) == BlankS(s)
    decreases s
  {
    match s
    case Compound(k, ps, hd, b, hs, o, f, tr, p) =>
      VisitSetsSs(b, uid); VisitSetsSs(hs, uid); VisitSetsSs(o, uid); VisitSetsSs(f, uid);
    case _ =>
  }

  lemma {:induction false} VisitSetsSs(ss: seq<Stmt>, uid: string)
    requires VisitSs(ss, uid).Ok?
    ensures HoldsSs(VisitSs(ss, uid).value, uid)
    ensures BlankSs(VisitSs(ss, uid).value) == BlankSs(ss)
    decreases ss
  {
    if ss != [] {
      VisitSets(ss[0], uid);
      VisitSetsSs(ss[1..], uid);
      var r := VisitSs(ss, uid).value;
      assert r == [VisitS(ss[0], uid).value] + VisitSs(ss[1..], uid).value;
      assert r[1..] == VisitSs(ss[1..], uid).value;
    }
  }

  /** Setting the id twice is setting it once. */
  lemma {:induction false} VisitIdempotent(s: Stmt, uid: string)
    requires VisitS(s, uid).Ok?
    ensures VisitS(VisitS(s, uid).value, uid) == VisitS(s, uid)
    decreases s
  {
    match s
    case Compound(k, ps, hd, b, hs, o, f, tr, p) =>
      VisitIdempotentSs(b, uid); VisitIdempotentSs(hs, uid); VisitIdempotentSs(o, uid); VisitIdempotentSs(f, uid);
    case _ =>
  }

  lemma {:induction false} VisitIdempotentSs(ss: seq<Stmt>, uid: string)
    requires VisitSs(ss, uid).Ok?
    ensures VisitSs(VisitSs(ss, uid).value, uid) == VisitSs(ss, uid)
    decreases ss
  {
    if ss != [] {
      VisitIdempotent(ss[0], uid);
      VisitIdempotentSs(ss[1..], uid);
      var r := VisitSs(ss, uid).value;
      assert r == [VisitS(ss[0], uid).value] + VisitSs(ss[1..], uid).value;
      assert r[0] == VisitS(ss[0], uid).value && r[1..] == VisitSs(ss[1..], uid).value;
    }
  }
}
