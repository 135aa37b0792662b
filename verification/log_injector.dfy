/** `injector/LogInjector.py`: a transformer that replaces every assignment
    statement by two references to the same node. */
module LogInjector {
  import opened PyAst

  /** `visit(s)`: an assignment becomes two copies of itself (its children
      are not visited); a statement with nested statement lists has them
      transformed; every other statement is kept. */
  function DupS(s: Stmt): seq<Stmt>
    decreases s
  {
    match s
    case Assign(_, _, _) => [s, s]
    case Compound(_, _, _, b, h, o, f, _, _) =>
      [s.(body := DupL(b), handlers := DupL(h), orelse := DupL(o), finalbody := DupL(f))]
    case _ => [s]
  }

  /** `generic_visit` of a statement list. */
  function DupL(ss: seq<Stmt>): seq<Stmt>
    decreases ss
  {
    if ss == [] then [] else DupS(ss[0]) + DupL(ss[1..])
  }

  /** `LogInjector(node)` for a module with body `body`. */
  function Inject(body: seq<Stmt>): (r: seq<Stmt>)
    ensures |r| == |body| + CountAssigns(body)
  {
    DupLength(body);
    DupL(body)
  }

  function CountAssigns(ss: seq<Stmt>): nat {
    if ss == [] then 0 else (if ss[0].Assign? then 1 else 0) + CountAssigns(ss[1..])
  }

  lemma {:induction false} DupLength(ss: seq<Stmt>)
    ensures |DupL(ss)| == |ss| + CountAssigns(ss)
    decreases |ss|
  {
    if ss != [] {
      DupLength(ss[1..]);
    }
  }

  /** The inverse: each adjacent pair of equal assignments collapses to one,
      and nested lists are undone alike. */
  function UndupS(s: Stmt): Stmt
    decreases s
  {
    match s
    case Compound(_, _, _, b, h, o, f, _, _) =>
      s.(body := UndupL(b), handlers := UndupL(h), orelse := UndupL(o), finalbody := UndupL(f))
    case _ => s
  }

  function UndupL(ss: seq<Stmt>): seq<Stmt>
    decreases ss
  {
    if ss == [] then []
    else if ss[0].Assign? && |ss| >= 2 && ss[1] == ss[0] then [ss[0]] + UndupL(ss[2..])
    else [UndupS(ss[0])] + UndupL(ss[1..])
  }

  /** Nothing is lost: undoing the duplication gives back the input, so
      the non-assignment statements keep their places and order. */
  lemma {:induction false} UndupDupS(s: Stmt, rest: seq<Stmt>)
    ensures UndupL(DupS(s) + DupL(rest)) == [s] + UndupL(DupL(rest))
    decreases s, 1
  {
    match s
    case Assign(_, _, _) =>
      assert (DupS(s) + DupL(rest))[2..] == DupL(rest);
    case Compound(_, _, _, b, h, o, f, _, _) =>
      UndupDupL(b);
      UndupDupL(h);
      UndupDupL(o);
      UndupDupL(f);
      assert (DupS(s) + DupL(rest))[1..] == DupL(rest);
    case _ =>
      assert (DupS(s) + DupL(rest))[1..] == DupL(rest);
  }

  lemma {:induction false} UndupDupL(ss: seq<Stmt>)
    ensures UndupL(DupL(ss)) == ss
    decreases ss, 0
  {
    if ss != [] {
      UndupDupS(ss[0], ss[1..]);
      UndupDupL(ss[1..]);
    }
  }

  /** Every assignment of the output is an input assignment, unchanged. */
  lemma {:induction false} DupKeepsAssigns(ss: seq<Stmt>, i: nat)
    requires i < |DupL(ss)| && DupL(ss)[i].Assign?
    ensures DupL(ss)[i] in ss
    decreases |ss|
  {
    var h := DupS(ss[0]);
    if i < |h| {
      assert DupL(ss)[i] == h[i];
    } else {
      assert DupL(ss)[i] == DupL(ss[1..])[i - |h|];
      DupKeepsAssigns(ss[1..], i - |h|);
    }
  }
}
