/** The structured syntax tree (SST) that records one node per log type.
    The tree has a root with two lists, `children` and `siblings`; every
    node added gets the next log-type id.  The active node is the root and
    nothing in this module moves it, so the model keeps only the root's
    two lists and the id counter. */
module Sst {
  import opened Wrappers
  import opened PyAst

  datatype SstNode = SstNode(typ: string, syntax: string, id: int, lineno: int,
                             children: seq<SstNode>, siblings: seq<SstNode>)

  /** The tree: the root's two lists and the next log-type id. */
  datatype Tree = Tree(children: seq<SstNode>, siblings: seq<SstNode>, logTypeId: int)

  /** The extractor object `addAstNode` receives: the statement, its
      rendered syntax, its line and the log-type id stamped on it. */
  datatype Extracted = Extracted(astNode: Stmt, syntax: string, lineno: int, logTypeId: Option<int>)

  /** `SST(ltCount)`: an empty root and the first id to hand out. */
  function New(ltCount: int): (t: Tree)
    ensures t.children == [] && t.siblings == [] && t.logTypeId == ltCount
  {
    Tree([], [], ltCount)
  }

  /** `createSSTNode`: a leaf with the current id; the counter moves on by
      one. */
  function CreateNode(t: Tree, typ: string, syntax: string, lineno: int): (r: (Tree, SstNode))
    ensures r.1 == SstNode(typ, syntax, t.logTypeId, lineno, [], [])
    ensures r.0.logTypeId == t.logTypeId + 1
    ensures r.0.children == t.children && r.0.siblings == t.siblings
  {
    (t.(logTypeId := t.logTypeId + 1), SstNode(typ, syntax, t.logTypeId, lineno, [], []))
  }

  /** Appends a created node to the root's siblings or children. */
  function Attach(t: Tree, n: SstNode, isSibling: bool): Tree {
    if isSibling then t.(siblings := t.siblings + [n]) else t.(children := t.children + [n])
  }

  /** `addAstNode`: a function definition is typed "function" whatever
      type the caller passes; the extracted node is stamped with the id its
      SST node receives. */
  function AddAstNode(t: Tree, nodeType: string, x: Extracted, isSibling: bool): (r: (Tree, SstNode, Extracted))
    ensures r.1.typ == (if IsFunctionDef(x.astNode) then "function" else nodeType)
    ensures r.1.id == t.logTypeId && r.2.logTypeId == Some(r.1.id)
    ensures r.1.syntax == x.syntax && r.1.lineno == x.lineno && r.1.children == [] && r.1.siblings == []
    ensures r.2.astNode == x.astNode && r.2.syntax == x.syntax && r.2.lineno == x.lineno
    ensures r.0.logTypeId == t.logTypeId + 1
    ensures isSibling ==> r.0.siblings == t.siblings + [r.1] && r.0.children == t.children
    ensures !isSibling ==> r.0.children == t.children + [r.1] && r.0.siblings == t.siblings
  {
    var typ := if IsFunctionDef(x.astNode) then "function" else nodeType;
    var stamped := x.(logTypeId := Some(t.logTypeId));
    var (t1, n) := CreateNode(t, typ, x.syntax, x.lineno);
    (Attach(t1, n, isSibling), n, stamped)
  }

  /** `addCustomNode`: for the blocks Python's tree has no node for
      (`else`, `finally`); the type is taken as given. */
  function AddCustomNode(t: Tree, nodeType: string, syntax: string, lineno: int, isSibling: bool): (r: (Tree, SstNode))
    ensures r.1 == SstNode(nodeType, syntax, t.logTypeId, lineno, [], [])
    ensures r.0.logTypeId == t.logTypeId + 1
    ensures isSibling ==> r.0.siblings == t.siblings + [r.1] && r.0.children == t.children
    ensures !isSibling ==> r.0.children == t.children + [r.1] && r.0.siblings == t.siblings
  {
    var (t1, n) := CreateNode(t, nodeType, syntax, lineno);
    (Attach(t1, n, isSibling), n)
  }

  /** One call on the tree. */
  datatype Op =
    | AstOp(nodeType: string, x: Extracted, isSibling: bool)
    | CustomOp(nodeType: string, syntax: string, lineno: int, isSibling: bool)

  function Step(t: Tree, op: Op): Tree {
    match op
    case AstOp(ty, x, s) => AddAstNode(t, ty, x, s).0
    case CustomOp(ty, syn, l, s) => AddCustomNode(t, ty, syn, l, s).0
  }

  function Run(t: Tree, ops: seq<Op>): Tree
    decreases |ops|
  {
    if ops == [] then t else Run(Step(t, ops[0]), ops[1..])
  }

  function Ids(ns: seq<SstNode>): seq<int> {
    seq(|ns|, i requires 0 <= i < |ns| => ns[i].id)
  }

  predicate Increasing(s: seq<int>) {
    forall i, j :: 0 <= i < j < |s| ==> s[i] < s[j]
  }

  /** The ids handed out since the tree was made with `first`: each list
      in order of creation, no id in both lists, and together exactly the
      ids `first .. logTypeId - 1`. */
  ghost predicate Numbered(t: Tree, first: int) {
    && Increasing(Ids(t.children))
    && Increasing(Ids(t.siblings))
    && (forall x :: x in Ids(t.children) || x in Ids(t.siblings) <==> first <= x < t.logTypeId)
    && (forall x :: x in Ids(t.children) ==> x !in Ids(t.siblings))
    && |t.children| + |t.siblings| == t.logTypeId - first
  }

  lemma IdsAppend(ns: seq<SstNode>, n: SstNode)
    ensures Ids(ns + [n]) == Ids(ns) + [n.id]
  {
  }

  lemma IncreasingAppend(s: seq<int>, v: int)
    requires Increasing(s) && forall k :: 0 <= k < |s| ==> s[k] < v
    ensures Increasing(s + [v])
  {
  }

  lemma {:induction false} StepNumbered(t: Tree, op: Op, first: int)
    requires Numbered(t, first)
    ensures Numbered(Step(t, op), first) && Step(t, op).logTypeId == t.logTypeId + 1
  {
    var t' := Step(t, op);
    var isSibling := match op case AstOp(_, _, s) => s case CustomOp(_, _, _, s) => s;
    var m := if op.AstOp? then AddAstNode(t, op.nodeType, op.x, op.isSibling).1
             else AddCustomNode(t, op.nodeType, op.syntax, op.lineno, op.isSibling).1;
    assert m.id == t.logTypeId;
    var cs, ss := Ids(t.children), Ids(t.siblings);
    forall k | 0 <= k < |cs| ensures cs[k] < t.logTypeId {
      assert cs[k] in cs;
    }
    forall k | 0 <= k < |ss| ensures ss[k] < t.logTypeId {
      assert ss[k] in ss;
    }
    if isSibling {
      assert t'.siblings == t.siblings + [m] && t'.children == t.children;
      IdsAppend(t.siblings, m);
      IncreasingAppend(Ids(t.siblings), m.id);
    } else {
      assert t'.children == t.children + [m] && t'.siblings == t.siblings;
      IdsAppend(t.children, m);
      IncreasingAppend(Ids(t.children), m.id);
    }
  }

  /** Whatever sequence of nodes is added, the ids are handed out once
      each, in order, with no gap. */
  lemma {:induction false} RunNumbered(t: Tree, ops: seq<Op>, first: int)
    requires Numbered(t, first)
    ensures Numbered(Run(t, ops), first)
    ensures Run(t, ops).logTypeId == t.logTypeId + |ops|
    decreases |ops|
  {
    if ops != [] {
      StepNumbered(t, ops[0], first);
      RunNumbered(Step(t, ops[0]), ops[1..], first);
    }
  }

  lemma FromNew(ltCount: int, ops: seq<Op>)
    ensures Numbered(Run(New(ltCount), ops), ltCount)
    ensures Run(New(ltCount), ops).logTypeId == ltCount + |ops|
  {
    RunNumbered(New(ltCount), ops, ltCount);
  }
}
