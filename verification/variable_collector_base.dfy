/** `VariableCollectorBase`: the variable record every collector appends,
    numbered by a counter shared by all collector instances. */
module VariableCollectorBase {
  import opened Wrappers
  import opened PyAst

  /** The `type` of a key: `variable`, `key` or `temp_variable`. */
  datatype KeyKind = VariableKey | KeyKey | TempKey
  datatype Key = Key(kind: KeyKind, value: Const)

  datatype VarInfo = VarInfo(
    varId: int,
    name: Const,
    keys: seq<Key>,
    syntax: Const,
    assignValue: Option<Expr>,
    logType: int,
    funcId: int,
    isTemp: bool)

  /** A collector: the class-level counter, as it stands, and the
      instance's fields. */
  datatype Collector = Collector(counter: int, logTypeId: int, funcId: int, variables: seq<VarInfo>)

  function New(counter: int, logTypeId: int, funcId: int): (c: Collector)
    ensures c.variables == [] && c.counter == counter
    ensures c.logTypeId == logTypeId && c.funcId == funcId
  {
    Collector(counter, logTypeId, funcId, [])
  }

  /** A record as the collector `c` writes it, with id `varId`. */
  predicate Stamped(c: Collector, v: VarInfo, varId: int) {
    v.varId == varId && v.logType == c.logTypeId && v.funcId == c.funcId && v.isTemp == v.assignValue.Some?
  }

  /** `b` is `a` after appending records numbered on from `a`'s counter. */
  predicate Extends(a: Collector, b: Collector) {
    && b.logTypeId == a.logTypeId && b.funcId == a.funcId
    && a.counter <= b.counter
    && |b.variables| == |a.variables| + (b.counter - a.counter)
    && b.variables[..|a.variables|] == a.variables
    && forall i :: |a.variables| <= i < |b.variables| ==>
         Stamped(a, b.variables[i], a.counter + 1 + (i - |a.variables|))
  }

  /** `getVarInfo`: one record, numbered by the next value of the shared
      counter. */
  function GetVarInfo(c: Collector, name: Const, keys: seq<Key>, syntax: Const, node: Option<Expr>): (r: Collector)
    ensures Extends(c, r) && r.counter == c.counter + 1
    ensures var v := r.variables[|r.variables| - 1];
      v.name == name && v.keys == keys && v.syntax == syntax && v.assignValue == node
  {
    Collector(c.counter + 1, c.logTypeId, c.funcId,
              c.variables + [VarInfo(c.counter + 1, name, keys, syntax, node, c.logTypeId, c.funcId, node.Some?)])
  }

  /** `b` is `a` with exactly one more record, not a temporary, holding the
      given name, keys and syntax. */
  predicate AddsOne(a: Collector, b: Collector, name: Const, keys: seq<Key>, syntax: Const) {
    && Extends(a, b) && |b.variables| == |a.variables| + 1
    && var v := b.variables[|a.variables|];
       v.name == name && v.keys == keys && v.syntax == syntax && v.assignValue.None?
  }

  lemma ExtendsRefl(a: Collector)
    ensures Extends(a, a)
  {
  }

  lemma ExtendsTrans(a: Collector, b: Collector, c: Collector)
    requires Extends(a, b) && Extends(b, c)
    ensures Extends(a, c)
  {
    assert c.variables[..|a.variables|] == c.variables[..|b.variables|][..|a.variables|];
    forall i | |a.variables| <= i < |c.variables|
      ensures Stamped(a, c.variables[i], a.counter + 1 + (i - |a.variables|))
    {
      if i < |b.variables| {
        assert c.variables[i] == b.variables[i];
      }
    }
  }

  /** Ids of the records a collector appends are consecutive, hence strictly
      increasing. */
  lemma IdsIncrease(a: Collector, b: Collector, i: int, j: int)
    requires Extends(a, b)
    requires |a.variables| <= i < j < |b.variables|
    ensures b.variables[i].varId < b.variables[j].varId
  {
  }
}
