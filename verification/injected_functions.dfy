/** `varLog`, the function the instrumented program calls on each logged
    value: a value is given a unique id once, by wrapping it in a
    `{"asp_uid": ..., "asp_value": ...}` dictionary, and logged. */
module InjectedFunctions {
  import opened Wrappers
  import opened PyAst
  import opened AdliLogger

  const UidKey: Const := StrC("asp_uid")
  const ValueKey: Const := StrC("asp_value")

  /** `"asp_uid" in val` for a dictionary. */
  predicate HasUid(v: Value) {
    v.Dict? && exists i :: 0 <= i < |v.items| && v.items[i].key == UidKey
  }

  function Wrap(v: Value, uid: string): (r: Value)
    ensures HasUid(r)
  {
    var r := Dict([Item(UidKey, Prim(StrC(uid))), Item(ValueKey, v)]);
    assert r.items[0].key == UidKey;
    r
  }

  /** `varLog(val, varid)` with `uid` the fresh `str(uuid.uuid4())`: the value
      returned and the record written. */
  function VarLog(ser: Serialiser, v: Value, varid: int, uid: string): (r: (Value, Record))
    ensures HasUid(r.0)
    ensures HasUid(v) ==> r.0 == v
    ensures !HasUid(v) ==> r.0 == Wrap(v, uid)
    ensures r.1 == Record(Info, VariableRecord(ser, varid, r.0))
  {
    var val := if v.Dict? && HasUid(v) then v else Wrap(v, uid);
    (val, Record(Info, VariableRecord(ser, varid, val)))
  }

  /** Logging a value `varLog` returned gives it back unchanged, whatever
      fresh id the second call draws. */
  lemma VarLogIdempotent(ser: Serialiser, v: Value, varid: int, uid: string, varid2: int, uid2: string)
    ensures VarLog(ser, VarLog(ser, v, varid, uid).0, varid2, uid2).0 == VarLog(ser, v, varid, uid).0
  {
  }

  /** Whether serialisation succeeds changes the record's text only, never
      the returned value. */
  lemma ValueIgnoresSerialiser(ser1: Serialiser, ser2: Serialiser, v: Value, varid: int, uid: string)
    ensures VarLog(ser1, v, varid, uid).0 == VarLog(ser2, v, varid, uid).0
  {
  }

  /** The original value is recoverable: it is the result itself when it
      already had an id, or the `asp_value` entry of the wrapper. */
  lemma WrapKeepsValue(ser: Serialiser, v: Value, varid: int, uid: string)
    requires !HasUid(v)
    ensures var r := VarLog(ser, v, varid, uid).0;
      r.items[1] == Item(ValueKey, v) && r.items[0] == Item(UidKey, Prim(StrC(uid)))
  {
  }
}
