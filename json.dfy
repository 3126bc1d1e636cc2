/** JSON documents as the backend sees them after parsing. Objects keep their
    keys in the order `Object.keys` reports them; that order is taken to be the
    insertion order (integer-like keys, which JavaScript lists first, are not
    told apart). */
module Json {

  datatype Json =
    | JNull
    | JBool(b: bool)
    | JNum(n: int)
    | JStr(s: string)
    | JArr(items: seq<Json>)
    | JObj(fields: seq<Field>)

  datatype Field = Field(key: string, value: Json)

  /** `v !== null && typeof v === 'object' && !Array.isArray(v)` */
  predicate IsObject(v: Json) {
    v.JObj?
  }

  function FieldKeys(fs: seq<Field>): (ks: seq<string>)
    ensures |ks| == |fs|
    ensures forall i :: 0 <= i < |fs| ==> ks[i] == fs[i].key
  {
    if fs == [] then [] else [fs[0].key] + FieldKeys(fs[1..])
  }

  /** `Object.keys(v ?? {})` for a null side or an object; other roots have no keys here. */
  function Keys(v: Json): seq<string> {
    if v.JObj? then FieldKeys(v.fields) else []
  }

  /** Position of the first field named `k`. */
  function FieldIndex(fs: seq<Field>, k: string): (i: nat)
    requires k in FieldKeys(fs)
    ensures i < |fs| && fs[i].key == k
    ensures forall j :: 0 <= j < i ==> fs[j].key != k
  {
    if fs[0].key == k then 0 else FieldIndex(fs[1..], k) + 1
  }

  /** `v[k]` for a key that `v` has. */
  function Get(v: Json, k: string): Json
    requires k in Keys(v)
  {
    v.fields[FieldIndex(v.fields, k)].value
  }
}
