/** The untyped JSON value the server keeps as a provider's raw profile
    (serde_json's `Value`), with the two lookups identity extraction uses:
    `Value::get` by key and `Value::pointer` along a path of object keys. */
module Json {
  import opened Wrappers

  /** serde_json's `Value`. Numbers are integers in this model. */
  datatype Value =
    | Null
    | Bool(b: bool)
    | Number(n: int)
    | String(text: string)
    | Array(items: seq<Value>)
    | Object(fields: map<string, Value>)

  /** `Value::get` with a string key: the member of an object; nothing for
      an absent key and for every value that is not an object. */
  function Get(v: Value, key: string): (r: Option<Value>)
    ensures r.Some? <==> v.Object? && key in v.fields
    ensures r.Some? ==> r.value == v.fields[key]
  {
    if v.Object? && key in v.fields then Some(v.fields[key]) else None
  }

  /** `Value::pointer` for a path whose tokens are object keys (none of the
      paths used here is an array index): walk the keys one object at a time. */
  function Pointer(v: Value, path: seq<string>): (r: Option<Value>)
    ensures |path| == 0 ==> r == Some(v)
    ensures |path| > 0 && r.Some? ==> v.Object? && path[0] in v.fields
  {
    if |path| == 0 then Some(v)
    else
      match Get(v, path[0])
      case Some(child) => Pointer(child, path[1..])
      case None => None
  }

  /** Walking a path in two legs is walking the first leg, then the second
      from wherever the first ended. */
  lemma {:induction false} PointerAppend(v: Value, p: seq<string>, q: seq<string>)
    ensures Pointer(v, p + q) == match Pointer(v, p) case Some(w) => Pointer(w, q) case None => None
  {
    if |p| > 0 {
      assert (p + q)[0] == p[0] && (p + q)[1..] == p[1..] + q;
      match Get(v, p[0])
      case Some(child) => PointerAppend(child, p[1..], q);
      case None =>
    } else {
      assert p + q == q;
    }
  }

  /** A two-key path such as `/user/id` reaches the member `b` of the object
      held under `a`, and nothing when either step is missing. */
  lemma PointerTwoKeys(v: Value, a: string, b: string)
    ensures Pointer(v, [a, b]).Some? <==> v.Object? && a in v.fields && v.fields[a].Object? && b in v.fields[a].fields
    ensures Pointer(v, [a, b]).Some? ==> Pointer(v, [a, b]).value == v.fields[a].fields[b]
  {
    assert [a, b][1..] == [b] && [b][1..] == [];
  }

  /** `Value::as_str`: the text of a JSON string, nothing for any other value. */
  function AsStr(v: Value): (r: Option<string>)
    ensures r.Some? <==> v.String?
  {
    if v.String? then Some(v.text) else None
  }
}
