/** JSON documents as Python's `json` module hands them to the receivers:
    `null`, booleans, numbers, strings, lists and dicts keyed by strings. */
module Json {

  /** A parsed JSON value. Numbers are kept as reals: the receivers only ever
      ask whether a number is zero. */
  datatype Value =
    | Null
    | Bool(b: bool)
    | Number(n: real)
    | Str(s: string)
    | Array(items: seq<Value>)
    | Object(fields: map<string, Value>)

  /** The one-field object `{key: value}` that `jsonify` builds for every reply. */
  function Single(key: string, value: string): (r: Value)
    ensures r.Object? && r.fields.Keys == {key} && r.fields[key] == Str(value)
  {
    Object(map[key := Str(value)])
  }
}
