/** The Python-level meaning of what the two receivers do with a parsed
    payload: truth values, the `in` operator, `dict.get`, and exceptions. */
module Python {
  import opened Json

  datatype Option<+T> = None | Some(value: T)

  /** What evaluating a Python expression yields: a value, or an exception
      that propagates to the nearest handler. The receivers never tell
      exception kinds apart once parsing is over, so neither does the model. */
  datatype Outcome<+T> = Returns(value: T) | Raises {
    predicate IsFailure() { Raises? }
    function PropagateFailure<U>(): Outcome<U> { Raises }
    function Extract(): T requires Returns? { value }
  }

  newtype byte = x: int | 0 <= x < 256

  /** `s.isascii()`: every character is below U+0080. */
  predicate IsAscii(s: string) {
    forall i :: 0 <= i < |s| ==> s[i] as int < 0x80
  }

  /** `bool(v)`: `None`, `False`, zero, and empty strings, lists and dicts are false. */
  predicate Truthy(v: Value) {
    match v
    case Null => false
    case Bool(b) => b
    case Number(n) => n != 0.0
    case Str(s) => |s| > 0
    case Array(items) => |items| > 0
    case Object(fields) => |fields| > 0
  }

  /** `sub in s` on two Python strings: `sub` occurs in `s` at some offset. */
  predicate IsSubstring(sub: string, s: string)
    decreases |s|
  {
    sub <= s || (|s| > 0 && IsSubstring(sub, s[1..]))
  }

  /** `sub` occurs in `s` starting at some index. */
  predicate SubstringAt(sub: string, s: string) {
    exists i :: 0 <= i <= |s| && sub <= s[i..]
  }

  /** The left-to-right search finds `sub` exactly when it occurs somewhere. */
  lemma {:induction false} IsSubstringAt(sub: string, s: string)
    ensures IsSubstring(sub, s) <==> SubstringAt(sub, s)
    decreases |s|
  {
    if sub <= s {
      assert s[0..] == s;
    } else if |s| > 0 {
      IsSubstringAt(sub, s[1..]);
      if SubstringAt(sub, s) {
        var i :| 0 <= i <= |s| && sub <= s[i..];
        assert i > 0 by { assert s[0..] == s; }
        assert s[1..][i - 1..] == s[i..];
      }
      if SubstringAt(sub, s[1..]) {
        var j :| 0 <= j <= |s[1..]| && sub <= s[1..][j..];
        assert s[1..][j..] == s[j + 1..];
      }
    }
  }

  /** `key in container` for a string key: key lookup in a dict, element
      equality in a list, substring search in a string; on `None`, a boolean
      or a number Python raises `TypeError`. */
  function In(key: string, container: Value): (r: Outcome<bool>)
    ensures r.Raises? <==> container.Null? || container.Bool? || container.Number?
    ensures container.Object? ==> r == Returns(key in container.fields)
    ensures container.Array? ==> r == Returns(exists i :: 0 <= i < |container.items| && container.items[i] == Str(key))
    ensures container.Str? ==> r == Returns(SubstringAt(key, container.s))
  {
    match container
    case Object(fields) => Returns(key in fields)
    case Array(items) => Returns(Str(key) in items)
    case Str(s) => IsSubstringAt(key, s); Returns(IsSubstring(key, s))
    case _ => Raises
  }

  /** `key in v` holds, on any container `in` accepts. */
  predicate Contains(v: Value, key: string) {
    In(key, v) == Returns(true)
  }

  /** `m.get(key, default)` on a value already known to be a dict. */
  function Lookup(m: map<string, Value>, key: string, default: Value): Value {
    if key in m then m[key] else default
  }

  /** The entries of a dict; no entries for any other value. */
  function FieldsOf(v: Value): map<string, Value> {
    if v.Object? then v.fields else map[]
  }

  /** `obj.get(key, default)`: only a dict has `get`; on any other value
      Python raises `AttributeError`. A key bound to `null` yields `Null`,
      not the default. */
  function Get(obj: Value, key: string, default: Value): (r: Outcome<Value>)
    ensures r.Raises? <==> !obj.Object?
  {
    if obj.Object? then Returns(Lookup(obj.fields, key, default)) else Raises
  }
}
