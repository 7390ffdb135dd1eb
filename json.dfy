/**
 * JSON values as the source handles them once decoded (`json.loads` / `json.dumps`
 * are treated as the identity on these values), with the bits of Python semantics
 * the source relies on: truthiness (`x or []`, `x if x else None`), `dict.get`
 * and iteration in a `for` loop.
 */
module JsonValue {
  import opened Base

  datatype Json =
    | Null
    | Bool(b: bool)
    | Num(n: int)
    | Str(s: string)
    | Arr(items: seq<Json>)
    | Obj(fields: map<string, Json>)

  /** Python's `bool(v)`: `None`, `False`, `0`, `''`, `[]` and `{}` are false. */
  predicate Truthy(v: Json) {
    match v
    case Null => false
    case Bool(b) => b
    case Num(n) => n != 0
    case Str(s) => s != []
    case Arr(items) => items != []
    case Obj(fields) => fields != map[]
  }

  /** Python's `v or default`. */
  function Or(v: Json, default: Json): (r: Json)
    ensures Truthy(v) ==> r == v
    ensures !Truthy(v) ==> r == default
  {
    if Truthy(v) then v else default
  }

  /** Python's `d.get(key, default)` on a dict. */
  function Get(fields: map<string, Json>, key: string, default: Json): (r: Json)
    ensures key in fields ==> r == fields[key]
    ensures key !in fields ==> r == default
  {
    if key in fields then fields[key] else default
  }

  /**
   * The elements a Python `for` loop visits: the items of a list, the one-character
   * strings of a string, nothing for an empty dict. `None` for what cannot be
   * iterated (`None`, booleans, numbers), and for a non-empty object, whose key
   * order the model does not keep.
   */
  function Iterate(v: Json): (r: Option<seq<Json>>)
    ensures v.Arr? ==> r == Some(v.items)
    ensures v.Str? ==> r.Some? && |r.value| == |v.s|
    ensures v.Str? ==> forall i :: 0 <= i < |v.s| ==> r.value[i] == Str([v.s[i]])
    ensures (v.Null? || v.Bool? || v.Num?) ==> r == None
    ensures r.Some? && !Truthy(v) ==> r.value == []
  {
    match v
    case Arr(items) => Some(items)
    case Str(s) => Some(seq(|s|, i requires 0 <= i < |s| => Str([s[i]])))
    case Obj(fields) => if fields == map[] then Some([]) else None
    case _ => None
  }

  /** A list of strings as a JSON array of strings. */
  function StrArray(xs: seq<string>): (r: Json)
    ensures r.Arr? && |r.items| == |xs|
    ensures forall i :: 0 <= i < |xs| ==> r.items[i] == Str(xs[i])
  {
    Arr(seq(|xs|, i requires 0 <= i < |xs| => Str(xs[i])))
  }

  /** Reads back a list written by `StrArray`, or by `None` for the empty list. */
  function StrList(v: Json): (r: seq<string>)
  {
    if v.Arr? then
      seq(|v.items|, i requires 0 <= i < |v.items| =>
        if v.items[i].Str? then v.items[i].s else [])
    else []
  }

  lemma StrListOfStrArray(xs: seq<string>)
    ensures StrList(StrArray(xs)) == xs
  {
  }
}
