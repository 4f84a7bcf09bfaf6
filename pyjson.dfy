/** A JSON document as Python's json module decodes it, and the few Python
    operations the metrics client applies to it: truth value, `len`, and
    subscripting by a string key or an integer index. Every operation that
    would raise (KeyError, IndexError, TypeError) yields None. */
module PyJson {
  import opened Wrappers

  /** JSON values. Object keys are always strings; numbers are exact reals. */
  datatype Json =
    | Null
    | Bool(b: bool)
    | Num(n: real)
    | Str(s: string)
    | Arr(items: seq<Json>)
    | Obj(fields: map<string, Json>)

  /** Python's `bool(j)`: None, False, zero and empty containers are falsy. */
  predicate Truthy(j: Json)
  {
    match j
    case Null => false
    case Bool(b) => b
    case Num(n) => n != 0.0
    case Str(s) => |s| > 0
    case Arr(items) => |items| > 0
    case Obj(fields) => |fields| > 0
  }

  /** Python's `len(j)`; a number, a bool or None raises TypeError. */
  function Len(j: Json): (r: Option<nat>)
    ensures r.Some? <==> j.Str? || j.Arr? || j.Obj?
    ensures r.Some? ==> (r.value == 0 <==> !Truthy(j))
  {
    match j
    case Str(s) => Some(|s|)
    case Arr(items) => Some(|items|)
    case Obj(fields) => Some(|fields|)
    case _ => None
  }

  /** Python's `j[key]` for a string key: only a dict holding the key answers;
      a missing key raises KeyError, any other value raises TypeError. */
  function GetKey(j: Json, key: string): (r: Option<Json>)
    ensures r.Some? <==> j.Obj? && key in j.fields
  {
    if j.Obj? && key in j.fields then Some(j.fields[key]) else None
  }

  /** Python's `j[i]` for a non-negative integer index: a list yields its
      element, a string the one-character string at that position; an index
      out of range raises IndexError, a dict raises KeyError (its keys are
      strings), anything else raises TypeError. */
  function GetIndex(j: Json, i: nat): (r: Option<Json>)
    ensures r.Some? <==> (j.Arr? && i < |j.items|) || (j.Str? && i < |j.s|)
    ensures j.Arr? && i < |j.items| ==> r == Some(j.items[i])
    ensures j.Str? && i < |j.s| ==> r == Some(Str([j.s[i]]))
  {
    match j
    case Arr(items) => if i < |items| then Some(items[i]) else None
    case Str(s) => if i < |s| then Some(Str([s[i]])) else None
    case _ => None
  }
}
