/** JSON-like values as the Python code sees them (dicts with string keys,
    lists, strings, integers, booleans and None), with the few pieces of
    Python semantics the pipeline relies on: truthiness, `dict.get`,
    `isinstance(x, int)`/`int(x)` and hashability. */
module JsonValues {
  import opened Wrappers

  datatype Json =
    | JNull
    | JBool(b: bool)
    | JInt(i: int)
    | JStr(s: string)
    | JArr(items: seq<Json>)
    | JObj(fields: map<string, Json>)

  /** Python truthiness: None, False, 0, "", [] and {} are false. */
  predicate Truthy(j: Json)
  {
    match j
    case JNull => false
    case JBool(b) => b
    case JInt(i) => i != 0
    case JStr(s) => s != []
    case JArr(a) => a != []
    case JObj(m) => m != map[]
  }

  /** The integer value of `x` when `isinstance(x, int)` holds (booleans
      are integers in Python) — also what `int(x)` returns for such values;
      `None` for every other value. */
  function IntOf(j: Json): Option<int>
  {
    match j
    case JInt(i) => Some(i)
    case JBool(b) => Some(if b then 1 else 0)
    case _ => None
  }

  /** Values Python accepts as a set element or a dict key (lists and dicts are not). */
  predicate Hashable(j: Json)
  {
    !j.JArr? && !j.JObj?
  }

  /** `d.get(key, default)`. */
  function Get(d: map<string, Json>, key: string, default: Json): Json
  {
    if key in d then d[key] else default
  }

  /** A list of strings as a JSON list. */
  function Strs(ss: seq<string>): (r: seq<Json>)
    ensures |r| == |ss|
    ensures forall i :: 0 <= i < |ss| ==> r[i] == JStr(ss[i])
  {
    seq(|ss|, i requires 0 <= i < |ss| => JStr(ss[i]))
  }

  /** The dicts a `for` loop visits when it calls `.get` (or indexes by a
      string) on every item: the items of a list of dicts, nothing in an
      empty string or dict; `None` when the loop raises (a non-iterable, or
      an item that is not a dict). */
  function DictItems(j: Json): (r: Option<seq<map<string, Json>>>)
    ensures j.JArr? && (forall x <- j.items :: x.JObj?) ==>
              r.Some? && |r.value| == |j.items| && forall i :: 0 <= i < |j.items| ==> r.value[i] == j.items[i].fields
    ensures j.JArr? && r.Some? ==> |r.value| == |j.items| && forall i :: 0 <= i < |j.items| ==> JObj(r.value[i]) == j.items[i]
    ensures !Truthy(j) && !j.JNull? && !j.JBool? && !j.JInt? ==> r == Some([])
  {
    match j
    case JArr(items) =>
      if forall x <- items :: x.JObj? then Some(seq(|items|, i requires 0 <= i < |items| => items[i].fields))
      else None
    case JStr(s) => if s == [] then Some([]) else None
    case JObj(m) => if m == map[] then Some([]) else None
    case _ => None
  }
}
