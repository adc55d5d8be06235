/**
 * A parsed JSON document as the Python scripts see it after `json.load`,
 * and the handful of Python operations they apply to it: `dict.get` with
 * a default, `key in dict`, `d[key]`, `x[0]`, truthiness, `a or b` and
 * `str(x)`.
 *
 * An object is the ordered sequence of its key/value pairs: Python dicts
 * keep insertion order, which decides the order of every traversal.  A
 * parsed object has distinct keys; `Lookup` takes the first pair with a
 * key.  Floating-point numbers are not represented.
 *
 * Reads are lenient where Python would raise AttributeError or TypeError
 * because a value has the wrong JSON kind: a non-object reads as having
 * no keys, a non-string reads as "" and a non-array as [].
 */
module Json {
  import opened Wrappers
  import opened PyText

  datatype Json =
    | JNull
    | JBool(b: bool)
    | JInt(n: int)
    | JStr(s: string)
    | JArr(items: seq<Json>)
    | JObj(fields: seq<(string, Json)>)

  const EmptyObj: Json := JObj([])

  /** Python truthiness: None, False, 0, "", [] and {} are false. */
  predicate Truthy(j: Json) {
    match j
    case JNull => false
    case JBool(b) => b
    case JInt(n) => n != 0
    case JStr(s) => s != ""
    case JArr(xs) => xs != []
    case JObj(fs) => fs != []
  }

  /** `a or b`: the first operand when it is truthy, else the second. */
  function Or(a: Json, b: Json): (r: Json)
    ensures Truthy(a) ==> r == a
    ensures !Truthy(a) ==> r == b
  {
    if Truthy(a) then a else b
  }

  /** The value of the first pair with key `k`. */
  function Lookup(fs: seq<(string, Json)>, k: string): Option<Json> {
    if fs == [] then None
    else if fs[0].0 == k then Some(fs[0].1)
    else Lookup(fs[1..], k)
  }

  /** `Lookup` finds the value of the first pair with the key, and finds
      one exactly when some pair has the key. */
  lemma {:induction false} LookupFirst(fs: seq<(string, Json)>, k: string)
    ensures Lookup(fs, k).Some? <==> exists i :: 0 <= i < |fs| && fs[i].0 == k
    ensures Lookup(fs, k).Some? ==>
      exists i :: 0 <= i < |fs| && fs[i] == (k, Lookup(fs, k).value)
        && forall j :: 0 <= j < i ==> fs[j].0 != k
  {
    if fs != [] && fs[0].0 != k {
      LookupFirst(fs[1..], k);
      if Lookup(fs, k).Some? {
        var i :| 0 <= i < |fs[1..]| && fs[1..][i] == (k, Lookup(fs, k).value)
          && forall j :: 0 <= j < i ==> fs[1..][j].0 != k;
        assert fs[i + 1] == (k, Lookup(fs, k).value);
        assert forall j :: 0 <= j < i + 1 ==> fs[j].0 != k by {
          forall j | 0 <= j < i + 1 ensures fs[j].0 != k {
            if j > 0 { assert fs[j] == fs[1..][j - 1]; }
          }
        }
      }
      if exists i :: 0 <= i < |fs| && fs[i].0 == k {
        var i :| 0 <= i < |fs| && fs[i].0 == k;
        assert fs[1..][i - 1].0 == k;
      }
    }
  }

  /** `k in d`. */
  predicate HasKey(j: Json, k: string) {
    j.JObj? && Lookup(j.fields, k).Some?
  }

  /** `d.get(k, default)`. */
  function Get(j: Json, k: string, default: Json): (r: Json)
    ensures HasKey(j, k) ==> r == Lookup(j.fields, k).value
    ensures !HasKey(j, k) ==> r == default
  {
    if j.JObj? then
      match Lookup(j.fields, k)
      case Some(v) => v
      case None => default
    else default
  }

  /** `d.get(k)`: None when the key is missing. */
  function GetOrNull(j: Json, k: string): Json {
    Get(j, k, JNull)
  }

  /** `d[k]`: fails (KeyError, TypeError) unless `d` is an object holding `k`. */
  function Subscript(j: Json, k: string): (r: Option<Json>)
    ensures r.Some? <==> HasKey(j, k)
  {
    if j.JObj? then Lookup(j.fields, k) else None
  }

  /** `x[0]`: the first element of a list, the first character of a
      string; fails (IndexError, KeyError, TypeError) otherwise. */
  function First(j: Json): (r: Option<Json>)
    ensures r.Some? <==> (j.JArr? && j.items != []) || (j.JStr? && j.s != "")
  {
    match j
    case JArr(xs) => if xs == [] then None else Some(xs[0])
    case JStr(s) => if s == "" then None else Some(JStr([s[0]]))
    case _ => None
  }

  /** A value read where the code expects a string. */
  function AsStr(j: Json): string {
    if j.JStr? then j.s else ""
  }

  /** A value read where the code expects a list. */
  function AsArr(j: Json): seq<Json> {
    if j.JArr? then j.items else []
  }

  /** `d.get(k, "")` read as a string. */
  function StrField(j: Json, k: string): string {
    AsStr(Get(j, k, JStr("")))
  }

  /** `d.get(k, [])` read as a list. */
  function ArrField(j: Json, k: string): seq<Json> {
    AsArr(Get(j, k, JArr([])))
  }

  /** `d.get(key, d.get(legacy, []))` read as a list: a field under its
      current name, else under its older name. */
  function ListOr(j: Json, key: string, legacy: string): seq<Json> {
    AsArr(Get(j, key, Get(j, legacy, JArr([]))))
  }

  /** `d.get(k, {}).get("decode", "")`: the decode of a code-valued field. */
  function DecodeOf(j: Json, k: string): string {
    StrField(Get(j, k, EmptyObj), "decode")
  }

  /** `item["id"]` succeeds on every item. */
  predicate Keyed(items: seq<Json>) {
    forall i :: 0 <= i < |items| ==> HasKey(items[i], "id")
  }

  /** The `id` of an item (None when it has none). */
  function IdOf(item: Json): Json {
    GetOrNull(item, "id")
  }

  // ---------------------------------------------------------------- str()

  /** `str(x)`: a string is itself, everything else its `repr`. */
  function PyStr(j: Json): (r: string)
    ensures j.JStr? ==> r == j.s
    ensures j.JInt? ==> r == IntToString(j.n)
    ensures j == JNull ==> r == "None"
  {
    if j.JStr? then j.s else Repr(j)
  }

  /** `repr(x)`.  Strings are quoted with `'` and not escaped. */
  function Repr(j: Json): string
    decreases j, 1
  {
    match j
    case JNull => "None"
    case JBool(b) => if b then "True" else "False"
    case JInt(n) => IntToString(n)
    case JStr(s) => "'" + s + "'"
    case JArr(xs) => "[" + ItemsRepr(j, |xs|) + "]"
    case JObj(fs) => "{" + FieldsRepr(j, |fs|) + "}"
  }

  function ItemsRepr(arr: Json, n: nat): string
    requires arr.JArr? && n <= |arr.items|
    decreases arr, 0, n
  {
    if n == 0 then ""
    else ItemsRepr(arr, n - 1) + (if n > 1 then ", " else "") + Repr(arr.items[n - 1])
  }

  function FieldsRepr(obj: Json, n: nat): string
    requires obj.JObj? && n <= |obj.fields|
    decreases obj, 0, n
  {
    if n == 0 then ""
    else
      FieldsRepr(obj, n - 1) + (if n > 1 then ", " else "")
      + "'" + obj.fields[n - 1].0 + "': " + Repr(obj.fields[n - 1].1)
  }
}
