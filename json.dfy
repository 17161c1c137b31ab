/** JSON values as the Python code sees them after `json.loads`, and the
    abstraction of stored text: a stored string is either the dump of some
    JSON document or text that does not parse. */
module Json {
  import opened Wrappers
  import Strings

  /** A decimal literal `mantissa * 10^exponent`, kept as written: floats such
      as temperatures are carried, never computed with. */
  datatype Number = Number(mantissa: int, exponent: int)

  datatype Json =
    | JNull
    | JBool(b: bool)
    | JInt(i: int)
    | JFloat(n: Number)
    | JStr(s: string)
    | JArr(items: seq<Json>)
    | JObj(fields: map<string, Json>)

  /** A decoded JSON object, the Python `dict` of the source. */
  type Record = map<string, Json>

  /** Python truthiness of a decoded value. */
  predicate Truthy(j: Json) {
    match j
    case JNull => false
    case JBool(b) => b
    case JInt(i) => i != 0
    case JFloat(n) => n.mantissa != 0
    case JStr(s) => s != ""
    case JArr(xs) => xs != []
    case JObj(m) => m != map[]
  }

  /** `j.get(key)` on an object; any other value has no fields. */
  function Field(j: Json, key: string): (r: Option<Json>)
    ensures r.Some? <==> j.JObj? && key in j.fields
  {
    if j.JObj? && key in j.fields then Some(j.fields[key]) else None
  }

  /** Python's `key in x` for a string key: a key test on a dict, an element
      test on a list, a substring test on a str; None where `in` raises
      TypeError (null, booleans and numbers). */
  function Member(key: string, x: Json): (r: Option<bool>)
    ensures r.None? <==> !x.JObj? && !x.JArr? && !x.JStr?
    ensures x.JObj? ==> r == Some(key in x.fields)
  {
    match x
    case JObj(m) => Some(key in m)
    case JArr(items) => Some(JStr(key) in items)
    case JStr(s) => Some(Strings.Contains(s, key))
    case _ => None
  }

  /** `len(x)`; None where it raises TypeError. */
  function Length(x: Json): Option<nat> {
    match x
    case JStr(s) => Some(|s|)
    case JArr(items) => Some(|items|)
    case JObj(m) => Some(|m|)
    case _ => None
  }

  /** `x[0]`: the first character of a str or the first item of a list;
      None where it raises (a dict has no key 0, a scalar has no items, an
      empty value has no first element). */
  function Head(x: Json): Option<Json> {
    match x
    case JStr(s) => if s != "" then Some(JStr([s[0]])) else None
    case JArr(items) => if items != [] then Some(items[0]) else None
    case _ => None
  }

  /** What a guarded read such as `if key in x: v = x[key]` does: the test or
      the read raises, the test fails, or the read finds a value. */
  datatype Probe = Raises | Absent | Found(value: Json)

  /** `if key in x: v = x[key]`. Only a dict can be read by a string key, so
      a list holding the key as an item, or a str holding it as a substring,
      passes the test and then raises. */
  function Guarded(x: Json, key: string): (r: Probe)
    ensures r.Found? <==> x.JObj? && key in x.fields
    ensures r.Found? ==> r.value == x.fields[key]
    ensures r == Absent <==> Member(key, x) == Some(false)
  {
    match Member(key, x)
    case None => Raises
    case Some(false) => Absent
    case Some(true) =>
      match Field(x, key)
      case None => Raises
      case Some(v) => Found(v)
  }

  /** `if key in x and len(x[key]) > 0: v = x[key][0]`. */
  function FirstUnder(x: Json, key: string): (r: Probe)
    ensures Member(key, x).None? ==> r == Raises
    ensures x.JObj? && key !in x.fields ==> r == Absent
    ensures x.JObj? && key in x.fields && x.fields[key].JArr? ==>
      r == if x.fields[key].items == [] then Absent else Found(x.fields[key].items[0])
    ensures r.Found? ==> x.JObj? && key in x.fields && Length(x.fields[key]).Some? && Length(x.fields[key]).value > 0
  {
    match Guarded(x, key)
    case Raises => Raises
    case Absent => Absent
    case Found(v) =>
      match Length(v)
      case None => Raises
      case Some(n) =>
        if n == 0 then Absent
        else
          match Head(v)
          case None => Raises
          case Some(first) => Found(first)
  }

  /** A string as held by the store or sent over the wire. */
  datatype Text = Dumped(doc: Json) | Unparsable(raw: string)

  /** `json.dumps`. */
  function Dumps(j: Json): (t: Text)
    ensures Loads(t) == Some(j)
  {
    Dumped(j)
  }

  /** `json.loads`: None stands for a JSONDecodeError. */
  function Loads(t: Text): Option<Json> {
    match t
    case Dumped(j) => Some(j)
    case Unparsable(_) => None
  }

  /** `json.loads` of a text that is expected to hold an object. */
  function LoadsRecord(t: Text): (r: Option<Record>)
    ensures r.Some? <==> Loads(t).Some? && Loads(t).value.JObj?
  {
    match Loads(t)
    case Some(JObj(m)) => Some(m)
    case _ => None
  }
}
