// The values a Python `Dict[str, Any]` holds in this library: what the JSON
// library file, the socket messages and the Blender extraction results are
// made of.

module Json {
  import opened Text
  import opened Collections

  datatype Value =
    | Null
    | Bool(b: bool)
    | Int(i: int)
    | Float(r: real)
    | Str(s: string)
    | Arr(items: seq<Value>)
    | Obj(fields: Dict<Value>)

  /** `d.get(k)`. */
  function Lookup(d: Dict<Value>, k: string): (r: Option<Value>)
    ensures r.Some? <==> k in d.items
    ensures r.Some? ==> r.value == d.items[k]
  {
    if k in d.items then Some(d.items[k]) else None
  }

  /** `d.get(k, default)`. */
  function LookupOr(d: Dict<Value>, k: string, default: Value): (r: Value)
    ensures k in d.items ==> r == d.items[k]
    ensures k !in d.items ==> r == default
  {
    if k in d.items then d.items[k] else default
  }

  /** Python truthiness: `None`, `False`, zero, and empty strings, lists and dicts are false. */
  predicate Truthy(v: Value)
  {
    match v
    case Null => false
    case Bool(b) => b
    case Int(i) => i != 0
    case Float(r) => r != 0.0
    case Str(s) => s != ""
    case Arr(items) => items != []
    case Obj(fields) => fields.keys != []
  }

  /**
   * `str(v)` inside an f-string, for the scalar values an identifier can be;
   * a float, list or dict renders as the empty string in this model.
   */
  function Display(v: Value): string
  {
    match v
    case Null => "None"
    case Bool(b) => if b then "True" else "False"
    case Int(i) => IntToString(i)
    case Str(s) => s
    case _ => ""
  }

  /** A JSON number, integral or not, as a real. */
  function AsReal(v: Value): (r: Option<real>)
    ensures v.Int? ==> r == Some(v.i as real)
    ensures v.Float? ==> r == Some(v.r)
    ensures !v.Int? && !v.Float? ==> r == None
  {
    match v
    case Int(i) => Some(i as real)
    case Float(x) => Some(x)
    case _ => None
  }

  /** A JSON list of strings. */
  function AsStrings(v: Value): (r: Option<seq<string>>)
    ensures r.Some? <==> v.Arr? && forall i :: 0 <= i < |v.items| ==> v.items[i].Str?
    ensures r.Some? ==> |r.value| == |v.items|
    ensures r.Some? ==> forall i :: 0 <= i < |v.items| ==> v.items[i] == Str(r.value[i])
  {
    if v.Arr? && forall i :: 0 <= i < |v.items| ==> v.items[i].Str? then
      Some(seq(|v.items|, i requires 0 <= i < |v.items| => v.items[i].s))
    else None
  }

  function Strings(ss: seq<string>): (r: Value)
    ensures r.Arr? && |r.items| == |ss|
    ensures forall i :: 0 <= i < |ss| ==> r.items[i] == Str(ss[i])
  {
    Arr(seq(|ss|, i requires 0 <= i < |ss| => Str(ss[i])))
  }

  /** A list of strings written out and read back is the same list. */
  lemma StringsRoundTrip(ss: seq<string>)
    ensures AsStrings(Strings(ss)) == Some(ss)
  {
    var r := AsStrings(Strings(ss));
    assert r.Some?;
    assert r.value == ss;
  }
}
