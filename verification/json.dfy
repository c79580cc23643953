/**
 * A parsed JSON request body and the field readers shared by the request
 * schemas. `request.json()` either fails (the body is not JSON) or yields a
 * value; a key that is absent from an object reads as `undefined`.
 */
module Json {
  import opened Wrappers

  datatype Value =
    | Null
    | Bool(b: bool)
    | Num(n: real)
    | Str(s: string)
    | Arr(items: seq<Value>)
    | Obj(fields: map<string, Value>)

  /** `body[key]` of an object body: `None` is `undefined`. */
  function Field(fields: map<string, Value>, key: string): (r: Option<Value>)
    ensures r.Some? <==> key in fields
    ensures r.Some? ==> r.value == fields[key]
  {
    if key in fields then Some(fields[key]) else None
  }

  /** Every element of an array is a string. */
  predicate AllStrings(items: seq<Value>) {
    forall i :: 0 <= i < |items| ==> items[i].Str?
  }

  function Strings(items: seq<Value>): (r: seq<string>)
    requires AllStrings(items)
    ensures |r| == |items|
    ensures forall i :: 0 <= i < |r| ==> items[i] == Str(r[i])
  {
    seq(|items|, i requires 0 <= i < |items| => items[i].s)
  }

  /** `z.string().optional()`: absent, or a string. */
  predicate OptionalString(v: Option<Value>) {
    v.None? || v.value.Str?
  }

  /** `z.number().optional()`: absent, or a number. */
  predicate OptionalNumber(v: Option<Value>) {
    v.None? || v.value.Num?
  }

  /** `z.boolean().optional()`: absent, or a boolean. */
  predicate OptionalBool(v: Option<Value>) {
    v.None? || v.value.Bool?
  }

  function StringOf(v: Option<Value>): (r: Option<string>)
    ensures v.Some? && v.value.Str? <==> r.Some?
    ensures r.Some? ==> v == Some(Str(r.value))
  {
    if v.Some? && v.value.Str? then Some(v.value.s) else None
  }

  function NumberOf(v: Option<Value>): (r: Option<real>)
    ensures v.Some? && v.value.Num? <==> r.Some?
    ensures r.Some? ==> v == Some(Num(r.value))
  {
    if v.Some? && v.value.Num? then Some(v.value.n) else None
  }
}
