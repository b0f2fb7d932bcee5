/** Decoded JSON values, the Python operations the services apply to them,
    and the response of an upstream HTTP call.

Decoding the body and Python's `float(text)` are left abstract: a response
carries its body already decoded (or `None` when `response.json()` raises),
and the text-to-float conversion is a parameter `parse` of every member that
needs it. The texts of Python's built-in exceptions other than `KeyError`
are summarised by fixed strings.
 */
module JsonValues {
  import opened Wrappers
  import Strings

  datatype Json =
    | Null
    | Bool(b: bool)
    | Num(n: real)
    | Str(s: string)
    | Arr(items: seq<Json>)
    | Obj(fields: map<string, Json>)

  /** An upstream HTTP response: status, raw text, and the decoded body. */
  datatype HttpResponse = HttpResponse(status: int, text: string, body: Option<Json>)

  /** Python's `float(text)`: `None` where it raises ValueError. */
  type FloatParser = string -> Option<real>

  /** `str(KeyError(key))` quotes the key. */
  function KeyErrorText(key: string): string {
    "'" + key + "'"
  }

  const TypeErrorText := "TypeError"
  const AttributeErrorText := "AttributeError"
  const ValueErrorText := "ValueError"
  const IndexErrorText := "list index out of range"
  const DecodeErrorText := "JSONDecodeError"

  /** `v[key]`: only a dict can be subscripted by a string key. */
  function Index(v: Json, key: string): (r: Result<Json>)
    ensures r.Ok? <==> v.Obj? && key in v.fields
    ensures r.Ok? ==> r.value == v.fields[key]
    ensures v.Obj? && key !in v.fields ==> r == Err(KeyErrorText(key))
  {
    match v
    case Obj(m) => if key in m then Ok(m[key]) else Err(KeyErrorText(key))
    case _ => Err(TypeErrorText)
  }

  /** `v.get(key, default)`: only a dict has `get`. */
  function Get(v: Json, key: string, default: Json): (r: Result<Json>)
    ensures r.Ok? <==> v.Obj?
    ensures v.Obj? ==> r.value == if key in v.fields then v.fields[key] else default
  {
    match v
    case Obj(m) => Ok(if key in m then m[key] else default)
    case _ => Err(AttributeErrorText)
  }

  /** `v[i]` for an integer position. */
  function At(v: Json, i: nat): (r: Result<Json>)
    ensures r.Ok? <==> v.Arr? && i < |v.items|
    ensures r.Ok? ==> r.value == v.items[i]
  {
    match v
    case Arr(xs) => if i < |xs| then Ok(xs[i]) else Err(IndexErrorText)
    case Obj(_) => Err("0")
    case _ => Err(TypeErrorText)
  }

  /** Python's `key in v`: a dict tests its keys, a list its elements,
      a string its substrings; anything else raises. */
  function Contains(v: Json, key: string): (r: Result<bool>)
    ensures r.Ok? <==> v.Obj? || v.Arr? || v.Str?
    ensures v.Obj? ==> r == Ok(key in v.fields)
  {
    match v
    case Obj(m) => Ok(key in m)
    case Arr(xs) => Ok(Str(key) in xs)
    case Str(s) => Ok(Strings.IsSubstring(key, s))
    case _ => Err(TypeErrorText)
  }

  /** The elements of `for x in v`, where every `x` is then subscripted:
      a list gives its elements; an empty dict or empty string gives no
      element; a non-empty dict or string yields keys or characters, whose
      subscripting raises TypeError; a number, boolean or null is not
      iterable. */
  function Rows(v: Json): (r: Result<seq<Json>>)
    ensures v.Arr? ==> r == Ok(v.items)
    ensures r.Ok? ==> v.Arr? || r.value == []
  {
    match v
    case Arr(xs) => Ok(xs)
    case Obj(m) => if |m| == 0 then Ok([]) else Err(TypeErrorText)
    case Str(s) => if |s| == 0 then Ok([]) else Err(TypeErrorText)
    case _ => Err(TypeErrorText)
  }

  /** `float(v)`: numbers and booleans convert, text goes through `parse`,
      anything else raises. */
  function ToFloat(v: Json, parse: FloatParser): (r: Result<real>)
    ensures v.Num? ==> r == Ok(v.n)
    ensures v.Str? ==> (r.Ok? <==> parse(v.s).Some?)
    ensures v.Str? && r.Ok? ==> r.value == parse(v.s).value
    ensures v.Null? || v.Arr? || v.Obj? ==> r.Err?
  {
    match v
    case Num(n) => Ok(n)
    case Bool(b) => Ok(if b then 1.0 else 0.0)
    case Str(s) => if parse(s).Some? then Ok(parse(s).value) else Err(ValueErrorText)
    case _ => Err(TypeErrorText)
  }

  /** A raw value used directly in arithmetic (`v / x`, `fromtimestamp(v)`):
      only numbers and booleans qualify, text raises TypeError. */
  function AsNumber(v: Json): (r: Result<real>)
    ensures r.Ok? <==> v.Num? || v.Bool?
    ensures v.Num? ==> r == Ok(v.n)
  {
    match v
    case Num(n) => Ok(n)
    case Bool(b) => Ok(if b then 1.0 else 0.0)
    case _ => Err(TypeErrorText)
  }

  /** A raw value the model uses as text (a symbol, a type name). */
  function AsText(v: Json): (r: Result<string>)
    ensures r.Ok? <==> v.Str?
    ensures v.Str? ==> r.value == v.s
  {
    match v
    case Str(s) => Ok(s)
    case _ => Err(AttributeErrorText)
  }

  /** `await response.json()`. */
  function Body(resp: HttpResponse): (r: Result<Json>)
    ensures r.Ok? <==> resp.body.Some?
    ensures r.Ok? ==> r.value == resp.body.value
  {
    match resp.body
    case Some(j) => Ok(j)
    case None => Err(DecodeErrorText)
  }
}
