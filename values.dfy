/** The run-time values that flow through the API layer: request bodies, service
    results, thrown errors and the response envelope itself. An `ApiResponse`
    instance is one kind of value among others, so the two datatypes are
    declared together. */
module Values {

  /** An optional argument or field: `None` stands for `undefined`. */
  datatype Option<+T> = None | Some(value: T) {
    function GetOr(default: T): (r: T)
      ensures this.Some? ==> r == value
      ensures this.None? ==> r == default
    {
      match this
      case Some(v) => v
      case None => default
    }
  }

  /** A JavaScript value as this layer can see it. Numbers are finite and exact;
      an object is its own enumerable properties. */
  datatype Value =
    | Undefined
    | Null
    | Bool(b: bool)
    | Num(n: real)
    | Str(s: string)
    | Arr(items: seq<Value>)
    | Obj(fields: map<string, Value>)
    | Response(response: ApiResponse)

  /** The five-field response envelope; `data`, `error` and `meta` are `Undefined`
      when they were not supplied. */
  datatype ApiResponse = ApiResponse(
    success: bool,
    message: string,
    data: Value,
    error: Value,
    meta: Value)

  /** JavaScript falsiness, the test behind `if (!x)`. NaN is not a `Value`. */
  predicate Falsy(v: Value) {
    match v
    case Undefined => true
    case Null => true
    case Bool(b) => !b
    case Num(n) => n == 0.0
    case Str(s) => s == ""
    case _ => false
  }

  /** `null` or `undefined`. */
  predicate Nullish(v: Value) {
    v == Null || v == Undefined
  }

  predicate Integral(n: real) {
    n == n.Floor as real
  }

  /** Reading the property `key` of an object (`v.key`); anything without that own
      property yields `undefined`. */
  function Property(v: Value, key: string): (r: Value)
    ensures v.Obj? && key in v.fields ==> r == v.fields[key]
    ensures !v.Obj? && !v.Response? ==> r == Undefined
  {
    match v
    case Obj(fields) => if key in fields then fields[key] else Undefined
    case Response(e) =>
      if key == "success" then Bool(e.success)
      else if key == "message" then Str(e.message)
      else if key == "data" then e.data
      else if key == "error" then e.error
      else if key == "meta" then e.meta
      else Undefined
    case _ => Undefined
  }

  function DigitChar(d: nat): (r: char)
    requires d < 10
    ensures '0' <= r <= '9'
  {
    "0123456789"[d]
  }

  /** Decimal notation of a natural number, without leading zeros. */
  function NatText(n: nat): (r: string)
    ensures |r| >= 1
    ensures n < 10 <==> |r| == 1
    ensures '0' <= r[0] <= '9'
  {
    if n < 10 then [DigitChar(n)] else NatText(n / 10) + [DigitChar(n % 10)]
  }

  /** Decimal notation of an integer, with a leading minus sign when it is negative. */
  function IntText(i: int): (r: string)
    ensures |r| >= 1
    ensures (r[0] == '-') <==> i < 0
  {
    if i < 0 then "-" + NatText(-i) else NatText(i)
  }

  /** Below this magnitude `String` writes an integral number in plain decimal
      digits; from it on, JavaScript switches to exponent notation. */
  const PlainDigitsBound: real := 1_000_000_000_000_000_000_000.0

  /** An integral number that `String` writes as plain decimal digits. */
  predicate PlainInteger(n: real) {
    Integral(n) && -PlainDigitsBound < n < PlainDigitsBound
  }

  /** `String(v)`, the text a template literal `${v}` inserts. Numbers other than
      plain integers (fractions, and magnitudes of 1e21 and more) are not rendered
      digit by digit: they all give one placeholder text. */
  function Text(v: Value): (r: string)
    ensures v.Str? ==> r == v.s
    ensures v.Num? && PlainInteger(v.n) ==> r == IntText(v.n.Floor)
    decreases v, 1
  {
    match v
    case Undefined => "undefined"
    case Null => "null"
    case Bool(b) => if b then "true" else "false"
    case Num(n) => if PlainInteger(n) then IntText(n.Floor) else "<number>"
    case Str(s) => s
    case Arr(items) => JoinText(v, items)
    case Obj(_) => "[object Object]"
    case Response(_) => "[object Object]"
  }

  /** `Array.prototype.join(",")`: elements converted with `String`, except that
      `null` and `undefined` become the empty text. */
  function JoinText(whole: Value, items: seq<Value>): (r: string)
    requires whole.Arr? && items <= whole.items
    ensures items == [] ==> r == ""
    decreases whole, 0, |items|
  {
    if items == [] then ""
    else
      var last := items[|items| - 1];
      var head := JoinText(whole, items[..|items| - 1]);
      var part := if Nullish(last) then "" else Text(last);
      if |items| == 1 then part else head + "," + part
  }
}
