/** JavaScript values as the client code handles them: truthiness (`!!v`),
    property reads (`v.key`, `v?.key`) and conversion to a string (`String(v)`,
    template literals). */
module Js {
  import opened Wrappers

  /** A JavaScript value. Numbers are modelled as integers. `NativeMethod` is a
      built-in method reached through a prototype; the only one the client can
      meet is `String.prototype.sub`, read when a decoded token is a string. */
  datatype Value =
    | Undefined
    | Null
    | Bool(b: bool)
    | Number(n: int)
    | Str(s: string)
    | Array(items: seq<Value>)
    | Object(fields: map<string, Value>)
    | NativeMethod(name: string)

  /** `!!v`: false exactly for undefined, null, false, 0 and the empty string. */
  predicate Truthy(v: Value) {
    match v
    case Undefined => false
    case Null => false
    case Bool(b) => b
    case Number(n) => n != 0
    case Str(s) => s != ""
    case _ => true
  }

  /** Truthiness of a `string | null`, such as a token read from storage. */
  predicate IsTruthyText(t: Option<string>) {
    t.Some? && t.value != ""
  }

  /** `v[key]` for the property names the client reads (`sub`, `userId`,
      `message`): `None` when the read throws a TypeError, because `v` is null
      or undefined. */
  function Prop(v: Value, key: string): (r: Option<Value>)
    ensures r.None? <==> v.Undefined? || v.Null?
    ensures v.Object? ==> r == Some(if key in v.fields then v.fields[key] else Undefined)
  {
    match v
    case Undefined => None
    case Null => None
    case Object(fields) => Some(if key in fields then fields[key] else Undefined)
    case Str(_) => Some(if key == "sub" then NativeMethod("sub") else Undefined)
    case _ => Some(Undefined)
  }

  /** `v?.key`: like `Prop`, but undefined instead of a TypeError. */
  function OptionalProp(v: Value, key: string): (r: Value)
    ensures v.Undefined? || v.Null? ==> r == Undefined
    ensures Prop(v, key).Some? ==> r == Prop(v, key).value
  {
    match Prop(v, key)
    case None => Undefined
    case Some(w) => w
  }

  /** The decimal digits of a natural number. */
  function Digits(n: nat): (s: string)
    ensures |s| >= 1
    ensures forall i :: 0 <= i < |s| ==> '0' <= s[i] <= '9'
  {
    if n < 10 then [('0' as int + n) as char]
    else Digits(n / 10) + [('0' as int + n % 10) as char]
  }

  /** `String(n)` for an integer. */
  function Decimal(n: int): string {
    if n < 0 then "-" + Digits(-n) else Digits(n)
  }

  /** `String(v)`, as a template literal such as `${userId}` applies it. */
  function ToJsString(v: Value): string
    decreases v
  {
    match v
    case Undefined => "undefined"
    case Null => "null"
    case Bool(b) => if b then "true" else "false"
    case Number(n) => Decimal(n)
    case Str(s) => s
    case Array(items) => JoinItems(items)
    case Object(_) => "[object Object]"
    case NativeMethod(name) => "function " + name + "() { [native code] }"
  }

  /** `items.join(',')`, where null and undefined elements become empty. */
  function JoinItems(items: seq<Value>): string
    decreases items
  {
    if items == [] then ""
    else
      var first := if items[0].Undefined? || items[0].Null? then "" else ToJsString(items[0]);
      if |items| == 1 then first else first + "," + JoinItems(items[1..])
  }
}
