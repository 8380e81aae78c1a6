/**
 * The JavaScript values the client handles: decoded JSON, component props and
 * request parameters. Numbers are integers here; property access, truthiness,
 * `??`, `||` and `String(v)` follow ECMAScript.
 */
module Js {
  import opened Wrappers
  import opened Text

  datatype JsValue =
    | Undefined
    | Null
    | Bool(b: bool)
    | Num(n: int)
    | Str(s: string)
    | Arr(items: seq<JsValue>)
    | Obj(props: map<string, JsValue>)

  /** ToBoolean: `undefined`, `null`, `false`, `0` and `""` are falsy, every object is truthy. */
  predicate Truthy(v: JsValue) {
    match v
    case Undefined => false
    case Null => false
    case Bool(b) => b
    case Num(n) => n != 0
    case Str(s) => s != []
    case Arr(_) => true
    case Obj(_) => true
  }

  /** `v?.key`: an own property of an object; `undefined` for a missing key or a non-object. */
  function Get(v: JsValue, key: string): JsValue {
    if v.Obj? && key in v.props then v.props[key] else Undefined
  }

  predicate Nullish(v: JsValue) {
    v == Undefined || v == Null
  }

  /** `a ?? b` */
  function Coalesce(a: JsValue, b: JsValue): (r: JsValue)
    ensures !Nullish(a) ==> r == a
  {
    if Nullish(a) then b else a
  }

  /** `a || b` */
  function Or(a: JsValue, b: JsValue): (r: JsValue)
    ensures Truthy(b) ==> Truthy(r)
  {
    if Truthy(a) then a else b
  }

  /**
   * Whether turning `v` into text throws a `TypeError`. Decoded JSON holds no
   * functions, so an object with its own `toString` property has nothing
   * callable to convert with (the inherited `valueOf` returns the object
   * itself); an array throws when one of its elements does.
   */
  predicate ConversionThrows(v: JsValue) {
    match v
    case Obj(props) => "toString" in props
    case Arr(items) => exists i :: 0 <= i < |items| && ConversionThrows(items[i])
    case _ => false
  }

  /**
   * `String(v)`, `` `${v}` `` and `"text" + v` on a decoded value: its text, or
   * `None` where the conversion throws.
   */
  function ToText(v: JsValue): (r: Option<string>)
    ensures r.None? <==> ConversionThrows(v)
    ensures v.Str? ==> r == Some(v.s)
    ensures v.Num? ==> r == Some(DecimalString(v.n))
  {
    match v
    case Undefined => Some("undefined")
    case Null => Some("null")
    case Bool(b) => Some(if b then "true" else "false")
    case Num(n) => Some(DecimalString(n))
    case Str(s) => Some(s)
    case Arr(items) => JoinItems(items)
    case Obj(props) => if "toString" in props then None else Some("[object Object]")
  }

  /** `Array.prototype.join(",")`: `null` and `undefined` elements print as nothing. */
  function JoinItems(items: seq<JsValue>): (r: Option<string>)
    ensures r.None? <==> exists i :: 0 <= i < |items| && ConversionThrows(items[i])
  {
    if items == [] then Some("")
    else
      var first := if Nullish(items[0]) then Some("") else ToText(items[0]);
      var rest := if |items| == 1 then Some("") else JoinItems(items[1..]);
      assert forall i :: 1 <= i < |items| ==> items[i] == items[1..][i - 1];
      match (first, rest)
      case (Some(f), Some(t)) => Some(if |items| == 1 then f else f + "," + t)
      case _ => None
  }

  /** An object literal with two properties, as the server's `{event, payload}` frame. */
  function Pair(k1: string, v1: JsValue, k2: string, v2: JsValue): (r: JsValue)
    requires k1 != k2
    ensures Get(r, k1) == v1 && Get(r, k2) == v2
  {
    Obj(map[k1 := v1, k2 := v2])
  }

  /** An object literal with three properties. */
  function Triple(k1: string, v1: JsValue, k2: string, v2: JsValue, k3: string, v3: JsValue): (r: JsValue)
    requires k1 != k2 && k1 != k3 && k2 != k3
    ensures Get(r, k1) == v1 && Get(r, k2) == v2 && Get(r, k3) == v3
  {
    Obj(map[k1 := v1, k2 := v2, k3 := v3])
  }
}
