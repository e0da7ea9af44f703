/**
 * JavaScript values as the validation library sees them, and plain objects
 * as ordered association lists (JavaScript objects enumerate their keys in
 * insertion order, and validators run in key order).
 */
module Js {

  datatype Option<+T> = None | Some(value: T)

  /** Function values that can occur inside rules. */
  datatype FnRef =
    | IsUndefinedFn      // `v => v === undefined`, built by skipIfUndefined
    | IsNotDefinedFn     // `v => v === undefined || v === null`, built by skipIfNotDefined
    | HostFn(id: nat)    // any other function supplied by the caller

  datatype Value =
    | Undef
    | Null
    | Bool(b: bool)
    | Num(n: int)
    | Str(s: string)
    | Arr(items: seq<Value>)
    | Obj(props: seq<Prop>)
    | Fn(f: FnRef)

  datatype Prop = Prop(key: string, val: Value)

  /** A plain object: its own properties in insertion order. */
  type Record = seq<Prop>

  /** A plain object held by reference, for code that mutates objects in place. */
  class JsObject {
    var props: Record

    constructor(props: Record)
      ensures this.props == props
    {
      this.props := props;
    }
  }

  /**
   * `Number(s)` on a string that is not a plain run of decimal digits: the
   * integer it denotes, or None for NaN. Supplied by the host runtime.
   */
  type NumberParser = string -> Option<int>

  function Keys(r: Record): (ks: seq<string>)
    ensures |ks| == |r|
  {
    if r == [] then [] else [r[0].key] + Keys(r[1..])
  }

  predicate HasKey(r: Record, k: string)
  {
    r != [] && (r[0].key == k || HasKey(r[1..], k))
  }

  /** A JavaScript object never holds the same key twice. */
  predicate Distinct(r: Record)
  {
    forall i, j | 0 <= i < j < |r| :: r[i].key != r[j].key
  }

  /** `obj[k]`: the value stored under `k`, undefined when absent. */
  function Get(r: Record, k: string): Value
  {
    if r == [] then Undef
    else if r[0].key == k then r[0].val
    else Get(r[1..], k)
  }

  /** `obj[k] = v`: replaces the value in place, or appends a new key. */
  function Put(r: Record, k: string, v: Value): Record
  {
    if r == [] then [Prop(k, v)]
    else if r[0].key == k then [Prop(k, v)] + r[1..]
    else [r[0]] + Put(r[1..], k, v)
  }

  /** `delete obj[k]`. */
  function Delete(r: Record, k: string): Record
  {
    if r == [] then []
    else if r[0].key == k then Delete(r[1..], k)
    else [r[0]] + Delete(r[1..], k)
  }

  /** `{...a, ...b}`: the properties of `b` written over a copy of `a`, in order. */
  function Assign(a: Record, b: Record): Record
    decreases |b|
  {
    if b == [] then a else Assign(Put(a, b[0].key, b[0].val), b[1..])
  }

  /** The property names of an array: "0", "1", ... */
  function IndexProps(items: seq<Value>): Record
  {
    seq(|items|, i requires 0 <= i < |items| => Prop(NatToString(i), items[i]))
  }

  /** Own enumerable properties, as read by spread, `Object.entries` and `for...in`. */
  function OwnProps(v: Value): Record
  {
    match v
    case Obj(ps) => ps
    case Arr(items) => IndexProps(items)
    case Str(s) => IndexProps(seq(|s|, i requires 0 <= i < |s| => Str([s[i]])))
    case _ => []
  }

  /** The `typeof` operator. */
  function TypeOf(v: Value): string
  {
    match v
    case Undef => "undefined"
    case Null => "object"
    case Bool(_) => "boolean"
    case Num(_) => "number"
    case Str(_) => "string"
    case Arr(_) => "object"
    case Obj(_) => "object"
    case Fn(_) => "function"
  }

  /** JavaScript truthiness. */
  predicate Truthy(v: Value)
  {
    match v
    case Undef => false
    case Null => false
    case Bool(b) => b
    case Num(n) => n != 0
    case Str(s) => s != ""
    case _ => true
  }

  function DigitChar(d: nat): char
    requires d < 10
  {
    ['0', '1', '2', '3', '4', '5', '6', '7', '8', '9'][d]
  }

  /** Decimal representation of a natural number. */
  function NatToString(n: nat): (s: string)
    ensures |s| >= 1
    decreases n
  {
    if n < 10 then [DigitChar(n)] else NatToString(n / 10) + [DigitChar(n % 10)]
  }

  function IntToString(n: int): string
  {
    if n < 0 then "-" + NatToString(-n) else NatToString(n)
  }

  /** `String(v)`. Function sources are not modelled; a fixed placeholder stands for them. */
  function ToJsString(v: Value): string
  {
    match v
    case Undef => "undefined"
    case Null => "null"
    case Bool(b) => if b then "true" else "false"
    case Num(n) => IntToString(n)
    case Str(s) => s
    case Arr(items) =>
      JoinWith(seq(|items|, i requires 0 <= i < |items| =>
        if items[i].Undef? || items[i].Null? then "" else ToJsString(items[i])), ",")
    case Obj(_) => "[object Object]"
    case Fn(_) => "function"
  }

  function JoinWith(parts: seq<string>, sep: string): string
  {
    if parts == [] then ""
    else if |parts| == 1 then parts[0]
    else parts[0] + sep + JoinWith(parts[1..], sep)
  }
}
