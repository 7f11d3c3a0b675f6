/**
 JavaScript value conventions the application leans on: a field that may be
 absent (`undefined`), the `value || fallback` idiom, under which the empty
 string and the number 0 count as absent too, the first-match search of
 `Array.prototype.find`, the UTF-16 length of a string, and the `length`
 property of a parsed JSON value.
 */
module Js {

  /** A value that may be `undefined` (or `null`). */
  datatype Option<T> = None | Some(value: T)

  /** JavaScript truthiness of an optional string: present and non-empty. */
  predicate StrTruthy(s: Option<string>) {
    s.Some? && s.value != ""
  }

  /** `s || fallback` for an optional string. */
  function StrOr(s: Option<string>, fallback: string): (r: string)
    ensures StrTruthy(s) ==> r == s.value
    ensures !StrTruthy(s) ==> r == fallback
  {
    if StrTruthy(s) then s.value else fallback
  }

  /** JavaScript truthiness of an optional integer: present and non-zero. */
  predicate IntTruthy(n: Option<int>) {
    n.Some? && n.value != 0
  }

  /** `n || fallback` for an optional integer. */
  function IntOr(n: Option<int>, fallback: int): (r: int)
    ensures IntTruthy(n) ==> r == n.value
    ensures !IntTruthy(n) ==> r == fallback
  {
    if IntTruthy(n) then n.value else fallback
  }

  /** JavaScript truthiness of an optional real: present and non-zero. */
  predicate RealTruthy(x: Option<real>) {
    x.Some? && x.value != 0.0
  }

  /** `x || fallback` for an optional real. */
  function RealOr(x: Option<real>, fallback: real): (r: real)
    ensures RealTruthy(x) ==> r == x.value
    ensures !RealTruthy(x) ==> r == fallback
  {
    if RealTruthy(x) then x.value else fallback
  }

  /**
   The position of the first element satisfying `p`, the element
   `xs.find(p)` returns (`findIndex`); None when no element does.
   */
  function FindIndex<T>(xs: seq<T>, p: T -> bool): (r: Option<nat>)
    ensures r.None? <==> forall i :: 0 <= i < |xs| ==> !p(xs[i])
    ensures r.Some? ==> r.value < |xs| && p(xs[r.value])
    ensures r.Some? ==> forall i :: 0 <= i < r.value ==> !p(xs[i])
  {
    if xs == [] then None
    else if p(xs[0]) then Some(0)
    else match FindIndex(xs[1..], p)
      case None => None
      case Some(i) => Some(i + 1)
  }

  /** The number of UTF-16 code units of a character: two for one beyond the Basic Multilingual Plane. */
  function Utf16Units(c: char): nat {
    if c as int >= 0x1_0000 then 2 else 1
  }

  /** `s.length`: JavaScript counts UTF-16 code units, not characters. */
  function Utf16Length(s: string): (n: nat)
    ensures |s| <= n <= 2 * |s|
    ensures (forall i :: 0 <= i < |s| ==> s[i] as int < 0x1_0000) ==> n == |s|
  {
    if s == [] then 0 else Utf16Units(s[0]) + Utf16Length(s[1..])
  }

  /** One express-validator check's part of `errors.array()`: its message when it fails, nothing when it passes. */
  function Failed(ok: bool, message: string): (r: seq<string>)
    ensures forall m :: m in r <==> !ok && m == message
    ensures r == [] <==> ok
  {
    if ok then [] else [message]
  }

  /** A parsed JSON request field, as `express.json()` hands it to a route. */
  datatype Json = JNull | JBool(b: bool) | JNumber(x: real) | JString(s: string) | JArray(items: seq<Json>)
                | JObject(fields: map<string, Json>)

  /**
   `v.length` on a JSON value other than null (on which it throws): the
   UTF-16 length of a string, the item count of an array, an object's own
   `length` field, and `undefined` (None) on numbers, booleans and objects
   without one.
   */
  function LengthOf(v: Json): (r: Option<Json>)
    requires !v.JNull?
    ensures v.JString? ==> r == Some(JNumber(Utf16Length(v.s) as real))
    ensures v.JArray? ==> r == Some(JNumber(|v.items| as real))
    ensures v.JObject? ==> (r.Some? <==> "length" in v.fields) && (r.Some? ==> r.value == v.fields["length"])
    ensures v.JNumber? || v.JBool? ==> r.None?
  {
    match v
    case JString(s) => Some(JNumber(Utf16Length(s) as real))
    case JArray(items) => Some(JNumber(|items| as real))
    case JObject(fields) => if "length" in fields then Some(fields["length"]) else None
    case _ => None
  }

  /** `x === n` for a JavaScript value that may be `undefined` and a number `n`. */
  predicate IsNumber(x: Option<Json>, n: real) {
    x.Some? && x.value.JNumber? && x.value.x == n
  }
}
