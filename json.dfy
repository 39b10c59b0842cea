/**
 * JavaScript values as they reach the validator: anything `JSON.parse` can produce,
 * plus `undefined` (a missing argument or a missing property).
 */
module Json {

  datatype Value =
    | Undefined
    | Null
    | Bool(b: bool)
    | Number(n: real)
    | String(str: string)
    | Array(items: seq<Value>)
    | Object(fields: map<string, Value>)

  /** `key in v`: true only for an object that owns `key`, whatever value it holds. */
  predicate HasKey(v: Value, key: string) {
    v.Object? && key in v.fields
  }

  /** `v[key]`: `undefined` when `v` is not an object or has no such key. */
  function Get(v: Value, key: string): (r: Value)
    ensures r != Undefined ==> HasKey(v, key)
    ensures HasKey(v, key) ==> r == v.fields[key]
  {
    if HasKey(v, key) then v.fields[key] else Undefined
  }

  /** A property as JSON Schema validation sees it: owned and not `undefined`. */
  predicate Present(v: Value, key: string) {
    Get(v, key) != Undefined
  }

  /** `typeof v === 'string'` for property `key`, when that property is present. */
  predicate OptionalString(v: Value, key: string) {
    !Present(v, key) || Get(v, key).String?
  }

  /** Every element of an array is a string. */
  predicate AllStrings(items: seq<Value>) {
    forall i :: 0 <= i < |items| ==> items[i].String?
  }

  /** The strings of an array whose elements are all strings, in order. */
  function Strings(items: seq<Value>): (r: seq<string>)
    requires AllStrings(items)
    ensures |r| == |items|
    ensures forall i :: 0 <= i < |items| ==> items[i] == String(r[i])
  {
    if items == [] then [] else [items[0].str] + Strings(items[1..])
  }
}
