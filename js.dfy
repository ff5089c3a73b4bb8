/**
 * The JavaScript values the components compute with, and the few pieces of
 * JavaScript semantics they rely on: truthiness, the `||` and `&&` operators,
 * property access, `Object.entries` and conversion inside a template literal.
 */
module Js {

  /** A JavaScript value. Numbers are modelled as integers; an object is its
      list of own enumerable entries, in insertion order. */
  datatype Value =
    | Undefined
    | Null
    | Bool(b: bool)
    | Num(n: int)
    | Str(s: string)
    | Arr(items: seq<Value>)
    | Obj(fields: seq<(string, Value)>)

  /** `!!v`: the falsy values are undefined, null, false, 0 and the empty string. */
  predicate Truthy(v: Value)
  {
    match v
    case Undefined => false
    case Null => false
    case Bool(b) => b
    case Num(n) => n != 0
    case Str(s) => s != ""
    case Arr(_) => true
    case Obj(_) => true
  }

  /** `a || b` */
  function Or(a: Value, b: Value): (r: Value)
    ensures Truthy(a) ==> r == a
    ensures !Truthy(a) ==> r == b
  {
    if Truthy(a) then a else b
  }

  /** `a && b` */
  function And(a: Value, b: Value): (r: Value)
    ensures Truthy(a) ==> r == b
    ensures !Truthy(a) ==> r == a
  {
    if Truthy(a) then b else a
  }

  /** The value of the first entry named `key`, or undefined when there is none. */
  function Lookup(fields: seq<(string, Value)>, key: string): (r: Value)
    ensures (forall i :: 0 <= i < |fields| ==> fields[i].0 != key) ==> r == Undefined
    ensures r != Undefined ==> exists i :: 0 <= i < |fields| && fields[i] == (key, r)
  {
    if fields == [] then Undefined
    else if fields[0].0 == key then fields[0].1
    else
      var r := Lookup(fields[1..], key);
      assert r != Undefined ==> exists i :: 0 <= i < |fields| - 1 && fields[1..][i] == (key, r);
      r
  }

  /** `v.key` for a named property: only objects carry named properties here. */
  function Get(v: Value, key: string): (r: Value)
    ensures !v.Obj? ==> r == Undefined
  {
    if v.Obj? then Lookup(v.fields, key) else Undefined
  }

  /** `v.length > 0` as JavaScript evaluates it: strings and arrays have a
      length, an object may carry a numeric `length` entry, and for every
      other value the comparison `undefined > 0` is false. */
  predicate HasPositiveLength(v: Value)
  {
    match v
    case Str(s) => |s| > 0
    case Arr(items) => |items| > 0
    case Obj(_) => Get(v, "length").Num? && Get(v, "length").n > 0
    case _ => false
  }

  /** The decimal digits of a natural number, as `String(n)` writes them. */
  function NatToText(n: nat): (r: string)
    ensures |r| > 0
    ensures forall i :: 0 <= i < |r| ==> '0' <= r[i] <= '9'
  {
    var d := ['0' + (n % 10) as char];
    if n < 10 then d else NatToText(n / 10) + d
  }

  /** `Object.entries(v)`: an object gives its entries; a string or an array
      gives one entry per index, named by the index; other values give none. */
  function Entries(v: Value): (r: seq<(string, Value)>)
    ensures v.Obj? ==> r == v.fields
    ensures v.Arr? ==> |r| == |v.items| && forall i :: 0 <= i < |r| ==> r[i].1 == v.items[i]
    ensures v.Str? ==> |r| == |v.s| && forall i :: 0 <= i < |r| ==> r[i].1 == Str([v.s[i]])
    ensures !v.Obj? && !v.Arr? && !v.Str? ==> r == []
  {
    match v
    case Obj(fields) => fields
    case Arr(items) => seq(|items|, i requires 0 <= i < |items| => (NatToText(i), items[i]))
    case Str(s) => seq(|s|, i requires 0 <= i < |s| => (NatToText(i), Str([s[i]])))
    case _ => []
  }

  /** How `${v}` writes a value inside a template literal. An array is joined
      with commas, its null and undefined elements written as empty text. */
  function ToText(v: Value): (r: string)
    ensures v.Str? ==> r == v.s
    ensures v == Undefined ==> r == "undefined"
  {
    match v
    case Undefined => "undefined"
    case Null => "null"
    case Bool(b) => if b then "true" else "false"
    case Num(n) => if n < 0 then "-" + NatToText(-n) else NatToText(n)
    case Str(s) => s
    case Arr(items) => JoinText(items)
    case Obj(_) => "[object Object]"
  }

  /** `Array.prototype.join(",")` over the elements of an array. */
  function JoinText(items: seq<Value>): string
    decreases items
  {
    if items == [] then ""
    else
      var first := if items[0].Null? || items[0].Undefined? then "" else ToText(items[0]);
      if |items| == 1 then first else first + "," + JoinText(items[1..])
  }
}
