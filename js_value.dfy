/** Untyped JavaScript values, as the client and the server pass content
    data around. The order of an object's fields stands for JavaScript's
    own-property enumeration order (`Object.keys`, `JSON.stringify`,
    spread), which puts integer-like keys first in ascending order and the
    other keys in insertion order; no operation modelled here adds an
    integer-like key, so for the values built here it is insertion order. */
module JsValue {
  import opened Common

  datatype Js =
    | Null
    | Undefined
    | Bool(b: bool)
    | Num(n: real)
    | Str(s: string)
    | Arr(items: seq<Js>)
    | Obj(fields: seq<(string, Js)>)

  /** JavaScript truthiness (`if (v)`, `!!v`). */
  predicate Truthy(v: Js)
  {
    match v
    case Null => false
    case Undefined => false
    case Bool(b) => b
    case Num(n) => n != 0.0
    case Str(s) => s != []
    case Arr(_) => true
    case Obj(_) => true
  }

  /** `a || b` */
  function Or(a: Js, b: Js): (r: Js)
    ensures Truthy(a) ==> r == a
    ensures !Truthy(a) ==> r == b
  {
    if Truthy(a) then a else b
  }

  /** The value of the first field named `key`, or `undefined`. */
  function Lookup(fields: seq<(string, Js)>, key: string): Js
  {
    if fields == [] then Undefined
    else if fields[0].0 == key then fields[0].1
    else Lookup(fields[1..], key)
  }

  /** Some field is named `key`. */
  predicate HasKey(fields: seq<(string, Js)>, key: string)
  {
    fields != [] && (fields[0].0 == key || HasKey(fields[1..], key))
  }

  /** Property access `v[key]` on a value that is not `null` or `undefined`:
      missing properties and other non-objects give `undefined`. Reading a
      property of `null` or `undefined` throws a TypeError; every site that
      can meet such a value checks `Nullish` first. */
  function Get(v: Js, key: string): Js
  {
    if v.Obj? then Lookup(v.fields, key) else Undefined
  }

  /** `null` or `undefined`: reading any property of it throws a TypeError. */
  predicate Nullish(v: Js)
  {
    v.Null? || v.Undefined?
  }

  /** Some element is `null` or `undefined`, so a callback that reads a
      property of every element throws. */
  predicate SomeNullish(items: seq<Js>)
  {
    exists i :: 0 <= i < |items| && Nullish(items[i])
  }

  /** One element more: some element is `null` or `undefined` exactly when
      one before it was or the new one is. */
  lemma SomeNullishStep(items: seq<Js>, j: nat)
    requires j < |items|
    ensures SomeNullish(items[..j + 1]) <==> SomeNullish(items[..j]) || Nullish(items[j])
  {
    var longer := items[..j + 1];
    assert longer[j] == items[j];
    assert forall k :: 0 <= k < j ==> longer[k] == items[..j][k];
  }

  /** `key in v` for an object. */
  predicate Has(v: Js, key: string)
  {
    v.Obj? && HasKey(v.fields, key)
  }

  /** The fields with the first one named `key` given the value `x`. */
  function Replace(fields: seq<(string, Js)>, key: string, x: Js): (r: seq<(string, Js)>)
    ensures |r| == |fields|
  {
    if fields == [] then []
    else if fields[0].0 == key then [(key, x)] + fields[1..]
    else [fields[0]] + Replace(fields[1..], key, x)
  }

  /** `{ ...v, [key]: x }`: an existing field keeps its place, a new one goes last. */
  function Put(v: Js, key: string, x: Js): (r: Js)
    requires v.Obj?
    ensures r.Obj?
  {
    if HasKey(v.fields, key) then Obj(Replace(v.fields, key, x)) else Obj(v.fields + [(key, x)])
  }

  /** Replacing a field: it reads back as the new value, the others as before. */
  lemma {:induction false} ReplaceLookup(fs: seq<(string, Js)>, key: string, x: Js, other: string)
    requires HasKey(fs, key)
    ensures Lookup(Replace(fs, key, x), key) == x
    ensures other != key ==> Lookup(Replace(fs, key, x), other) == Lookup(fs, other)
  {
    if fs[0].0 != key {
      ReplaceLookup(fs[1..], key, x, other);
      assert Replace(fs, key, x)[1..] == Replace(fs[1..], key, x);
    }
  }

  /** Appending a new field: it reads back, the others read as before. */
  lemma {:induction false} AppendLookup(fs: seq<(string, Js)>, key: string, x: Js, other: string)
    requires !HasKey(fs, key)
    ensures Lookup(fs + [(key, x)], key) == x
    ensures other != key ==> Lookup(fs + [(key, x)], other) == Lookup(fs, other)
  {
    if fs != [] {
      AppendLookup(fs[1..], key, x, other);
      assert (fs + [(key, x)])[1..] == fs[1..] + [(key, x)];
    }
  }

  /** Reading back a written field gives the written value; every other
      field reads as before; the object grows only when the field is new. */
  lemma PutGet(v: Js, key: string, x: Js, other: string)
    requires v.Obj?
    ensures Get(Put(v, key, x), key) == x
    ensures other != key ==> Get(Put(v, key, x), other) == Get(v, other)
    ensures Has(v, key) ==> |Put(v, key, x).fields| == |v.fields|
    ensures !Has(v, key) ==> |Put(v, key, x).fields| == |v.fields| + 1
  {
    if HasKey(v.fields, key) {
      ReplaceLookup(v.fields, key, x, other);
    } else {
      AppendLookup(v.fields, key, x, other);
    }
  }

  /** `{...v, [key]: x}`: an object keeps its other fields (and the field's
      place when it had it); spreading anything else contributes no field. */
  function With(v: Js, key: string, x: Js): (r: Js)
    ensures r.Obj? && Get(r, key) == x
    ensures forall k :: k != key ==> Get(r, k) == Get(v, k)
    ensures !v.Obj? ==> r == Obj([(key, x)])
  {
    if v.Obj? then
      assert forall k :: k != key ==> Get(Put(v, key, x), k) == Get(v, k) by {
        forall k | k != key { PutGet(v, key, x, k); }
      }
      PutGet(v, key, x, "");
      Put(v, key, x)
    else
      assert forall k :: k != key ==> Get(Obj([(key, x)]), k) == Undefined by {
        forall k | k != key ensures Get(Obj([(key, x)]), k) == Undefined {
          var fs := [(key, x)];
          assert fs[0].0 != k && fs[1..] == [];
          assert Lookup(fs, k) == Lookup(fs[1..], k);
        }
      }
      Obj([(key, x)])
  }

  /** The field names of an object, in order (`Object.keys`). */
  function Keys(v: Js): (r: seq<string>)
    ensures v.Obj? ==> |r| == |v.fields| && forall i :: 0 <= i < |r| ==> r[i] == v.fields[i].0
    ensures !v.Obj? ==> r == []
  {
    if v.Obj? then seq(|v.fields|, i requires 0 <= i < |v.fields| => v.fields[i].0) else []
  }

  /** An array, or `[]` for anything else (`Array.isArray(v) ? v : []`). */
  function ItemsOr(v: Js): seq<Js>
  {
    if v.Arr? then v.items else []
  }

  /** `typeof v === 'string'` */
  predicate IsString(v: Js) { v.Str? }

  /** `String(n)` for a number: integral values print as their digits; a
      non-integral value prints its integer part and the point only. */
  function NumberText(n: real): string
  {
    var t := if n >= 0.0 then n.Floor else -((-n).Floor);
    if t as real == n then IntToString(t) else IntToString(t) + "."
  }

  /** `String(v)`, as a template literal `${v}` renders a value. */
  function Text(v: Js): string
    decreases v, 1
  {
    match v
    case Null => "null"
    case Undefined => "undefined"
    case Bool(b) => if b then "true" else "false"
    case Num(n) => NumberText(n)
    case Str(s) => s
    case Arr(items) => JoinText(items, ",")
    case Obj(_) => "[object Object]"
  }

  /** `items.join(sep)`: `null` and `undefined` elements print as nothing. */
  function JoinText(items: seq<Js>, sep: string): string
    decreases Arr(items), 0
  {
    Join(seq(|items|, i requires 0 <= i < |items| =>
      if items[i].Null? || items[i].Undefined? then "" else Text(items[i])), sep)
  }

  /** `a === b` on values parsed from JSON: primitives compare by value, and
      two arrays or objects are never the same reference. */
  predicate StrictEq(a: Js, b: Js)
  {
    !a.Arr? && !a.Obj? && a == b
  }

  /** `v.length` on a value that is not `null` or `undefined`: strings and
      arrays give their size, an object its own `length` field, anything
      else `undefined`. */
  function LengthOf(v: Js): (r: Js)
    ensures v.Arr? ==> r == Num(|v.items| as real)
    ensures v.Str? ==> r == Num(|v.s| as real)
  {
    match v
    case Str(s) => Num(|s| as real)
    case Arr(items) => Num(|items| as real)
    case Obj(_) => Get(v, "length")
    case _ => Undefined
  }

  /** `xs && xs.length > 0`. A length that is not a number compares as
      false here. */
  predicate NonEmptyList(v: Js)
  {
    Truthy(v) && LengthOf(v).Num? && LengthOf(v).n > 0.0
  }
}
