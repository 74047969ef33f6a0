/**
 * The JavaScript values that flow through the request pipeline: request
 * bodies, query objects, schema outputs and response bodies.
 *
 * An object is the sequence of its own enumerable string-keyed properties in
 * iteration order (the order `Object.entries` yields them). A JavaScript object
 * never holds a key twice; the lemmas that rely on this say so with DistinctKeys.
 */
module JsValue {
  import opened Wrappers

  /** A JavaScript number other than NaN (NaN is never stored by the code modelled here). */
  datatype Number = Finite(r: real) | PositiveInfinity | NegativeInfinity

  datatype Value =
    | Undefined
    | Null
    | Bool(b: bool)
    | Num(n: Number)
    | Str(s: string)
    | Arr(items: seq<Value>)
    | Obj(entries: seq<(string, Value)>)

  /** ECMAScript `Number(s)`: Some(n), or None when the result is NaN (ECMA-262 section 7.1.4.1.1). */
  type NumberParser = string -> Option<Number>

  /** `JSON.parse(s)`: Some(v), or None when it throws a SyntaxError (RFC 8259). */
  type JsonParser = string -> Option<Value>

  /** ToBoolean (ECMA-262 section 7.1.2): what `if (v)` and `v ? a : b` test. */
  predicate Truthy(v: Value) {
    match v
    case Undefined => false
    case Null => false
    case Bool(b) => b
    case Num(n) => n != Finite(0.0)
    case Str(s) => s != ""
    case Arr(_) => true
    case Obj(_) => true
  }

  /** `v == null`: the test behind the `??` operator. */
  predicate IsNullish(v: Value) {
    v.Undefined? || v.Null?
  }

  /** `v !== null && typeof v === 'object'`: plain objects and arrays. */
  predicate IsObjectLike(v: Value) {
    v.Obj? || v.Arr?
  }

  /** The keys of an entry sequence, in order. */
  function Keys(entries: seq<(string, Value)>): (ks: seq<string>)
    ensures |ks| == |entries|
    ensures forall i :: 0 <= i < |entries| ==> ks[i] == entries[i].0
  {
    if entries == [] then [] else [entries[0].0] + Keys(entries[1..])
  }

  predicate DistinctKeys(entries: seq<(string, Value)>) {
    forall i, j :: 0 <= i < j < |entries| ==> entries[i].0 != entries[j].0
  }

  /** The first entry's value for `key`, if any. */
  function Lookup(entries: seq<(string, Value)>, key: string): (r: Option<Value>)
    ensures r.None? <==> key !in Keys(entries)
    ensures r.Some? ==> exists i :: 0 <= i < |entries| && entries[i] == (key, r.value)
  {
    if entries == [] then None
    else if entries[0].0 == key then Some(entries[0].1)
    else Lookup(entries[1..], key)
  }

  /** The keys of a concatenation are the keys of its parts, in order. */
  lemma {:induction false} KeysAppend(a: seq<(string, Value)>, b: seq<(string, Value)>)
    ensures Keys(a + b) == Keys(a) + Keys(b)
  {
    if a != [] {
      assert (a + b)[1..] == a[1..] + b;
      KeysAppend(a[1..], b);
    } else {
      assert a + b == b;
    }
  }

  /** A key of the first part is read there; any other key is read in the second part. */
  lemma {:induction false} LookupAppend(a: seq<(string, Value)>, b: seq<(string, Value)>, key: string)
    ensures Lookup(a + b, key) == if key in Keys(a) then Lookup(a, key) else Lookup(b, key)
  {
    if a != [] {
      assert (a + b)[0] == a[0];
      assert (a + b)[1..] == a[1..] + b;
      LookupAppend(a[1..], b, key);
    } else {
      assert a + b == b;
    }
  }

  /**
   * Property read `v[key]` for the named keys the handlers and schemas read:
   * the value of an object's own property, and `undefined` everywhere else
   * (arrays carry only index and `length` properties, which no such key names).
   */
  function Get(v: Value, key: string): Value {
    if v.Obj? then
      match Lookup(v.entries, key)
      case Some(x) => x
      case None => Undefined
    else Undefined
  }

  /** The decimal digits of `n`, as template literals print an integer. */
  function NatToString(n: nat): (s: string)
    ensures |s| >= 1
    ensures forall i :: 0 <= i < |s| ==> '0' <= s[i] <= '9'
  {
    if n < 10 then [Digit(n)] else NatToString(n / 10) + [Digit(n % 10)]
  }

  function Digit(d: nat): (c: char)
    requires d < 10
    ensures '0' <= c <= '9'
  {
    "0123456789"[d]
  }

  /** `s.includes(sub)`. */
  predicate Contains(s: string, sub: string) {
    exists i | 0 <= i <= |s| :: OccursAt(s, i, sub)
  }

  predicate OccursAt(s: string, i: int, sub: string) {
    0 <= i <= |s| - |sub| && s[i..i + |sub|] == sub
  }
}
