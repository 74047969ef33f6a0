/** `parseQueryParams`: query-string values coerced to numbers where `Number(v)` is not NaN. */
module QueryParams {
  import opened Wrappers
  import opened JsValue
  import opened Http
  import opened Regex

  /** `isNaN(Number(v)) ? v : Number(v)`. */
  function Coerce(v: string, toNumber: NumberParser): (r: Value)
    ensures r.Str? <==> toNumber(v).None?
    ensures r.Str? ==> r.s == v
    ensures !r.Str? ==> r.Num? && toNumber(v) == Some(r.n)
  {
    match toNumber(v)
    case Some(n) => Num(n)
    case None => Str(v)
  }

  function CoerceAll(items: seq<string>, toNumber: NumberParser): (r: seq<Value>)
    ensures |r| == |items|
    ensures forall i :: 0 <= i < |items| ==> r[i] == Coerce(items[i], toNumber)
  {
    seq(|items|, i requires 0 <= i < |items| => Coerce(items[i], toNumber))
  }

  /**
   * `result[key] = …` on a plain object with the key `__proto__` runs the
   * inherited `__proto__` setter instead of creating an own property: a string
   * or number is ignored, an array becomes the prototype. Either way the result
   * gains no own key, and only own keys are modelled.
   */
  const ProtoKey: string := "__proto__"

  /** The own entries the loop has added after visiting `params`, in order: undefined values and `__proto__` are skipped. */
  function CoercedEntries(params: QueryParams, toNumber: NumberParser): seq<(string, Value)> {
    if params == [] then []
    else
      var last := params[|params| - 1];
      CoercedEntries(params[..|params| - 1], toNumber) + CoercedEntry(last.0, last.1, toNumber)
  }

  function CoercedEntry(key: string, value: QueryParam, toNumber: NumberParser): seq<(string, Value)> {
    if key == ProtoKey then []
    else match value
    case QList(items) => [(key, Arr(CoerceAll(items, toNumber)))]
    case QStr(s) => [(key, Coerce(s, toNumber))]
    case QUndefined => []
  }

  /** The result of `parseQueryParams(params)` as a value. */
  function ParsedQuery(params: Option<QueryParams>, toNumber: NumberParser): Value {
    match params
    case None => Obj([])
    case Some(ps) => Obj(CoercedEntries(ps, toNumber))
  }

  /** `parseQueryParams`: a fresh object filled entry by entry; the input is a value and stays as it was. */
  method ParseQueryParams(params: Option<QueryParams>, toNumber: NumberParser) returns (result: Value)
    ensures result == ParsedQuery(params, toNumber)
    ensures params.None? ==> result == Obj([])
  {
    if params.None? {
      return Obj([]);
    }
    var ps := params.value;
    var entries: seq<(string, Value)> := [];
    var i := 0;
    while i < |ps|
      invariant 0 <= i <= |ps|
      invariant entries == CoercedEntries(ps[..i], toNumber)
    {
      var (key, value) := ps[i];
      match value {
        case QList(items) =>
          var coerced := Arr(CoerceAll(items, toNumber));
          if key != ProtoKey {
            entries := entries + [(key, coerced)];
          }
        case QStr(s) =>
          var num := toNumber(s);
          if key != ProtoKey {
            entries := entries + [(key, if num.None? then Str(s) else Num(num.value))];
          }
        case QUndefined =>
      }
      assert ps[..i + 1][..i] == ps[..i];
      i := i + 1;
    }
    assert ps[..i] == ps;
    result := Obj(entries);
  }

  /** The own keys of the result are the input keys other than `__proto__` whose value is not undefined, in input order. */
  function DefinedKeys(params: QueryParams): seq<string> {
    if params == [] then []
    else
      var last := params[|params| - 1];
      DefinedKeys(params[..|params| - 1]) + (if last.1.QUndefined? || last.0 == ProtoKey then [] else [last.0])
  }

  lemma {:induction false} CoercedKeys(params: QueryParams, toNumber: NumberParser)
    ensures Keys(CoercedEntries(params, toNumber)) == DefinedKeys(params)
  {
    if params != [] {
      var init := params[..|params| - 1];
      var last := params[|params| - 1];
      CoercedKeys(init, toNumber);
      KeysAppend(CoercedEntries(init, toNumber), CoercedEntry(last.0, last.1, toNumber));
    }
  }

  /** The loop's entries for a concatenation of parameter lists are the entries of each part, in order. */
  lemma {:induction false} CoercedEntriesAppend(a: QueryParams, b: QueryParams, toNumber: NumberParser)
    ensures CoercedEntries(a + b, toNumber) == CoercedEntries(a, toNumber) + CoercedEntries(b, toNumber)
    decreases |b|
  {
    if b == [] {
      assert a + b == a;
    } else {
      var init := b[..|b| - 1];
      var last := b[|b| - 1];
      assert (a + b)[..|a + b| - 1] == a + init;
      assert (a + b)[|a + b| - 1] == last;
      CoercedEntriesAppend(a, init, toNumber);
    }
  }

  /** The entries around a string parameter: those before it, its own coerced entry, then those after it. */
  lemma {:induction false} CoercedEntriesAround(params: QueryParams, j: nat, toNumber: NumberParser)
    requires j < |params| && params[j].0 != ProtoKey && params[j].1.QStr?
    ensures CoercedEntries(params, toNumber)
      == CoercedEntries(params[..j], toNumber) + ([(params[j].0, Coerce(params[j].1.s, toNumber))] + CoercedEntries(params[j + 1..], toNumber))
  {
    var pre, one, post := params[..j], [params[j]], params[j + 1..];
    assert params == pre + (one + post);
    CoercedEntriesAppend(pre, one + post, toNumber);
    CoercedEntriesAppend(one, post, toNumber);
    SingleParam(params[j], toNumber);
  }

  /** `parseQueryParams` on the parameters up to a string parameter, and on all of them. */
  lemma ParsedQueryAround(params: QueryParams, j: nat, toNumber: NumberParser)
    requires j < |params| && params[j].0 != ProtoKey && params[j].1.QStr?
    ensures ParsedQuery(Some(params[..j]), toNumber) == Obj(CoercedEntries(params[..j], toNumber))
    ensures ParsedQuery(Some(params), toNumber)
      == Obj(CoercedEntries(params[..j], toNumber) + ([(params[j].0, Coerce(params[j].1.s, toNumber))] + CoercedEntries(params[j + 1..], toNumber)))
  {
    CoercedEntriesAround(params, j, toNumber);
  }

  lemma {:induction false} SingleParam(p: (string, QueryParam), toNumber: NumberParser)
    ensures CoercedEntries([p], toNumber) == CoercedEntry(p.0, p.1, toNumber)
  {
    assert [p][..0] == [];
  }

  /** `params[key]`: the value stored under `key`, `undefined` when there is none. */
  function ParamAt(params: QueryParams, key: string): QueryParam {
    if params == [] then QUndefined
    else if params[|params| - 1].0 == key then params[|params| - 1].1
    else ParamAt(params[..|params| - 1], key)
  }

  predicate DistinctParamKeys(params: QueryParams) {
    forall i, j :: 0 <= i < j < |params| ==> params[i].0 != params[j].0
  }

  /** What `parseQueryParams` stores for one input value, or `undefined` when it stores nothing. */
  function CoercedParam(p: QueryParam, toNumber: NumberParser): Value {
    match p
    case QList(items) => Arr(CoerceAll(items, toNumber))
    case QStr(s) => Coerce(s, toNumber)
    case QUndefined => Undefined
  }

  lemma {:induction false} AbsentKeyNotDefined(params: QueryParams, key: string)
    requires forall i :: 0 <= i < |params| ==> params[i].0 != key
    ensures key !in DefinedKeys(params)
  {
    if params != [] {
      AbsentKeyNotDefined(params[..|params| - 1], key);
    }
  }

  /**
   * Reading the result at any key gives the input's value there, coerced: a
   * string array maps element by element with its length kept, a string becomes
   * `Number(value)` unless that is NaN, and an undefined or missing value is
   * missing from the result. `__proto__` is never an own key of the result.
   */
  lemma {:induction false} ParsedQueryAt(params: QueryParams, toNumber: NumberParser, key: string)
    requires DistinctParamKeys(params)
    ensures Get(ParsedQuery(Some(params), toNumber), key) == if key == ProtoKey then Undefined else CoercedParam(ParamAt(params, key), toNumber)
  {
    if key == ProtoKey {
      ProtoNeverDefined(params);
      CoercedKeys(params, toNumber);
    } else if params != [] {
      DistinctPrefix(params);
      ParsedQueryAt(params[..|params| - 1], toNumber, key);
      ParsedQueryStep(params, toNumber, key);
    }
  }

  lemma ParsedQueryStep(params: QueryParams, toNumber: NumberParser, key: string)
    requires params != [] && key != ProtoKey && DistinctParamKeys(params)
    requires var init := params[..|params| - 1];
      Get(Obj(CoercedEntries(init, toNumber)), key) == CoercedParam(ParamAt(init, key), toNumber)
    ensures Get(Obj(CoercedEntries(params, toNumber)), key) == CoercedParam(ParamAt(params, key), toNumber)
  {
    var init := params[..|params| - 1];
    var last := params[|params| - 1];
    var a := CoercedEntries(init, toNumber);
    var b := CoercedEntry(last.0, last.1, toNumber);
    assert CoercedEntries(params, toNumber) == a + b;
    LookupAppend(a, b, key);
    if last.0 == key {
      LastKeyNotEarlier(params, toNumber);
      LastEntryRead(key, last.1, toNumber);
      assert ParamAt(params, key) == last.1;
      assert Lookup(a + b, key) == Lookup(b, key);
    } else {
      OtherKeyStep(params, toNumber, key);
    }
  }

  lemma OtherKeyStep(params: QueryParams, toNumber: NumberParser, key: string)
    requires params != [] && params[|params| - 1].0 != key
    ensures var init := params[..|params| - 1];
      && ParamAt(params, key) == ParamAt(init, key)
      && Lookup(CoercedEntries(params, toNumber), key) == Lookup(CoercedEntries(init, toNumber), key)
  {
    var init := params[..|params| - 1];
    var last := params[|params| - 1];
    var a := CoercedEntries(init, toNumber);
    var b := CoercedEntry(last.0, last.1, toNumber);
    assert CoercedEntries(params, toNumber) == a + b;
    LookupAppend(a, b, key);
    assert key !in Keys(b);
  }

  /** The entry written for a key other than `__proto__` reads back as that key's coerced value. */
  lemma LastEntryRead(key: string, p: QueryParam, toNumber: NumberParser)
    requires key != ProtoKey
    ensures var b := CoercedEntry(key, p, toNumber);
      (if key in Keys(b) then Lookup(b, key).value else Undefined) == CoercedParam(p, toNumber)
  {
  }

  lemma {:induction false} ProtoNeverDefined(params: QueryParams)
    ensures ProtoKey !in DefinedKeys(params)
  {
    if params != [] {
      ProtoNeverDefined(params[..|params| - 1]);
    }
  }

  lemma DistinctPrefix(params: QueryParams)
    requires params != [] && DistinctParamKeys(params)
    ensures DistinctParamKeys(params[..|params| - 1])
  {
    var init := params[..|params| - 1];
    forall i, j | 0 <= i < j < |init| ensures init[i].0 != init[j].0 {
      assert init[i] == params[i] && init[j] == params[j];
    }
  }

  /** With distinct keys, the last key is not among the entries produced before it. */
  lemma LastKeyNotEarlier(params: QueryParams, toNumber: NumberParser)
    requires params != [] && DistinctParamKeys(params)
    ensures params[|params| - 1].0 !in Keys(CoercedEntries(params[..|params| - 1], toNumber))
  {
    var init := params[..|params| - 1];
    var key := params[|params| - 1].0;
    forall i | 0 <= i < |init| ensures init[i].0 != key {
      assert init[i] == params[i];
    }
    AbsentKeyNotDefined(init, key);
    CoercedKeys(init, toNumber);
  }

  // ---------------------------------------------------------------------------
  // ECMAScript StringToNumber on the inputs the properties below mention.

  predicate AllSpaces(s: string) {
    forall m :: 0 <= m < |s| ==> IsSpace(s[m])
  }

  /**
   * Facts about `Number(s)` from ECMA-262 section 7.1.4.1.1 that the
   * properties below use: an empty or all-whitespace string is 0, decimal
   * literals are their value, and text that is not a numeric literal is NaN.
   */
  ghost predicate NumberLike(toNumber: NumberParser) {
    && (forall s :: AllSpaces(s) ==> toNumber(s) == Some(Finite(0.0)))
    && toNumber("0") == Some(Finite(0.0))
    && toNumber("123") == Some(Finite(123.0))
    && toNumber("-3.5") == Some(Finite(-3.5))
    && toNumber("abc123") == None
  }

  /** "0" and "-3.5" become numbers, "abc123" stays a string, and "" and "  " become 0. */
  lemma ScalarCoercionExamples(toNumber: NumberParser)
    requires NumberLike(toNumber)
    ensures Coerce("0", toNumber) == Num(Finite(0.0))
    ensures Coerce("-3.5", toNumber) == Num(Finite(-3.5))
    ensures Coerce("abc123", toNumber) == Str("abc123")
    ensures Coerce("", toNumber) == Num(Finite(0.0))
    ensures Coerce("  ", toNumber) == Num(Finite(0.0))
  {
    assert AllSpaces("");
    assert AllSpaces("  ");
  }
}
