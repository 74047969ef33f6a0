/**
 * The GET route: validate `{ limit?: number, next?: string, search?: string }`,
 * then list one page of records, filtered by substring when a search is given.
 */
module Query {
  import opened Wrappers
  import opened JsValue
  import opened Http
  import opened Issues
  import opened AttributeStore

  /** `optional(number())` / `optional(string())`: `undefined`, or a value of the expected type. */
  predicate FitsOptional(v: Value, kind: IssueKind) {
    v.Undefined? || (kind == ExpectedNumber && v.Num?) || (kind == ExpectedString && v.Str?)
  }

  function FieldIssues(input: Value, key: string, kind: IssueKind): (issues: seq<Issue>)
    ensures issues == [] <==> FitsOptional(Get(input, key), kind)
    ensures issues != [] ==> issues == [Issue([key], kind)]
  {
    if FitsOptional(Get(input, key), kind) then [] else [Issue([key], kind)]
  }

  /** Every field is checked and every failure is reported, in the schema's key order. */
  function QueryIssues(input: Value): (issues: seq<Issue>)
    ensures |issues| <= 3
    ensures issues == [] <==>
      FitsOptional(Get(input, "limit"), ExpectedNumber)
      && FitsOptional(Get(input, "next"), ExpectedString)
      && FitsOptional(Get(input, "search"), ExpectedString)
  {
    FieldIssues(input, "limit", ExpectedNumber)
    + FieldIssues(input, "next", ExpectedString)
    + FieldIssues(input, "search", ExpectedString)
  }

  /** Each reported issue names one schema key whose value does not fit that key's type. */
  lemma QueryIssuesAreFieldFailures(input: Value)
    ensures forall issue :: issue in QueryIssues(input) ==>
      issue.path != [] && !FitsOptional(Get(input, issue.path[0]), issue.kind)
  {
    var a := FieldIssues(input, "limit", ExpectedNumber);
    var b := FieldIssues(input, "next", ExpectedString);
    var c := FieldIssues(input, "search", ExpectedString);
    forall issue | issue in QueryIssues(input)
      ensures issue.path != [] && !FitsOptional(Get(input, issue.path[0]), issue.kind)
    {
      assert issue in a || issue in b || issue in c;
    }
  }

  /** `key in input` for a plain object or array: an own property of that name (no inherited one carries these names). */
  predicate HasOwnKey(v: Value, key: string) {
    v.Obj? && key in Keys(v.entries)
  }

  /** An optional schema key is copied to the output only when the input has it, `undefined` value included. */
  function PickedEntry(input: Value, key: string): seq<(string, Value)> {
    if HasOwnKey(input, key) then [(key, Get(input, key))] else []
  }

  /** The output object of the schema: its keys in declaration order, those the input has. */
  function PickedFields(input: Value): seq<(string, Value)> {
    PickedEntry(input, "limit") + PickedEntry(input, "next") + PickedEntry(input, "search")
  }

  /**
   * `safeParse` of the object schema: an object-like input whose three fields
   * fit passes with exactly those of the three keys it has and no other key;
   * otherwise every failing field is reported.
   */
  function ParseQueryInput(input: Value): (r: Result<Value, seq<Issue>>)
    ensures r.Ok? <==>
      IsObjectLike(input)
      && (Get(input, "limit").Undefined? || Get(input, "limit").Num?)
      && (Get(input, "next").Undefined? || Get(input, "next").Str?)
      && (Get(input, "search").Undefined? || Get(input, "search").Str?)
    ensures r.Ok? ==>
      Get(r.value, "limit") == Get(input, "limit")
      && Get(r.value, "next") == Get(input, "next")
      && Get(r.value, "search") == Get(input, "search")
    ensures r.Ok? ==>
      && r.value.Obj?
      && (forall k :: k in Keys(r.value.entries) ==> k == "limit" || k == "next" || k == "search")
      && ("limit" in Keys(r.value.entries) <==> HasOwnKey(input, "limit"))
      && ("next" in Keys(r.value.entries) <==> HasOwnKey(input, "next"))
      && ("search" in Keys(r.value.entries) <==> HasOwnKey(input, "search"))
    ensures r.Err? ==> 1 <= |r.error| <= 3
    ensures r.Err? && !IsObjectLike(input) ==> r.error == [Issue([], ExpectedObject)]
    ensures r.Err? && IsObjectLike(input) ==>
      forall issue :: issue in r.error ==> issue.path != [] && !FitsOptional(Get(input, issue.path[0]), issue.kind)
  {
    QueryIssuesAreFieldFailures(input);
    if !IsObjectLike(input) then Err([Issue([], ExpectedObject)])
    else if QueryIssues(input) != [] then Err(QueryIssues(input))
    else
      PickedFieldsRead(input, "limit");
      PickedFieldsRead(input, "next");
      PickedFieldsRead(input, "search");
      PickedFieldsKeys(input);
      Ok(Obj(PickedFields(input)))
  }

  /** Reading a schema key of the output gives the input's value, and the output has the key exactly when the input does. */
  lemma PickedFieldsRead(input: Value, key: string)
    requires key == "limit" || key == "next" || key == "search"
    ensures Get(Obj(PickedFields(input)), key) == Get(input, key)
    ensures key in Keys(PickedFields(input)) <==> HasOwnKey(input, key)
  {
    var a := PickedEntry(input, "limit");
    var b := PickedEntry(input, "next");
    var c := PickedEntry(input, "search");
    assert "limit"[0] != "search"[0] && "next"[0] != "search"[0] && "limit"[0] != "next"[0];
    LookupAppend(a + b, c, key);
    LookupAppend(a, b, key);
    KeysAppend(a + b, c);
    KeysAppend(a, b);
  }

  /** The output has no key outside the schema. */
  lemma PickedFieldsKeys(input: Value)
    ensures forall k :: k in Keys(PickedFields(input)) ==> k == "limit" || k == "next" || k == "search"
  {
    var a := PickedEntry(input, "limit");
    var b := PickedEntry(input, "next");
    var c := PickedEntry(input, "search");
    KeysAppend(a + b, c);
    KeysAppend(a, b);
  }

  /**
   * The list call's arguments: `limit ?? 10`, the cursor forwarded as given,
   * and a `contains` filter only when `search` is truthy.
   */
  function BuildListArgs(input: Value): (args: ListArgs)
    ensures !IsNullish(args.limit)
    ensures IsNullish(Get(input, "limit")) ==> args.limit == Num(Finite(10.0))
    ensures !IsNullish(Get(input, "limit")) ==> args.limit == Get(input, "limit")
    ensures args.nextToken == Get(input, "next")
    ensures args.containsFilter.Some? <==> Truthy(Get(input, "search"))
    ensures args.containsFilter.Some? ==> args.containsFilter.value == Get(input, "search")
  {
    var limit := Get(input, "limit");
    var search := Get(input, "search");
    ListArgs(if IsNullish(limit) then Num(Finite(10.0)) else limit,
             Get(input, "next"),
             if Truthy(search) then Some(search) else None)
  }

  /** `{ statusCode: 200, body: { data, next } }` for the page the store returns. */
  function QueryHandler(input: Value, records: seq<Attribute>, paginate: Paginate): (response: Response)
    ensures response.statusCode == 200
    ensures var page := paginate(records, BuildListArgs(input));
      Get(response.body, "next") == page.nextToken
      && Get(response.body, "data") == Arr(seq(|page.items|, i requires 0 <= i < |page.items| => AttributeJson(page.items[i])))
  {
    var page := paginate(records, BuildListArgs(input));
    DataAndNext(Arr(seq(|page.items|, i requires 0 <= i < |page.items| => AttributeJson(page.items[i]))), page.nextToken);
    Response(200, Obj([("data", Arr(seq(|page.items|, i requires 0 <= i < |page.items| => AttributeJson(page.items[i])))),
                       ("next", page.nextToken)]))
  }

  lemma DataAndNext(data: Value, next: Value)
    ensures Get(Obj([("data", data), ("next", next)]), "data") == data
    ensures Get(Obj([("data", data), ("next", next)]), "next") == next
  {
    var entries := [("data", data), ("next", next)];
    assert "data"[0] != "next"[0];
    assert entries[1..] == [("next", next)];
  }

  /**
   * On validated input the store is asked for the given limit, 0 included, or
   * 10 when none is given; the cursor is a string or absent; and a filter is
   * sent exactly when the search is a non-empty string.
   */
  lemma ValidatedListArgs(input: Value)
    requires ParseQueryInput(input).Ok?
    ensures var args := BuildListArgs(ParseQueryInput(input).value);
      && args.limit.Num?
      && (Get(input, "limit").Undefined? ==> args.limit == Num(Finite(10.0)))
      && (Get(input, "limit").Num? ==> args.limit == Get(input, "limit"))
      && (args.nextToken.Undefined? || args.nextToken.Str?)
      && args.nextToken == Get(input, "next")
      && (args.containsFilter.Some? <==> Get(input, "search").Str? && Get(input, "search").s != "")
      && (args.containsFilter.Some? ==> args.containsFilter.value == Get(input, "search"))
  {
    var output := ParseQueryInput(input).value;
    assert Get(output, "limit") == Get(input, "limit");
    assert Get(output, "next") == Get(input, "next");
    assert Get(output, "search") == Get(input, "search");
  }

  /** Each field that does not fit is reported at its own key, and the ones that fit are not reported. */
  lemma {:induction false} EveryBadFieldReported(input: Value, key: string, kind: IssueKind)
    requires IsObjectLike(input)
    requires (key, kind) in [("limit", ExpectedNumber), ("next", ExpectedString), ("search", ExpectedString)]
    ensures ParseQueryInput(input).Err? || FitsOptional(Get(input, key), kind)
    ensures !FitsOptional(Get(input, key), kind) ==> Issue([key], kind) in ParseQueryInput(input).error
    ensures FitsOptional(Get(input, key), kind) && ParseQueryInput(input).Err? ==> Issue([key], kind) !in ParseQueryInput(input).error
  {
    var issues := QueryIssues(input);
    if !FitsOptional(Get(input, key), kind) {
      assert Issue([key], kind) in FieldIssues(input, key, kind);
      assert FieldIssues(input, key, kind) <= issues || Issue([key], kind) in issues;
    }
  }
}
