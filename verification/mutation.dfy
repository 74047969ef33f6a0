/**
 * The POST route: validate `{ buildingAttribute: non-empty string }`, then
 * return the first stored record holding that value, creating one when there
 * is none.
 */
module Mutation {
  import opened Wrappers
  import opened JsValue
  import opened Http
  import opened Issues
  import opened AttributeStore

  /**
   * `safeParse` of the object schema `{ buildingAttribute: pipe(string(), nonEmpty()) }`:
   * the input must be object-like and its `buildingAttribute` a non-empty
   * string; the output keeps only that key. A failed type check stops the
   * pipe, so each failure yields exactly one issue.
   */
  function ParseMutationInput(input: Value): (r: Result<Value, seq<Issue>>)
    ensures r.Ok? <==> IsObjectLike(input) && Get(input, "buildingAttribute").Str? && Get(input, "buildingAttribute").s != ""
    ensures r.Ok? ==> r.value == Obj([("buildingAttribute", Get(input, "buildingAttribute"))])
    ensures r.Ok? ==> Get(r.value, "buildingAttribute") == Get(input, "buildingAttribute")
    ensures r.Err? ==> |r.error| == 1
    ensures r.Err? ==> (r.error[0].path == [] <==> !IsObjectLike(input))
    ensures r.Err? && IsObjectLike(input) ==> r.error[0].path == ["buildingAttribute"]
  {
    if !IsObjectLike(input) then Err([Issue([], ExpectedObject)])
    else
      match Get(input, "buildingAttribute")
      case Str(s) =>
        if s == "" then Err([Issue(["buildingAttribute"], ExpectedNonEmpty)])
        else Ok(Obj([("buildingAttribute", Str(s))]))
      case _ => Err([Issue(["buildingAttribute"], ExpectedString)])
  }

  /** `{ statusCode: 200, body: { data: record } }`. */
  function MutationResponse(a: Attribute): Response {
    Response(200, Obj([("data", AttributeJson(a))]))
  }

  predicate HasValue(state: StoreState, value: string) {
    exists a :: a in state.records && a.buildingAttribute == value
  }

  /**
   * The record the handler answers with and the store after it: the first
   * record holding `value` and an unchanged store, or a new record appended
   * to the store.
   */
  function FindOrCreate(value: string, state: StoreState): (r: (Attribute, StoreState))
    ensures r.0.buildingAttribute == value && r.0 in r.1.records
    ensures HasValue(state, value) ==> r.0 == state.records[FirstWithValue(state.records, value)] && r.1 == state
    ensures !HasValue(state, value) ==>
      r.0 == NewRecord(state, value) && r.1 == StoreState(state.records + [r.0], state.nextId + 1)
  {
    var found := WithValue(state.records, value);
    if |found| > 0 then (found[0], state)
    else
      var created := NewRecord(state, value);
      (created, StoreState(state.records + [created], state.nextId + 1))
  }

  /** The handler: looks the value up, and creates a record only when the lookup finds none; always 200. */
  method MutationHandler(input: Value, store: Store) returns (response: Response)
    requires Get(input, "buildingAttribute").Str?
    modifies store
    ensures response == MutationResponse(FindOrCreate(Get(input, "buildingAttribute").s, old(store.State())).0)
    ensures store.State() == FindOrCreate(Get(input, "buildingAttribute").s, old(store.State())).1
    ensures response.statusCode == 200
  {
    var value := Get(input, "buildingAttribute").s;
    var attributes := WithValue(store.records, value);
    if |attributes| > 0 {
      return MutationResponse(attributes[0]);
    }
    var created := store.Create(value);
    response := MutationResponse(created);
  }

  /** Repeating a request answers with the same record and leaves the store as the first request left it. */
  lemma {:induction false} FindOrCreateIdempotent(value: string, state: StoreState)
    ensures FindOrCreate(value, FindOrCreate(value, state).1) == FindOrCreate(value, state)
  {
    var (a, after) := FindOrCreate(value, state);
    assert HasValue(after, value) by { assert a in after.records; }
    if !HasValue(state, value) {
      FirstWithValueAppended(state.records, a);
    }
  }

  /** When no earlier record holds the appended one's value, the appended record is the first holding it. */
  lemma {:induction false} FirstWithValueAppended(records: seq<Attribute>, a: Attribute)
    requires forall b :: b in records ==> b.buildingAttribute != a.buildingAttribute
    ensures FirstWithValue(records + [a], a.buildingAttribute) == |records|
  {
    if records != [] {
      assert (records + [a])[1..] == records[1..] + [a];
      FirstWithValueAppended(records[1..], a);
    } else {
      assert records + [a] == [a];
    }
  }

  /** The store only grows, by at most one record, and every record already stored stays where it was. */
  lemma StoreGrowsByAtMostOne(value: string, state: StoreState)
    ensures var after := FindOrCreate(value, state).1;
      |state.records| <= |after.records| <= |state.records| + 1
      && after.records[..|state.records|] == state.records
      && (|after.records| == |state.records| + 1 <==> !HasValue(state, value))
  {
  }

  /** No two records hold the same value. */
  predicate UniqueValues(records: seq<Attribute>) {
    forall i, j :: 0 <= i < j < |records| ==> records[i].buildingAttribute != records[j].buildingAttribute
  }

  /** A store in which every value is held once stays so however many find-or-create requests run one after another. */
  lemma UniqueValuesPreserved(value: string, state: StoreState)
    requires UniqueValues(state.records)
    ensures UniqueValues(FindOrCreate(value, state).1.records)
    ensures |WithValue(FindOrCreate(value, state).1.records, value)| == 1
  {
    var after := FindOrCreate(value, state).1;
    if !HasValue(state, value) {
      UniqueHasOneHolder(after.records, |state.records|);
    } else {
      var k := FirstWithValue(state.records, value);
      UniqueHasOneHolder(state.records, k);
    }
  }

  /** In a store without repeated values, a record's value is held by that record alone. */
  lemma {:induction false} UniqueHasOneHolder(records: seq<Attribute>, k: nat)
    requires UniqueValues(records) && k < |records|
    ensures WithValue(records, records[k].buildingAttribute) == [records[k]]
  {
    var rest := records[1..];
    if k == 0 {
      forall a | a in rest ensures a.buildingAttribute != records[0].buildingAttribute {
        var j :| 0 <= j < |rest| && rest[j] == a;
        assert a == records[j + 1];
      }
      NoHolder(rest, records[0].buildingAttribute);
    } else {
      forall i, j | 0 <= i < j < |rest| ensures rest[i].buildingAttribute != rest[j].buildingAttribute {
        assert rest[i] == records[i + 1] && rest[j] == records[j + 1];
      }
      assert records[k] == rest[k - 1];
      UniqueHasOneHolder(rest, k - 1);
      assert records[0].buildingAttribute != records[k].buildingAttribute;
    }
  }

  lemma {:induction false} NoHolder(records: seq<Attribute>, value: string)
    requires forall a :: a in records ==> a.buildingAttribute != value
    ensures WithValue(records, value) == []
  {
    if records != [] {
      NoHolder(records[1..], value);
    }
  }
}
