/**
 * The attribute table behind the data client, as an in-memory sequence of
 * records in the order the client lists them.
 */
module AttributeStore {
  import opened Wrappers
  import opened JsValue

  datatype Attribute = Attribute(id: string, buildingAttribute: string)

  /** A record as it appears in a response body. */
  function AttributeJson(a: Attribute): Value {
    Obj([("id", Str(a.id)), ("buildingAttribute", Str(a.buildingAttribute))])
  }

  /** The table's records and the counter the store draws new ids from. */
  datatype StoreState = StoreState(records: seq<Attribute>, nextId: nat)

  /** `list({ filter: { buildingAttribute: { eq: value } } })`: the records holding `value`, in store order. */
  function WithValue(records: seq<Attribute>, value: string): (found: seq<Attribute>)
    ensures forall a :: a in found ==> a in records && a.buildingAttribute == value
    ensures forall a :: a in records && a.buildingAttribute == value ==> a in found
    ensures found != [] <==> FirstWithValue(records, value) < |records|
    ensures found != [] ==> found[0] == records[FirstWithValue(records, value)]
  {
    if records == [] then []
    else if records[0].buildingAttribute == value then [records[0]] + WithValue(records[1..], value)
    else WithValue(records[1..], value)
  }

  /** The index of the first record holding `value` (|records| when there is none). */
  function FirstWithValue(records: seq<Attribute>, value: string): (i: nat)
    ensures i <= |records|
    ensures i < |records| ==> records[i].buildingAttribute == value
    ensures forall j :: 0 <= j < i ==> records[j].buildingAttribute != value
  {
    if records == [] then 0
    else if records[0].buildingAttribute == value then 0
    else 1 + FirstWithValue(records[1..], value)
  }

  /** The record `create({ buildingAttribute: value })` adds: a server-generated id and the value. */
  function NewRecord(state: StoreState, value: string): Attribute {
    Attribute(NatToString(state.nextId), value)
  }

  /** The arguments of `list({ limit, nextToken, filter })`; the filter is the `contains` operand when one is sent. */
  datatype ListArgs = ListArgs(limit: Value, nextToken: Value, containsFilter: Option<Value>)

  /** `{ data, nextToken }` as the list call returns them. */
  datatype Page = Page(items: seq<Attribute>, nextToken: Value)

  /** The store's paging: which records one list call returns, and the cursor after them. */
  type Paginate = (seq<Attribute>, ListArgs) -> Page

  class Store {
    var records: seq<Attribute>
    var nextId: nat

    function State(): StoreState
      reads this
    {
      StoreState(records, nextId)
    }

    constructor (initial: StoreState)
      ensures State() == initial
    {
      records := initial.records;
      nextId := initial.nextId;
    }

    /** `create`: appends one new record and returns it; the records already stored stay as they were. */
    method Create(value: string) returns (created: Attribute)
      modifies this
      ensures created == NewRecord(old(State()), value)
      ensures records == old(records) + [created] && nextId == old(nextId) + 1
    {
      created := NewRecord(State(), value);
      records := records + [created];
      nextId := nextId + 1;
    }
  }
}
