/**
 * The HTTP event a request brings in, the response a stage or handler returns,
 * and the middleware request object whose fields the before hooks update.
 */
module Http {
  import opened Wrappers
  import opened JsValue

  /** A query-string parameter value: a string, a list of strings, or `undefined`. */
  datatype QueryParam = QStr(s: string) | QList(items: seq<string>) | QUndefined

  /**
   * `event.queryStringParameters` as its entries, in `Object.entries` order:
   * integer-like keys first in ascending order, then the other keys in
   * insertion order. The coerced query, the raw query the guard screens and
   * every statement about "the parameters before" one follow this order.
   */
  type QueryParams = seq<(string, QueryParam)>

  /**
   * The parts of the gateway event the pipeline reads: the method, the headers
   * (absent headers read like an empty map), the query parameters (None when
   * absent) and the body (a raw string as it arrives, `undefined` when absent,
   * any value once a stage has replaced it).
   */
  datatype Event = Event(httpMethod: string, headers: map<string, string>, query: Option<QueryParams>, body: Value)

  /** `{ statusCode, body }`; the body is the value handed to `JSON.stringify`. */
  datatype Response = Response(statusCode: int, body: Value)

  /** How one request ends: a response, or an exception that leaves the pipeline. */
  datatype Outcome = Responded(response: Response) | Threw(message: string)

  /** `{ statusCode, body: JSON.stringify({ message }) }`. */
  function MessageResponse(statusCode: int, message: string): Response {
    Response(statusCode, Obj([("message", Str(message))]))
  }

  /** The query object as the screener sees it: each parameter as a string, an array of strings or `undefined`. */
  function QueryObject(params: QueryParams): (v: Value)
    ensures v.Obj? && |v.entries| == |params|
    ensures forall i :: 0 <= i < |params| ==> v.entries[i] == (params[i].0, ParamValue(params[i].1))
  {
    Obj(seq(|params|, i requires 0 <= i < |params| => (params[i].0, ParamValue(params[i].1))))
  }

  function ParamValue(p: QueryParam): Value {
    match p
    case QStr(s) => Str(s)
    case QList(items) => Arr(seq(|items|, i requires 0 <= i < |items| => Str(items[i])))
    case QUndefined => Undefined
  }

  /** The middleware request object: the event, and the response once some stage has set one. */
  class Request {
    var event: Event
    var response: Option<Response>

    constructor (event: Event)
      ensures this.event == event && response.None?
    {
      this.event := event;
      response := None;
    }
  }
}
