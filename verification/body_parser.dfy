/**
 * `conditionalJsonBodyParser().before`: for GET the body becomes the coerced
 * query; for POST and PUT with a JSON content type a string body is parsed.
 */
module BodyParser {
  import opened Wrappers
  import opened JsValue
  import opened Http
  import opened QueryParams

  const InvalidJsonBody: string := "Invalid JSON body"

  /** `headers['content-type'] || headers['Content-Type'] || ''`: an empty value falls through to the next key. */
  function ContentType(headers: map<string, string>): (contentType: string)
    ensures contentType == "" || contentType in headers.Values
    ensures contentType == "" <==>
      ("content-type" !in headers || headers["content-type"] == "") && ("Content-Type" !in headers || headers["Content-Type"] == "")
    ensures "content-type" in headers && headers["content-type"] != "" ==> contentType == headers["content-type"]
    ensures ("content-type" !in headers || headers["content-type"] == "") && "Content-Type" in headers ==>
      contentType == headers["Content-Type"]
  {
    if "content-type" in headers && headers["content-type"] != "" then headers["content-type"]
    else if "Content-Type" in headers && headers["Content-Type"] != "" then headers["Content-Type"]
    else ""
  }

  predicate IsJsonWrite(event: Event) {
    (event.httpMethod == "POST" || event.httpMethod == "PUT") && Contains(ContentType(event.headers), "application/json")
  }

  /** The body the hook leaves on the event, or the message of the error it throws. */
  function MaterializedBody(event: Event, toNumber: NumberParser, parseJson: JsonParser): (r: Result<Value, string>)
    ensures r.Err? ==> r.error == InvalidJsonBody && event.httpMethod != "GET"
    ensures event.httpMethod == "GET" ==> r.Ok? && r.value.Obj?
  {
    var body := if event.httpMethod == "GET" then ParsedQuery(event.query, toNumber) else event.body;
    if IsJsonWrite(event) && body.Str? then
      match parseJson(body.s)
      case Some(parsed) => Ok(parsed)
      case None => Err(InvalidJsonBody)
    else Ok(body)
  }

  /** The hook: writes `event.body` and no other field, or throws "Invalid JSON body" leaving the event as it was. */
  method ConditionalJsonBodyParserBefore(request: Request, toNumber: NumberParser, parseJson: JsonParser)
    returns (thrown: Option<string>)
    modifies request`event
    ensures MaterializedBody(old(request.event), toNumber, parseJson).Ok? ==>
      thrown.None? && request.event == old(request.event).(body := MaterializedBody(old(request.event), toNumber, parseJson).value)
    ensures MaterializedBody(old(request.event), toNumber, parseJson).Err? ==>
      thrown == Some(MaterializedBody(old(request.event), toNumber, parseJson).error) && request.event == old(request.event)
  {
    var event := request.event;
    var contentType := ContentType(event.headers);
    if event.httpMethod == "GET" {
      var parsed := ParseQueryParams(event.query, toNumber);
      event := event.(body := parsed);
      request.event := event;
    }
    if (event.httpMethod == "POST" || event.httpMethod == "PUT") && Contains(contentType, "application/json") && event.body.Str? {
      match parseJson(event.body.s) {
        case Some(parsed) =>
          request.event := event.(body := parsed);
        case None =>
          return Some(InvalidJsonBody);
      }
    }
    return None;
  }

  /** For GET the new body is the coerced query, `{}` without one, whatever the body was before. */
  lemma GetBodyIsCoercedQuery(event: Event, toNumber: NumberParser, parseJson: JsonParser)
    requires event.httpMethod == "GET"
    ensures MaterializedBody(event, toNumber, parseJson) == Ok(ParsedQuery(event.query, toNumber))
    ensures event.query.None? ==> MaterializedBody(event, toNumber, parseJson) == Ok(Obj([]))
    ensures forall other: Value :: MaterializedBody(event.(body := other), toNumber, parseJson) == MaterializedBody(event, toNumber, parseJson)
  {
  }

  /** Only the exact keys `content-type` and then `Content-Type` are read, the first winning when both are set; any other spelling is ignored. */
  lemma ContentTypeKeys(headers: map<string, string>, key: string, value: string)
    requires key != "content-type" && key != "Content-Type"
    ensures ContentType(headers[key := value]) == ContentType(headers)
    ensures ContentType(map[]) == ""
    ensures ContentType(map["CONTENT-TYPE" := "application/json"]) == ""
    ensures ContentType(map["content-type" := "", "Content-Type" := "application/json"]) == "application/json"
    ensures ContentType(map["content-type" := "application/json", "Content-Type" := "text/plain"]) == "application/json"
  {
  }

  /** A POST or PUT with a JSON content type and a string body gets the parsed value, or throws when parsing fails. */
  lemma JsonWriteIsParsed(event: Event, toNumber: NumberParser, parseJson: JsonParser)
    requires IsJsonWrite(event) && event.body.Str?
    ensures parseJson(event.body.s).Some? ==> MaterializedBody(event, toNumber, parseJson) == Ok(parseJson(event.body.s).value)
    ensures parseJson(event.body.s).None? ==> MaterializedBody(event, toNumber, parseJson) == Err(InvalidJsonBody)
  {
  }

  /** Only a JSON write with a string body can throw, and every other non-GET request keeps its body. */
  lemma OtherBodiesUnchanged(event: Event, toNumber: NumberParser, parseJson: JsonParser)
    requires event.httpMethod != "GET"
    ensures MaterializedBody(event, toNumber, parseJson).Err? ==> IsJsonWrite(event) && event.body.Str?
    ensures !(IsJsonWrite(event) && event.body.Str?) ==> MaterializedBody(event, toNumber, parseJson) == Ok(event.body)
  {
  }
}
