/**
 * The router: the middleware chain (JSON body parser, then the injection
 * guard) in front of a handler that picks the query route for GET and the
 * mutation route for POST, validates the body against the route's schema and
 * runs the route's handler; every other method is answered with 405.
 */
module Router {
  import opened Wrappers
  import opened JsValue
  import opened Http
  import opened Issues
  import opened AttributeStore
  import opened BodyParser
  import opened InjectionGuard
  import opened Mutation
  import opened Query
  import QueryParams
  import RegexFacts
  import Regex
  import HtmlInjection

  /** The schemas a route can validate with. */
  datatype Schema = MutationSchema | QuerySchema

  /** The handlers a route can run. */
  datatype HandlerKind = ListAttributes | FindOrCreateAttribute

  /** `{ validations?, handler }`. */
  datatype RouteConfig = RouteConfig(validations: Option<Schema>, handler: HandlerKind)

  /** `{ query?, mutation? }`: the GET route and the POST route, either of which may be missing. */
  datatype Routes = Routes(query: Option<RouteConfig>, mutation: Option<RouteConfig>)

  /** `router({ query, mutation })` for the attribute API. */
  const AttributeRoutes: Routes :=
    Routes(Some(RouteConfig(Some(QuerySchema), ListAttributes)),
           Some(RouteConfig(Some(MutationSchema), FindOrCreateAttribute)))

  /** The handler's input type is the schema's output type: find-or-create needs a string `buildingAttribute`. */
  predicate WellTypedRoute(route: RouteConfig) {
    route.handler == FindOrCreateAttribute ==> route.validations == Some(MutationSchema)
  }

  predicate WellTyped(routes: Routes) {
    (routes.query.Some? ==> WellTypedRoute(routes.query.value))
    && (routes.mutation.Some? ==> WellTypedRoute(routes.mutation.value))
  }

  function SafeParse(schema: Schema, input: Value): Result<Value, seq<Issue>> {
    match schema
    case MutationSchema => ParseMutationInput(input)
    case QuerySchema => ParseQueryInput(input)
  }

  const MethodNotAllowed: Response := MessageResponse(405, "Method Not Allowed")

  /** `{ statusCode: 400, body: { message: "Validation Error", errors: issues } }`. */
  function ValidationErrorResponse(issues: seq<Issue>): Response {
    Response(400, Obj([("message", Str("Validation Error")), ("errors", IssuesJson(issues))]))
  }

  /** GET goes to the query route and POST to the mutation route when that route exists; nothing else is routed. */
  function SelectRoute(routes: Routes, httpMethod: string): (route: Option<RouteConfig>)
    ensures route.Some? <==> (httpMethod == "GET" && routes.query.Some?) || (httpMethod == "POST" && routes.mutation.Some?)
    ensures httpMethod == "GET" ==> route == routes.query
    ensures httpMethod == "POST" ==> route == routes.mutation
  {
    if httpMethod == "GET" && routes.query.Some? then routes.query
    else if httpMethod == "POST" && routes.mutation.Some? then routes.mutation
    else None
  }

  /** What a handler answers for a validated input, and the store after it. */
  function RunHandler(kind: HandlerKind, input: Value, state: StoreState, paginate: Paginate): (Response, StoreState)
    requires kind == FindOrCreateAttribute ==> Get(input, "buildingAttribute").Str?
  {
    match kind
    case ListAttributes => (QueryHandler(input, state.records, paginate), state)
    case FindOrCreateAttribute =>
      var (record, after) := FindOrCreate(Get(input, "buildingAttribute").s, state);
      (MutationResponse(record), after)
  }

  /** `validateAndHandle`: the schema's output goes to the handler, a failed parse is a 400 listing every issue. */
  function Handled(route: RouteConfig, body: Value, state: StoreState, paginate: Paginate): (r: (Response, StoreState))
    requires WellTypedRoute(route)
    ensures r.0.statusCode == 200 || r.0.statusCode == 400
    ensures r.0.statusCode == 400 ==> r.1 == state
  {
    var validated := if route.validations.None? then Ok(body) else SafeParse(route.validations.value, body);
    match validated
    case Err(issues) => (ValidationErrorResponse(issues), state)
    case Ok(input) => RunHandler(route.handler, input, state, paginate)
  }

  /** The router's own handler, run once both before hooks have let the request through. */
  function Dispatch(routes: Routes, event: Event, state: StoreState, paginate: Paginate): (r: (Response, StoreState))
    requires WellTyped(routes)
    ensures r.0.statusCode == 405 <==> SelectRoute(routes, event.httpMethod).None?
    ensures r.0.statusCode != 200 ==> r.1 == state
  {
    match SelectRoute(routes, event.httpMethod)
    case None => (MethodNotAllowed, state)
    case Some(route) => Handled(route, event.body, state, paginate)
  }

  /**
   * One request through the whole chain: the body parser may throw, the guard
   * may answer 400 with the event as the parser left it, and otherwise the
   * router's handler answers.
   */
  function Pipeline(routes: Routes, event: Event, state: StoreState, toNumber: NumberParser,
                    parseJson: JsonParser, paginate: Paginate): (r: (Outcome, StoreState))
    requires WellTyped(routes)
    ensures !(r.0.Responded? && r.0.response.statusCode == 200) ==> r.1 == state
  {
    match MaterializedBody(event, toNumber, parseJson)
    case Err(message) => (Threw(message), state)
    case Ok(body) =>
      var parsed := event.(body := body);
      match Screen(parsed, parseJson)
      case Some(message) => (Responded(MessageResponse(400, message)), state)
      case None =>
        var (response, after) := Dispatch(routes, parsed, state, paginate);
        (Responded(response), after)
  }

  method ValidateAndHandle(route: RouteConfig, event: Event, store: Store, paginate: Paginate) returns (response: Response)
    requires WellTypedRoute(route)
    modifies store
    ensures (response, store.State()) == Handled(route, event.body, old(store.State()), paginate)
  {
    var input := event.body;
    if route.validations.Some? {
      var result := SafeParse(route.validations.value, input);
      if result.Err? {
        return ValidationErrorResponse(result.error);
      }
      input := result.value;
    }
    match route.handler {
      case ListAttributes =>
        response := QueryHandler(input, store.records, paginate);
      case FindOrCreateAttribute =>
        response := MutationHandler(input, store);
    }
  }

  method RouterHandler(routes: Routes, event: Event, store: Store, paginate: Paginate) returns (response: Response)
    requires WellTyped(routes)
    modifies store
    ensures (response, store.State()) == Dispatch(routes, event, old(store.State()), paginate)
  {
    if event.httpMethod == "GET" && routes.query.Some? {
      response := ValidateAndHandle(routes.query.value, event, store, paginate);
      return;
    }
    if event.httpMethod == "POST" && routes.mutation.Some? {
      response := ValidateAndHandle(routes.mutation.value, event, store, paginate);
      return;
    }
    return MethodNotAllowed;
  }

  /**
   * The chain on one event: a fresh request object goes through the body
   * parser, then the guard, and reaches the router's handler only when no
   * hook has thrown or set a response.
   */
  method Handle(routes: Routes, event: Event, store: Store, toNumber: NumberParser,
                parseJson: JsonParser, paginate: Paginate) returns (outcome: Outcome)
    requires WellTyped(routes)
    modifies store
    ensures (outcome, store.State()) == Pipeline(routes, event, old(store.State()), toNumber, parseJson, paginate)
  {
    var request := new Request(event);
    var thrown := ConditionalJsonBodyParserBefore(request, toNumber, parseJson);
    if thrown.Some? {
      return Threw(thrown.value);
    }
    InjectionGuardBefore(request, parseJson);
    if request.response.Some? {
      return Responded(request.response.value);
    }
    var response := RouterHandler(routes, request.event, store, paginate);
    return Responded(response);
  }

  // ---------------------------------------------------------------------------
  // Properties of the whole chain.

  /**
   * Every request ends in one of four ways: the parser's "Invalid JSON body"
   * exception, a 400 (screening or validation), a 405, or a handler's 200.
   */
  lemma OutcomeKinds(routes: Routes, event: Event, state: StoreState, toNumber: NumberParser,
                     parseJson: JsonParser, paginate: Paginate)
    requires WellTyped(routes)
    ensures var outcome := Pipeline(routes, event, state, toNumber, parseJson, paginate).0;
      (outcome.Threw? ==> outcome.message == InvalidJsonBody)
      && (outcome.Responded? ==> outcome.response.statusCode in {200, 400, 405})
  {
  }

  /**
   * The store changes only when the selected route runs the find-or-create
   * handler, and then by one appended record at most: every earlier record
   * stays in place. With the attribute routes only a POST can change it.
   */
  lemma StoreOnlyGrows(routes: Routes, event: Event, state: StoreState, toNumber: NumberParser,
                       parseJson: JsonParser, paginate: Paginate)
    requires WellTyped(routes)
    ensures var after := Pipeline(routes, event, state, toNumber, parseJson, paginate).1;
      |state.records| <= |after.records| <= |state.records| + 1
      && after.records[..|state.records|] == state.records
      && (after != state ==> SelectRoute(routes, event.httpMethod).Some?
                             && SelectRoute(routes, event.httpMethod).value.handler == FindOrCreateAttribute)
  {
    var body := MaterializedBody(event, toNumber, parseJson);
    if body.Ok? && Screen(event.(body := body.value), parseJson).None? {
      DispatchOnlyGrows(routes, event.(body := body.value), state, paginate);
    }
  }

  lemma OnlyPostWrites(event: Event, state: StoreState, toNumber: NumberParser, parseJson: JsonParser, paginate: Paginate)
    requires event.httpMethod != "POST"
    ensures Pipeline(AttributeRoutes, event, state, toNumber, parseJson, paginate).1 == state
  {
    StoreOnlyGrows(AttributeRoutes, event, state, toNumber, parseJson, paginate);
  }

  lemma DispatchOnlyGrows(routes: Routes, event: Event, state: StoreState, paginate: Paginate)
    requires WellTyped(routes)
    ensures var after := Dispatch(routes, event, state, paginate).1;
      |state.records| <= |after.records| <= |state.records| + 1
      && after.records[..|state.records|] == state.records
      && (after != state ==> SelectRoute(routes, event.httpMethod).Some?
                             && SelectRoute(routes, event.httpMethod).value.handler == FindOrCreateAttribute)
  {
    var route := SelectRoute(routes, event.httpMethod);
    if route.Some? {
      var r := route.value;
      var validated := if r.validations.None? then Ok(event.body) else SafeParse(r.validations.value, event.body);
      if validated.Ok? && r.handler == FindOrCreateAttribute {
        StoreGrowsByAtMostOne(Get(validated.value, "buildingAttribute").s, state);
      }
    }
  }

  /**
   * A screening failure answers 400 with the guard's message before any
   * routing or validation: no handler runs and the store is untouched.
   */
  lemma ScreeningPrecedesRouting(routes: Routes, event: Event, state: StoreState, toNumber: NumberParser,
                                 parseJson: JsonParser, paginate: Paginate)
    requires WellTyped(routes)
    requires MaterializedBody(event, toNumber, parseJson).Ok?
    requires Screen(event.(body := MaterializedBody(event, toNumber, parseJson).value), parseJson).Some?
    ensures Pipeline(routes, event, state, toNumber, parseJson, paginate) ==
      (Responded(MessageResponse(400, Screen(event.(body := MaterializedBody(event, toNumber, parseJson).value), parseJson).value)), state)
  {
  }

  /**
   * A method other than GET and POST is answered 405 only when the guard
   * passes it, and otherwise with the guard's 400; the guard sees the body the
   * parser left. A DELETE, or a PUT without a JSON content type or with a
   * structured body, keeps its body, while a JSON PUT whose string body parses
   * is screened on the parsed value and one whose body does not parse throws
   * before routing.
   */
  lemma UnroutedMethods(routes: Routes, event: Event, state: StoreState, toNumber: NumberParser,
                        parseJson: JsonParser, paginate: Paginate)
    requires WellTyped(routes)
    requires event.httpMethod != "GET" && event.httpMethod != "POST"
    ensures MaterializedBody(event, toNumber, parseJson).Ok? ==>
      var parsed := event.(body := MaterializedBody(event, toNumber, parseJson).value);
      Pipeline(routes, event, state, toNumber, parseJson, paginate)
      == if Screen(parsed, parseJson).None? then (Responded(MethodNotAllowed), state)
         else (Responded(MessageResponse(400, Screen(parsed, parseJson).value)), state)
    ensures !(IsJsonWrite(event) && event.body.Str?) ==> MaterializedBody(event, toNumber, parseJson) == Ok(event.body)
    ensures IsJsonWrite(event) && event.body.Str? && parseJson(event.body.s).Some? ==>
      MaterializedBody(event, toNumber, parseJson) == Ok(parseJson(event.body.s).value)
    ensures IsJsonWrite(event) && event.body.Str? && parseJson(event.body.s).None? ==>
      Pipeline(routes, event, state, toNumber, parseJson, paginate) == (Threw(InvalidJsonBody), state)
  {
    OtherBodiesUnchanged(event, toNumber, parseJson);
    if IsJsonWrite(event) && event.body.Str? {
      JsonWriteIsParsed(event, toNumber, parseJson);
    }
    assert SelectRoute(routes, event.httpMethod).None?;
  }

  /**
   * `validateAndHandle` for every route and body: without a schema the handler
   * gets the body as it is; with one, a failed parse answers 400 "Validation
   * Error" with exactly the parse's issues and runs no handler, and a
   * successful parse hands its output to the handler, whose answer is returned
   * as it is.
   */
  lemma HandledCases(route: RouteConfig, body: Value, state: StoreState, paginate: Paginate)
    requires WellTypedRoute(route)
    ensures route.validations.None? ==> Handled(route, body, state, paginate) == RunHandler(route.handler, body, state, paginate)
    ensures route.validations.Some? && SafeParse(route.validations.value, body).Err? ==>
      Handled(route, body, state, paginate) == (ValidationErrorResponse(SafeParse(route.validations.value, body).error), state)
    ensures route.validations.Some? && SafeParse(route.validations.value, body).Ok? ==>
      Handled(route, body, state, paginate) == RunHandler(route.handler, SafeParse(route.validations.value, body).value, state, paginate)
  {
  }

  /**
   * A request that passes the parser and the guard and has a route is answered
   * by `validateAndHandle` on the body the parser left, and the store becomes
   * the one the handler leaves.
   */
  lemma RoutedRequestIsHandled(routes: Routes, event: Event, state: StoreState, toNumber: NumberParser,
                               parseJson: JsonParser, paginate: Paginate)
    requires WellTyped(routes)
    requires MaterializedBody(event, toNumber, parseJson).Ok?
    requires Screen(event.(body := MaterializedBody(event, toNumber, parseJson).value), parseJson).None?
    requires SelectRoute(routes, event.httpMethod).Some?
    ensures var handled := Handled(SelectRoute(routes, event.httpMethod).value, MaterializedBody(event, toNumber, parseJson).value, state, paginate);
      Pipeline(routes, event, state, toNumber, parseJson, paginate) == (Responded(handled.0), handled.1)
  {
  }

  /**
   * A routed request whose materialised body fails the route's schema, after
   * passing the guard, is answered 400 "Validation Error" with exactly the
   * schema's issues; no handler runs and the store is untouched.
   */
  lemma ValidationFailureAnswers400(routes: Routes, event: Event, state: StoreState, toNumber: NumberParser,
                                    parseJson: JsonParser, paginate: Paginate)
    requires WellTyped(routes)
    requires MaterializedBody(event, toNumber, parseJson).Ok?
    requires Screen(event.(body := MaterializedBody(event, toNumber, parseJson).value), parseJson).None?
    requires SelectRoute(routes, event.httpMethod).Some? && SelectRoute(routes, event.httpMethod).value.validations.Some?
    requires SafeParse(SelectRoute(routes, event.httpMethod).value.validations.value, MaterializedBody(event, toNumber, parseJson).value).Err?
    ensures Pipeline(routes, event, state, toNumber, parseJson, paginate)
      == (Responded(ValidationErrorResponse(SafeParse(SelectRoute(routes, event.httpMethod).value.validations.value,
                                                      MaterializedBody(event, toNumber, parseJson).value).error)), state)
  {
    var route := SelectRoute(routes, event.httpMethod).value;
    var body := MaterializedBody(event, toNumber, parseJson).value;
    RoutedRequestIsHandled(routes, event, state, toNumber, parseJson, paginate);
    HandledCases(route, body, state, paginate);
  }

  /**
   * A POST whose body passes the parser, the guard and the mutation schema is
   * answered 200 with the find-or-create record, and the store becomes the
   * find-or-create store.
   */
  lemma ValidPostFindsOrCreates(event: Event, state: StoreState, toNumber: NumberParser,
                                parseJson: JsonParser, paginate: Paginate)
    requires event.httpMethod == "POST"
    requires MaterializedBody(event, toNumber, parseJson).Ok?
    requires Screen(event.(body := MaterializedBody(event, toNumber, parseJson).value), parseJson).None?
    requires ParseMutationInput(MaterializedBody(event, toNumber, parseJson).value).Ok?
    ensures var value := Get(MaterializedBody(event, toNumber, parseJson).value, "buildingAttribute").s;
      Pipeline(AttributeRoutes, event, state, toNumber, parseJson, paginate)
      == (Responded(MutationResponse(FindOrCreate(value, state).0)), FindOrCreate(value, state).1)
  {
  }

  /** A GET that passes the guard and the query schema is answered with one page, and the store is untouched. */
  lemma ValidGetLists(event: Event, state: StoreState, toNumber: NumberParser,
                      parseJson: JsonParser, paginate: Paginate)
    requires event.httpMethod == "GET"
    requires Screen(event.(body := QueryParams.ParsedQuery(event.query, toNumber)), parseJson).None?
    requires ParseQueryInput(QueryParams.ParsedQuery(event.query, toNumber)).Ok?
    ensures Pipeline(AttributeRoutes, event, state, toNumber, parseJson, paginate)
      == (Responded(QueryHandler(ParseQueryInput(QueryParams.ParsedQuery(event.query, toNumber)).value, state.records, paginate)), state)
  {
    GetBodyIsCoercedQuery(event, toNumber, parseJson);
    var body := QueryParams.ParsedQuery(event.query, toNumber);
    var route := AttributeRoutes.query.value;
    assert SelectRoute(AttributeRoutes, "GET") == Some(route);
    assert Handled(route, body, state, paginate) == (QueryHandler(ParseQueryInput(body).value, state.records, paginate), state);
  }

  // ---------------------------------------------------------------------------
  // Requests with a known outcome.

  /** `{"buildingAttribute":""}` passes the guard and fails the schema's non-empty check, reported at its key. */
  lemma EmptyValueFailsValidation(event: Event, body: Value, state: StoreState, toNumber: NumberParser,
                                  parseJson: JsonParser, paginate: Paginate)
    requires event.httpMethod == "POST" && IsJsonWrite(event) && event.body.Str? && event.query.None?
    requires body == Obj([("buildingAttribute", Str(""))]) && parseJson(event.body.s) == Some(body)
    ensures Pipeline(AttributeRoutes, event, state, toNumber, parseJson, paginate)
      == (Responded(ValidationErrorResponse([Issue(["buildingAttribute"], ExpectedNonEmpty)])), state)
  {
    JsonWriteIsParsed(event, toNumber, parseJson);
    ShortPlainIsClean("", EntryPath("body", "buildingAttribute"));
    SingleEntry("buildingAttribute", Str(""), "body");
    assert Screen(event.(body := body), parseJson) == None;
    assert Get(body, "buildingAttribute") == Str("");
  }

  /**
   * `{"buildingAttribute":"<b>"}` satisfies the schema, yet the guard answers
   * 400 first, naming the first HTML pattern that matches and the key's path.
   */
  lemma MarkupValueIsScreened(event: Event, body: Value, state: StoreState, toNumber: NumberParser,
                              parseJson: JsonParser, paginate: Paginate)
    requires event.httpMethod == "POST" && IsJsonWrite(event) && event.body.Str?
    requires body == Obj([("buildingAttribute", Str("<b>"))]) && parseJson(event.body.s) == Some(body)
    ensures ParseMutationInput(body).Ok?
    ensures Pipeline(AttributeRoutes, event, state, toNumber, parseJson, paginate)
      == (Responded(MessageResponse(400, FailureMessage("body.buildingAttribute", HtmlInjection.HtmlMessage("<b>", Regex.Tag)))), state)
  {
    JsonWriteIsParsed(event, toNumber, parseJson);
    MarkupBodyFails(body);
    assert Get(body, "buildingAttribute") == Str("<b>");
    ScreeningPrecedesRouting(AttributeRoutes, event, state, toNumber, parseJson, paginate);
  }

  lemma MarkupBodyFails(body: Value)
    requires body == Obj([("buildingAttribute", Str("<b>"))])
    ensures CheckForInjection(body, "body") == Some(FailureMessage("body.buildingAttribute", HtmlInjection.HtmlMessage("<b>", Regex.Tag)))
  {
    var path := EntryPath("body", "buildingAttribute");
    assert path == "body.buildingAttribute";
    SingleEntry("buildingAttribute", Str("<b>"), "body");
    MarkupLeafFails(path);
  }

  lemma MarkupLeafFails(path: string)
    ensures CheckString("<b>", path) == Some(FailureMessage(path, HtmlInjection.HtmlMessage("<b>", Regex.Tag)))
  {
    RegexFacts.ShortPlainIsSqlClean("<b>");
    RegexFacts.TagExamples();
    assert Regex.HtmlInjectionPatterns[0] == Regex.Tag;
    CheckStringVerdict("<b>", path);
  }

  /**
   * `?search=123` is coerced to the number 123 before validation, so the
   * query schema rejects it as not a string, while the guard, which screens
   * the raw parameter "123", lets it through.
   */
  lemma NumericSearchFailsValidation(event: Event, state: StoreState, toNumber: NumberParser,
                                     parseJson: JsonParser, paginate: Paginate)
    requires event.httpMethod == "GET" && event.query == Some([("search", QStr("123"))])
    requires QueryParams.NumberLike(toNumber)
    ensures Pipeline(AttributeRoutes, event, state, toNumber, parseJson, paginate)
      == (Responded(ValidationErrorResponse([Issue(["search"], ExpectedString)])), state)
  {
    var body := Obj([("search", Num(Finite(123.0)))]);
    NumericSearchBody(event, body, toNumber, parseJson);
    NumericSearchScreen(event.(body := body), body, parseJson);
    NumericSearchIssues(body);
    assert SelectRoute(AttributeRoutes, event.httpMethod) == AttributeRoutes.query;
    ValidationFailureAnswers400(AttributeRoutes, event, state, toNumber, parseJson, paginate);
  }

  lemma NumericSearchBody(event: Event, body: Value, toNumber: NumberParser, parseJson: JsonParser)
    requires event.httpMethod == "GET" && event.query == Some([("search", QStr("123"))])
    requires QueryParams.NumberLike(toNumber) && body == Obj([("search", Num(Finite(123.0)))])
    ensures MaterializedBody(event, toNumber, parseJson) == Ok(body)
  {
    var params := [("search", QStr("123"))];
    GetBodyIsCoercedQuery(event, toNumber, parseJson);
    assert params[..0] == [];
    assert QueryParams.CoercedEntries(params, toNumber) == [("search", Num(Finite(123.0)))];
  }

  lemma NumericSearchScreen(event: Event, body: Value, parseJson: JsonParser)
    requires event.query == Some([("search", QStr("123"))])
    requires event.body == body && body == Obj([("search", Num(Finite(123.0)))])
    ensures Screen(event, parseJson) == None
  {
    SingleEntry("search", Num(Finite(123.0)), "body");
    ShortPlainIsClean("123", EntryPath("query", "search"));
    assert QueryObject([("search", QStr("123"))]) == Obj([("search", Str("123"))]);
    SingleEntry("search", Str("123"), "query");
  }

  lemma NumericSearchIssues(body: Value)
    requires body == Obj([("search", Num(Finite(123.0)))])
    ensures ParseQueryInput(body) == Err([Issue(["search"], ExpectedString)])
  {
    assert "search"[0] != "limit"[0] && "search"[0] != "next"[0];
    assert Get(body, "limit") == Undefined && Get(body, "next") == Undefined;
    assert Get(body, "search") == Num(Finite(123.0));
    assert FieldIssues(body, "limit", ExpectedNumber) == [];
    assert FieldIssues(body, "next", ExpectedString) == [];
    assert FieldIssues(body, "search", ExpectedString) == [Issue(["search"], ExpectedString)];
    assert QueryIssues(body) == [Issue(["search"], ExpectedString)];
  }

  /**
   * On GET the body already holds the coerced query, an object and so always
   * screened, and the body is screened before the raw query: whenever the
   * coerced query fails the screener, that failure, reported under `body`, is
   * the answer.
   */
  lemma QueryFailureReportedUnderBody(event: Event, state: StoreState, toNumber: NumberParser,
                                      parseJson: JsonParser, paginate: Paginate)
    requires event.httpMethod == "GET"
    requires CheckForInjection(QueryParams.ParsedQuery(event.query, toNumber), "body").Some?
    ensures Pipeline(AttributeRoutes, event, state, toNumber, parseJson, paginate)
      == (Responded(MessageResponse(400, CheckForInjection(QueryParams.ParsedQuery(event.query, toNumber), "body").value)), state)
  {
    GetBodyIsCoercedQuery(event, toNumber, parseJson);
    var body := QueryParams.ParsedQuery(event.query, toNumber);
    assert Truthy(body) && DataToCheck(body, parseJson) == body;
    ScreeningPrecedesRouting(AttributeRoutes, event, state, toNumber, parseJson, paginate);
  }

  /**
   * On GET a query parameter whose value is not numeric and fails a signature
   * is reported at `body.<key>`, never at `query.<key>`, as soon as the
   * parameters before it pass the screener: the body holds the coerced query
   * in parameter order and is screened before the raw query.
   */
  lemma QueryInjectionReportedUnderBody(event: Event, j: nat, key: string, v: string, state: StoreState,
                                        toNumber: NumberParser, parseJson: JsonParser, paginate: Paginate)
    requires event.httpMethod == "GET" && event.query.Some?
    requires j < |event.query.value| && event.query.value[j] == (key, QStr(v))
    requires key != QueryParams.ProtoKey && toNumber(v).None? && !Passes(v)
    requires CheckForInjection(QueryParams.ParsedQuery(Some(event.query.value[..j]), toNumber), "body").None?
    ensures CheckString(v, "body." + key).Some?
    ensures Pipeline(AttributeRoutes, event, state, toNumber, parseJson, paginate)
      == (Responded(MessageResponse(400, CheckString(v, "body." + key).value)), state)
  {
    FailsUnlessPasses(v, "body." + key);
    OffendingQueryValue(event.query.value, j, key, v, toNumber);
    QueryFailureReportedUnderBody(event, state, toNumber, parseJson, paginate);
  }

  lemma OffendingQueryValue(params: Http.QueryParams, j: nat, key: string, v: string, toNumber: NumberParser)
    requires j < |params| && params[j] == (key, QStr(v))
    requires key != QueryParams.ProtoKey && toNumber(v).None? && CheckString(v, "body." + key).Some?
    requires CheckForInjection(QueryParams.ParsedQuery(Some(params[..j]), toNumber), "body").None?
    ensures CheckForInjection(QueryParams.ParsedQuery(Some(params), toNumber), "body") == CheckString(v, "body." + key)
  {
    assert QueryParams.Coerce(v, toNumber) == Str(v);
    BodyEntryPath(key);
    OffendingQueryBody(params, j, toNumber);
  }

  /** After parameters that pass, a failing string parameter is the failure the coerced query reports. */
  lemma {:induction false} OffendingQueryBody(params: Http.QueryParams, j: nat, toNumber: NumberParser)
    requires j < |params| && params[j].0 != QueryParams.ProtoKey && params[j].1.QStr?
    requires CheckForInjection(QueryParams.ParsedQuery(Some(params[..j]), toNumber), "body").None?
    requires CheckForInjection(QueryParams.Coerce(params[j].1.s, toNumber), EntryPath("body", params[j].0)).Some?
    ensures CheckForInjection(QueryParams.ParsedQuery(Some(params), toNumber), "body")
      == CheckForInjection(QueryParams.Coerce(params[j].1.s, toNumber), EntryPath("body", params[j].0))
  {
    QueryParams.ParsedQueryAround(params, j, toNumber);
    FailureAfterCleanPrefix(QueryParams.CoercedEntries(params[..j], toNumber), (params[j].0, QueryParams.Coerce(params[j].1.s, toNumber)),
                            QueryParams.CoercedEntries(params[j + 1..], toNumber), "body");
  }
}
