# Attribute API request pipeline, in Dafny

This project models the request pipeline of the serverless attribute API. A
gateway event passes through these steps in order:

1. **Body materialiser** (`conditionalJsonBodyParser`). For GET, the body
   becomes the coerced query parameters (`parseQueryParams`). For POST and PUT
   with a JSON content type, a string body is parsed, and the step throws
   "Invalid JSON body" when parsing fails.
2. **Injection guard** (`injectionGuard`). It screens the body and then the
   raw query parameters with `checkForInjection`. That function walks the
   value tree and applies the SQL signature and then the six HTML/XSS
   signatures (`validateSQLInjection`, `validateHTMLInjection`) to every
   string. The first offending string ends the request with a 400 that names
   its path.
3. **Router**. It sends GET to the query route and POST to the mutation route,
   and answers 405 otherwise. It validates the body against the route's schema,
   answering 400 "Validation Error" with the issues. Then it runs the route's
   handler.
4. **Handlers**. The mutation handler is a find-or-create over the attribute
   store. The query handler builds the arguments of one list call (`limit ?? 10`,
   the cursor, and a `contains` filter when `search` is truthy).

## How the model is built

- JavaScript values are the datatype `JsValue.Value`. Objects are entry
  sequences in iteration order.
- The regular expressions are hand-written predicates with the ECMAScript
  RegExp meaning (ECMA-262 section 22.2). `\b`, `\w` and `\s` are defined
  explicitly. The `i` flag is ASCII upper-casing, which is exact because every
  literal the patterns fold is ASCII. No pattern has the `g` flag, so every
  predicate is a function of the input string alone.
- `Number(v)` (ECMA-262 section 7.1.4.1.1) is a function parameter of type
  `NumberParser`; NaN is `None`. The predicate `NumberLike` pins the few
  StringToNumber facts the example properties use.
- `JSON.parse` (RFC 8259) is a function parameter of type `JsonParser`; a
  SyntaxError is `None`.
- The request object is a class, `Http.Request`, with the fields `event` and
  `response`. Each before hook is a method that writes only the field it
  writes in the source. Each hook is proved against a specification function
  (`MaterializedBody`, `Screen`).
- The attribute store is a class, `AttributeStore.Store`. Its `Create`
  appends one record. The mutation handler is a method proved against the
  function `FindOrCreate`.
- The whole chain is `Router.Handle`, proved equal to the function
  `Router.Pipeline`. The lemmas about the pipeline are stated on that function.

One might expect a method other than GET or POST to get 405 whatever its body
and query, without passing through the earlier stages. The code does not do
this. The 405 comes from the router's own handler, which runs after the
body parser and the injection guard. As a result:

- a DELETE whose body or query holds an injection signature gets the guard's
  400;
- a PUT with a JSON content type and a malformed body throws "Invalid JSON body".

The model follows the code (`Router.UnroutedMethods`).

## Model

| member | source | states |
|---|---|---|
| Regex.Upper | packages/validator/src/regex.ts:2 | case folding under the `i` flag: a lower-case ASCII letter maps to its own capital (32 code points lower), and every other character, capitals included, maps to itself |
| Regex.SqlInjectionMatches | packages/validator/src/regex.ts:2 | a match needs at least three characters, since the shortest alternative `;` needs a word character on both sides |
| Regex.Matches | packages/validator/src/regex.ts:7-17 | every HTML pattern needs at least three characters to match |
| RegexFacts.SqlInWordOnlyStringIsWholeString | packages/validator/src/regex.ts:2 | in a string of word characters, the SQL pattern matches only when the whole string is one keyword, in any case |
| RegexFacts.DropTableIsFlagged | packages/validator/src/regex.ts:2 | keywords match case-insensitively: "Drop table" is flagged |
| RegexFacts.KeywordsInsideWordsAreNotFlagged | packages/validator/src/regex.ts:2 | keywords match only as whole words: "dropdown" and "selected" are not flagged |
| RegexFacts.SemicolonNeedsWordNeighbours | packages/validator/src/regex.ts:2 | because of the surrounding `\b`, `;` matches exactly where a word character sits on both sides of it |
| RegexFacts.DoubleDashNeedsWordNeighbours | packages/validator/src/regex.ts:2 | `--` matches exactly where a word character sits on both sides of it |
| RegexFacts.PunctuationBetweenWordsIsFlagged | packages/validator/src/regex.ts:2 | "a;b" and "x--y" are flagged |
| RegexFacts.PunctuationBesideSpacesIsNotFlagged | packages/validator/src/regex.ts:2 | "a; b" and " -- " are not flagged |
| RegexFacts.LetterKeywordNeedsFourLetters | packages/validator/src/regex.ts:2 | every alphabetic keyword match spans at least four ASCII letters |
| RegexFacts.ShortPlainIsSqlClean | packages/validator/src/regex.ts:2 | a string of fewer than four characters without `;` or `-` is never flagged |
| RegexFacts.TagExamples | packages/validator/src/regex.ts:7 | the tag pattern needs `<` followed by an ASCII letter and a later `>`: "<b>" is flagged, "a < b" and "<1>" are not |
| RegexFacts.EventHandlerExamples | packages/validator/src/regex.ts:9 | the event-handler pattern is case-sensitive: "onclick =" is flagged, "ONCLICK=" is not, "donkey=1" is |
| RegexFacts.UriExamples | packages/validator/src/regex.ts:11-13 | "javascript:" and "data:" match anywhere and in any case, so "metadata: x" is flagged |
| RegexFacts.EntityExamples | packages/validator/src/regex.ts:15 | an entity needs `&`, at least one `#` or word character, then `;`: "&amp;" and "&#60;" are flagged, "&;" and "& ;" are not |
| RegexFacts.ScriptImpliesTag | packages/validator/src/regex.ts:7-17 | every string the script-block pattern matches is also matched by the tag pattern |
| RegexFacts.NoMarkupCharsIsHtmlClean | packages/validator/src/regex.ts:5-18 | a string without `<`, `=`, `:` and `&` matches none of the six HTML patterns |
| SqlInjection.SqlMessageQuotesValue | packages/validator/src/sqlInjection/sqlInjection.ts:14-17 | the SQL failure message contains the offending value |
| SqlInjection.ValidateSqlInjection | packages/validator/src/sqlInjection/sqlInjection.ts:8-21 | invalid exactly when the value is a string the SQL pattern matches; a valid result has no message; an invalid one quotes the value |
| SqlInjection.SqlInjectionValidation | packages/validator/src/sqlInjection/sqlInjection.ts:23-26 | true for non-strings, and for a string equal to `validateSQLInjection(v).isValid` |
| HtmlInjection.FirstMatch | packages/validator/src/htmlInjection/htmlInjection.ts:13-20 | the ordered search yields nothing exactly when no pattern matches, and otherwise a matching pattern with no matching pattern before it |
| HtmlInjection.HtmlMessageQuotesValue | packages/validator/src/htmlInjection/htmlInjection.ts:15-18 | the HTML failure message contains the offending value |
| HtmlInjection.ValidateHtmlInjection | packages/validator/src/htmlInjection/htmlInjection.ts:8-23 | invalid exactly when the value is a string some pattern matches; the message quotes the value and names the first matching pattern in list order; a valid result has no message |
| HtmlInjection.HtmlInjectionValidation | packages/validator/src/htmlInjection/htmlInjection.ts:25-28 | true for non-strings, and for a string equal to `validateHTMLInjection(v).isValid` |
| HtmlInjection.ScriptBlockNeverReported | packages/validator/src/htmlInjection/htmlInjection.ts:13-18 | the script-block pattern is never the one a failure names, because the tag pattern before it already matched |
| InjectionGuard.CheckForInjection | apps/web/amplify/middleware/injectionGuard.ts:5-34 | every failure message starts with "Security validation failed at " and the path it was called with; null, undefined, numbers and booleans are never reported |
| InjectionGuard.CheckElements | apps/web/amplify/middleware/injectionGuard.ts:18-24 | a failure found among the elements is reported under the array's own path |
| InjectionGuard.CheckEntries | apps/web/amplify/middleware/injectionGuard.ts:25-31 | a failure found among the entries is reported under the object's own path |
| InjectionGuard.CheckStringVerdict | apps/web/amplify/middleware/injectionGuard.ts:9-17 | a string fails exactly when either signature matches; SQL is checked first, so a string matching both reports the SQL message; otherwise the first HTML match is reported; the message carries the path, or "root" |
| InjectionGuard.FirstFailureIsFirst | apps/web/amplify/middleware/injectionGuard.ts:19-33 | on the flattened leaves, the verdict is None exactly when every leaf is clean, and otherwise it is the failure of the first leaf that is not clean |
| InjectionGuard.CheckIsFirstFailure | apps/web/amplify/middleware/injectionGuard.ts:5-34 | the recursive screener with early exit equals the verdict on its leaves in traversal order: elements by ascending index at `path[i]`, entries in order at `path.key` (just `key` when the path is empty); null, undefined, numbers and booleans have no leaves |
| InjectionGuard.ElementsAreFirstFailure | apps/web/amplify/middleware/injectionGuard.ts:18-24 | the array loop from index i equals the verdict on the leaves of elements i onward |
| InjectionGuard.EntriesAreFirstFailure | apps/web/amplify/middleware/injectionGuard.ts:25-31 | the entry loop from entry i equals the verdict on the leaves of entries i onward |
| InjectionGuard.EntriesAfterCleanPrefix | apps/web/amplify/middleware/injectionGuard.ts:25-31 | entries that all pass leave the verdict to the entries after them |
| InjectionGuard.FailureAfterCleanPrefix | apps/web/amplify/middleware/injectionGuard.ts:25-31 | after entries that all pass, the first failing entry is the one reported |
| InjectionGuard.CleanIffEveryLeafPasses | apps/web/amplify/middleware/injectionGuard.ts:5-34 | the screener returns null exactly when every reachable string passes both validators, and otherwise names the first failing leaf, with every earlier leaf clean |
| InjectionGuard.ShortPlainIsClean | apps/web/amplify/middleware/injectionGuard.ts:9-17 | a string shorter than four characters without signature characters passes, at any path |
| InjectionGuard.SingleEntry | apps/web/amplify/middleware/injectionGuard.ts:25-31 | a one-entry object is judged by its value at `path.key` |
| InjectionGuard.NestedPathExample | apps/web/amplify/middleware/injectionGuard.ts:18-31 | `{filter: ["ok", "x", {value: "a;b"}]}` screened under "body" fails at `body.filter[2].value` |
| InjectionGuard.Screen | apps/web/amplify/middleware/injectionGuard.ts:39-66 | a failure is reported under "body" or under "query"; a falsy body and no query parameters always pass |
| InjectionGuard.ScreenIsFirstFailure | apps/web/amplify/middleware/injectionGuard.ts:39-66 | the hook's verdict is the first failure among the body's leaves (only when the body is truthy; a string body is parsed, or screened raw when parsing fails) followed by the query's leaves |
| InjectionGuard.InjectionGuardBefore | apps/web/amplify/middleware/injectionGuard.ts:37-68 | on a failure the hook sets a 400 response whose body is `{message}` with the screener's message; otherwise it leaves the response as it was; it writes no other field |
| QueryParams.Coerce | packages/api/amplify/util/parseQueryParams.ts:8-13 | a string stays itself exactly when `Number` gives NaN; otherwise it becomes the number `Number` gives |
| QueryParams.CoerceAll | packages/api/amplify/util/parseQueryParams.ts:6-10 | an array value maps element by element, and its length is preserved |
| QueryParams.ParseQueryParams | packages/api/amplify/util/parseQueryParams.ts:1-17 | the loop builds a fresh object equal to the coerced entries of the input in order; an absent input gives `{}` |
| QueryParams.CoercedEntriesAppend | packages/api/amplify/util/parseQueryParams.ts:5-15 | the loop over two parameter lists one after the other adds the entries of the first, then those of the second |
| QueryParams.CoercedKeys | packages/api/amplify/util/parseQueryParams.ts:5-15 | the output's own keys are exactly the input keys whose value is not undefined, in input order, except `__proto__`, whose assignment creates no own key |
| QueryParams.ParsedQueryAt | packages/api/amplify/util/parseQueryParams.ts:5-15 | reading a key of the output gives that key's coerced input value: a string that `Number` parses becomes that number, any other string stays, an array is coerced element by element, and an undefined or absent key reads as undefined; `__proto__` always reads as undefined, because assigning it creates no own property |
| QueryParams.ScalarCoercionExamples | packages/api/amplify/util/parseQueryParams.ts:11-14 | "0" and "-3.5" become numbers, "abc123" stays a string, and "" and whitespace become 0 |
| BodyParser.ContentType | apps/web/amplify/middleware/conditionalJsonBodyParser.ts:9 | a non-empty `content-type` is the content type, even when `Content-Type` is set too; otherwise `Content-Type` is, when present; the result is "" exactly when both are absent or empty, and is otherwise a header value |
| BodyParser.MaterializedBody | apps/web/amplify/middleware/conditionalJsonBodyParser.ts:9-23 | only a method other than GET can fail, and only with "Invalid JSON body"; a GET always yields an object |
| BodyParser.ConditionalJsonBodyParserBefore | apps/web/amplify/middleware/conditionalJsonBodyParser.ts:5-27 | the hook either throws "Invalid JSON body" and leaves the event unchanged, or writes the materialised body and changes no other event field |
| BodyParser.GetBodyIsCoercedQuery | apps/web/amplify/middleware/conditionalJsonBodyParser.ts:10-12 | for GET the body becomes the coerced query, or `{}` without one, whatever the body was |
| BodyParser.ContentTypeKeys | apps/web/amplify/middleware/conditionalJsonBodyParser.ts:9 | the content type is read only from `content-type` and then `Content-Type`: another key never matters, `CONTENT-TYPE` is ignored, an empty value falls through, the lower-case key wins when both are set, and the default is "" |
| BodyParser.JsonWriteIsParsed | apps/web/amplify/middleware/conditionalJsonBodyParser.ts:13-23 | a POST or PUT with a JSON content type and a string body gets the parsed value, or throws "Invalid JSON body" |
| BodyParser.OtherBodiesUnchanged | apps/web/amplify/middleware/conditionalJsonBodyParser.ts:13-16 | outside GET, a structured body, another content type or another method leaves the body unchanged, and only a JSON write can throw |
| AttributeStore.WithValue | apps/web/amplify/attribute/v1/mutation.ts:14-18 | the equality filter returns exactly the stored records holding the value, and its first element is the first such record in store order |
| AttributeStore.FirstWithValue | apps/web/amplify/attribute/v1/mutation.ts:20-25 | the index of the first record holding the value; no earlier record holds it |
| AttributeStore.Store.Create | apps/web/amplify/attribute/v1/mutation.ts:29-31 | appends exactly one new record with the value, and keeps every existing record |
| Mutation.ParseMutationInput | apps/web/amplify/attribute/v1/mutation.ts:4-9 | accepts exactly an object-like input whose `buildingAttribute` is a non-empty string, and outputs only that key; a failure is one issue, at the root for a non-object and at `buildingAttribute` otherwise |
| Mutation.FindOrCreate | apps/web/amplify/attribute/v1/mutation.ts:13-39 | if a record holds the value, the first such record is returned and the store is unchanged; otherwise one new record with the value is appended and returned |
| Mutation.MutationHandler | apps/web/amplify/attribute/v1/mutation.ts:13-39 | the handler answers 200 with the record `FindOrCreate` picks and leaves the store as `FindOrCreate` says |
| Mutation.FindOrCreateIdempotent | apps/web/amplify/attribute/v1/mutation.ts:14-27 | a second request with the same value returns the same record and leaves the store unchanged |
| Mutation.StoreGrowsByAtMostOne | apps/web/amplify/attribute/v1/mutation.ts:14-31 | the store grows by at most one record, only when no record held the value, and existing records stay in place |
| Mutation.UniqueValuesPreserved | apps/web/amplify/attribute/v1/mutation.ts:14-31 | sequential requests keep a store without duplicate values free of duplicates, and afterwards exactly one record holds the value |
| Query.FieldIssues | packages/api/amplify/attribute/v1/query.ts:4-8 | an optional field gives no issue exactly when it is undefined or of its type, and otherwise one issue at its key |
| Query.QueryIssues | packages/api/amplify/attribute/v1/query.ts:4-8 | all three fields are checked; there are no issues exactly when every field fits |
| Query.QueryIssuesAreFieldFailures | packages/api/amplify/attribute/v1/query.ts:4-8 | every reported issue names a key whose value does not fit that key's type |
| Query.ParseQueryInput | packages/api/amplify/attribute/v1/query.ts:4-8 | accepts exactly an object-like input whose limit is a number, whose next and search are strings, each possibly absent; the output has an own key for each of the three that the input has as an own key, with the input's value, and no other key; failures list every bad field, or one root issue for a non-object |
| Query.EveryBadFieldReported | packages/api/amplify/attribute/v1/query.ts:4-8 | each field that does not fit is reported at its key, and no field that fits is reported |
| Query.BuildListArgs | packages/api/amplify/attribute/v1/query.ts:13-23 | the limit is never null or undefined: a limit that is neither is kept, and a null or undefined one becomes 10 (`?? 10`); the cursor is `next`; a `contains` filter on `search` is sent exactly when `search` is truthy |
| Query.QueryHandler | packages/api/amplify/attribute/v1/query.ts:16-32 | the response is 200 with `data` the records of the store's page and `next` the store's cursor |
| Query.ValidatedListArgs | packages/api/amplify/attribute/v1/query.ts:13-23 | for validated input: limit is the given number (0 included) or 10 when absent; next is forwarded as the cursor; a `contains` filter is sent exactly when search is a non-empty string |
| Router.SelectRoute | packages/api/amplify/util/router.ts:55-73 | GET goes to the query route and POST to the mutation route when that route exists; anything else gets no route |
| Router.Handled | packages/api/amplify/util/router.ts:20-45 | a routed request is answered 200 or 400, and a 400 leaves the store unchanged |
| Router.ValidateAndHandle | packages/api/amplify/util/router.ts:20-45 | without a schema, the handler gets the body; with a schema, a failed parse gives 400 "Validation Error" with the issues and no handler call; otherwise the handler gets the parsed output; its response is returned as is |
| Router.HandledCases | packages/api/amplify/util/router.ts:20-45 | for every route and body: without a schema the handler gets the body unchanged; with one, a failed parse is a 400 "Validation Error" with exactly the parse's issues, the store unchanged and no handler run; a successful parse hands its output to the handler, whose answer and store are returned as they are |
| Router.Dispatch | packages/api/amplify/util/router.ts:52-74 | the answer is 405 exactly when no route is selected, and any answer other than 200 leaves the store unchanged |
| Router.Pipeline | packages/api/amplify/util/router.ts:47-74 | a request that does not end in a 200 response leaves the store unchanged |
| Router.RouterHandler | packages/api/amplify/util/router.ts:53-74 | the routed handler's response, or 405 `{message: "Method Not Allowed"}` |
| Router.Handle | packages/api/amplify/util/router.ts:47-52 | the chain runs the body parser, then the guard, then the router's handler, stopping at the first hook that throws or sets a response |
| Router.OutcomeKinds | packages/api/amplify/util/router.ts:30-73 | a request either throws "Invalid JSON body" or is answered with 200, 400 or 405 |
| Router.StoreOnlyGrows | packages/api/amplify/util/router.ts:47-73 | a request changes the store only when the selected route runs find-or-create, and then appends at most one record |
| Router.DispatchOnlyGrows | packages/api/amplify/util/router.ts:55-73 | the router's handler changes the store only through find-or-create, by at most one appended record |
| Router.OnlyPostWrites | apps/web/amplify/attribute/handler.ts:8 | with the attribute routes, no request other than a POST changes the store |
| Router.ScreeningPrecedesRouting | packages/api/amplify/util/router.ts:47-52 | a screening failure answers 400 with the guard's message; there is no validation, no handler call and no store change |
| Router.UnroutedMethods | packages/api/amplify/util/router.ts:70-73 | for any method other than GET and POST, PUT included: whenever the body parser succeeds, the answer is 405 if the guard passes the materialised body and query, and the guard's 400 otherwise, with the store unchanged; the body parser keeps the body unless the request is a JSON write with a string body; such a body is parsed, and a malformed one throws "Invalid JSON body" before anything else runs |
| Router.RoutedRequestIsHandled | packages/api/amplify/util/router.ts:47-68 | a request that passes the body parser and the guard and has a route gets exactly what `validateAndHandle` answers on the materialised body, and the store it leaves |
| Router.ValidationFailureAnswers400 | packages/api/amplify/util/router.ts:30-41 | a routed request whose materialised body passes the guard but fails the route's schema gets 400 "Validation Error" with exactly the schema's issues, and the store is unchanged |
| Router.ValidPostFindsOrCreates | packages/api/amplify/util/router.ts:62-68 | a POST that passes the parser, the guard and the schema gets the find-or-create response and store |
| Router.ValidGetLists | packages/api/amplify/util/router.ts:55-61 | a GET that passes the guard and the schema gets one page of the list, and the store is unchanged |
| Router.EmptyValueFailsValidation | apps/web/amplify/attribute/v1/mutation.ts:4-9 | POST `{"buildingAttribute":""}` gets 400 "Validation Error" with a non-empty issue at `buildingAttribute` |
| Router.MarkupValueIsScreened | apps/web/amplify/middleware/injectionGuard.ts:42-55 | POST `{"buildingAttribute":"<b>"}` passes the schema, but the guard answers 400 first, naming the tag pattern at `body.buildingAttribute` |
| Router.NumericSearchFailsValidation | packages/api/amplify/attribute/v1/query.ts:6-7 | `?search=123` is coerced to a number, so the query schema rejects it with 400 at `search`, after the guard passes it |
| Router.QueryFailureReportedUnderBody | apps/web/amplify/middleware/injectionGuard.ts:42-56 | on any GET whose coerced query fails the screener under "body", the answer is the guard's 400 with that message, and the store is unchanged |
| Router.QueryInjectionReportedUnderBody | apps/web/amplify/middleware/injectionGuard.ts:42-56 | on GET, for a query of any length: when a parameter other than `__proto__` holds a string that `Number` does not parse and that fails a signature, and the parameters before it pass the screener, the answer is the 400 reporting that string at `body.<key>`, because the body already holds the coerced query in parameter order and is screened first |

## Left out

- The event normaliser (`httpEventNormalizer`) is not modelled. Events arrive
  already in the normalised shape: a method, a header map, an optional query
  map and a body.
- The CORS middleware is not modelled. Response headers and OPTIONS handling
  are not part of this model.
- `JSON.stringify` of response bodies is not modelled. A response body is the
  value handed to it, so properties with an `undefined` value are still listed.
- Issue objects are simplified. Each one carries only the failed check (its
  `type`) and its key path. The message, input, expected and received fields
  are not modelled.
- `JSON.parse` and `Number` are function parameters. `NumberLike` fixes only
  the StringToNumber facts that the examples use, and there is no double
  arithmetic.
- The store's pagination is the parameter `Paginate`. Nothing is proved about
  which records a page holds, so page sizes and cursors are not covered.
- AttributeStore.WithValue: the mutation's equality lookup is modelled as a
  scan of the whole table. The data client's own page limit on `list` is not
  modelled, so a match beyond the first page is always found here.
- Record ids come from a counter. The data client generates its own ids, and
  their uniqueness is not part of this model.
- Failures of the data client (a rejected promise, `create` returning null) are
  not modelled. Neither are async interleaving or the race between concurrent
  find-or-create requests: requests run one after another.
- A before hook that sets `request.response` ends the chain. One that throws
  ends it with `Threw`. How the platform turns that exception into a response
  is not modelled.
- Routes pair a schema with a handler from the two that this system defines. A
  route whose handler is missing is modelled as an absent route.
  `Router.WellTyped` requires the find-or-create handler to run behind the
  mutation schema, which is what its declared input type demands.
- Coercion idempotence is not stated. Coercing twice is sometimes expected to
  equal coercing once, but `parseQueryParams` accepts only strings, and
  its output holds numbers, so a second pass is outside its input type.
- Assigning `__proto__` in the coercion loop replaces the result's prototype
  when the value is an array, and is ignored otherwise. The model records only
  that no own key is created. Prototypes are not modelled, so properties
  inherited from the array are not readable here.
- Strings are sequences of Unicode scalar values, while JavaScript strings are
  UTF-16 code units. A lone surrogate, such as `JSON.parse` produces from the
  escape `"\uD800"`, cannot be an input here. No verdict depends on it: a
  surrogate is not a word character, and no pattern names one.
- The query parameters are a sequence of pairs. `QueryParams.ParsedQueryAt`
  requires distinct keys, as a JavaScript object has.
