/**
 * `checkForInjection`, the recursive screener, and the `injectionGuard`
 * before hook that screens the body and then the query parameters.
 */
module InjectionGuard {
  import opened Wrappers
  import opened JsValue
  import opened Regex
  import opened SqlInjection
  import opened HtmlInjection
  import opened Http
  import RegexFacts

  function PathLabel(path: string): string {
    if path == "" then "root" else path
  }

  const FailurePrefix: string := "Security validation failed at "

  function FailureMessage(path: string, detail: string): string {
    FailurePrefix + PathLabel(path) + ": " + detail
  }

  /** The message reports a location at `path` or below it. */
  predicate ReportsUnder(message: string, path: string) {
    FailurePrefix + path <= message
  }

  /** A location below `path + ext` is below `path`. */
  lemma ReportsUnderExtension(message: string, path: string, ext: string)
    requires ReportsUnder(message, path + ext)
    ensures ReportsUnder(message, path)
  {
    assert FailurePrefix + (path + ext) == (FailurePrefix + path) + ext;
  }

  lemma ReportsUnderElement(message: string, path: string, i: nat)
    requires ReportsUnder(message, ElementPath(path, i))
    ensures ReportsUnder(message, path)
  {
    assert ElementPath(path, i) == path + ("[" + NatToString(i) + "]");
    ReportsUnderExtension(message, path, "[" + NatToString(i) + "]");
  }

  lemma ReportsUnderEntry(message: string, path: string, key: string)
    requires ReportsUnder(message, EntryPath(path, key))
    ensures ReportsUnder(message, path)
  {
    if path == "" {
      ReportsUnderExtension(message, "", key);
      assert "" + key == key;
    } else {
      assert EntryPath(path, key) == path + ("." + key);
      ReportsUnderExtension(message, path, "." + key);
    }
  }

  /** `${path}[${i}]`. */
  function ElementPath(path: string, i: nat): string {
    path + "[" + NatToString(i) + "]"
  }

  /** `path ? `${path}.${key}` : key`. */
  function EntryPath(path: string, key: string): string {
    if path == "" then key else path + "." + key
  }

  /** The path of an entry of the screened body. */
  lemma BodyEntryPath(key: string)
    ensures EntryPath("body", key) == "body." + key
  {
  }

  /** Some HTML signature matches `s`. */
  predicate HtmlMatchesSome(s: string) {
    exists k :: 0 <= k < |HtmlInjectionPatterns| && Matches(HtmlInjectionPatterns[k], s)
  }

  /** `s` passes both validators. */
  predicate Passes(s: string) {
    !SqlInjectionMatches(s) && !HtmlMatchesSome(s)
  }

  /** The string branch: SQL first, then HTML; the message carries the path. */
  function CheckString(s: string, path: string): Option<string> {
    var sqlCheck := ValidateSqlInjection(Str(s));
    if !sqlCheck.isValid then Some(FailureMessage(path, sqlCheck.message.value))
    else
      var htmlCheck := ValidateHtmlInjection(Str(s));
      if !htmlCheck.isValid then Some(FailureMessage(path, htmlCheck.message.value))
      else None
  }

  /**
   * A string fails exactly when either signature matches it; a string that
   * matches the SQL signature is reported with the SQL message whether or not
   * an HTML signature matches too, and otherwise the first HTML match is named.
   */
  lemma CheckStringVerdict(s: string, path: string)
    ensures CheckString(s, path).None? <==> Passes(s)
    ensures SqlInjectionMatches(s) ==> CheckString(s, path) == Some(FailureMessage(path, SqlMessage(s)))
    ensures !SqlInjectionMatches(s) && HtmlMatchesSome(s) ==>
      exists k :: 0 <= k < |HtmlInjectionPatterns| && Matches(HtmlInjectionPatterns[k], s)
                  && CheckString(s, path) == Some(FailureMessage(path, HtmlMessage(s, HtmlInjectionPatterns[k])))
                  && forall m :: 0 <= m < k ==> !Matches(HtmlInjectionPatterns[m], s)
  {
  }

  /** A string that does not pass both validators fails at any path. */
  lemma FailsUnlessPasses(s: string, path: string)
    requires !Passes(s)
    ensures CheckString(s, path).Some?
  {
    CheckStringVerdict(s, path);
  }

  /**
   * `checkForInjection(data, path)`: None (`null`) when the value is clean, or
   * Some(message) for the first offending string; `null`, `undefined`, numbers
   * and booleans are clean.
   */
  function CheckForInjection(data: Value, path: string): (r: Option<string>)
    ensures r.Some? ==> ReportsUnder(r.value, path)
    ensures !data.Str? && !IsObjectLike(data) ==> r.None?
    decreases data, 1, 0
  {
    match data
    case Str(s) =>
      assert FailureMessage(path, "") == FailurePrefix + PathLabel(path) + ": ";
      CheckString(s, path)
    case Arr(items) => CheckElements(items, 0, path)
    case Obj(entries) => CheckEntries(entries, 0, path)
    case _ => None
  }

  /** The index loop over an array from element `i` on, stopping at the first failure. */
  function CheckElements(items: seq<Value>, i: nat, path: string): (r: Option<string>)
    ensures r.Some? ==> ReportsUnder(r.value, path)
    decreases Arr(items), 0, |items| - i
  {
    if i >= |items| then None
    else
      var result := CheckForInjection(items[i], ElementPath(path, i));
      if result.Some? then
        ReportsUnderElement(result.value, path, i);
        result
      else CheckElements(items, i + 1, path)
  }

  /** The loop over `Object.entries(data)` from entry `i` on, stopping at the first failure. */
  function CheckEntries(entries: seq<(string, Value)>, i: nat, path: string): (r: Option<string>)
    ensures r.Some? ==> ReportsUnder(r.value, path)
    decreases Obj(entries), 0, |entries| - i
  {
    if i >= |entries| then None
    else
      var result := CheckForInjection(entries[i].1, EntryPath(path, entries[i].0));
      if result.Some? then
        ReportsUnderEntry(result.value, path, entries[i].0);
        result
      else CheckEntries(entries, i + 1, path)
  }

  /** The entry loop over `pre + post`, started past `pre`, is the loop over `post`. */
  lemma {:induction false} EntriesShift(pre: seq<(string, Value)>, post: seq<(string, Value)>, j: nat, path: string)
    ensures CheckEntries(pre + post, |pre| + j, path) == CheckEntries(post, j, path)
    decreases |post| - j
  {
    if j < |post| {
      assert (pre + post)[|pre| + j] == post[j];
      EntriesShift(pre, post, j + 1, path);
    }
  }

  /** Entries that all pass do not change the verdict on the entries after them. */
  lemma {:induction false} EntriesAfterCleanPrefix(pre: seq<(string, Value)>, post: seq<(string, Value)>, i: nat, path: string)
    requires i <= |pre| && CheckEntries(pre, i, path).None?
    ensures CheckEntries(pre + post, i, path) == CheckEntries(post, 0, path)
    decreases |pre| - i
  {
    if i == |pre| {
      EntriesShift(pre, post, 0, path);
    } else {
      EntriesSkipClean(pre, i, path);
      assert (pre + post)[i] == pre[i];
      EntriesSkipClean(pre + post, i, path);
      EntriesAfterCleanPrefix(pre, post, i + 1, path);
    }
  }

  /** A clean entry passes the verdict on to the entries after it. */
  lemma EntriesSkipClean(entries: seq<(string, Value)>, i: nat, path: string)
    requires i < |entries| && CheckForInjection(entries[i].1, EntryPath(path, entries[i].0)).None?
    ensures CheckEntries(entries, i, path) == CheckEntries(entries, i + 1, path)
  {
  }

  /** After entries that all pass, a failing entry is the one reported. */
  lemma FailureAfterCleanPrefix(pre: seq<(string, Value)>, entry: (string, Value), post: seq<(string, Value)>, path: string)
    requires CheckEntries(pre, 0, path).None?
    requires CheckForInjection(entry.1, EntryPath(path, entry.0)).Some?
    ensures CheckForInjection(Obj(pre + ([entry] + post)), path) == CheckForInjection(entry.1, EntryPath(path, entry.0))
  {
    EntriesAfterCleanPrefix(pre, [entry] + post, 0, path);
    assert ([entry] + post)[0] == entry;
  }

  // ---------------------------------------------------------------------------
  // Reference definition: the strings reachable from a value, in traversal order.

  datatype Leaf = Leaf(path: string, text: string)

  /** Every string reachable from `v`, with its path, arrays by ascending index and objects in entry order. */
  function Leaves(v: Value, path: string): seq<Leaf>
    decreases v, 1, 0
  {
    match v
    case Str(s) => [Leaf(path, s)]
    case Arr(items) => ElementLeaves(items, 0, path)
    case Obj(entries) => EntryLeaves(entries, 0, path)
    case _ => []
  }

  function ElementLeaves(items: seq<Value>, i: nat, path: string): seq<Leaf>
    decreases Arr(items), 0, |items| - i
  {
    if i >= |items| then [] else Leaves(items[i], ElementPath(path, i)) + ElementLeaves(items, i + 1, path)
  }

  function EntryLeaves(entries: seq<(string, Value)>, i: nat, path: string): seq<Leaf>
    decreases Obj(entries), 0, |entries| - i
  {
    if i >= |entries| then []
    else Leaves(entries[i].1, EntryPath(path, entries[i].0)) + EntryLeaves(entries, i + 1, path)
  }

  /** The verdict on the first leaf that fails a signature. */
  function FirstFailure(leaves: seq<Leaf>): Option<string> {
    if leaves == [] then None
    else
      var r := CheckString(leaves[0].text, leaves[0].path);
      if r.Some? then r else FirstFailure(leaves[1..])
  }

  /** FirstFailure is None exactly when every leaf is clean, and otherwise names the first leaf that is not. */
  lemma FirstFailureIsFirst(leaves: seq<Leaf>)
    ensures FirstFailure(leaves).None? <==> forall k :: 0 <= k < |leaves| ==> CheckString(leaves[k].text, leaves[k].path).None?
    ensures FirstFailure(leaves).Some? ==>
      exists k :: 0 <= k < |leaves| && FirstFailure(leaves) == CheckString(leaves[k].text, leaves[k].path)
                  && forall m :: 0 <= m < k ==> CheckString(leaves[m].text, leaves[m].path).None?
  {
    FirstFailureIsFirstSome(leaves);
    if FirstFailure(leaves).None? {
      FirstSomeNone(leaves, Verdict);
    } else {
      var k := FirstSomeIndex(leaves, Verdict);
      assert Verdict(leaves[k]) == CheckString(leaves[k].text, leaves[k].path);
    }
  }

  /** The verdict on one leaf. */
  function Verdict(leaf: Leaf): Option<string> {
    CheckString(leaf.text, leaf.path)
  }

  /** The first failure that `verdict` reports along `leaves`, whatever the verdict function. */
  function FirstSome(leaves: seq<Leaf>, verdict: Leaf -> Option<string>): Option<string> {
    if leaves == [] then None
    else if verdict(leaves[0]).Some? then verdict(leaves[0])
    else FirstSome(leaves[1..], verdict)
  }

  lemma {:induction false} FirstFailureIsFirstSome(leaves: seq<Leaf>)
    ensures FirstFailure(leaves) == FirstSome(leaves, Verdict)
  {
    if leaves != [] {
      FirstFailureIsFirstSome(leaves[1..]);
    }
  }

  lemma {:induction false} FirstSomeNone(leaves: seq<Leaf>, verdict: Leaf -> Option<string>)
    requires FirstSome(leaves, verdict).None?
    ensures forall k :: 0 <= k < |leaves| ==> verdict(leaves[k]).None?
  {
    if leaves != [] {
      var rest := leaves[1..];
      FirstSomeNone(rest, verdict);
      assert forall k :: 0 < k < |leaves| ==> leaves[k] == rest[k - 1];
    }
  }

  lemma {:induction false} FirstSomeIndex(leaves: seq<Leaf>, verdict: Leaf -> Option<string>) returns (k: nat)
    requires FirstSome(leaves, verdict).Some?
    ensures k < |leaves| && FirstSome(leaves, verdict) == verdict(leaves[k])
    ensures forall m :: 0 <= m < k ==> verdict(leaves[m]).None?
  {
    if verdict(leaves[0]).Some? {
      k := 0;
    } else {
      var rest := leaves[1..];
      var j := FirstSomeIndex(rest, verdict);
      k := j + 1;
      assert forall m :: 0 < m < k ==> leaves[m] == rest[m - 1];
    }
  }

  lemma {:induction false} FirstFailureAppend(a: seq<Leaf>, b: seq<Leaf>)
    ensures FirstFailure(a + b) == if FirstFailure(a).Some? then FirstFailure(a) else FirstFailure(b)
  {
    if a != [] {
      assert (a + b)[0] == a[0];
      assert (a + b)[1..] == a[1..] + b;
      FirstFailureAppend(a[1..], b);
    } else {
      assert a + b == b;
    }
  }

  /**
   * The screener reports exactly the first failing leaf in traversal order:
   * its early exits agree with checking the flattened leaves one by one.
   */
  lemma {:induction false} CheckIsFirstFailure(v: Value, path: string)
    ensures CheckForInjection(v, path) == FirstFailure(Leaves(v, path))
    decreases v, 1, 0
  {
    match v
    case Arr(items) => ElementsAreFirstFailure(items, 0, path);
    case Obj(entries) => EntriesAreFirstFailure(entries, 0, path);
    case Str(s) =>
      assert Leaves(v, path)[1..] == [];
    case _ =>
  }

  lemma {:induction false} ElementsAreFirstFailure(items: seq<Value>, i: nat, path: string)
    ensures CheckElements(items, i, path) == FirstFailure(ElementLeaves(items, i, path))
    decreases Arr(items), 0, |items| - i
  {
    if i < |items| {
      CheckIsFirstFailure(items[i], ElementPath(path, i));
      ElementsAreFirstFailure(items, i + 1, path);
      FirstFailureAppend(Leaves(items[i], ElementPath(path, i)), ElementLeaves(items, i + 1, path));
    }
  }

  lemma {:induction false} EntriesAreFirstFailure(entries: seq<(string, Value)>, i: nat, path: string)
    ensures CheckEntries(entries, i, path) == FirstFailure(EntryLeaves(entries, i, path))
    decreases Obj(entries), 0, |entries| - i
  {
    if i < |entries| {
      CheckIsFirstFailure(entries[i].1, EntryPath(path, entries[i].0));
      EntriesAreFirstFailure(entries, i + 1, path);
      FirstFailureAppend(Leaves(entries[i].1, EntryPath(path, entries[i].0)), EntryLeaves(entries, i + 1, path));
    }
  }

  /**
   * The screener passes a value exactly when every reachable string passes both
   * validators; otherwise it returns the failure of the first offending leaf.
   */
  lemma CleanIffEveryLeafPasses(v: Value, path: string)
    ensures CheckForInjection(v, path).None? <==> forall leaf :: leaf in Leaves(v, path) ==> Passes(leaf.text)
    ensures CheckForInjection(v, path).Some? ==>
      var leaves := Leaves(v, path);
      exists k :: 0 <= k < |leaves| && CheckForInjection(v, path) == CheckString(leaves[k].text, leaves[k].path)
                  && forall m :: 0 <= m < k ==> Passes(leaves[m].text)
  {
    CheckIsFirstFailure(v, path);
    var leaves := Leaves(v, path);
    FirstFailureIsFirst(leaves);
    LeavesPass(leaves);
  }

  lemma LeavesPass(leaves: seq<Leaf>)
    ensures forall leaf :: leaf in leaves ==> (CheckString(leaf.text, leaf.path).None? <==> Passes(leaf.text))
  {
    forall leaf | leaf in leaves ensures CheckString(leaf.text, leaf.path).None? <==> Passes(leaf.text) {
      CheckStringVerdict(leaf.text, leaf.path);
    }
  }

  /** A string shorter than any SQL keyword and free of the signature characters passes both validators, whatever its path. */
  lemma ShortPlainIsClean(s: string, path: string)
    requires |s| < 4
    requires forall m :: 0 <= m < |s| ==> s[m] !in {';', '-', '<', '=', ':', '&'}
    ensures CheckString(s, path).None?
  {
    RegexFacts.ShortPlainIsSqlClean(s);
    RegexFacts.NoMarkupCharsIsHtmlClean(s);
    CheckStringVerdict(s, path);
  }

  /** An object with one entry is judged by its value, under the entry's path. */
  lemma SingleEntry(key: string, v: Value, path: string)
    ensures CheckForInjection(Obj([(key, v)]), path) == CheckForInjection(v, EntryPath(path, key))
  {
    assert CheckEntries([(key, v)], 1, path) == None;
  }

  lemma PathPieces()
    ensures ElementPath("body.filter", 2) == "body.filter[2]"
    ensures EntryPath("body.filter[2]", "value") == "body.filter[2].value"
    ensures EntryPath("body", "filter") == "body.filter"
  {
    assert NatToString(2) == "2";
  }

  lemma SemicolonLeafFails(path: string)
    ensures CheckString("a;b", path) == Some(FailureMessage(path, SqlMessage("a;b")))
  {
    RegexFacts.PunctuationBetweenWordsIsFlagged();
    CheckStringVerdict("a;b", path);
  }

  lemma InnerObjectFails()
    ensures CheckForInjection(Obj([("value", Str("a;b"))]), "body.filter[2]")
            == Some(FailureMessage("body.filter[2].value", SqlMessage("a;b")))
  {
    PathPieces();
    SingleEntry("value", Str("a;b"), "body.filter[2]");
    SemicolonLeafFails("body.filter[2].value");
  }

  lemma ElementsStep(items: seq<Value>, expected: Option<string>)
    requires items == [Str("ok"), Str("x"), Obj([("value", Str("a;b"))])]
    requires expected == Some(FailureMessage("body.filter[2].value", SqlMessage("a;b")))
    ensures CheckElements(items, 0, "body.filter") == expected
  {
    ElementsFromOne(items, expected);
    ShortPlainIsClean("ok", ElementPath("body.filter", 0));
    ElementsSkipClean(items, 0, "body.filter");
  }

  /** A clean element passes the verdict on to the elements after it. */
  lemma ElementsSkipClean(items: seq<Value>, i: nat, path: string)
    requires i < |items| && CheckForInjection(items[i], ElementPath(path, i)).None?
    ensures CheckElements(items, i, path) == CheckElements(items, i + 1, path)
  {
  }

  lemma ElementsFromOne(items: seq<Value>, expected: Option<string>)
    requires items == [Str("ok"), Str("x"), Obj([("value", Str("a;b"))])]
    requires expected == Some(FailureMessage("body.filter[2].value", SqlMessage("a;b")))
    ensures CheckElements(items, 1, "body.filter") == expected
  {
    PathPieces();
    InnerObjectFails();
    assert CheckElements(items, 2, "body.filter") == expected;
    ShortPlainIsClean("x", ElementPath("body.filter", 1));
  }

  /** The dotted and bracketed path names the first offending leaf: here `body.filter[2].value`. */
  lemma NestedPathExample(items: seq<Value>)
    requires items == [Str("ok"), Str("x"), Obj([("value", Str("a;b"))])]
    ensures CheckForInjection(Obj([("filter", Arr(items))]), "body")
            == Some(FailureMessage("body.filter[2].value", SqlMessage("a;b")))
  {
    var expected := Some(FailureMessage("body.filter[2].value", SqlMessage("a;b")));
    PathPieces();
    ElementsStep(items, expected);
    assert CheckForInjection(Arr(items), "body.filter") == expected;
    assert CheckEntries([("filter", Arr(items))], 0, "body") == expected;
  }

  // ---------------------------------------------------------------------------
  // The before hook.

  /** `typeof body === "string" ? JSON.parse(body) : body`, falling back to the raw body when parsing throws. */
  function DataToCheck(body: Value, parseJson: JsonParser): Value {
    if body.Str? then
      match parseJson(body.s)
      case Some(parsed) => parsed
      case None => body
    else body
  }

  /** The screening verdict on an event: the body under "body" when truthy, then the query under "query" when present. */
  function Screen(event: Event, parseJson: JsonParser): (r: Option<string>)
    ensures r.Some? ==> ReportsUnder(r.value, "body") || ReportsUnder(r.value, "query")
    ensures !Truthy(event.body) && event.query.None? ==> r.None?
  {
    var bodyResult := if Truthy(event.body) then CheckForInjection(DataToCheck(event.body, parseJson), "body") else None;
    if bodyResult.Some? then bodyResult
    else if event.query.Some? then CheckForInjection(QueryObject(event.query.value), "query")
    else None
  }

  /** The leaves the hook screens, in the order it screens them. */
  function ScreenedLeaves(event: Event, parseJson: JsonParser): seq<Leaf> {
    (if Truthy(event.body) then Leaves(DataToCheck(event.body, parseJson), "body") else [])
    + (if event.query.Some? then Leaves(QueryObject(event.query.value), "query") else [])
  }

  /**
   * The hook reports the first offending string among the body's strings
   * followed by the query's: a body failure wins over a query failure, a falsy
   * body is not screened, and an absent query adds nothing.
   */
  lemma ScreenIsFirstFailure(event: Event, parseJson: JsonParser)
    ensures Screen(event, parseJson) == FirstFailure(ScreenedLeaves(event, parseJson))
  {
    var bodyLeaves := if Truthy(event.body) then Leaves(DataToCheck(event.body, parseJson), "body") else [];
    var queryLeaves := if event.query.Some? then Leaves(QueryObject(event.query.value), "query") else [];
    if Truthy(event.body) { CheckIsFirstFailure(DataToCheck(event.body, parseJson), "body"); }
    if event.query.Some? { CheckIsFirstFailure(QueryObject(event.query.value), "query"); }
    FirstFailureAppend(bodyLeaves, queryLeaves);
  }

  /** `injectionGuard().before`: sets a 400 response with the screener's message on the first failure, and nothing else. */
  method InjectionGuardBefore(request: Request, parseJson: JsonParser)
    modifies request`response
    ensures Screen(request.event, parseJson).Some? ==>
      request.response == Some(MessageResponse(400, Screen(request.event, parseJson).value))
    ensures Screen(request.event, parseJson).None? ==> request.response == old(request.response)
  {
    var event := request.event;
    var dataToCheck: Value := Obj([]);
    if Truthy(event.body) {
      if event.body.Str? {
        match parseJson(event.body.s)
        case Some(parsed) => dataToCheck := parsed;
        case None => dataToCheck := event.body;
      } else {
        dataToCheck := event.body;
      }
      var injectionResult := CheckForInjection(dataToCheck, "body");
      if injectionResult.Some? {
        request.response := Some(MessageResponse(400, injectionResult.value));
        return;
      }
    }
    if event.query.Some? {
      var injectionResult := CheckForInjection(QueryObject(event.query.value), "query");
      if injectionResult.Some? {
        request.response := Some(MessageResponse(400, injectionResult.value));
        return;
      }
    }
  }
}
