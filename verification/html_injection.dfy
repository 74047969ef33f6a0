/** `validateHTMLInjection` and `htmlInjectionValidation`: the HTML signatures tried in list order. */
module HtmlInjection {
  import opened Wrappers
  import opened JsValue
  import opened Regex
  import opened SqlInjection
  import RegexFacts

  /**
   * The first pattern of `patterns` that matches `s`: None exactly when none
   * matches, and otherwise a matching pattern that no earlier one precedes.
   */
  function FirstMatch(patterns: seq<HtmlPattern>, s: string): (r: Option<HtmlPattern>)
    ensures r.None? <==> forall k :: 0 <= k < |patterns| ==> !Matches(patterns[k], s)
    ensures r.Some? ==> exists k :: 0 <= k < |patterns| && patterns[k] == r.value && Matches(r.value, s)
                                    && forall m :: 0 <= m < k ==> !Matches(patterns[m], s)
  {
    if patterns == [] then None
    else if Matches(patterns[0], s) then Some(patterns[0])
    else
      FirstMatch(patterns[1..], s)
  }

  function HtmlMessage(value: string, p: HtmlPattern): string {
    "Potential HTML/JS injection (XSS) attempt detected: " + value + " matches pattern " + Source(p)
  }

  lemma HtmlMessageQuotesValue(value: string, p: HtmlPattern)
    ensures Contains(HtmlMessage(value, p), value)
  {
    assert OccursAt(HtmlMessage(value, p), |"Potential HTML/JS injection (XSS) attempt detected: "|, value);
  }

  /**
   * A string is invalid exactly when some HTML signature matches it; the
   * message quotes the string and names the first signature in list order that
   * matches; anything that is not a string is valid, with no message.
   */
  function ValidateHtmlInjection(value: Value): (r: ValidationResult)
    ensures r.isValid <==> !(value.Str? && exists k :: 0 <= k < |HtmlInjectionPatterns| && Matches(HtmlInjectionPatterns[k], value.s))
    ensures r.isValid ==> r.message.None?
    ensures !r.isValid ==> r.message.Some? && Contains(r.message.value, value.s)
    ensures !r.isValid ==> exists k :: 0 <= k < |HtmlInjectionPatterns| && Matches(HtmlInjectionPatterns[k], value.s)
                                       && r.message.value == HtmlMessage(value.s, HtmlInjectionPatterns[k])
                                       && forall m :: 0 <= m < k ==> !Matches(HtmlInjectionPatterns[m], value.s)
  {
    if !value.Str? then ValidationResult(true, None)
    else
      match FirstMatch(HtmlInjectionPatterns, value.s)
      case Some(p) =>
        HtmlMessageQuotesValue(value.s, p);
        ValidationResult(false, Some(HtmlMessage(value.s, p)))
      case None => ValidationResult(true, None)
  }

  /** The boolean form: true for non-strings, otherwise the verdict of ValidateHtmlInjection. */
  function HtmlInjectionValidation(value: Value): (ok: bool)
    ensures ok <==> !(value.Str? && exists k :: 0 <= k < |HtmlInjectionPatterns| && Matches(HtmlInjectionPatterns[k], value.s))
    ensures value.Str? ==> ok == ValidateHtmlInjection(value).isValid
  {
    if !value.Str? then true else ValidateHtmlInjection(value).isValid
  }

  /** The script-block signature is never the one a failure names: the tag signature, tried first, already matched. */
  lemma ScriptBlockNeverReported(s: string)
    ensures FirstMatch(HtmlInjectionPatterns, s) != Some(ScriptBlock)
  {
    var r := FirstMatch(HtmlInjectionPatterns, s);
    if r == Some(ScriptBlock) {
      RegexFacts.ScriptImpliesTag(s);
    }
  }
}
