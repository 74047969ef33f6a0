/** `validateSQLInjection` and `sqlInjectionValidation`: the SQL signature applied to one value. */
module SqlInjection {
  import opened Wrappers
  import opened JsValue
  import opened Regex

  /** `{ isValid, message? }`, the result type both validators declare. */
  datatype ValidationResult = ValidationResult(isValid: bool, message: Option<string>)

  function SqlMessage(value: string): string {
    "Potential SQL injection attempt detected: " + value + " matches pattern " + SqlSource
  }

  lemma SqlMessageQuotesValue(value: string)
    ensures Contains(SqlMessage(value), value)
  {
    assert OccursAt(SqlMessage(value), |"Potential SQL injection attempt detected: "|, value);
  }

  /**
   * A string is invalid exactly when the SQL signature matches it, and the
   * failure message then quotes the string; anything that is not a string is
   * valid; a valid result carries no message.
   */
  function ValidateSqlInjection(value: Value): (r: ValidationResult)
    ensures r.isValid <==> !(value.Str? && SqlInjectionMatches(value.s))
    ensures r.isValid ==> r.message.None?
    ensures !r.isValid ==> r.message.Some? && Contains(r.message.value, value.s)
  {
    if !value.Str? then ValidationResult(true, None)
    else if SqlInjectionMatches(value.s) then
      SqlMessageQuotesValue(value.s);
      ValidationResult(false, Some(SqlMessage(value.s)))
    else ValidationResult(true, None)
  }

  /** The boolean form: true for non-strings, otherwise the verdict of ValidateSqlInjection. */
  function SqlInjectionValidation(value: Value): (ok: bool)
    ensures ok <==> !(value.Str? && SqlInjectionMatches(value.s))
    ensures value.Str? ==> ok == ValidateSqlInjection(value).isValid
  {
    if !value.Str? then true else ValidateSqlInjection(value).isValid
  }
}
