/**
 * The injection signatures of the validator package, each written as a
 * predicate over the input string that holds exactly when the ECMAScript
 * regular expression (ECMA-262 section 22.2, no `u` flag, no `g` flag) finds a
 * match somewhere in the string. Without the `g` flag `test` keeps no state,
 * so each predicate is a function of the string alone.
 *
 * Case folding with the `i` flag and without `u` compares characters after
 * ECMAScript's Canonicalize, which never maps a non-ASCII character to an
 * ASCII one; every literal these patterns fold is ASCII, so ASCII upper-casing
 * (Upper) decides those comparisons exactly.
 */
module Regex {

  /** `\w` without the `u` flag: ASCII letters, digits and `_`. */
  predicate IsWordChar(c: char) {
    ('a' <= c <= 'z') || ('A' <= c <= 'Z') || ('0' <= c <= '9') || c == '_'
  }

  /** `[a-z]` under the `i` flag. */
  predicate IsAsciiLetter(c: char) {
    ('a' <= c <= 'z') || ('A' <= c <= 'Z')
  }

  /** `\s`: the WhiteSpace and LineTerminator code points of ECMA-262 (sections 12.2 and 12.3). */
  predicate IsSpace(c: char) {
    c == '\t' || c == '\n' || c == '\U{B}' || c == '\U{C}' || c == '\r' || c == ' '
    || c == '\U{A0}' || c == '\U{1680}' || ('\U{2000}' <= c <= '\U{200A}')
    || c == '\U{2028}' || c == '\U{2029}' || c == '\U{202F}' || c == '\U{205F}'
    || c == '\U{3000}' || c == '\U{FEFF}'
  }

  /** ASCII upper-casing, the part of Canonicalize that matters for ASCII literals. */
  function Upper(c: char): (u: char)
    ensures 'a' <= c <= 'z' ==> u as int == c as int - 32
    ensures !('a' <= c <= 'z') ==> u == c
    ensures IsAsciiLetter(c) <==> IsAsciiLetter(u) && ('A' <= u <= 'Z')
  {
    if 'a' <= c <= 'z' then (c as int - 32) as char else c
  }

  /** `w` occurs at position `i` of `s`, ignoring ASCII case. */
  predicate FoldedAt(s: string, i: int, w: string) {
    0 <= i && i + |w| <= |s| && forall k :: 0 <= k < |w| ==> Upper(s[i + k]) == Upper(w[k])
  }

  // ---------------------------------------------------------------------------
  // SQL_INJECTION_REGEX  /(\b(SELECT|UPDATE|DELETE|INSERT|DROP|ALTER|CREATE|EXEC|UNION|--|;)\b)/i

  const SqlAlternatives: seq<string> :=
    ["SELECT", "UPDATE", "DELETE", "INSERT", "DROP", "ALTER", "CREATE", "EXEC", "UNION", "--", ";"]

  const SqlSource: string := @"/(\b(SELECT|UPDATE|DELETE|INSERT|DROP|ALTER|CREATE|EXEC|UNION|--|;)\b)/i"

  predicate WordAt(s: string, i: int) {
    0 <= i < |s| && IsWordChar(s[i])
  }

  /** `\b`: a word character on exactly one side of position `i`. */
  predicate IsWordBoundary(s: string, i: int) {
    WordAt(s, i - 1) != WordAt(s, i)
  }

  predicate SqlMatchAt(s: string, i: int, w: string) {
    FoldedAt(s, i, w) && IsWordBoundary(s, i) && IsWordBoundary(s, i + |w|)
  }

  predicate SqlInjectionMatches(s: string)
    ensures SqlInjectionMatches(s) ==> |s| >= 3
  {
    SqlMatchNeedsThree(s);
    exists i, k | 0 <= i <= |s| && 0 <= k < |SqlAlternatives| :: SqlMatchAt(s, i, SqlAlternatives[k])
  }

  /** Every alternative needs at least three characters: a keyword has four letters, and `;` and `--` need a word character on each side. */
  lemma SqlMatchNeedsThree(s: string)
    ensures (exists i, k | 0 <= i <= |s| && 0 <= k < |SqlAlternatives| :: SqlMatchAt(s, i, SqlAlternatives[k])) ==> |s| >= 3
  {
    if exists i, k | 0 <= i <= |s| && 0 <= k < |SqlAlternatives| :: SqlMatchAt(s, i, SqlAlternatives[k]) {
      var i, k :| 0 <= i <= |s| && 0 <= k < |SqlAlternatives| && SqlMatchAt(s, i, SqlAlternatives[k]);
      var w := SqlAlternatives[k];
      if k >= 9 {
        assert Upper(s[i + 0]) == Upper(w[0]);
        assert !WordAt(s, i);
      }
    }
  }

  // ---------------------------------------------------------------------------
  // HTML_INJECTION_PATTERNS, in list order

  datatype HtmlPattern = Tag | EventHandler | JavascriptUri | DataUri | Entity | ScriptBlock

  const HtmlInjectionPatterns: seq<HtmlPattern> :=
    [Tag, EventHandler, JavascriptUri, DataUri, Entity, ScriptBlock]

  /** What `${pattern}` prints: the pattern's source between slashes, then its flags. */
  function Source(p: HtmlPattern): string {
    match p
    case Tag => @"/<[a-z][\s\S]*?>/i"
    case EventHandler => @"/on\w+\s*=/"
    case JavascriptUri => @"/javascript:/i"
    case DataUri => @"/data:/i"
    case Entity => @"/&[#\w]+;/"
    case ScriptBlock => @"/<script[\s\S]*?>[\s\S]*?<\/script>/i"
  }

  /** `<[a-z][\s\S]*?>` with `i`: `<` at i, a letter after it, a `>` at j further on. */
  predicate TagAt(s: string, i: int, j: int) {
    0 <= i && i + 1 < j < |s| && s[i] == '<' && IsAsciiLetter(s[i + 1]) && s[j] == '>'
  }

  /** `on\w+\s*=`, case-sensitive: `on` at i, word characters up to j, spaces up to k, `=` at k. */
  predicate EventHandlerAt(s: string, i: int, j: int, k: int) {
    0 <= i && i + 2 < j <= k < |s| && s[i] == 'o' && s[i + 1] == 'n'
    && (forall m :: i + 2 <= m < j ==> IsWordChar(s[m]))
    && (forall m :: j <= m < k ==> IsSpace(s[m]))
    && s[k] == '='
  }

  /** `&[#\w]+;`: `&` at i, then `#` or word characters, then `;` at j. */
  predicate EntityAt(s: string, i: int, j: int) {
    0 <= i && i + 1 < j < |s| && s[i] == '&' && s[j] == ';'
    && forall m :: i < m < j ==> s[m] == '#' || IsWordChar(s[m])
  }

  /** `<script[\s\S]*?>[\s\S]*?<\/script>` with `i`: `<script` at i, a `>` at j, `</script>` at k. */
  predicate ScriptAt(s: string, i: int, j: int, k: int) {
    FoldedAt(s, i, "<script") && i + 7 <= j < k && j < |s| && s[j] == '>' && FoldedAt(s, k, "</script>")
  }

  /** `pattern.test(s)`. */
  predicate Matches(p: HtmlPattern, s: string)
    ensures Matches(p, s) ==> |s| >= 3
  {
    match p
    case Tag => exists i, j | 0 <= i < j < |s| :: TagAt(s, i, j)
    case EventHandler => exists i, j, k | 0 <= i < j <= k < |s| :: EventHandlerAt(s, i, j, k)
    case JavascriptUri => exists i | 0 <= i <= |s| :: FoldedAt(s, i, "javascript:")
    case DataUri => exists i | 0 <= i <= |s| :: FoldedAt(s, i, "data:")
    case Entity => exists i, j | 0 <= i < j < |s| :: EntityAt(s, i, j)
    case ScriptBlock => exists i, j, k | 0 <= i < j < k < |s| :: ScriptAt(s, i, j, k)
  }
}
