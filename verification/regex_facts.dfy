/** What the injection signatures accept and reject, stated over all strings and on the examples that show it. */
module RegexFacts {
  import opened Regex

  predicate AllWordChars(s: string) {
    forall m :: 0 <= m < |s| ==> IsWordChar(s[m])
  }

  /** Folding a keyword letter only ever meets an ASCII letter in the input. */
  lemma FoldedLetters(s: string, i: int, w: string)
    requires FoldedAt(s, i, w)
    requires forall m :: 0 <= m < |w| ==> 'A' <= w[m] <= 'Z'
    ensures forall m :: i <= m < i + |w| ==> IsAsciiLetter(s[m])
  {
    forall m | i <= m < i + |w| ensures IsAsciiLetter(s[m]) {
      assert Upper(s[i + (m - i)]) == Upper(w[m - i]);
    }
  }

  /**
   * In a string made only of word characters the sole word boundaries are its
   * two ends, so the SQL signature matches exactly when the whole string is one
   * of the alternatives, ignoring case: keywords are caught only as whole words.
   */
  lemma {:induction false} SqlInWordOnlyStringIsWholeString(s: string)
    requires AllWordChars(s)
    ensures SqlInjectionMatches(s) <==>
      exists k :: 0 <= k < |SqlAlternatives| && |SqlAlternatives[k]| == |s| && FoldedAt(s, 0, SqlAlternatives[k])
  {
    if SqlInjectionMatches(s) {
      var i, k :| 0 <= i <= |s| && 0 <= k < |SqlAlternatives| && SqlMatchAt(s, i, SqlAlternatives[k]);
      var w := SqlAlternatives[k];
      if |w| > 0 {
        assert WordAt(s, i) && WordAt(s, i + |w| - 1);
        assert i == 0 && i + |w| == |s|;
      }
    }
    if exists k :: 0 <= k < |SqlAlternatives| && |SqlAlternatives[k]| == |s| && FoldedAt(s, 0, SqlAlternatives[k]) {
      var k :| 0 <= k < |SqlAlternatives| && |SqlAlternatives[k]| == |s| && FoldedAt(s, 0, SqlAlternatives[k]);
      assert WordAt(s, 0) && WordAt(s, |s| - 1);
      assert SqlMatchAt(s, 0, SqlAlternatives[k]);
    }
  }

  /** `DROP` is caught in any case when it stands as a word. */
  lemma DropTableIsFlagged()
    ensures SqlInjectionMatches("Drop table")
  {
    assert SqlMatchAt("Drop table", 0, SqlAlternatives[4]);
  }

  /** Keywords inside longer words are not caught. */
  lemma KeywordsInsideWordsAreNotFlagged()
    ensures !SqlInjectionMatches("dropdown")
    ensures !SqlInjectionMatches("selected")
  {
    SqlInWordOnlyStringIsWholeString("dropdown");
    SqlInWordOnlyStringIsWholeString("selected");
  }

  /** `\b;\b`: a semicolon matches only between two word characters. */
  lemma SemicolonNeedsWordNeighbours(s: string, i: int)
    ensures SqlMatchAt(s, i, ";") <==>
      0 < i && i + 1 < |s| && s[i] == ';' && IsWordChar(s[i - 1]) && IsWordChar(s[i + 1])
  {
    if SqlMatchAt(s, i, ";") {
      assert Upper(s[i + 0]) == Upper(";"[0]);
    }
    if 0 < i && i + 1 < |s| && s[i] == ';' && IsWordChar(s[i - 1]) && IsWordChar(s[i + 1]) {
      assert FoldedAt(s, i, ";");
    }
  }

  /** `\b--\b`: a double dash matches only between two word characters. */
  lemma DoubleDashNeedsWordNeighbours(s: string, i: int)
    ensures SqlMatchAt(s, i, "--") <==>
      0 < i && i + 2 < |s| && s[i] == '-' && s[i + 1] == '-' && IsWordChar(s[i - 1]) && IsWordChar(s[i + 2])
  {
    if SqlMatchAt(s, i, "--") {
      assert Upper(s[i + 0]) == Upper("--"[0]);
      assert Upper(s[i + 1]) == Upper("--"[1]);
    }
    if 0 < i && i + 2 < |s| && s[i] == '-' && s[i + 1] == '-' && IsWordChar(s[i - 1]) && IsWordChar(s[i + 2]) {
      assert FoldedAt(s, i, "--");
    }
  }

  lemma PunctuationBetweenWordsIsFlagged()
    ensures SqlInjectionMatches("a;b")
    ensures SqlInjectionMatches("x--y")
  {
    SemicolonNeedsWordNeighbours("a;b", 1);
    assert SqlMatchAt("a;b", 1, SqlAlternatives[10]);
    DoubleDashNeedsWordNeighbours("x--y", 1);
    assert SqlMatchAt("x--y", 1, SqlAlternatives[9]);
  }

  /** The letter keywords can only match a run of at least four letters. */
  lemma LetterKeywordNeedsFourLetters(s: string, i: int, k: int)
    requires 0 <= k < 9 && SqlMatchAt(s, i, SqlAlternatives[k])
    ensures i + 4 <= |s| && forall m :: i <= m < i + 4 ==> IsAsciiLetter(s[m])
  {
    FoldedLetters(s, i, SqlAlternatives[k]);
  }

  lemma PunctuationBesideSpacesIsNotFlagged()
    ensures !SqlInjectionMatches("a; b")
    ensures !SqlInjectionMatches(" -- ")
  {
    forall i, k | 0 <= i <= 4 && 0 <= k < |SqlAlternatives|
      ensures !SqlMatchAt("a; b", i, SqlAlternatives[k]) && !SqlMatchAt(" -- ", i, SqlAlternatives[k])
    {
      if k < 9 {
        assert !IsAsciiLetter("a; b"[1]) && !IsAsciiLetter(" -- "[0]);
        if SqlMatchAt("a; b", i, SqlAlternatives[k]) {
          LetterKeywordNeedsFourLetters("a; b", i, k);
        }
        if SqlMatchAt(" -- ", i, SqlAlternatives[k]) {
          LetterKeywordNeedsFourLetters(" -- ", i, k);
        }
      } else if k == 9 {
        DoubleDashNeedsWordNeighbours("a; b", i);
        DoubleDashNeedsWordNeighbours(" -- ", i);
      } else {
        SemicolonNeedsWordNeighbours("a; b", i);
        SemicolonNeedsWordNeighbours(" -- ", i);
      }
    }
  }

  /** A `<` directly followed by a letter, with a `>` later on, is a tag. */
  lemma TagExamples()
    ensures Matches(Tag, "<b>")
    ensures !Matches(Tag, "a < b")
    ensures !Matches(Tag, "<1>")
  {
    assert TagAt("<b>", 0, 2);
  }

  /** The event-handler signature does not fold case and needs no word boundary. */
  lemma EventHandlerExamples()
    ensures Matches(EventHandler, "onclick =")
    ensures !Matches(EventHandler, "ONCLICK=")
    ensures Matches(EventHandler, "donkey=1")
  {
    assert EventHandlerAt("onclick =", 0, 7, 8);
    assert EventHandlerAt("donkey=1", 1, 6, 6);
  }

  /** `javascript:` and `data:` are found anywhere, in any case. */
  lemma UriExamples()
    ensures Matches(DataUri, "metadata: x")
    ensures Matches(DataUri, "DATA:")
    ensures Matches(JavascriptUri, "JavaScript:alert(1)")
  {
    assert FoldedAt("metadata: x", 4, "data:");
    assert FoldedAt("DATA:", 0, "data:");
    assert FoldedAt("JavaScript:alert(1)", 0, "javascript:");
  }

  /** An entity needs `&`, at least one `#` or word character, then `;`. */
  lemma EntityExamples()
    ensures Matches(Entity, "&amp;")
    ensures Matches(Entity, "&#60;")
    ensures !Matches(Entity, "&;")
    ensures !Matches(Entity, "& ;")
  {
    assert EntityAt("&amp;", 0, 4);
    assert EntityAt("&#60;", 0, 4);
    forall i, j | 0 <= i < j < 3 ensures !EntityAt("& ;", i, j) {
      if i == 0 && j == 2 {
        assert !IsWordChar("& ;"[1]);
      }
    }
  }

  /**
   * Every string the script-block signature matches is matched by the tag
   * signature too; since the tag signature comes first in the list, the script
   * signature never changes a verdict.
   */
  lemma ScriptImpliesTag(s: string)
    requires Matches(ScriptBlock, s)
    ensures Matches(Tag, s)
  {
    var i, j, k :| 0 <= i < j < k < |s| && ScriptAt(s, i, j, k);
    assert Upper(s[i + 0]) == Upper("<script"[0]);
    assert Upper(s[i + 1]) == Upper("<script"[1]);
    assert TagAt(s, i, j);
  }

  /** Folding never turns another character into `:`, `<`, `;` or `-`. */
  lemma FoldedPunctuation(s: string, i: int, w: string, m: int)
    requires FoldedAt(s, i, w) && 0 <= m < |w| && !IsAsciiLetter(w[m])
    ensures s[i + m] == w[m]
  {
    assert Upper(s[i + m]) == Upper(w[m]);
  }

  /** A string with none of `<`, `=`, `:` and `&` matches no HTML signature. */
  lemma NoMarkupCharsIsHtmlClean(s: string)
    requires forall m :: 0 <= m < |s| ==> s[m] != '<' && s[m] != '=' && s[m] != ':' && s[m] != '&'
    ensures forall p :: !Matches(p, s)
  {
    forall i | 0 <= i <= |s| ensures !FoldedAt(s, i, "javascript:") && !FoldedAt(s, i, "data:") {
      if FoldedAt(s, i, "javascript:") { FoldedPunctuation(s, i, "javascript:", 10); }
      if FoldedAt(s, i, "data:") { FoldedPunctuation(s, i, "data:", 4); }
    }
    forall i, j, k | 0 <= i < j < k < |s| ensures !ScriptAt(s, i, j, k) {
      if ScriptAt(s, i, j, k) { FoldedPunctuation(s, i, "<script", 0); }
    }
  }

  /** A string shorter than four characters with no `;` and no `-` cannot match the SQL signature. */
  lemma ShortPlainIsSqlClean(s: string)
    requires |s| < 4
    requires forall m :: 0 <= m < |s| ==> s[m] != ';' && s[m] != '-'
    ensures !SqlInjectionMatches(s)
  {
    forall i, k | 0 <= i <= |s| && 0 <= k < |SqlAlternatives| ensures !SqlMatchAt(s, i, SqlAlternatives[k]) {
      if k == 9 { DoubleDashNeedsWordNeighbours(s, i); }
      else if k == 10 { SemicolonNeedsWordNeighbours(s, i); }
      else if SqlMatchAt(s, i, SqlAlternatives[k]) { LetterKeywordNeedsFourLetters(s, i, k); }
    }
  }
}
