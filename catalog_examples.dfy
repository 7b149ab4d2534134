/** The catalog on particular words: what the ordering lemmas of
    `CatalogFacts` mean for `let`, `letter`, `infix` and a comment that is
    not at the start of the text. */
module CatalogExamples {
  import opened Text
  import opened Tokens
  import opened CatalogFacts

  /** A standalone `let` is the keyword `let`, matched by the first rule. */
  lemma LetIsKeyword(rest: string)
    requires rest == [] || !IsWordChar(rest[0])
    ensures var c := TokenTypesList(); var t := "let" + rest;
      var k := FirstMatch(c, t);
      && k == 0 && c[k].name == "let" && c[k].kind == Keyword
      && Find(c[k].pattern, t) == "let"
  {
    var c := TokenTypesList();
    var t := "let" + rest;
    LayoutHolds();
    CatalogKeywords();
    assert Keywords[0].name == "let";
    assert Span(t, IsWordChar) == 3 by {
      assert t[1..] == "et" + rest && t[2..] == "t" + rest && t[3..] == rest;
    }
    assert t[..3] == "let";
    KeywordRecognized(c, t, 0);
  }

  /** `letter` is the word of no keyword rule. */
  lemma NoKeywordIsLetter()
    ensures forall i :: 0 <= i < |Keywords| ==> Keywords[i].name != "letter"
  {}

  /** With keyword rules none of whose words is `letter`, `letter` is an
      identifier, although its first three letters are the word `let`. */
  lemma LetterIsIdentIn(c: seq<TokenType>, rest: string)
    requires Layout(c) && forall i :: 0 <= i < 38 ==> c[i].name != "letter"
    requires rest == [] || !IsIdentChar(rest[0])
    ensures var t := "letter" + rest;
      var k := FirstMatch(c, t);
      && k == IdentIndex && c[k].name == "ident"
      && Find(c[k].pattern, t) == "letter"
  {
    var t := "letter" + rest;
    assert t[1..][5..] == rest;
    assert Span(t[1..], IsIdentChar) == 5 by {
      assert t[1..][1..] == "tter" + rest && t[1..][2..] == "ter" + rest;
      assert t[1..][3..] == "er" + rest && t[1..][4..] == "r" + rest;
    }
    assert Span(t, IsWordChar) == 6 by {
      assert t[1..] == "etter" + rest && t[2..] == "tter" + rest && t[3..] == "ter" + rest;
      assert t[4..] == "er" + rest && t[5..] == "r" + rest && t[6..] == rest;
    }
    assert t[..6] == "letter" == t[..1 + Span(t[1..], IsIdentChar)];
    IdentFallback(c, t);
  }

  /** `letter` is an identifier in the catalog. */
  lemma LetterIsIdent(rest: string)
    requires rest == [] || !IsIdentChar(rest[0])
    ensures var c := TokenTypesList(); var t := "letter" + rest;
      var k := FirstMatch(c, t);
      && k == IdentIndex && c[k].name == "ident"
      && Find(c[k].pattern, t) == "letter"
  {
    LayoutHolds();
    CatalogKeywords();
    NoKeywordIsLetter();
    LetterIsIdentIn(TokenTypesList(), rest);
  }

  /** With `in` and `infix` as keyword rules 1 and 19, `infix` is matched
      by the rule for `infix`, not by the earlier rule for its prefix `in`. */
  lemma InfixIsNotInIn(c: seq<TokenType>, rest: string)
    requires Layout(c) && c[1].name == "in" && c[19].name == "infix"
    requires rest == [] || !IsWordChar(rest[0])
    ensures var t := "infix" + rest;
      var k := FirstMatch(c, t);
      && k < |c| && k != 1
      && c[k].name == "infix" && c[k].kind == Keyword
      && Find(c[k].pattern, t) == "infix"
  {
    var t := "infix" + rest;
    assert Span(t, IsWordChar) == 5 by {
      assert t[1..] == "nfix" + rest && t[2..] == "fix" + rest && t[3..] == "ix" + rest;
      assert t[4..] == "x" + rest && t[5..] == rest;
    }
    assert t[..5] == "infix";
    KeywordRecognized(c, t, 19);
  }

  /** Keyword rules 1 and 19 are `in` and `infix`. */
  lemma InAndInfix()
    ensures |Keywords| == 38 && Keywords[1].name == "in" && Keywords[19].name == "infix"
  {}

  /** In the catalog, `infix` is not read as `in` followed by `fix`. */
  lemma InfixIsNotIn(rest: string)
    requires rest == [] || !IsWordChar(rest[0])
    ensures var c := TokenTypesList(); var t := "infix" + rest;
      var k := FirstMatch(c, t);
      && k < |c| && c[1].name == "in" && k != 1
      && c[k].name == "infix" && c[k].kind == Keyword
      && Find(c[k].pattern, t) == "infix"
  {
    LayoutHolds();
    CatalogKeywords();
    InAndInfix();
    InfixIsNotInIn(TokenTypesList(), rest);
  }

  /** The COMMENT rule's block-comment alternative is not anchored: on
      `x {-c-}` it finds the comment two characters in. */
  lemma CommentNotAnchored()
    ensures CommentSpan("x {-c-}") == (2, 5)
    ensures Find(CommentPat, "x {-c-}") == "{-c-}"
  {
    var t := "x {-c-}";
    assert t[0..2][0] == 'x' && t[1..3][0] == ' ';
    assert !StartsWith(t, "--") && !OccursAt(t, "{-", 0) && !OccursAt(t, "{-", 1);
    assert OccursAt(t, "{-", 2);
    assert IndexFrom(t, "-}", 4) == 5 by {
      assert t[4..6][0] == 'c';
      assert t[5..7] == "-}";
    }
    assert BlockCommentFrom(t, 0) == BlockCommentFrom(t, 2) == (2, 5);
    assert CommentSpan(t) == (2, 5);
  }

  /** On `'{-c-}` the COMMENT rule matches the block comment one character
      in. */
  lemma CommentAfterQuote()
    ensures CommentSpan("'{-c-}") == (1, 5)
    ensures Find(CommentPat, "'{-c-}") == "{-c-}"
  {
    var t := "'{-c-}";
    assert t[0..2][0] == '\'';
    assert !StartsWith(t, "--") && !OccursAt(t, "{-", 0);
    assert OccursAt(t, "{-", 1);
    assert IndexFrom(t, "-}", 3) == 4 by {
      assert t[3..5][0] == 'c';
      assert t[4..6] == "-}";
    }
    assert BlockCommentFrom(t, 0) == BlockCommentFrom(t, 1) == (1, 5);
    assert CommentSpan(t) == (1, 5);
  }

  /** No name, literal or space pattern matches at a quote followed by
      `{`. */
  lemma QuoteBraceIsNoLiteral()
    ensures var t := "'{-c-}";
      && Find(IdentPat, t) == [] && Find(ConstructorPat, t) == []
      && Find(IntegerPat, t) == [] && Find(FloatPat, t) == []
      && Find(StringPat, t) == [] && Find(CharPat, t) == []
      && Find(MultilineStringPat, t) == [] && Find(SpacePat, t) == []
  {
    var t := "'{-c-}";
    assert Span(t, IsDigit) == 0;
    assert !StartsWith(t, "\"\"\"");
  }

  /** On `'{-c-}` the search passes over every keyword, operator, name and
      literal rule. */
  lemma QuoteSkipsToPunctuation(c: seq<TokenType>)
    requires Layout(c)
    ensures FirstMatch(c, "'{-c-}") == FirstMatchFrom(c, "'{-c-}", 70)
  {
    var t := "'{-c-}";
    SkipKeywordsAndOperators(c, t);
    QuoteBraceIsNoLiteral();
    NoNameOrLiteralMatches(c, t);
    SkipNone(c, t, IdentIndex, 70);
  }

  /** On `'{-c-}` no rule before COMMENT matches (a quote starts no
      keyword, operator, name, literal, punctuation or space), so COMMENT
      wins with the comment that begins one character in. */
  lemma CommentWinsIn(c: seq<TokenType>)
    requires Layout(c)
    ensures var t := "'{-c-}";
      && FirstMatch(c, t) == CommentIndex
      && Find(c[CommentIndex].pattern, t) == "{-c-}"
  {
    var t := "'{-c-}";
    QuoteSkipsToPunctuation(c);
    NoPunctuationMatches(c, t);
    SkipNone(c, t, 70, SpaceIndex);
    QuoteBraceIsNoLiteral();
    CommentAfterQuote();
    assert FirstMatchFrom(c, t, SpaceIndex) == CommentIndex;
  }

  lemma CommentWins()
    ensures var c := TokenTypesList(); var t := "'{-c-}";
      && FirstMatch(c, t) == CommentIndex
      && c[CommentIndex].name == "COMMENT" && c[CommentIndex].kind == Skip
      && Find(c[CommentIndex].pattern, t) == "{-c-}"
  {
    LayoutHolds();
    CommentWinsIn(TokenTypesList());
  }
}
