/** What the order of the catalog guarantees about which rule wins. */
module CatalogFacts {
  import opened Text
  import opened Tokens

  /** Position of a class in the catalog's group order. */
  function Rank(c: Class): nat {
    match c
    case Keyword => 0
    case Operator => 1
    case Variable => 2
    case Constructor => 3
    case Constant => 4
    case Punctuation => 5
    case Skip => 6
    case Preprocessor => 7
  }

  predicate LowerWord(w: string) {
    |w| > 0 && forall c :: c in w ==> IsLower(c)
  }

  predicate ProperPrefix(a: string, b: string) {
    |a| < |b| && b[..|a|] == a
  }

  /** A cheap witness that `a` is not a proper prefix of `b` (enough for
      symbols of at most three characters). */
  predicate Separated(a: string, b: string) {
    |a| >= |b| || (|a| > 0 && a[0] != b[0]) || (|a| > 1 && a[1] != b[1])
  }

  /** First characters of the operator symbols. */
  predicate OperatorStart(c: char) {
    c == ':' || c == '-' || c == '=' || c == '/' || c == '>' || c == '<'
    || c == '+' || c == '!' || c == '*' || c == '&' || c == '|'
  }

  /** The characters of the one-character punctuation rules. */
  predicate PunctuationChar(c: char) {
    c == '.' || c == ',' || c == ';' || c == '(' || c == ')' || c == '{' || c == '}'
    || c == '[' || c == ']' || c == '`' || c == '\\' || c == '@' || c == '#' || c == '$'
    || c == '%' || c == '^' || c == '&' || c == '|' || c == '?' || c == '~'
  }

  // ---------------------------------------------------------------------------
  // Shape of each group

  lemma KeywordShape()
    ensures forall i :: 0 <= i < |Keywords| ==>
      && Keywords[i].pattern.Word?
      && Keywords[i].kind == Keyword
      && Keywords[i].name == Keywords[i].pattern.w
  {}

  // The keyword list is checked in five slices only to keep each proof
  // small for the solver.
  lemma KeywordsLowerA() ensures forall i :: 0 <= i < 8 ==> LowerWord(Keywords[i].pattern.w) {}
  lemma KeywordsLowerB() ensures forall i :: 8 <= i < 16 ==> LowerWord(Keywords[i].pattern.w) {}
  lemma KeywordsLowerC() ensures forall i :: 16 <= i < 24 ==> LowerWord(Keywords[i].pattern.w) {}
  lemma KeywordsLowerD() ensures forall i :: 24 <= i < 31 ==> LowerWord(Keywords[i].pattern.w) {}
  lemma KeywordsLowerE() ensures forall i :: 31 <= i < 38 ==> LowerWord(Keywords[i].pattern.w) {}

  lemma KeywordsLower()
    ensures forall i :: 0 <= i < |Keywords| ==> Keywords[i].pattern.Word? && LowerWord(Keywords[i].pattern.w)
  {
    KeywordShape();
    KeywordsLowerA(); KeywordsLowerB(); KeywordsLowerC(); KeywordsLowerD(); KeywordsLowerE();
  }

  lemma OperatorShape()
    ensures forall i :: 0 <= i < |Operators| ==>
      && Operators[i].pattern.Symbol?
      && Operators[i].kind == Operator
      && 0 < |Operators[i].pattern.s| <= 3
      && OperatorStart(Operators[i].pattern.s[0])
      && (i < 22 ==> Operators[i].pattern.s[0] != '&' && Operators[i].pattern.s[0] != '|')
  {}

  lemma OperatorsSeparatedA()
    ensures forall i, j :: 0 <= j <= i < 13 ==> Separated(Operators[j].pattern.s, Operators[i].pattern.s)
  {}

  lemma OperatorsSeparatedB()
    ensures forall i, j :: 0 <= j <= i && 13 <= i < 25 ==> Separated(Operators[j].pattern.s, Operators[i].pattern.s)
  {}

  lemma PunctuationShape()
    ensures forall i :: 0 <= i < |Punctuations| ==>
      && Punctuations[i].pattern.Symbol?
      && Punctuations[i].kind == Punctuation
      && |Punctuations[i].pattern.s| == 1
      && PunctuationChar(Punctuations[i].pattern.s[0])
  {}

  lemma CatalogKeywords()
    ensures var c := TokenTypesList(); forall i :: 0 <= i < 38 ==> c[i] == Keywords[i]
  {}

  lemma CatalogOperators()
    ensures var c := TokenTypesList(); forall i :: 38 <= i < 63 ==> c[i] == Operators[i - 38]
  {}

  lemma CatalogPunctuations()
    ensures var c := TokenTypesList(); forall i :: 70 <= i < 90 ==> c[i] == Punctuations[i - 70]
  {}

  /** The rules at the catalog positions the lexer's behaviour singles out. */
  lemma CatalogSingles()
    ensures var c := TokenTypesList();
      && c[60] == TokenType("AND", Symbol("&&"), Operator)
      && c[61] == TokenType("OR", Symbol("||"), Operator)
      && c[IdentIndex] == TokenType("ident", IdentPat, Variable)
      && c[ConstructorIndex] == TokenType("constructor", ConstructorPat, Constructor)
      && c[IntegerIndex] == TokenType("integer", IntegerPat, Constant)
      && c[FloatIndex] == TokenType("float", FloatPat, Constant)
      && c[StringIndex] == TokenType("string", StringPat, Constant)
      && c[68] == TokenType("char", CharPat, Constant)
      && c[MultilineStringIndex] == TokenType("multiline_string", MultilineStringPat, Constant)
      && c[75] == TokenType("LBRACE", Symbol("{"), Punctuation)
      && c[SpaceIndex] == TokenType("SPACE", SpacePat, Skip)
      && c[CommentIndex] == TokenType("COMMENT", CommentPat, Skip)
      && c[PragmaIndex] == TokenType("PRAGMA", PragmaPat, Preprocessor)
  {}

  /** The facts about the catalog's layout that the lexing lemmas rely on,
      stated for any rule sequence `c` so that proofs from them need not
      unfold the catalog itself. */
  ghost predicate Layout(c: seq<TokenType>) {
    |c| == 93 && KeywordLayout(c) && OperatorLayout(c) && PunctuationLayout(c) && FixedRules(c)
  }

  ghost predicate KeywordLayout(c: seq<TokenType>)
    requires |c| == 93
  {
    forall k :: 0 <= k < 38 ==>
      && c[k].pattern.Word? && c[k].kind == Keyword
      && c[k].name == c[k].pattern.w && LowerWord(c[k].pattern.w)
  }

  ghost predicate OperatorLayout(c: seq<TokenType>)
    requires |c| == 93
  {
    forall k :: 38 <= k < 63 ==>
      && c[k].pattern.Symbol? && c[k].kind == Operator
      && 0 < |c[k].pattern.s| <= 3 && OperatorStart(c[k].pattern.s[0])
      && (k < 60 ==> c[k].pattern.s[0] != '&' && c[k].pattern.s[0] != '|')
  }

  ghost predicate PunctuationLayout(c: seq<TokenType>)
    requires |c| == 93
  {
    forall k :: 70 <= k < 90 ==>
      && c[k].pattern.Symbol? && c[k].kind == Punctuation && |c[k].pattern.s| == 1
      && PunctuationChar(c[k].pattern.s[0])
  }

  ghost predicate FixedRules(c: seq<TokenType>)
    requires |c| == 93
  {
    && c[60] == TokenType("AND", Symbol("&&"), Operator)
    && c[61] == TokenType("OR", Symbol("||"), Operator)
    && c[IdentIndex] == TokenType("ident", IdentPat, Variable)
    && c[ConstructorIndex] == TokenType("constructor", ConstructorPat, Constructor)
    && c[IntegerIndex] == TokenType("integer", IntegerPat, Constant)
    && c[FloatIndex] == TokenType("float", FloatPat, Constant)
    && c[StringIndex] == TokenType("string", StringPat, Constant)
    && c[68] == TokenType("char", CharPat, Constant)
    && c[MultilineStringIndex] == TokenType("multiline_string", MultilineStringPat, Constant)
    && c[75] == TokenType("LBRACE", Symbol("{"), Punctuation)
    && c[SpaceIndex] == TokenType("SPACE", SpacePat, Skip)
    && c[CommentIndex] == TokenType("COMMENT", CommentPat, Skip)
    && c[PragmaIndex] == TokenType("PRAGMA", PragmaPat, Preprocessor)
  }

  /** No operator symbol is a proper prefix of a later one. */
  ghost predicate OperatorsSeparated(c: seq<TokenType>)
    requires |c| == 93
  {
    forall i, j :: 38 <= j <= i < 63 && c[i].pattern.Symbol? && c[j].pattern.Symbol? ==>
      Separated(c[j].pattern.s, c[i].pattern.s)
  }

  lemma KeywordLayoutHolds() ensures KeywordLayout(TokenTypesList()) {
    CatalogKeywords();
    KeywordShape();
    KeywordsLower();
  }

  lemma OperatorLayoutHolds() ensures OperatorLayout(TokenTypesList()) {
    CatalogOperators();
    OperatorShape();
  }

  lemma PunctuationLayoutHolds() ensures PunctuationLayout(TokenTypesList()) {
    CatalogPunctuations();
    PunctuationShape();
  }

  lemma OperatorsSeparatedHolds() ensures OperatorsSeparated(TokenTypesList()) {
    CatalogOperators();
    OperatorsSeparatedA();
    OperatorsSeparatedB();
  }

  /** The catalog has that layout. */
  lemma LayoutHolds()
    ensures Layout(TokenTypesList())
  {
    KeywordLayoutHolds();
    OperatorLayoutHolds();
    PunctuationLayoutHolds();
    CatalogSingles();
  }

  /** `\bw\b` for a lower-case word `w` matches exactly when the leading run
      of word characters is `w`, and then matches `w`. */
  lemma WordRuleFacts(r: TokenType, t: string)
    requires r.pattern.Word? && LowerWord(r.pattern.w)
    ensures Find(r.pattern, t) != [] <==> t[..Span(t, IsWordChar)] == r.pattern.w
    ensures Find(r.pattern, t) != [] ==> Find(r.pattern, t) == r.pattern.w && IsLower(t[0])
  {
    var w := r.pattern.w;
    WordMatchIsWordRun(w, t);
    assert w[0] in w;
    if WordMatches(w, t) {
      assert t[..|w|][0] == t[0];
    }
  }

  /** A literal symbol rule matches exactly when the text starts with its
      (non-empty) symbol, and then matches that symbol. */
  lemma SymbolRuleFacts(r: TokenType, t: string)
    requires r.pattern.Symbol?
    ensures Find(r.pattern, t) != [] <==> |r.pattern.s| > 0 && StartsWith(t, r.pattern.s)
    ensures Find(r.pattern, t) != [] ==> Find(r.pattern, t) == r.pattern.s && t[0] == r.pattern.s[0]
  {
    var s := r.pattern.s;
    if StartsWith(t, s) && |s| > 0 {
      assert t[..|s|][0] == t[0];
    }
  }

  // ---------------------------------------------------------------------------
  // The catalog as a whole

  /** A catalog with that layout lists keywords, operators, variables,
      constructors, constants, punctuation, skip and preprocessor rules, in
      that order, each group non-empty. */
  lemma ClassOrder(c: seq<TokenType>)
    requires Layout(c)
    ensures forall i, j :: 0 <= i <= j < |c| ==> Rank(c[i].kind) <= Rank(c[j].kind)
    ensures c[0].kind == Keyword && c[38].kind == Operator && c[63].kind == Variable && c[64].kind == Constructor
      && c[65].kind == Constant && c[70].kind == Punctuation && c[90].kind == Skip && c[92].kind == Preprocessor
  {
    assert forall i :: 0 <= i < |c| ==> Rank(c[i].kind) == GroupRank(i);
  }

  function GroupRank(i: nat): nat {
    if i < 38 then 0 else if i < 63 then 1 else if i < 64 then 2 else if i < 65 then 3
    else if i < 70 then 4 else if i < 90 then 5 else if i < 92 then 6 else 7
  }

  // ---------------------------------------------------------------------------
  // Keywords need a word boundary on both sides

  /** `\bw\b` matches at the start of `t` exactly when the maximal run of
      word characters at the start of `t` is `w`. */
  lemma {:induction false} WordMatchIsWordRun(w: string, t: string)
    requires LowerWord(w)
    ensures WordMatches(w, t) <==> t[..Span(t, IsWordChar)] == w
  {
    var n := Span(t, IsWordChar);
    if WordMatches(w, t) {
      assert t[..|w|] == w;
      forall k | 0 <= k < |w| ensures IsWordChar(t[k]) {
        assert w[k] in w;
      }
      assert w[|w| - 1] in w;
      assert n >= |w|;
      assert n == |w|;
    }
    if t[..n] == w {
      assert w[0] in w && w[|w| - 1] in w;
      assert t[0] == w[0] && t[|w| - 1] == w[|w| - 1];
    }
  }

  /** What `\d+` matches: the leading run of digits. */
  lemma IntegerFind(t: string)
    ensures Find(IntegerPat, t) == t[..Span(t, IsDigit)]
  {}

  /** When `[a-z_][a-zA-Z0-9_']*` matches, and what it matches. */
  lemma IdentFind(t: string)
    ensures Find(IdentPat, t) != [] <==> |t| > 0 && (IsLower(t[0]) || t[0] == '_')
    ensures |t| > 0 && (IsLower(t[0]) || t[0] == '_') ==>
      Find(IdentPat, t) == t[..1 + Span(t[1..], IsIdentChar)]
  {}

  /** What `[A-Z][a-zA-Z0-9_']*` matches: the first character and the whole
      run of identifier characters after it, on text starting upper-case. */
  lemma ConstructorFind(t: string)
    ensures Find(ConstructorPat, t) != [] <==> |t| > 0 && IsUpper(t[0])
    ensures |t| > 0 && IsUpper(t[0]) ==> Find(ConstructorPat, t) == t[..1 + Span(t[1..], IsIdentChar)]
  {}

  /** What `\d+\.\d+` matches: a digit run, a dot and a digit run, each run
      maximal. */
  lemma FloatFind(t: string)
    ensures var d := Span(t, IsDigit);
      Find(FloatPat, t) != [] <==> 0 < d && d + 1 < |t| && t[d] == '.' && IsDigit(t[d + 1])
    ensures var d := Span(t, IsDigit);
      Find(FloatPat, t) != [] ==> Find(FloatPat, t) == t[..d + 1 + Span(t[d + 1..], IsDigit)]
  {
    var n := FloatLen(t);
    assert Find(FloatPat, t) == t[..PrefixLen(FloatPat, t)] == t[..n];
    FloatLenFacts(t);
  }

  lemma FloatLenFacts(t: string)
    ensures var d := Span(t, IsDigit);
      FloatLen(t) > 0 <==> 0 < d && d + 1 < |t| && t[d] == '.' && IsDigit(t[d + 1])
    ensures var d := Span(t, IsDigit);
      FloatLen(t) > 0 ==> d + 1 < |t| && FloatLen(t) == d + 1 + Span(t[d + 1..], IsDigit)
  {
    var d := Span(t, IsDigit);
    if 0 < d < |t| && t[d] == '.' {
      var rest := t[d + 1..];
      if |rest| > 0 {
        assert rest[0] == t[d + 1];
      }
    }
  }

  /** What `"[^"]*"` matches: from an opening quote up to and including the
      next quote, when there is one. */
  lemma StringFind(t: string)
    ensures var m := Find(StringPat, t);
      m != [] <==> |t| > 0 && t[0] == '"' && exists k :: 1 <= k < |t| && t[k] == '"'
    ensures var m := Find(StringPat, t);
      m != [] ==> 2 <= |m| && m[0] == '"' && m[|m| - 1] == '"' && forall k :: 0 < k < |m| - 1 ==> m[k] != '"'
  {
    var m := Find(StringPat, t);
    if |t| > 0 && t[0] == '"' {
      var close := IndexFrom(t, "\"", 1);
      forall k | 1 <= k < |t| ensures OccursAt(t, "\"", k) <==> t[k] == '"' {
        assert t[k..k + 1][0] == t[k];
      }
      if close != -1 {
        assert m == t[..close + 1];
      }
    }
  }

  /** What `'[^']'` matches: a quote, any other character and a quote. */
  lemma CharFind(t: string)
    ensures Find(CharPat, t) != [] <==> |t| >= 3 && t[0] == '\'' && t[1] != '\'' && t[2] == '\''
    ensures Find(CharPat, t) != [] ==> Find(CharPat, t) == t[..3]
  {}

  /** What `\s` matches: one space character. */
  lemma SpaceFind(t: string)
    ensures Find(SpacePat, t) != [] <==> |t| > 0 && IsSpace(t[0])
    ensures Find(SpacePat, t) != [] ==> Find(SpacePat, t) == t[..1]
  {}

  /** What `"""[\s\S]*?"""` matches: from an opening `"""` up to the end of
      the first `"""` that starts after it. */
  lemma MultilineStringFind(t: string)
    ensures Find(MultilineStringPat, t) != [] <==> StartsWith(t, "\"\"\"") && IndexFrom(t, "\"\"\"", 3) != -1
    ensures Find(MultilineStringPat, t) != [] ==> Find(MultilineStringPat, t) == t[..IndexFrom(t, "\"\"\"", 3) + 3]
  {}

  /** What `\{-#[\s\S]*?#-\}` matches: from an opening `{-#` up to the end
      of the first `#-}` that starts after it. */
  lemma PragmaFind(t: string)
    ensures Find(PragmaPat, t) != [] <==> StartsWith(t, "{-#") && IndexFrom(t, "#-}", 3) != -1
    ensures Find(PragmaPat, t) != [] ==> Find(PragmaPat, t) == t[..IndexFrom(t, "#-}", 3) + 3]
  {}

  /** No rule of `c` from `lo` up to `hi` matches `t`. */
  ghost predicate NoneMatch(c: seq<TokenType>, t: string, lo: nat, hi: nat)
    requires lo <= hi <= |c|
  {
    forall j :: lo <= j < hi ==> Find(c[j].pattern, t) == []
  }

  /** The search for the first matching rule passes over rules that do not match. */
  lemma {:induction false} SkipNone(c: seq<TokenType>, t: string, lo: nat, hi: nat)
    requires lo <= hi <= |c| && NoneMatch(c, t, lo, hi)
    ensures FirstMatchFrom(c, t, lo) == FirstMatchFrom(c, t, hi)
    decreases hi - lo
  {
    if lo < hi {
      SkipNone(c, t, lo + 1, hi);
    }
  }

  /** Text whose leading word is the word of a keyword rule is matched by
      the first keyword rule for that word, and by nothing before it. */
  lemma KeywordRecognized(c: seq<TokenType>, t: string, i: nat)
    requires Layout(c) && i < 38
    requires t[..Span(t, IsWordChar)] == c[i].name
    ensures var k := FirstMatch(c, t);
      && k <= i
      && c[k].kind == Keyword
      && c[k].name == c[i].name
      && Find(c[k].pattern, t) == c[i].name
  {
    WordRuleFacts(c[i], t);
    var k := FirstMatch(c, t);
    WordRuleFacts(c[k], t);
  }

  /** Conversely, a keyword rule wins only on a whole word. */
  lemma KeywordOnlyOnWholeWord(c: seq<TokenType>, t: string)
    requires Layout(c) && FirstMatch(c, t) < 38
    ensures var k := FirstMatch(c, t);
      && c[k].kind == Keyword
      && Find(c[k].pattern, t) == t[..Span(t, IsWordChar)] == c[k].name
      && (Span(t, IsWordChar) == |t| || !IsWordChar(t[Span(t, IsWordChar)]))
  {
    WordRuleFacts(c[FirstMatch(c, t)], t);
  }

  /** No keyword rule matches text that does not start with a lower-case letter. */
  lemma NoKeywordMatches(c: seq<TokenType>, t: string)
    requires Layout(c)
    requires |t| > 0 && !IsLower(t[0])
    ensures NoneMatch(c, t, 0, 38)
  {
    forall j | 0 <= j < 38 ensures Find(c[j].pattern, t) == [] {
      WordRuleFacts(c[j], t);
    }
  }

  /** No keyword rule matches text whose leading word is no keyword's word. */
  lemma NoKeywordWord(c: seq<TokenType>, t: string)
    requires Layout(c)
    requires forall i :: 0 <= i < 38 ==> t[..Span(t, IsWordChar)] != c[i].name
    ensures NoneMatch(c, t, 0, 38)
  {
    forall j | 0 <= j < 38 ensures Find(c[j].pattern, t) == [] {
      WordRuleFacts(c[j], t);
    }
  }

  /** No operator rule matches text that does not start with an operator's
      first character. */
  lemma NoOperatorMatches(c: seq<TokenType>, t: string)
    requires Layout(c)
    requires |t| > 0 && !OperatorStart(t[0])
    ensures NoneMatch(c, t, 38, 63)
  {
    forall j | 38 <= j < 63 ensures Find(c[j].pattern, t) == [] {
      SymbolRuleFacts(c[j], t);
    }
  }

  /** On text that does not start with a punctuation character, no
      punctuation rule matches. */
  lemma NoPunctuationMatches(c: seq<TokenType>, t: string)
    requires Layout(c)
    requires |t| > 0 && !PunctuationChar(t[0])
    ensures NoneMatch(c, t, 70, 90)
  {
    forall j | 70 <= j < 90 ensures Find(c[j].pattern, t) == [] {
      SymbolRuleFacts(c[j], t);
    }
  }

  /** Where none of the name and literal patterns matches, none of their
      rules does. */
  lemma NoNameOrLiteralMatches(c: seq<TokenType>, t: string)
    requires Layout(c)
    requires Find(IdentPat, t) == [] && Find(ConstructorPat, t) == []
    requires Find(IntegerPat, t) == [] && Find(FloatPat, t) == []
    requires Find(StringPat, t) == [] && Find(CharPat, t) == []
    requires Find(MultilineStringPat, t) == []
    ensures NoneMatch(c, t, IdentIndex, 70)
  {
    assert FixedRules(c);
    forall j | IdentIndex <= j < 70 ensures Find(c[j].pattern, t) == [] {
      assert j in {IdentIndex, ConstructorIndex, IntegerIndex, FloatIndex, StringIndex, 68, MultilineStringIndex};
    }
  }

  /** On text that starts neither with a lower-case letter nor with an
      operator's first character, the search passes over every keyword and
      operator rule. */
  lemma SkipKeywordsAndOperators(c: seq<TokenType>, t: string)
    requires Layout(c)
    requires |t| > 0 && !IsLower(t[0]) && !OperatorStart(t[0])
    ensures FirstMatch(c, t) == FirstMatchFrom(c, t, IdentIndex)
  {
    NoKeywordMatches(c, t);
    NoOperatorMatches(c, t);
    SkipNone(c, t, 0, 38);
    SkipNone(c, t, 38, 63);
  }

  /** On text starting with a lower-case letter or `_` whose leading word is
      no keyword's word, the search reaches the identifier rule. */
  lemma SkipToIdent(c: seq<TokenType>, t: string)
    requires Layout(c)
    requires |t| > 0 && (IsLower(t[0]) || t[0] == '_')
    requires forall i :: 0 <= i < 38 ==> t[..Span(t, IsWordChar)] != c[i].name
    ensures FirstMatch(c, t) == FirstMatchFrom(c, t, IdentIndex)
  {
    NoKeywordWord(c, t);
    NoOperatorMatches(c, t);
    SkipNone(c, t, 0, 38);
    SkipNone(c, t, 38, 63);
  }

  lemma IdentMatches(c: seq<TokenType>, t: string)
    requires Layout(c)
    requires |t| > 0 && (IsLower(t[0]) || t[0] == '_')
    ensures FirstMatchFrom(c, t, IdentIndex) == IdentIndex
  {
    IdentFind(t);
  }

  /** Text starting with a lower-case letter or `_` whose leading word is not
      the word of a keyword rule is an identifier, matched with its whole
      trailing alphabet. */
  lemma IdentFallback(c: seq<TokenType>, t: string)
    requires Layout(c)
    requires |t| > 0 && (IsLower(t[0]) || t[0] == '_')
    requires forall i :: 0 <= i < 38 ==> t[..Span(t, IsWordChar)] != c[i].name
    ensures var k := FirstMatch(c, t);
      && k == IdentIndex
      && c[k].name == "ident" && c[k].kind == Variable
      && Find(c[k].pattern, t) == t[..1 + Span(t[1..], IsIdentChar)]
  {
    SkipToIdent(c, t);
    IdentMatches(c, t);
    IdentFind(t);
  }

  // ---------------------------------------------------------------------------
  // Symbols: longer before shorter

  lemma SeparatedNotPrefix(a: string, b: string)
    requires Separated(a, b)
    ensures !ProperPrefix(a, b)
  {
    if |a| < |b| && |a| > 0 {
      assert b[..|a|][0] == b[0];
      assert |a| > 1 ==> b[..|a|][1] == b[1];
    }
  }

  /** Whenever one symbol rule's text is a proper prefix of another's, the
      longer one comes first in the catalog; this covers the operator pairs
      (`::` and `:`, `>>=`, `>>` and `>`, ...) and `&&`/`||` against the
      punctuation `&`/`|`. */
  lemma SymbolPrefixOrder(c: seq<TokenType>)
    requires Layout(c) && OperatorsSeparated(c)
    ensures forall i, j ::
      (0 <= i < |c| && 0 <= j < |c| && c[i].pattern.Symbol? && c[j].pattern.Symbol?
       && ProperPrefix(c[j].pattern.s, c[i].pattern.s)) ==> i < j
  {
    forall i, j | 0 <= i < |c| && 0 <= j < |c| && c[i].pattern.Symbol? && c[j].pattern.Symbol?
      && ProperPrefix(c[j].pattern.s, c[i].pattern.s)
      ensures i < j
    {
      if j <= i {
        assert 38 <= j < 63 || 70 <= j < 90;
        assert 38 <= i < 63 || 70 <= i < 90;
        if i < 63 {
          SeparatedNotPrefix(c[j].pattern.s, c[i].pattern.s);
        }
      }
    }
  }

  /** Two prefixes of the same text: the shorter is a prefix of the longer. */
  lemma PrefixesNest(t: string, a: string, b: string)
    requires StartsWith(t, a) && StartsWith(t, b) && |a| < |b|
    ensures ProperPrefix(a, b)
  {
    assert b[..|a|] == t[..|b|][..|a|] == t[..|a|];
  }

  /** Consequently, when a symbol rule wins, no symbol rule matching a
      longer prefix of the text exists: catalog order gives the longest symbol. */
  lemma SymbolLongestMatch(c: seq<TokenType>, t: string)
    requires Layout(c) && OperatorsSeparated(c)
    requires FirstMatch(c, t) < |c| && c[FirstMatch(c, t)].pattern.Symbol?
    ensures var k := FirstMatch(c, t);
      forall j :: 0 <= j < |c| && c[j].pattern.Symbol? && StartsWith(t, c[j].pattern.s) ==>
        |c[j].pattern.s| <= |c[k].pattern.s|
  {
    var k := FirstMatch(c, t);
    SymbolPrefixOrder(c);
    SymbolRuleFacts(c[k], t);
    forall j | 0 <= j < |c| && c[j].pattern.Symbol? && StartsWith(t, c[j].pattern.s)
      ensures |c[j].pattern.s| <= |c[k].pattern.s|
    {
      SymbolRuleFacts(c[j], t);
      if |c[k].pattern.s| < |c[j].pattern.s| {
        PrefixesNest(t, c[k].pattern.s, c[j].pattern.s);
      }
    }
  }

  /** Doubled `&&` and `||` are the operators AND and OR, not two punctuation marks. */
  lemma DoubledSymbolsAreOperators(c: seq<TokenType>, t: string)
    requires Layout(c)
    requires StartsWith(t, "&&") || StartsWith(t, "||")
    ensures var k := FirstMatch(c, t);
      && k < |c| && c[k].kind == Operator
      && c[k].name == (if t[0] == '&' then "AND" else "OR")
      && Find(c[k].pattern, t) == t[..2]
  {
    var k := if t[0] == '&' then 60 else 61;
    assert t[0] == t[..2][0];
    SymbolRuleFacts(c[k], t);
    forall j | 0 <= j < k ensures Find(c[j].pattern, t) == [] {
      if j < 38 {
        WordRuleFacts(c[j], t);
      } else {
        SymbolRuleFacts(c[j], t);
      }
    }
  }

  // ---------------------------------------------------------------------------
  // Constants

  lemma IntegerMatches(c: seq<TokenType>, t: string)
    requires Layout(c)
    requires |t| > 0 && IsDigit(t[0])
    ensures FirstMatchFrom(c, t, IdentIndex) == IntegerIndex
  {
    IntegerFind(t);
  }

  /** Text starting with a digit is an integer, its maximal digit run. */
  lemma IntegerWins(c: seq<TokenType>, t: string)
    requires Layout(c)
    requires |t| > 0 && IsDigit(t[0])
    ensures var k := FirstMatch(c, t);
      && k == IntegerIndex && c[k].name == "integer" && c[k].kind == Constant
      && Find(c[k].pattern, t) == t[..Span(t, IsDigit)]
      && (Span(t, IsDigit) == |t| || !IsDigit(t[Span(t, IsDigit)]))
  {
    SkipKeywordsAndOperators(c, t);
    IntegerMatches(c, t);
    IntegerFind(t);
  }

  /** Wherever `\d+\.\d+` matches, `\d+` matches too. */
  lemma FloatNeedsInteger(t: string)
    ensures Find(FloatPat, t) != [] ==> Find(IntegerPat, t) != []
  {}

  /** The float rule never wins: wherever it matches, integer matches first. */
  lemma FloatNeverFirst(c: seq<TokenType>, t: string)
    requires Layout(c)
    ensures FirstMatch(c, t) != FloatIndex
  {
    FloatNeedsInteger(t);
  }

  lemma EmptyStringMatches(c: seq<TokenType>, t: string)
    requires Layout(c)
    requires StartsWith(t, "\"\"\"")
    ensures FirstMatchFrom(c, t, IdentIndex) == StringIndex
    ensures Find(c[StringIndex].pattern, t) == "\"\""
  {
    assert t[0] == t[..3][0] == '"' && t[1] == t[..3][1] == '"';
    assert IndexFrom(t, "\"", 1) == 1 by {
      assert t[1..2] == "\"";
    }
    assert Find(c[StringIndex].pattern, t) == t[..2] == "\"\"";
  }

  /** Text starting with `"""` first matches the empty string literal `""`. */
  lemma EmptyStringBeforeMultiline(c: seq<TokenType>, t: string)
    requires Layout(c)
    requires StartsWith(t, "\"\"\"")
    ensures var k := FirstMatch(c, t);
      k == StringIndex && c[k].name == "string" && Find(c[k].pattern, t) == "\"\""
  {
    assert t[0] == t[..3][0];
    SkipKeywordsAndOperators(c, t);
    EmptyStringMatches(c, t);
  }

  /** The multi-line string rule matches only text starting with `"""`. */
  lemma MultilineStartsWithQuotes(t: string)
    ensures Find(MultilineStringPat, t) != [] ==> StartsWith(t, "\"\"\"")
  {}

  /** The multi-line string rule never wins. */
  lemma MultilineStringNeverFirst(c: seq<TokenType>, t: string)
    requires Layout(c)
    ensures FirstMatch(c, t) != MultilineStringIndex
  {
    MultilineStartsWithQuotes(t);
    if StartsWith(t, "\"\"\"") {
      EmptyStringBeforeMultiline(c, t);
    }
  }

  // ---------------------------------------------------------------------------
  // Identifiers and constructors

  /** `ident` and `constructor` never both match: their first characters
      are disjoint. */
  lemma IdentConstructorDisjoint(t: string)
    ensures !(Find(IdentPat, t) != [] && Find(ConstructorPat, t) != [])
  {}

  /** After the first character, the two rules consume the same alphabet. */
  lemma IdentConstructorSameTail(a: char, b: char, rest: string)
    requires IsLower(a) || a == '_'
    requires IsUpper(b)
    ensures Find(IdentPat, [a] + rest) == [a] + Find(ConstructorPat, [b] + rest)[1..]
    ensures |Find(IdentPat, [a] + rest)| == |Find(ConstructorPat, [b] + rest)| == 1 + Span(rest, IsIdentChar)
  {
    assert ([a] + rest)[1..] == rest;
    assert ([b] + rest)[1..] == rest;
  }

  // ---------------------------------------------------------------------------
  // Pragmas

  /** Wherever the pragma rule matches, so does the `{` punctuation rule. */
  lemma PragmaNeedsBrace(t: string)
    ensures Find(PragmaPat, t) != [] ==> Find(Symbol("{"), t) != []
  {
    if Find(PragmaPat, t) != [] {
      assert t[..1] == t[..3][..1] == "{";
    }
  }

  /** The pragma rule never wins: its text starts with `{`, which LBRACE
      matches earlier. */
  lemma PragmaNeverFirst(c: seq<TokenType>, t: string)
    requires Layout(c)
    ensures FirstMatch(c, t) != PragmaIndex
  {
    PragmaNeedsBrace(t);
  }
}
