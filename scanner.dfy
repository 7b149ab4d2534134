/** The `Lexer` of lexer.go: the source text, a cursor into it, the token
    stream, one list per class of token, and four interning tables each with
    its own index counter. Its methods are proved to do what `ScanSpec`
    says one `nextToken` call, the `LexAnalyze` loop and `charToLineCol` do. */
module Scanner {
  import opened Text
  import opened Tokens
  import opened ScanSpec
  import ScanFacts

  class Lexer {
    const code: string
    var pos: nat
    var tokens: seq<Token>
    var namesTokens: seq<Token>
    var keywordsTokens: seq<Token>
    var operatorsTokens: seq<Token>
    var punctuationsTokens: seq<Token>

    var namesIndex: nat
    var tableNames: map<string, nat>
    var operatorsIndex: nat
    var tableOperators: map<string, nat>
    var punctuationsIndex: nat
    var tablePunctuations: map<string, nat>
    var keywordsIndex: nat
    var tableKeywords: map<string, nat>

    /** The fields other than `code`, as a value. */
    ghost function State(): LexState
      reads this
    {
      LexState(pos, tokens, namesTokens, keywordsTokens, operatorsTokens, punctuationsTokens,
        Table(tableNames, namesIndex), Table(tableOperators, operatorsIndex),
        Table(tablePunctuations, punctuationsIndex), Table(tableKeywords, keywordsIndex))
    }

    ghost predicate Valid()
      reads this
    {
      LexInvariant(code, State())
    }

    /** `NewLexer`. */
    constructor (code: string)
      ensures this.code == code && State() == Init() && Valid()
    {
      this.code := code;
      pos := 0;
      tokens, namesTokens, keywordsTokens, operatorsTokens, punctuationsTokens := [], [], [], [], [];
      namesIndex, tableNames := 0, map[];
      operatorsIndex, tableOperators := 0, map[];
      punctuationsIndex, tablePunctuations := 0, map[];
      keywordsIndex, tableKeywords := 0, map[];
      new;
      ScanFacts.InitInvariant(code);
    }

    /** `charToLineCol`: count lines and columns up to offset `p`. */
    method CharToLineCol(p: int) returns (line: int, col: int)
      ensures (line, col) == LineCol(code, p)
    {
      if p < 0 || p >= |code| {
        return -1, -1;
      }
      line, col := 1, 1;
      var i := 0;
      while i < p
        invariant 0 <= i <= p
        invariant line == 1 + NewlineCount(code[..i])
        invariant col == i - LastNewline(code[..i])
      {
        assert code[..i + 1][..i] == code[..i];
        if code[i] == '\n' {
          line := line + 1;
          col := 1;
        } else {
          col := col + 1;
        }
        i := i + 1;
      }
      assert code[..i] == code[..p];
    }

    /** The `if _, exists := table[match]; !exists { ... }` block of
        nextToken followed by the lookup: the id of `m` in `table`, entered
        with the current index (which then advances) when it is new. */
    static method InternIn(table: map<string, nat>, index: nat, m: string)
      returns (table': map<string, nat>, index': nat, n: nat)
      ensures (Table(table', index'), n) == Intern(Table(table, index), m)
    {
      table', index' := table, index;
      if m !in table' {
        table' := table'[m := index'];
        index' := index' + 1;
      }
      n := table'[m];
    }

    /** `case "keyword"` of nextToken's class switch: intern the token's value,
        give the token its id, and append it to the class's list. */
    method AddKeyword(token: Token) returns (t: Token)
      modifies this
      ensures t == token.(id := IdOf(KeywordGroup, Intern(old(State()).keywordsTable, token.value).1))
      ensures State() == WithGroup(old(State()), KeywordGroup, Intern(old(State()).keywordsTable, token.value).0,
        old(keywordsTokens) + [t])
    {
      var n;
      tableKeywords, keywordsIndex, n := InternIn(tableKeywords, keywordsIndex, token.value);
      t := token.(id := KeywordId(n));
      keywordsTokens := keywordsTokens + [t];
    }

    /** `case "operator"` of nextToken's class switch: intern the token's value,
        give the token its id, and append it to the class's list. */
    method AddOperator(token: Token) returns (t: Token)
      modifies this
      ensures t == token.(id := IdOf(OperatorGroup, Intern(old(State()).operatorsTable, token.value).1))
      ensures State() == WithGroup(old(State()), OperatorGroup, Intern(old(State()).operatorsTable, token.value).0,
        old(operatorsTokens) + [t])
    {
      var n;
      tableOperators, operatorsIndex, n := InternIn(tableOperators, operatorsIndex, token.value);
      t := token.(id := OperatorId(n));
      operatorsTokens := operatorsTokens + [t];
    }

    /** `case "variable", "constant"` of nextToken's class switch: intern the token's value,
        give the token its id, and append it to the class's list. */
    method AddName(token: Token) returns (t: Token)
      modifies this
      ensures t == token.(id := IdOf(NameGroup, Intern(old(State()).namesTable, token.value).1))
      ensures State() == WithGroup(old(State()), NameGroup, Intern(old(State()).namesTable, token.value).0,
        old(namesTokens) + [t])
    {
      var n;
      tableNames, namesIndex, n := InternIn(tableNames, namesIndex, token.value);
      t := token.(id := NameId(n));
      namesTokens := namesTokens + [t];
    }

    /** `case "punctuation"` of nextToken's class switch: intern the token's value,
        give the token its id, and append it to the class's list. */
    method AddPunctuation(token: Token) returns (t: Token)
      modifies this
      ensures t == token.(id := IdOf(PunctuationGroup, Intern(old(State()).punctuationsTable, token.value).1))
      ensures State() == WithGroup(old(State()), PunctuationGroup, Intern(old(State()).punctuationsTable, token.value).0,
        old(punctuationsTokens) + [t])
    {
      var n;
      tablePunctuations, punctuationsIndex, n := InternIn(tablePunctuations, punctuationsIndex, token.value);
      t := token.(id := PunctuationId(n));
      punctuationsTokens := punctuationsTokens + [t];
    }

    /** nextToken's `switch tokenType.Class`: give the token its id and,
        for a class with a table, intern it and append it to the class's
        list. */
    method SwitchClass(kind: Class, token: Token) returns (t: Token)
      modifies this
      ensures (State(), t) == ClassSwitch(old(State()), kind, token)
    {
      match kind {
        case Keyword =>
          t := AddKeyword(token);
        case Operator =>
          t := AddOperator(token);
        case Variable | Constant =>
          t := AddName(token);
        case Punctuation =>
          t := AddPunctuation(token);
        case Preprocessor =>
          t := token.(id := PreprocessorId);
        case Constructor | Skip =>
          t := token;
      }
    }

    /** The body of nextToken once `rule` has matched `m` at `pos`: build
        the token, intern it according to the rule's class, append it to
        the stream, and move past the match. */
    method Record(rule: TokenType, m: string)
      modifies this
      ensures State() == Emit(code, old(State()), rule, m)
    {
      var line, col := CharToLineCol(pos);
      var token := Token(rule.name, m, line, col, NoId);
      token := SwitchClass(rule.kind, token);
      tokens := tokens + [token];
      pos := pos + |m|;
    }

    /** Try the rules of the catalog in order on `text`; the index of the
        first that matches, with its match, or `|rules|` and the empty text. */
    static method MatchRule(rules: seq<TokenType>, text: string) returns (k: nat, m: string)
      ensures k == FirstMatch(rules, text)
      ensures m == if k < |rules| then Find(rules[k].pattern, text) else []
    {
      k := 0;
      while k < |rules|
        invariant k <= |rules|
        invariant forall j :: 0 <= j < k ==> Find(rules[j].pattern, text) == []
      {
        m := Find(rules[k].pattern, text);
        if m != [] {
          FirstMatchIs(rules, text, k);
          return;
        }
        k := k + 1;
      }
      m := [];
    }

    /** `nextToken`. */
    method NextToken() returns (success: bool, err: Option<Diagnostic>)
      requires Valid()
      modifies this
      ensures StepResult(success, err, State()) == Step(TokenTypesList(), code, old(State()))
      ensures Valid()
    {
      ghost var before := State();
      ScanFacts.StepPreservesInvariant(TokenTypesList(), code, before);
      if pos >= |code| {
        return false, None;
      }
      var text := code[pos..];
      if StartsWith(text, "{-") {
        var endCommentPos := IndexFrom(text, "-}", 0);
        if endCommentPos == -1 {
          var line, col := CharToLineCol(pos);
          pos := |code|;
          return true, Some(UnclosedComment(line, col));
        }
        pos := pos + endCommentPos + 2;
        return true, None;
      }
      if StartsWith(text, "--") {
        var nextLinePos := IndexFrom(text, "\n", 0);
        if nextLinePos == -1 {
          pos := |code|;
        } else {
          pos := pos + nextLinePos + 1;
        }
        return true, None;
      }
      var rules := TokenTypesList();
      var k, m := MatchRule(rules, text);
      if k < |rules| {
        Record(rules[k], m);
        return true, None;
      }
      var line, col := CharToLineCol(pos);
      pos := pos + 1;
      return true, Some(UnknownCharacter(line, col));
    }

    /** `LexAnalyze`: call nextToken until it reports the end, collecting
        the errors; returns the token stream. */
    method LexAnalyze() returns (result: seq<Token>, errors: seq<Diagnostic>)
      requires Valid()
      modifies this
      ensures (State(), errors) == Run(TokenTypesList(), code, old(State()))
      ensures result == tokens
      ensures Valid()
    {
      errors := [];
      ghost var start := State();
      assert errors + Run(TokenTypesList(), code, start).1 == Run(TokenTypesList(), code, start).1;
      while true
        invariant Valid()
        invariant Run(TokenTypesList(), code, start) ==
          (Run(TokenTypesList(), code, State()).0, errors + Run(TokenTypesList(), code, State()).1)
        decreases |code| - pos
      {
        ghost var before := State();
        var success, err := NextToken();
        if !success {
          assert errors + [] == errors;
          break;
        }
        ScanFacts.RunAccumulate(TokenTypesList(), code, before, errors);
        if err.Some? {
          errors := errors + [err.value];
        }
      }
      result := tokens;
    }
  }
}
