/** The lexer of lexer.go as pure functions over a value `LexState` holding
    the fields of the Go `Lexer` struct: one `nextToken` call is `Step`, the
    `LexAnalyze` loop is `Run`, and `charToLineCol` is `LineCol`. */
module ScanSpec {
  import opened Text
  import opened Tokens

  datatype Option<T> = None | Some(value: T)

  /** A token's `ID` field: `K:n`, `O:n`, `N:n`, `P:n`, `PREPROCESSOR` or empty. */
  datatype Id =
    | NoId
    | KeywordId(n: nat)
    | OperatorId(n: nat)
    | NameId(n: nat)
    | PunctuationId(n: nat)
    | PreprocessorId

  datatype Token = Token(tokenType: string, value: string, line: int, column: int, id: Id)

  /** The two error messages `nextToken` produces, with their position. */
  datatype Diagnostic =
    | UnclosedComment(line: int, column: int)
    | UnknownCharacter(line: int, column: int)

  // ---------------------------------------------------------------------------
  // Positions

  /** Number of newline characters in `s`. */
  function NewlineCount(s: string): (n: nat)
    ensures n <= |s|
  {
    if s == [] then 0
    else NewlineCount(s[..|s| - 1]) + (if s[|s| - 1] == '\n' then 1 else 0)
  }

  /** Offset of the last newline of `s`, or -1 when there is none. */
  function LastNewline(s: string): (k: int)
    ensures -1 <= k < |s|
    ensures k >= 0 ==> s[k] == '\n'
    ensures forall j :: k < j < |s| ==> s[j] != '\n'
  {
    if s == [] then -1
    else if s[|s| - 1] == '\n' then |s| - 1
    else LastNewline(s[..|s| - 1])
  }

  /** `charToLineCol`: 1-based line and column of offset `p` of `code`, or
      (-1, -1) when `p` is not an offset of `code`. */
  function LineCol(code: string, p: int): (r: (int, int))
    ensures r == (-1, -1) <==> p < 0 || p >= |code|
    ensures 0 <= p < |code| ==> 1 <= r.0 <= p + 1 && 1 <= r.1 <= p + 1
  {
    if p < 0 || p >= |code| then (-1, -1)
    else (1 + NewlineCount(code[..p]), p - LastNewline(code[..p]))
  }

  // ---------------------------------------------------------------------------
  // Interning tables

  /** A `map[string]int` table together with its index counter. */
  datatype Table = Table(ids: map<string, nat>, next: nat)

  const EmptyTable := Table(map[], 0)

  /** The ids of a table are exactly 0 .. next-1, one per entry. */
  ghost predicate TableValid(t: Table) {
    && (forall v :: v in t.ids ==> t.ids[v] < t.next)
    && (forall a, b :: a in t.ids && b in t.ids && t.ids[a] == t.ids[b] ==> a == b)
    && |t.ids| == t.next
  }

  /** Look `text` up in the table, entering it with the counter's value
      (and advancing the counter) when it is new. */
  function Intern(t: Table, text: string): (r: (Table, nat))
    ensures text in r.0.ids && r.0.ids[text] == r.1
    ensures r.0.ids.Keys == t.ids.Keys + {text}
    ensures forall v :: v in t.ids ==> r.0.ids[v] == t.ids[v]
    ensures text in t.ids ==> r.0.next == t.next
    ensures text !in t.ids ==> r.1 == t.next && r.0.next == t.next + 1
  {
    if text in t.ids then (t, t.ids[text])
    else (Table(t.ids[text := t.next], t.next + 1), t.next)
  }

  // ---------------------------------------------------------------------------
  // Lexer state

  /** The four tables and per-class token lists of the lexer. */
  datatype Group = KeywordGroup | OperatorGroup | NameGroup | PunctuationGroup

  /** The `switch tokenType.Class` of nextToken: the group a class interns
      into; constructor, skip and preprocessor matches have none. */
  function GroupOf(k: Class): (r: Option<Group>)
    ensures r == None <==> k == Constructor || k == Skip || k == Preprocessor
    ensures r == Some(NameGroup) <==> k == Variable || k == Constant
    ensures r == Some(KeywordGroup) <==> k == Keyword
    ensures r == Some(OperatorGroup) <==> k == Operator
    ensures r == Some(PunctuationGroup) <==> k == Punctuation
  {
    match k
    case Keyword => Some(KeywordGroup)
    case Operator => Some(OperatorGroup)
    case Variable => Some(NameGroup)
    case Constant => Some(NameGroup)
    case Punctuation => Some(PunctuationGroup)
    case Constructor => None
    case Skip => None
    case Preprocessor => None
  }

  function IdOf(g: Group, n: nat): Id {
    match g
    case KeywordGroup => KeywordId(n)
    case OperatorGroup => OperatorId(n)
    case NameGroup => NameId(n)
    case PunctuationGroup => PunctuationId(n)
  }

  predicate InGroup(id: Id, g: Group) {
    match g
    case KeywordGroup => id.KeywordId?
    case OperatorGroup => id.OperatorId?
    case NameGroup => id.NameId?
    case PunctuationGroup => id.PunctuationId?
  }

  /** The fields of a `Lexer` other than `code`. */
  datatype LexState = LexState(
    pos: nat,
    tokens: seq<Token>,
    names: seq<Token>,
    keywords: seq<Token>,
    operators: seq<Token>,
    punctuations: seq<Token>,
    namesTable: Table,
    operatorsTable: Table,
    punctuationsTable: Table,
    keywordsTable: Table)

  /** The state `NewLexer` creates. */
  function Init(): (s: LexState)
    ensures s.pos == 0 && s.tokens == []
  {
    LexState(0, [], [], [], [], [], EmptyTable, EmptyTable, EmptyTable, EmptyTable)
  }

  function TableOf(s: LexState, g: Group): Table {
    match g
    case KeywordGroup => s.keywordsTable
    case OperatorGroup => s.operatorsTable
    case NameGroup => s.namesTable
    case PunctuationGroup => s.punctuationsTable
  }

  function ListOf(s: LexState, g: Group): seq<Token> {
    match g
    case KeywordGroup => s.keywords
    case OperatorGroup => s.operators
    case NameGroup => s.names
    case PunctuationGroup => s.punctuations
  }

  /** `s` with the table and list of group `g` replaced. */
  function WithGroup(s: LexState, g: Group, t: Table, list: seq<Token>): (r: LexState)
    ensures TableOf(r, g) == t && ListOf(r, g) == list
    ensures forall h :: h != g ==> TableOf(r, h) == TableOf(s, h) && ListOf(r, h) == ListOf(s, h)
    ensures r.pos == s.pos && r.tokens == s.tokens
  {
    match g
    case KeywordGroup => s.(keywordsTable := t, keywords := list)
    case OperatorGroup => s.(operatorsTable := t, operators := list)
    case NameGroup => s.(namesTable := t, names := list)
    case PunctuationGroup => s.(punctuationsTable := t, punctuations := list)
  }

  // ---------------------------------------------------------------------------
  // One call of nextToken

  datatype StepResult = StepResult(success: bool, err: Option<Diagnostic>, next: LexState)

  /** The token built for a match `m` of `rule` at the current position:
      its id is left empty and filled in by `Emit`. */
  function NewToken(code: string, s: LexState, rule: TokenType, m: string): (t: Token)
    ensures t.tokenType == rule.name && t.value == m && (t.line, t.column) == LineCol(code, s.pos)
  {
    var (line, col) := LineCol(code, s.pos);
    Token(rule.name, m, line, col, NoId)
  }

  /** Record the match `m` of `rule`: one token appended to the stream, the
      cursor moved past the match, and only the table and list of the rule's
      class changed, the table by interning the match. */
  function Emit(code: string, s: LexState, rule: TokenType, m: string): (r: LexState)
    ensures r.pos == s.pos + |m|
    ensures |r.tokens| == |s.tokens| + 1 && r.tokens[..|s.tokens|] == s.tokens
    ensures var tok := r.tokens[|s.tokens|];
      && tok.tokenType == rule.name && tok.value == m
      && (tok.line, tok.column) == LineCol(code, s.pos)
      && (match GroupOf(rule.kind)
          case Some(g) =>
            && TableOf(r, g) == Intern(TableOf(s, g), m).0
            && tok.id == IdOf(g, Intern(TableOf(s, g), m).1)
            && ListOf(r, g) == ListOf(s, g) + [tok]
            && forall h :: h != g ==> TableOf(r, h) == TableOf(s, h) && ListOf(r, h) == ListOf(s, h)
          case None =>
            && tok.id == (if rule.kind == Preprocessor then PreprocessorId else NoId)
            && forall h :: TableOf(r, h) == TableOf(s, h) && ListOf(r, h) == ListOf(s, h))
  {
    var (s1, tok) := ClassSwitch(s, rule.kind, NewToken(code, s, rule, m));
    s1.(tokens := s.tokens + [tok], pos := s.pos + |m|)
  }

  /** The class switch of nextToken on a token `tok` of class `k`: the token
      with its id, and the state with the table and list of its class
      updated. */
  function ClassSwitch(s: LexState, k: Class, tok: Token): (LexState, Token) {
    match GroupOf(k)
    case Some(g) =>
      var (t, n) := Intern(TableOf(s, g), tok.value);
      var tk := tok.(id := IdOf(g, n));
      (WithGroup(s, g, t, ListOf(s, g) + [tk]), tk)
    case None =>
      (s, if k == Preprocessor then tok.(id := PreprocessorId) else tok)
  }

  /** One call of `nextToken` with the rule catalog `rules`. */
  function Step(rules: seq<TokenType>, code: string, s: LexState): (r: StepResult)
    ensures r.success <==> s.pos < |code|
    ensures !r.success ==> r.next == s && r.err == None
    ensures r.success ==> s.pos < r.next.pos <= |code|
  {
    if s.pos >= |code| then StepResult(false, None, s)
    else
      var text := code[s.pos..];
      if StartsWith(text, "{-") then
        var close := IndexFrom(text, "-}", 0);
        if close == -1 then
          var (line, col) := LineCol(code, s.pos);
          StepResult(true, Some(UnclosedComment(line, col)), s.(pos := |code|))
        else
          StepResult(true, None, s.(pos := s.pos + close + 2))
      else if StartsWith(text, "--") then
        var newline := IndexFrom(text, "\n", 0);
        StepResult(true, None, s.(pos := if newline == -1 then |code| else s.pos + newline + 1))
      else
        var k := FirstMatch(rules, text);
        if k < |rules| then
          StepResult(true, None, Emit(code, s, rules[k], Find(rules[k].pattern, text)))
        else
          var (line, col) := LineCol(code, s.pos);
          StepResult(true, Some(UnknownCharacter(line, col)), s.(pos := s.pos + 1))
  }

  /** The `LexAnalyze` loop from state `s`: the final state and the errors in
      the order they were produced. */
  function Run(rules: seq<TokenType>, code: string, s: LexState): (r: (LexState, seq<Diagnostic>))
    ensures s.pos <= |code| ==> r.0.pos == |code|
    ensures s.pos >= |code| ==> r == (s, [])
    decreases if s.pos <= |code| then |code| - s.pos else 0
  {
    var st := Step(rules, code, s);
    if !st.success then (s, [])
    else
      var (final, errors) := Run(rules, code, st.next);
      (final, (if st.err.Some? then [st.err.value] else []) + errors)
  }

  /** `NewLexer(code).LexAnalyze()` with the catalog: the final state, whose
      `tokens` it returns, and the errors it prints. */
  function Lex(code: string): (r: (LexState, seq<Diagnostic>))
    ensures r.0.pos == |code|
  {
    Run(TokenTypesList(), code, Init())
  }

  // ---------------------------------------------------------------------------
  // The invariant the lexer keeps

  /** The tokens of `ts` whose id belongs to group `g`, in order. */
  function Select(ts: seq<Token>, g: Group): (r: seq<Token>)
    ensures |r| <= |ts|
    ensures forall i :: 0 <= i < |r| ==> InGroup(r[i].id, g) && r[i] in ts
  {
    if ts == [] then []
    else Select(ts[..|ts| - 1], g) + (if InGroup(ts[|ts| - 1].id, g) then [ts[|ts| - 1]] else [])
  }

  /** Every token of `list` carries the id its value has in `t`, and every
      entry of `t` is the value of some token of `list`. */
  ghost predicate Interned(list: seq<Token>, t: Table, g: Group) {
    && (forall i :: 0 <= i < |list| ==> list[i].value in t.ids && list[i].id == IdOf(g, t.ids[list[i].value]))
    && (forall v :: v in t.ids ==> exists i :: 0 <= i < |list| && list[i].value == v)
  }

  /** The texts of the tokens of `list`. */
  ghost function Values(list: seq<Token>): set<string> {
    set i | 0 <= i < |list| :: list[i].value
  }

  /** A token whose text appears in `list` for the first time gets the
      number of distinct texts before it: ids follow the order of first
      appearance. */
  ghost predicate FirstAppearance(list: seq<Token>, g: Group) {
    forall i :: 0 <= i < |list| && list[i].value !in Values(list[..i]) ==>
      list[i].id == IdOf(g, |Values(list[..i])|)
  }

  ghost predicate GroupInvariant(s: LexState, g: Group) {
    && ListOf(s, g) == Select(s.tokens, g)
    && TableValid(TableOf(s, g))
    && Interned(ListOf(s, g), TableOf(s, g), g)
    && FirstAppearance(ListOf(s, g), g)
  }

  /** What holds of the lexer's fields between calls of nextToken. */
  ghost predicate LexInvariant(code: string, s: LexState) {
    && s.pos <= |code|
    && (forall g :: GroupInvariant(s, g))
  }
}
