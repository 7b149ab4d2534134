/** The token catalog: a fixed, ordered list of rules, each with a name, a
    pattern and a class, and for every pattern a matcher that gives what Go's
    `regexp` would return for `"^" + regex` on the remaining text. */
module Tokens {
  import opened Text

  datatype Class =
    | Keyword | Operator | Variable | Constructor | Constant | Punctuation | Skip | Preprocessor

  /** The regular expressions the catalog uses, one constructor per shape. */
  datatype Pattern =
    | Word(w: string)          // `\bw\b`
    | Symbol(s: string)        // a literal symbol sequence, e.g. `>>=`
    | IdentPat                 // `[a-z_][a-zA-Z0-9_']*`
    | ConstructorPat           // `[A-Z][a-zA-Z0-9_']*`
    | IntegerPat               // `\d+`
    | FloatPat                 // `\d+\.\d+`
    | StringPat                // `"[^"]*"`
    | CharPat                  // `'[^']'`
    | MultilineStringPat       // `"""[\s\S]*?"""`
    | SpacePat                 // `\s`
    | CommentPat               // `--.*|\{-[\s\S]*?-\}`
    | PragmaPat                // `\{-#[\s\S]*?#-\}`

  datatype TokenType = TokenType(name: string, pattern: Pattern, kind: Class)

  const Keywords: seq<TokenType> := [
    TokenType("let", Word("let"), Keyword),
    TokenType("in", Word("in"), Keyword),
    TokenType("where", Word("where"), Keyword),
    TokenType("if", Word("if"), Keyword),
    TokenType("then", Word("then"), Keyword),
    TokenType("else", Word("else"), Keyword),
    TokenType("case", Word("case"), Keyword),
    TokenType("of", Word("of"), Keyword),
    TokenType("data", Word("data"), Keyword),
    TokenType("type", Word("type"), Keyword),
    TokenType("class", Word("class"), Keyword),
    TokenType("instance", Word("instance"), Keyword),
    TokenType("deriving", Word("deriving"), Keyword),
    TokenType("do", Word("do"), Keyword),
    TokenType("module", Word("module"), Keyword),
    TokenType("import", Word("import"), Keyword),
    TokenType("as", Word("as"), Keyword),
    TokenType("hiding", Word("hiding"), Keyword),
    TokenType("qualified", Word("qualified"), Keyword),
    TokenType("infix", Word("infix"), Keyword),
    TokenType("infixl", Word("infixl"), Keyword),
    TokenType("infixr", Word("infixr"), Keyword),
    TokenType("foreign", Word("foreign"), Keyword),
    TokenType("export", Word("export"), Keyword),
    TokenType("safe", Word("safe"), Keyword),
    TokenType("unsafe", Word("unsafe"), Keyword),
    TokenType("mdo", Word("mdo"), Keyword),
    TokenType("family", Word("family"), Keyword),
    TokenType("role", Word("role"), Keyword),
    TokenType("group", Word("group"), Keyword),
    TokenType("pattern", Word("pattern"), Keyword),
    TokenType("static", Word("static"), Keyword),
    TokenType("stock", Word("stock"), Keyword),
    TokenType("anyclass", Word("anyclass"), Keyword),
    TokenType("via", Word("via"), Keyword),
    TokenType("default", Word("default"), Keyword),
    TokenType("forall", Word("forall"), Keyword),
    TokenType("newtype", Word("newtype"), Keyword)
  ]

  const Operators: seq<TokenType> := [
    TokenType("DOUBLE_COLON", Symbol("::"), Operator),
    TokenType("ARROW", Symbol("->"), Operator),
    TokenType("FAT_ARROW", Symbol("=>"), Operator),
    TokenType("EQUALS", Symbol("=="), Operator),
    TokenType("NOT_EQUALS", Symbol("/="), Operator),
    TokenType("BIND", Symbol(">>="), Operator),
    TokenType("RIGHT_SHIFT", Symbol(">>"), Operator),
    TokenType("LEFT_SHIFT", Symbol("<<"), Operator),
    TokenType("REVERSE_BIND", Symbol("=<<"), Operator),
    TokenType("FUNCTOR_APPLY", Symbol("<$>"), Operator),
    TokenType("APPLICATIVE_APPLY", Symbol("<*>"), Operator),
    TokenType("ALTERNATIVE", Symbol("<|>"), Operator),
    TokenType("CONCAT", Symbol("++"), Operator),
    TokenType("INDEX", Symbol("!!"), Operator),
    TokenType("COLON", Symbol(":"), Operator),
    TokenType("ASSIGN", Symbol("="), Operator),
    TokenType("PLUS", Symbol("+"), Operator),
    TokenType("MINUS", Symbol("-"), Operator),
    TokenType("MULTIPLY", Symbol("*"), Operator),
    TokenType("DIVIDE", Symbol("/"), Operator),
    TokenType("LESS", Symbol("<"), Operator),
    TokenType("GREATER", Symbol(">"), Operator),
    TokenType("AND", Symbol("&&"), Operator),
    TokenType("OR", Symbol("||"), Operator),
    TokenType("NOT", Symbol("!"), Operator)
  ]

  const Variables: seq<TokenType> := [TokenType("ident", IdentPat, Variable)]

  const Constructors: seq<TokenType> := [TokenType("constructor", ConstructorPat, Constructor)]

  const Constants: seq<TokenType> := [
    TokenType("integer", IntegerPat, Constant),
    TokenType("float", FloatPat, Constant),
    TokenType("string", StringPat, Constant),
    TokenType("char", CharPat, Constant),
    TokenType("multiline_string", MultilineStringPat, Constant)
  ]

  const Punctuations: seq<TokenType> := [
    TokenType("DOT", Symbol("."), Punctuation),
    TokenType("COMMA", Symbol(","), Punctuation),
    TokenType("SEMICOLON", Symbol(";"), Punctuation),
    TokenType("LPAREN", Symbol("("), Punctuation),
    TokenType("RPAREN", Symbol(")"), Punctuation),
    TokenType("LBRACE", Symbol("{"), Punctuation),
    TokenType("RBRACE", Symbol("}"), Punctuation),
    TokenType("LBRACKET", Symbol("["), Punctuation),
    TokenType("RBRACKET", Symbol("]"), Punctuation),
    TokenType("BACKTICK", Symbol("`"), Punctuation),
    TokenType("BACKSLASH", Symbol("\\"), Punctuation),
    TokenType("AT", Symbol("@"), Punctuation),
    TokenType("HASH", Symbol("#"), Punctuation),
    TokenType("DOLLAR", Symbol("$"), Punctuation),
    TokenType("PERCENT", Symbol("%"), Punctuation),
    TokenType("CARET", Symbol("^"), Punctuation),
    TokenType("AMPERSAND", Symbol("&"), Punctuation),
    TokenType("PIPE", Symbol("|"), Punctuation),
    TokenType("QUESTION", Symbol("?"), Punctuation),
    TokenType("TILDE", Symbol("~"), Punctuation)
  ]

  const SkipRules: seq<TokenType> := [
    TokenType("SPACE", SpacePat, Skip),
    TokenType("COMMENT", CommentPat, Skip)
  ]

  const PreprocessorRules: seq<TokenType> := [TokenType("PRAGMA", PragmaPat, Preprocessor)]

  /** Positions of individual rules in the catalog. */
  const IdentIndex: nat := 63
  const ConstructorIndex: nat := 64
  const IntegerIndex: nat := 65
  const FloatIndex: nat := 66
  const StringIndex: nat := 67
  const MultilineStringIndex: nat := 69
  const SpaceIndex: nat := 90
  const CommentIndex: nat := 91
  const PragmaIndex: nat := 92

  /** The catalog in priority order: the class groups one after another. */
  function TokenTypesList(): (r: seq<TokenType>)
    ensures |r| == 93
  {
    Keywords + Operators + Variables + Constructors + Constants + Punctuations + SkipRules + PreprocessorRules
  }

  /** `\bw\b` anchored at the start of `t`. */
  predicate WordMatches(w: string, t: string) {
    StartsWith(t, w) && Boundary(t, 0) && Boundary(t, |w|)
  }

  /** Length matched by `\d+\.\d+` at the start of `t` (0: no match). */
  function FloatLen(t: string): nat {
    var whole := Span(t, IsDigit);
    if whole > 0 && whole < |t| && t[whole] == '.' then
      var frac := Span(t[whole + 1..], IsDigit);
      if frac > 0 then whole + 1 + frac else 0
    else 0
  }

  /** Length matched by `"[^"]*"`: up to and including the next quote. */
  function StringLen(t: string): nat {
    if |t| > 0 && t[0] == '"' then
      var close := IndexFrom(t, "\"", 1);
      if close == -1 then 0 else close + 1
    else 0
  }

  /** Length matched by `open[\s\S]*?close`: the lazy body stops at the first
      `close` that begins after the opening marker. */
  function DelimitedLen(t: string, open: string, close: string): nat {
    if StartsWith(t, open) then
      var c := IndexFrom(t, close, |open|);
      if c == -1 then 0 else c + |close|
    else 0
  }

  /** Length matched by an anchored pattern other than `CommentPat`. */
  function PrefixLen(p: Pattern, t: string): (n: nat)
    requires !p.CommentPat?
    ensures n <= |t|
  {
    match p
    case Word(w) => if WordMatches(w, t) then |w| else 0
    case Symbol(s) => if StartsWith(t, s) then |s| else 0
    case IdentPat =>
      if |t| > 0 && (IsLower(t[0]) || t[0] == '_') then 1 + Span(t[1..], IsIdentChar) else 0
    case ConstructorPat =>
      if |t| > 0 && IsUpper(t[0]) then 1 + Span(t[1..], IsIdentChar) else 0
    case IntegerPat => Span(t, IsDigit)
    case FloatPat => FloatLen(t)
    case StringPat => StringLen(t)
    case CharPat => if |t| >= 3 && t[0] == '\'' && t[1] != '\'' && t[2] == '\'' then 3 else 0
    case MultilineStringPat => DelimitedLen(t, "\"\"\"", "\"\"\"")
    case SpacePat => if |t| > 0 && IsSpace(t[0]) then 1 else 0
    case PragmaPat => DelimitedLen(t, "{-#", "#-}")
  }

  /** A `{-` at offset `i` of `t` that some later `-}` closes. */
  predicate BlockCommentAt(t: string, i: nat) {
    OccursAt(t, "{-", i) && IndexFrom(t, "-}", i + 2) != -1
  }

  /** The leftmost offset `i >= from` at which `\{-[\s\S]*?-\}` matches, with
      the length of that match; length 0 means no match. */
  function BlockCommentFrom(t: string, from: nat): (r: (nat, nat))
    ensures r.0 + r.1 <= |t|
    ensures r.1 > 0 ==> from <= r.0 && BlockCommentAt(t, r.0)
    ensures r.1 > 0 ==> r.1 >= 4 && OccursAt(t, "-}", r.0 + r.1 - 2)
    ensures r.1 > 0 ==> forall j :: r.0 + 2 <= j < r.0 + r.1 - 2 ==> !OccursAt(t, "-}", j)
    ensures forall i :: from <= i && (r.1 == 0 || i < r.0) ==> !BlockCommentAt(t, i)
    decreases |t| - from
  {
    if from + 2 > |t| then (0, 0)
    else if BlockCommentAt(t, from) then
      (from, IndexFrom(t, "-}", from + 2) + 2 - from)
    else BlockCommentFrom(t, from + 1)
  }

  /** Start and length of what `^--.*|\{-[\s\S]*?-\}` finds in `t`. The `^`
      binds to the first alternative only, so the second is searched for
      anywhere in `t`, leftmost first. */
  function CommentSpan(t: string): (r: (nat, nat))
    ensures r.0 + r.1 <= |t|
    ensures StartsWith(t, "--") ==>
      && r.0 == 0 && 2 <= r.1
      && (forall k :: 2 <= k < r.1 ==> t[k] != '\n')
      && (r.1 == |t| || t[r.1] == '\n')
    ensures !StartsWith(t, "--") ==> r == BlockCommentFrom(t, 0)
  {
    if StartsWith(t, "--") then (0, 2 + Span(t[2..], NotNewline))
    else BlockCommentFrom(t, 0)
  }

  /** What `regexp.MustCompile("^" + regex).FindString(t)` returns for the
      rule's pattern: the empty string when there is no match. */
  function Find(p: Pattern, t: string): (m: string)
    ensures |m| <= |t|
    ensures !p.CommentPat? ==> m == t[..|m|]
    ensures p.CommentPat? ==>
      var span := CommentSpan(t); m == t[span.0..span.0 + span.1]
  {
    if p.CommentPat? then
      var (start, len) := CommentSpan(t);
      t[start..start + len]
    else t[..PrefixLen(p, t)]
  }

  /** The index of the first rule (from `from` on) whose pattern matches a
      non-empty text, or `|rules|` when none does. */
  function FirstMatchFrom(rules: seq<TokenType>, t: string, from: nat): (k: nat)
    requires from <= |rules|
    ensures from <= k <= |rules|
    ensures forall j :: from <= j < k ==> Find(rules[j].pattern, t) == []
    ensures k < |rules| ==> Find(rules[k].pattern, t) != []
    decreases |rules| - from
  {
    if from == |rules| then from
    else if Find(rules[from].pattern, t) != [] then from
    else FirstMatchFrom(rules, t, from + 1)
  }

  /** The rule that wins on `t`: first in catalog order with a non-empty match. */
  function FirstMatch(rules: seq<TokenType>, t: string): (k: nat)
    ensures k <= |rules|
    ensures forall j :: 0 <= j < k ==> Find(rules[j].pattern, t) == []
    ensures k < |rules| ==> Find(rules[k].pattern, t) != []
  {
    FirstMatchFrom(rules, t, 0)
  }

  /** The rule at `k` wins when it matches and no earlier rule does. */
  lemma FirstMatchIs(rules: seq<TokenType>, t: string, k: nat)
    requires k < |rules| && Find(rules[k].pattern, t) != []
    requires forall j :: 0 <= j < k ==> Find(rules[j].pattern, t) == []
    ensures FirstMatch(rules, t) == k
  {}
}
