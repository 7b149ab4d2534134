# Lexer of a Haskell-like language, modelled in Dafny

The lexer turns source text into a stream of tokens. Each token carries:

- a type: the name of the catalog rule that matched it;
- a value: the matched text;
- a 1-based line and column;
- an id.

It has two parts.

- **The token catalog** (`tokens.go`) is a fixed, ordered list of 93 rules. Each rule has a name, a regular expression and a class. In order, the catalog holds:
  - 38 keywords;
  - 25 operators;
  - `ident`, then `constructor`;
  - 5 constants;
  - 20 punctuation rules;
  - `SPACE` and `COMMENT`;
  - `PRAGMA`.
- **The `Lexer`** (`lexer.go`) keeps a cursor into the text. `nextToken` works on the rest of the text from the cursor. At each call it:
  - skips a `{- ... -}` block comment or a `-- ...` line comment that starts at the cursor;
  - on a `{-` with no `-}` anywhere in the rest of the text, records an unclosed-comment error at the cursor's line and column, moves the cursor to the end of the text and produces no token;
  - otherwise tries the rules in catalog order, each with `^` prepended to its regex, and takes the first non-empty match;
  - builds a token from the match, placed at the cursor's line and column;
  - for the keyword, operator, variable, constant and punctuation classes, interns the match in that class's table (keywords, operators, names, punctuation) and appends the token to that class's list. Each table hands out ids 0, 1, 2, … in order of first appearance;
  - gives a preprocessor token the id `PREPROCESSOR`, and a constructor or skip token (`SPACE`, `COMMENT`) an empty id; none of these goes into a class list;
  - appends every token to the full stream and moves the cursor forward by the match's length;
  - when no rule matches, records an "unknown character" error and moves one character.

  For every rule but `COMMENT`, the match starts at the cursor, so the cursor moves just past it. The `^` of `COMMENT` binds only to its line-comment alternative, so its block-comment alternative finds the leftmost `{- ... -}` anywhere in the rest of the text. On `'{-c-}` no earlier rule matches. `COMMENT` then matches `{-c-}`, which starts one character after the cursor. The token is reported at the quote's position, and the cursor moves five characters, onto the closing `}`.

  `LexAnalyze` calls `nextToken` until the end of the text and collects the errors in order.

The model has eight modules.

- `Text`: character classes and string helpers.
  - RE2's `\d`, `\s` (`[\t\n\f\r ]`) and `\w`, and its ASCII word boundary `\b`.
  - Go's `strings.HasPrefix` and `strings.Index`.
- `Tokens`: the catalog as a constant sequence of `TokenType` values.
  - `Find` gives what `regexp.MustCompile("^" + regex).FindString` returns for each rule's pattern.
  - `FirstMatch` picks the first rule in catalog order with a non-empty match.
- `CatalogFacts`: properties of the catalog's order.
  - They are stated for any rule sequence with the catalog's `Layout`, and `LayoutHolds` proves that the catalog has that layout.
- `CatalogExamples`: the ordering lemmas applied to `let`, `letter`, `infix`, `x {-c-}` and `'{-c-}`.
- `ScanSpec`: the lexer as pure functions over `LexState`, a value holding the `Lexer` fields.
  - One `nextToken` call is `Step`.
  - The `LexAnalyze` loop is `Run`, and a whole lexing run is `Lex`.
  - `charToLineCol` is `LineCol`.
  - Looking up a text in a table, or entering it, is `Intern`.
- `ScanFacts`: lemmas about steps, runs, positions and interning.
  - `LexInvariant` is the invariant the `Lexer` keeps. Each class list holds exactly that class's tokens from the stream. Each table's ids are 0 … next-1, every token carries the id its text has in the table, and ids follow the order in which texts first appear in the class list.
- `LexExamples`: whole runs on two short texts, and the step on `'{-c-}`.
- `Scanner`: the `Lexer` as a class whose fields are the Go struct's fields.
  - `NewLexer` is its constructor.
  - `NextToken`, `LexAnalyze` and `CharToLineCol` are methods. They are proved equal to `Step`, `Run` and `LineCol`, and to keep `LexInvariant`.

Some consequences of the code:

- `SPACE` and `COMMENT` matches are appended to the token stream, with an empty id.
- The class switch has no arm for `constructor`. A constructor token gets an empty id and goes into no class list.
- A text starting with `{-#` takes the block-comment branch before any rule is tried. So `PRAGMA` never produces a token, and `LBRACE` precedes it in the catalog too.
- `COMMENT` can win away from the cursor, as described above. `CatalogExamples.CommentWins` and `LexExamples.CommentAfterQuoteStep` prove this on `'{-c-}`.

## Model

| member | source | states |
|---|---|---|
| Tokens.TokenTypesList | src/internal/lexer/tokens.go:11-138 | the catalog has 93 rules; the layout of each group is stated by `CatalogFacts.LayoutHolds` |
| CatalogFacts.LayoutHolds | src/internal/lexer/tokens.go:12-135 | rules 0-37 are lower-case keywords whose name is their word; 38-62 are operator symbols of 1-3 characters; 70-89 are one-character symbols, each one of the twenty punctuation characters; `AND`, `OR`, `ident`, `constructor`, the constants, `LBRACE`, `SPACE`, `COMMENT` and `PRAGMA` sit at their fixed places |
| CatalogFacts.CatalogKeywords | src/internal/lexer/tokens.go:12-51 | the first 38 catalog rules are the keyword list, in order |
| CatalogFacts.CatalogOperators | src/internal/lexer/tokens.go:53-79 | catalog rules 38-62 are the operator list, in order |
| CatalogFacts.CatalogPunctuations | src/internal/lexer/tokens.go:97-118 | catalog rules 70-89 are the punctuation list, in order |
| CatalogFacts.CatalogSingles | src/internal/lexer/tokens.go:76-126 | the exact rule at each single position (AND, OR, ident, constructor, integer, float, string, char, multiline_string, LBRACE, SPACE, COMMENT, PRAGMA) |
| CatalogFacts.OperatorsSeparatedHolds | src/internal/lexer/tokens.go:53-79 | no operator is a proper prefix of an operator listed after it |
| CatalogFacts.ClassOrder | src/internal/lexer/tokens.go:129-135 | the classes appear in the order keyword, operator, variable, constructor, constant, punctuation, skip, preprocessor, with no class resuming after a later one |
| CatalogFacts.WordMatchIsWordRun | src/internal/lexer/tokens.go:13-50 | `\bw\b` at the start of a text matches exactly when the text's leading word-character run is `w` |
| CatalogFacts.WordRuleFacts | src/internal/lexer/tokens.go:13-50 | a keyword rule matches exactly when the leading word is its word, and then it matches that word |
| CatalogFacts.SymbolRuleFacts | src/internal/lexer/tokens.go:54-117 | a symbol rule matches exactly when the text starts with its symbol, and then it matches the symbol |
| CatalogFacts.KeywordRecognized | src/internal/lexer/tokens.go:13-50 | a text whose leading word is a keyword's word is won by a keyword rule for that word, matching the word |
| CatalogFacts.KeywordOnlyOnWholeWord | src/internal/lexer/tokens.go:13-50 | when a keyword rule wins, its match is the whole leading word, followed by the end of the text or a non-word character |
| CatalogFacts.NoKeywordMatches | src/internal/lexer/tokens.go:13-50 | no keyword rule matches a text that does not start with a lower-case letter |
| CatalogFacts.NoKeywordWord | src/internal/lexer/tokens.go:13-50 | no keyword rule matches a text whose leading word is not a keyword |
| CatalogFacts.NoOperatorMatches | src/internal/lexer/tokens.go:53-79 | no operator rule matches a text that does not start with an operator character |
| CatalogFacts.NoPunctuationMatches | src/internal/lexer/tokens.go:97-118 | no punctuation rule matches a text that does not start with one of the twenty punctuation characters |
| CatalogFacts.SkipNone | src/internal/lexer/lexer.go:102-106 | rules that find nothing can be skipped in the first-match search |
| CatalogFacts.SkipKeywordsAndOperators | src/internal/lexer/tokens.go:129-130 | on a text starting with neither a lower-case letter nor an operator character, the search starts in effect at `ident` |
| CatalogFacts.SkipToIdent | src/internal/lexer/tokens.go:129-130 | on a lower-case or `_` start whose leading word is no keyword, the search starts in effect at `ident` |
| CatalogFacts.IdentMatches | src/internal/lexer/tokens.go:82 | `ident` matches any text starting with a lower-case letter or `_` |
| CatalogFacts.IdentFind | src/internal/lexer/tokens.go:82 | `[a-z_][a-zA-Z0-9_']*` matches exactly when the text starts with a lower-case letter or `_`, and then matches that character and the whole run of identifier characters after it |
| CatalogFacts.ConstructorFind | src/internal/lexer/tokens.go:86 | `[A-Z][a-zA-Z0-9_']*` matches exactly on an upper-case start, and then the first character and the whole run of identifier characters after it |
| CatalogFacts.IdentFallback | src/internal/lexer/tokens.go:82 | a lower-case or `_` start whose leading word is no keyword is won by `ident`, with its whole identifier run |
| CatalogFacts.IntegerFind | src/internal/lexer/tokens.go:90 | `\d+` matches the maximal leading digit run |
| CatalogFacts.FloatFind | src/internal/lexer/tokens.go:91 | `\d+\.\d+` matches exactly when the maximal leading digit run is non-empty and is followed by a dot and a digit; the match is that run, the dot and the maximal digit run after it |
| CatalogFacts.StringFind | src/internal/lexer/tokens.go:92 | a string literal matches exactly when the text starts with a double quote and another double quote follows; the match is quote-delimited with no double quote inside |
| CatalogFacts.CharFind | src/internal/lexer/tokens.go:93 | a char literal matches exactly a single quote, one character other than a single quote, and a single quote: three characters |
| CatalogFacts.MultilineStringFind | src/internal/lexer/tokens.go:94 | a multiline string matches exactly when the text starts with three double quotes and three more occur from offset 3 on; the match ends with the first such closing triple |
| CatalogFacts.SpaceFind | src/internal/lexer/tokens.go:121 | `\s` matches exactly one leading space character |
| CatalogFacts.PragmaFind | src/internal/lexer/tokens.go:126 | `PRAGMA` matches exactly when the text starts with `{-#` and `#-}` occurs from offset 3 on; the match ends with the first such `#-}` |
| CatalogFacts.IntegerMatches | src/internal/lexer/tokens.go:90 | from `ident` on, the first rule to match a text starting with a digit is `integer` |
| CatalogFacts.IntegerWins | src/internal/lexer/tokens.go:90-91 | a text starting with a digit is won by `integer`, matching the maximal digit run |
| CatalogFacts.FloatNeedsInteger | src/internal/lexer/tokens.go:90-91 | whenever `\d+\.\d+` matches, `\d+` matches too |
| CatalogFacts.FloatNeverFirst | src/internal/lexer/tokens.go:90-91 | `float` is never the winning rule |
| CatalogFacts.EmptyStringMatches | src/internal/lexer/tokens.go:92-94 | on a text starting with `"""`, `string` matches `""` and is the first rule from `ident` on to match |
| CatalogFacts.EmptyStringBeforeMultiline | src/internal/lexer/tokens.go:92-94 | a text starting with `"""` is won by `string`, matching `""` |
| CatalogFacts.MultilineStartsWithQuotes | src/internal/lexer/tokens.go:94 | `multiline_string` matches only texts starting with `"""` |
| CatalogFacts.MultilineStringNeverFirst | src/internal/lexer/tokens.go:92-94 | `multiline_string` is never the winning rule |
| CatalogFacts.SymbolPrefixOrder | src/internal/lexer/tokens.go:54-78 | whenever one operator is a proper prefix of another, the longer one is listed first |
| CatalogFacts.SymbolLongestMatch | src/internal/lexer/tokens.go:54-78 | when an operator rule wins, no other operator rule matches a longer symbol |
| CatalogFacts.DoubledSymbolsAreOperators | src/internal/lexer/tokens.go:76-77 | a text starting with a doubled `&` or a doubled bar is won by the operator `AND` or `OR`, not by the one-character punctuation `AMPERSAND` or `PIPE` |
| CatalogFacts.IdentConstructorDisjoint | src/internal/lexer/tokens.go:82-86 | `ident` and `constructor` never both match the same text |
| CatalogFacts.IdentConstructorSameTail | src/internal/lexer/tokens.go:82-86 | after their first character, `ident` and `constructor` match the same trailing run |
| CatalogFacts.PragmaNeedsBrace | src/internal/lexer/tokens.go:103-126 | whenever `PRAGMA` matches, `LBRACE` matches too |
| CatalogFacts.PragmaNeverFirst | src/internal/lexer/tokens.go:126-135 | `PRAGMA` is never the winning rule |
| CatalogExamples.LetIsKeyword | src/internal/lexer/tokens.go:13 | a standalone `let` is won by rule 0, the keyword `let`, matching `let` |
| CatalogExamples.LetterIsIdentIn | src/internal/lexer/tokens.go:82 | with no keyword named `letter`, `letter` is won by `ident`, matching all six letters |
| CatalogExamples.LetterIsIdent | src/internal/lexer/tokens.go:13-82 | in the catalog, `letter` is an identifier, not `let` followed by `ter` |
| CatalogExamples.InfixIsNotInIn | src/internal/lexer/tokens.go:14-32 | with `in` at rule 1 and `infix` at rule 19, `infix` is won by a keyword named `infix`, not by rule 1 |
| CatalogExamples.InfixIsNotIn | src/internal/lexer/tokens.go:14-32 | in the catalog, `infix` is the keyword `infix`, not `in` |
| CatalogExamples.CommentNotAnchored | src/internal/lexer/tokens.go:122 | on `x {-c-}`, the `COMMENT` pattern picks the span at offset 2 of length 5, so it matches `{-c-}` two characters in |
| CatalogExamples.CommentAfterQuote | src/internal/lexer/tokens.go:122 | on `'{-c-}`, the `COMMENT` pattern picks the span at offset 1 of length 5, so it matches `{-c-}` |
| CatalogExamples.CommentWinsIn | src/internal/lexer/tokens.go:129-135 | in any catalog with the catalog's layout, no rule before `COMMENT` matches `'{-c-}`, so `COMMENT` wins, matching `{-c-}` |
| CatalogExamples.CommentWins | src/internal/lexer/tokens.go:120-135 | in the catalog, `'{-c-}` is won by the skip rule `COMMENT`, matching `{-c-}` |
| Text.IndexFrom | src/internal/lexer/lexer.go:80 | `strings.Index`: the first occurrence at or after the start offset, or -1 when there is none |
| Text.StartsWith | src/internal/lexer/lexer.go:79-91 | `strings.HasPrefix` holds exactly when the prefix is no longer than the text and agrees with it character by character |
| Tokens.Find | src/internal/lexer/lexer.go:103-104 | the match of every pattern but `COMMENT` is a prefix of the text; the `COMMENT` match is the slice of the text that `CommentSpan` picks, which need not start at offset 0 |
| Tokens.PrefixLen | src/internal/lexer/tokens.go:13-126 | the length matched by an anchored pattern other than `COMMENT` never exceeds the text |
| Tokens.CommentSpan | src/internal/lexer/tokens.go:122 | on a text starting with `--`, the match starts at 0 and runs to the first newline after the `--`, or to the end; on any other text it is the leftmost block comment of `BlockCommentFrom` |
| Tokens.BlockCommentFrom | src/internal/lexer/tokens.go:122 | `\{-[\s\S]*?-\}` finds the leftmost `{-` that a later `-}` closes, and ends at the first such `-}` |
| Tokens.FirstMatch | src/internal/lexer/lexer.go:102-106 | the result is the first rule with a non-empty match: every earlier rule finds nothing |
| Tokens.FirstMatchIs | src/internal/lexer/lexer.go:102-106 | a rule that matches, with no earlier rule matching, is the winner |
| ScanSpec.LineCol | src/internal/lexer/lexer.go:162-165 | (-1, -1) exactly when the offset is outside the text; otherwise the line and column lie in 1 .. offset+1 |
| ScanSpec.Intern | src/internal/lexer/lexer.go:117-121 | new text gets the counter's value and the counter increments; known text keeps its id and the counter stays; no other entry changes |
| ScanSpec.Init | src/internal/lexer/lexer.go:39-48 | a new lexer has its cursor at 0 and an empty stream |
| ScanSpec.NewToken | src/internal/lexer/lexer.go:107-113 | a token's type is the rule's name, its value is the match, and its position is the cursor's line and column |
| ScanSpec.Step | src/internal/lexer/lexer.go:71-159 | a call reports success exactly when the cursor was inside the text; a successful call moves the cursor forward and not past the end; an unsuccessful one changes nothing |
| ScanSpec.Run | src/internal/lexer/lexer.go:51-61 | the loop ends with the cursor at the end of the text; from the end it does nothing |
| ScanSpec.Lex | src/internal/lexer/lexer.go:51-67 | lexing a whole text leaves the cursor at its end |
| ScanFacts.NewlineCountIsMultiplicity | src/internal/lexer/lexer.go:170-173 | the line counter counts exactly the newlines before the offset |
| ScanFacts.LineColAdvance | src/internal/lexer/lexer.go:170-177 | one character later, a newline means the next line at column 1, and any other character means one column right |
| ScanFacts.NewlineCountAppend | src/internal/lexer/lexer.go:170-173 | newline counts add up over concatenation |
| ScanFacts.NoNewlineCount | src/internal/lexer/lexer.go:170-177 | text without newlines counts none and has no last newline |
| ScanFacts.LastNewlineAfterLine | src/internal/lexer/lexer.go:170-177 | after a complete line, the last newline is the one ending that line |
| ScanFacts.LineColFromLineStart | src/internal/lexer/lexer.go:162-180 | an offset preceded by some complete lines and then a partial line `v` is on line 1 + (number of those lines), column (length of `v`) + 1 |
| ScanFacts.InternPreservesValid | src/internal/lexer/lexer.go:117-121 | interning keeps a table's ids exactly 0 .. next-1, one per entry |
| ScanFacts.InternIdempotent | src/internal/lexer/lexer.go:117-121 | interning the same text again changes nothing and gives the same id |
| ScanFacts.InternDistinguishes | src/internal/lexer/lexer.go:117-121 | in a valid table, two texts interned in turn get the same id exactly when they are equal |
| ScanFacts.InternedAppend | src/internal/lexer/lexer.go:117-122 | appending a token that carries its interned id keeps the list and the grown table in agreement |
| ScanFacts.InitInvariant | src/internal/lexer/lexer.go:39-48 | a new lexer satisfies the invariant |
| ScanSpec.Emit | src/internal/lexer/lexer.go:107-149 | recording a match appends one token to the stream, with the rule name, the match and the cursor's line and column, and moves the cursor by the match's length; for a class with a table it interns the match in that table only and appends the token to that class's list only, with the interned id; otherwise no table or list changes, and the id is `PREPROCESSOR` for a preprocessor token and empty for constructor and skip tokens |
| ScanSpec.GroupOf | src/internal/lexer/lexer.go:115-146 | keyword, operator and punctuation each have their own table; variable and constant share the names table; constructor, skip and preprocessor have none |
| Scanner.Lexer.SwitchClass | src/internal/lexer/lexer.go:115-146 | the class switch gives the token its id and changes the fields as `ClassSwitch` says: only the table and list of the class's group |
| ScanFacts.AppendInGroup | src/internal/lexer/lexer.go:115-148 | interning and appending a token of class g keeps class g's invariant |
| ScanFacts.AppendOutsideGroup | src/internal/lexer/lexer.go:115-148 | appending a token of another class keeps class h's invariant |
| ScanFacts.EmitPreservesInvariant | src/internal/lexer/lexer.go:107-150 | recording a match keeps the invariant |
| ScanFacts.MovePreservesInvariant | src/internal/lexer/lexer.go:83-96 | moving only the cursor keeps the invariant |
| ScanFacts.StepPreservesInvariant | src/internal/lexer/lexer.go:71-159 | every `nextToken` call keeps the invariant |
| ScanFacts.RunPreservesInvariant | src/internal/lexer/lexer.go:51-61 | the whole loop keeps the invariant |
| ScanFacts.LexEndsValid | src/internal/lexer/lexer.go:51-67 | after lexing any text, the invariant holds |
| ScanFacts.LexClassLists | src/internal/lexer/lexer.go:51-67 | after lexing any text, each class list is exactly its class's tokens from the stream, in stream order |
| ScanFacts.InterningConsistent | src/internal/lexer/lexer.go:115-143 | within a class list, two tokens share an id exactly when they share a text |
| ScanFacts.LexInterning | src/internal/lexer/lexer.go:51-67 | after lexing any text, two tokens of one class list share an id exactly when they share a text |
| ScanFacts.LexFirstAppearance | src/internal/lexer/lexer.go:115-143 | after lexing any text, a token whose text is new to its class list gets id n, where n is the number of distinct texts before it in that list: ids follow the order of first appearance |
| ScanFacts.FirstAppearanceAppend | src/internal/lexer/lexer.go:117-122 | appending a token that carries its interned id keeps ids in the order of first appearance |
| ScanFacts.NewTextId | src/internal/lexer/lexer.go:117-120 | a text new to a class list is entered with the number of distinct texts already in the list |
| ScanFacts.OutOfOrderIdsExcluded | src/internal/lexer/lexer.go:115-122 | a keyword list with `in` as `K:1` before `let` as `K:0` breaks the order of first appearance, so no run builds it |
| ScanFacts.StepBlockComment | src/internal/lexer/lexer.go:79-88 | on `{-`, if `-}` occurs from the cursor on, the cursor moves just past its first occurrence, which may overlap the opener; otherwise one unclosed-comment error is reported at the cursor's line and column and the cursor jumps to the end; no token either way |
| ScanFacts.SelfClosingComment | src/internal/lexer/lexer.go:79-87 | `{-}` is a complete comment of three characters |
| ScanFacts.StepLineComment | src/internal/lexer/lexer.go:91-99 | on `--`, the cursor moves just past the next newline, or to the end when none follows; no token and no error |
| ScanFacts.StepMatch | src/internal/lexer/lexer.go:102-150 | otherwise the first matching rule wins; its non-empty match becomes one token at the cursor's line and column; the cursor moves by the match's length; only the class's table and list change |
| ScanFacts.StepUnknown | src/internal/lexer/lexer.go:155-158 | when no rule matches, one unknown-character error is reported at the cursor's line and column, and the cursor moves by exactly one |
| ScanFacts.RunAppends | src/internal/lexer/lexer.go:51-61 | the loop only appends to the stream and reports at most one error per remaining character |
| LexExamples.UnclosedCommentRun | src/internal/lexer/lexer.go:79-85 | lexing `{- x` gives no token and one unclosed-comment error at line 1, column 1 |
| LexExamples.SkipLineComment | src/internal/lexer/lexer.go:91-98 | on `--\nlet`, the first call skips to offset 3 |
| LexExamples.ReadLet | src/internal/lexer/lexer.go:102-150 | the second call reads `let` as keyword id 0 at line 2, column 1 |
| LexExamples.LetEmitted | src/internal/lexer/lexer.go:107-122 | recording `let` as the first keyword gives id `K:0` and puts the token in the stream and the keyword list |
| LexExamples.CommentThenLetRun | src/internal/lexer/lexer.go:51-67 | lexing `--\nlet` gives exactly the `let` token with keyword id 0 at line 2, column 1, and no error |
| LexExamples.CommentAfterQuoteStep | src/internal/lexer/lexer.go:102-150 | the first call on `'{-c-}` appends one `COMMENT` token with text `{-c-}`, line 1, column 1 and an empty id, and moves the cursor to offset 5, onto the closing brace |
| LexExamples.CommentEmitted | src/internal/lexer/lexer.go:107-150 | recording that match appends the token with an empty id and touches no table or class list |
| Scanner.Lexer.constructor | src/internal/lexer/lexer.go:39-48 | `NewLexer` stores the text and sets up the initial state, which satisfies the invariant |
| Scanner.Lexer.CharToLineCol | src/internal/lexer/lexer.go:162-180 | the counting loop returns `LineCol`: 1 plus the number of newlines before the offset, and the offset minus the last newline's index |
| Scanner.Lexer.InternIn | src/internal/lexer/lexer.go:117-121 | the lookup-or-insert block does what `Intern` says |
| Scanner.Lexer.AddKeyword | src/internal/lexer/lexer.go:116-122 | interns in the keywords table, gives the token id `K:n`, and appends it to the keyword list; nothing else changes |
| Scanner.Lexer.AddOperator | src/internal/lexer/lexer.go:123-129 | the same for operators and `O:n` |
| Scanner.Lexer.AddName | src/internal/lexer/lexer.go:130-136 | the same for variables and constants, in the names table, with `N:n` |
| Scanner.Lexer.AddPunctuation | src/internal/lexer/lexer.go:137-143 | the same for punctuation and `P:n` |
| Scanner.Lexer.Record | src/internal/lexer/lexer.go:107-149 | recording a match changes the fields exactly as `Emit` says |
| Scanner.Lexer.MatchRule | src/internal/lexer/lexer.go:102-106 | the loop over the catalog returns the first rule with a non-empty match, and that match |
| Scanner.Lexer.NextToken | src/internal/lexer/lexer.go:71-159 | one call returns what `Step` says and leaves the fields in `Step`'s next state; the invariant is kept |
| Scanner.Lexer.LexAnalyze | src/internal/lexer/lexer.go:51-68 | the loop leaves the fields in `Run`'s final state and returns `Run`'s errors in order, with the final token stream |

## Left out

- `src/cmd/lexer/lexerExecute.go` is not part of this model. It reads the input file, creates the results directory and writes the report tables, which is all file I/O.
- Printing the collected errors with `fmt.Println` (`lexer.go:63-65`) is I/O. `LexAnalyze` returns the errors as a sequence instead.
- `fmt.Sprintf` is not modelled. Ids are the `Id` datatype (`K:n`, `O:n`, `N:n`, `P:n`, `PREPROCESSOR`, empty). The two error messages are the `Diagnostic` datatype, which carries the line and column.
- Go's `regexp` library is not modelled. Each rule's pattern has a hand-written matcher with RE2's semantics for that one expression:
  - leftmost-first alternation;
  - lazy `*?`;
  - `.` excluding `\n` while negated classes include it;
  - an ASCII `\b`.

  Compiling the regex again on every call is a performance detail.
- Input is ASCII text as `seq<char>`. Go's `.` and negated classes match whole UTF-8 runes, while the unknown-character path skips one byte. Multi-byte input is not modelled.
- `Step`, `Run` and the `CatalogFacts` lemmas take the rule sequence as a parameter. `Lex`, `Scanner.Lexer.NextToken` and `Scanner.Lexer.LexAnalyze` use the catalog itself.
- Tokens.TokenTypesList: its own contract states only the rule count. The position, pattern and class of every rule are stated by `CatalogFacts.LayoutHolds`, `CatalogKeywords`, `CatalogOperators`, `CatalogPunctuations` and `CatalogSingles`.
- ScanSpec.LineCol: its contract gives the error case and the ranges only. The exact counts are stated by `ScanFacts.LineColFromLineStart`, `ScanFacts.NewlineCountIsMultiplicity` and `Scanner.Lexer.CharToLineCol`.
- Tokens.PrefixLen: its own contract states only the bound on the length. What each pattern matches is stated per pattern: keywords by `CatalogFacts.WordRuleFacts`; operators and punctuation by `SymbolRuleFacts`; `ident` by `IdentFind`; `constructor` by `ConstructorFind`; `integer` by `IntegerFind`; `float` by `FloatFind`; `string` by `StringFind`; `char` by `CharFind`; `multiline_string` by `MultilineStringFind`; `SPACE` by `SpaceFind`; `PRAGMA` by `PragmaFind`.
