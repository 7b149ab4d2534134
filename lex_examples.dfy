/** Whole runs of the lexer on short texts. */
module LexExamples {
  import opened Text
  import opened Tokens
  import opened ScanSpec
  import ScanFacts
  import CatalogExamples

  /** An unclosed block comment: no token, one error at line 1, column 1,
      and the cursor at the end of the text. */
  lemma UnclosedCommentRun()
    ensures Lex("{- x") == (Init().(pos := 4), [UnclosedComment(1, 1)])
  {
    var code := "{- x";
    var c := TokenTypesList();
    assert code[0..] == code;
    assert code[..2] == "{-";
    assert IndexFrom(code, "-}", 0) == -1 by {
      assert code[0..2][0] == '{' && code[1..3][1] == ' ' && code[2..4][1] == 'x';
    }
    assert LineCol(code, 0) == (1, 1);
    var s1 := Init().(pos := 4);
    assert Step(c, code, Init()) == StepResult(true, Some(UnclosedComment(1, 1)), s1);
    ScanFacts.RunUnfold(c, code, Init());
    assert Run(c, code, s1) == (s1, []);
    assert [UnclosedComment(1, 1)] + [] == [UnclosedComment(1, 1)];
    assert Run(c, code, Init()) == (s1, [UnclosedComment(1, 1)]);
  }

  /** The state after `--\nlet`: one `let` token at line 2, column 1, with
      keyword id 0, in the stream and in the keyword list. */
  function AfterLet(): LexState {
    var tok := Token("let", "let", 2, 1, KeywordId(0));
    Init().(pos := 6, tokens := [tok], keywords := [tok], keywordsTable := Table(map["let" := 0], 1))
  }

  /** The first step on `--\nlet` skips the comment and its newline. */
  lemma SkipLineComment()
    ensures Step(TokenTypesList(), "--\nlet", Init()) == StepResult(true, None, Init().(pos := 3))
  {
    var code := "--\nlet";
    assert code[0..] == code && code[..2] == "--" && code[..2] != "{-";
    assert IndexFrom(code, "\n", 0) == 2 by {
      assert code[0..1][0] == '-' && code[1..2][0] == '-' && code[2..3] == "\n";
    }
  }

  /** The second step reads `let` as keyword 0 at line 2, column 1. */
  lemma ReadLet()
    ensures Step(TokenTypesList(), "--\nlet", Init().(pos := 3)) == StepResult(true, None, AfterLet())
  {
    var code := "--\nlet";
    var c := TokenTypesList();
    var s1 := Init().(pos := 3);
    var text := code[3..];
    assert text == "let" + [];
    assert text[..2][0] == 'l';
    CatalogExamples.LetIsKeyword([]);
    assert Step(c, code, s1) == StepResult(true, None, Emit(code, s1, c[0], "let"));
    LetEmitted(c[0]);
  }

  lemma LetEmitted(rule: TokenType)
    requires rule.name == "let" && rule.kind == Keyword
    ensures Emit("--\nlet", Init().(pos := 3), rule, "let") == AfterLet()
  {
    var code := "--\nlet";
    assert LineCol(code, 3) == (2, 1) by {
      assert code[..3] == "--" + "\n" + [];
      ScanFacts.LineColFromLineStart(code, 3, "--\n", []);
      ScanFacts.NewlineCountAppend("--", "\n");
      ScanFacts.NoNewlineCount("--");
      assert "\n"[..0] == [];
    }
  }

  /** A line comment is skipped and the `let` on the next line is the first
      keyword, with id 0; no error. */
  lemma CommentThenLetRun()
    ensures Lex("--\nlet") == (AfterLet(), [])
  {
    var code := "--\nlet";
    var c := TokenTypesList();
    SkipLineComment();
    ReadLet();
    ScanFacts.RunUnfold(c, code, Init());
    ScanFacts.RunUnfold(c, code, Init().(pos := 3));
    assert Run(c, code, AfterLet()) == (AfterLet(), []);
    var none: seq<Diagnostic> := [];
    assert none + none == none;
    assert Run(c, code, Init().(pos := 3)) == (AfterLet(), []);
    assert Run(c, code, Init()) == (AfterLet(), []);
  }

  /** A COMMENT match need not start at the cursor: on `'{-c-}` the token's
      text is `{-c-}`, it is reported at the cursor (line 1, column 1, the
      quote), and the cursor moves by the match's length, onto the `}`. */
  lemma CommentAfterQuoteStep()
    ensures Step(TokenTypesList(), "'{-c-}", Init()) ==
      StepResult(true, None, Init().(pos := 5, tokens := [Token("COMMENT", "{-c-}", 1, 1, NoId)]))
  {
    var code := "'{-c-}";
    var c := TokenTypesList();
    assert code[0..] == code;
    assert code[..2][0] == '\'';
    CatalogExamples.CommentWins();
    assert Step(c, code, Init()) == StepResult(true, None, Emit(code, Init(), c[CommentIndex], "{-c-}"));
    CommentEmitted(c[CommentIndex]);
  }

  lemma CommentEmitted(rule: TokenType)
    requires rule.name == "COMMENT" && rule.kind == Skip
    ensures Emit("'{-c-}", Init(), rule, "{-c-}") ==
      Init().(pos := 5, tokens := [Token("COMMENT", "{-c-}", 1, 1, NoId)])
  {
    assert LineCol("'{-c-}", 0) == (1, 1);
  }
}
