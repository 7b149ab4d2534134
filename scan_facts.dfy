/** Properties of one `nextToken` step, of the `LexAnalyze` loop, of the
    interning tables and of `charToLineCol`, as modelled in `ScanSpec`. */
module ScanFacts {
  import opened Text
  import opened Tokens
  import opened ScanSpec

  // ---------------------------------------------------------------------------
  // Positions

  /** `NewlineCount` counts exactly the newline characters of the text. */
  lemma {:induction false} NewlineCountIsMultiplicity(s: string)
    ensures NewlineCount(s) == multiset(s)['\n']
  {
    if s != [] {
      var init := s[..|s| - 1];
      assert s == init + [s[|s| - 1]];
      NewlineCountIsMultiplicity(init);
    }
  }

  /** Moving one character forward: a newline starts the next line at column
      1, any other character moves one column right. */
  lemma LineColAdvance(code: string, p: nat)
    requires p + 1 < |code|
    ensures LineCol(code, p + 1) ==
      if code[p] == '\n' then (LineCol(code, p).0 + 1, 1)
      else (LineCol(code, p).0, LineCol(code, p).1 + 1)
  {
    assert code[..p + 1][..p] == code[..p];
    assert code[..p + 1][p] == code[p];
  }

  lemma {:induction false} NewlineCountAppend(u: string, v: string)
    ensures NewlineCount(u + v) == NewlineCount(u) + NewlineCount(v)
    decreases |v|
  {
    if v == [] {
      assert u + v == u;
    } else {
      var w := v[..|v| - 1];
      assert (u + v)[..|u + v| - 1] == u + w;
      NewlineCountAppend(u, w);
    }
  }

  lemma {:induction false} NoNewlineCount(v: string)
    requires forall i :: 0 <= i < |v| ==> v[i] != '\n'
    ensures NewlineCount(v) == 0 && LastNewline(v) == -1
  {
    if v != [] {
      NoNewlineCount(v[..|v| - 1]);
    }
  }

  lemma {:induction false} LastNewlineAfterLine(u: string, v: string)
    requires |u| > 0 && u[|u| - 1] == '\n'
    requires forall i :: 0 <= i < |v| ==> v[i] != '\n'
    ensures LastNewline(u + v) == |u| - 1
    decreases |v|
  {
    if v == [] {
      assert u + v == u;
    } else {
      var w := v[..|v| - 1];
      assert (u + v)[..|u + v| - 1] == u + w;
      LastNewlineAfterLine(u, w);
    }
  }

  /** If the text before offset `p` is some complete lines `u` followed by
      the start `v` of the current line, then `p` is on line
      1 + (newlines in `u`), at column |v| + 1. */
  lemma LineColFromLineStart(code: string, p: nat, u: string, v: string)
    requires p < |code| && code[..p] == u + v
    requires u == [] || u[|u| - 1] == '\n'
    requires forall i :: 0 <= i < |v| ==> v[i] != '\n'
    ensures LineCol(code, p) == (1 + NewlineCount(u), |v| + 1)
  {
    NewlineCountAppend(u, v);
    NoNewlineCount(v);
    if u == [] {
      assert u + v == v;
    } else {
      LastNewlineAfterLine(u, v);
    }
  }

  // ---------------------------------------------------------------------------
  // Interning

  /** Interning keeps a table's ids exactly 0 .. next-1, one per entry. */
  lemma InternPreservesValid(t: Table, text: string)
    requires TableValid(t)
    ensures TableValid(Intern(t, text).0)
  {
    if text !in t.ids {
      var ids := t.ids[text := t.next];
      assert |ids| == |t.ids| + 1;
      forall a, b | a in ids && b in ids && ids[a] == ids[b] ensures a == b {
        if a != text && b != text {
          assert ids[a] == t.ids[a] && ids[b] == t.ids[b];
        }
      }
    }
  }

  /** Interning the same text twice gives the same id and leaves the table
      as the first call left it. */
  lemma InternIdempotent(t: Table, text: string)
    ensures Intern(Intern(t, text).0, text) == Intern(t, text)
  {}

  /** Two texts interned one after the other in a valid table get the same
      id exactly when they are the same text. */
  lemma InternDistinguishes(t: Table, a: string, b: string)
    requires TableValid(t)
    ensures var (t1, na) := Intern(t, a); var (t2, nb) := Intern(t1, b);
      na == nb <==> a == b
  {
    var (t1, na) := Intern(t, a);
    InternPreservesValid(t, a);
    var (t2, nb) := Intern(t1, b);
    InternPreservesValid(t1, b);
    assert t2.ids[a] == na;
  }

  lemma IdOfInjective(g: Group, a: nat, b: nat)
    ensures IdOf(g, a) == IdOf(g, b) <==> a == b
  {}

  lemma IdOfGroup(g: Group, n: nat)
    ensures forall h :: InGroup(IdOf(g, n), h) <==> h == g
  {}

  lemma InternedAppend(list: seq<Token>, t: Table, g: Group, tok: Token)
    requires Interned(list, t, g)
    requires tok.id == IdOf(g, Intern(t, tok.value).1)
    ensures Interned(list + [tok], Intern(t, tok.value).0, g)
  {
    var (t1, n) := Intern(t, tok.value);
    var list1 := list + [tok];
    forall v | v in t1.ids ensures exists i :: 0 <= i < |list1| && list1[i].value == v {
      if v == tok.value {
        assert list1[|list|].value == v;
      } else {
        var i :| 0 <= i < |list| && list[i].value == v;
        assert list1[i].value == v;
      }
    }
  }

  /** The texts of an interned list are the keys of its table. */
  lemma ValuesAreKeys(list: seq<Token>, t: Table, g: Group)
    requires Interned(list, t, g)
    ensures Values(list) == t.ids.Keys
  {
    forall v | v in t.ids ensures v in Values(list) {
      var i :| 0 <= i < |list| && list[i].value == v;
    }
  }

  /** A text new to an interned list gets the number of distinct texts
      already in the list. */
  lemma NewTextId(list: seq<Token>, t: Table, g: Group, text: string)
    requires TableValid(t) && Interned(list, t, g) && text !in Values(list)
    ensures Intern(t, text).1 == |Values(list)|
  {
    ValuesAreKeys(list, t, g);
    assert |t.ids.Keys| == |t.ids|;
  }

  /** Appending a token keeps ids in the order of first appearance when a
      new text comes with the number of distinct texts before it. */
  lemma FirstAppearanceSnoc(list: seq<Token>, g: Group, tok: Token)
    requires FirstAppearance(list, g)
    requires tok.value !in Values(list) ==> tok.id == IdOf(g, |Values(list)|)
    ensures FirstAppearance(list + [tok], g)
  {
    var list1 := list + [tok];
    forall i | 0 <= i < |list1| && list1[i].value !in Values(list1[..i])
      ensures list1[i].id == IdOf(g, |Values(list1[..i])|)
    {
      if i < |list| {
        assert list1[..i] == list[..i];
      } else {
        assert list1[..i] == list;
      }
    }
  }

  /** Appending a token that carries its interned id keeps ids in the order
      of first appearance. */
  lemma FirstAppearanceAppend(list: seq<Token>, t: Table, g: Group, tok: Token)
    requires TableValid(t) && Interned(list, t, g) && FirstAppearance(list, g)
    requires tok.id == IdOf(g, Intern(t, tok.value).1)
    ensures FirstAppearance(list + [tok], g)
  {
    if tok.value !in Values(list) {
      NewTextId(list, t, g, tok.value);
    }
    FirstAppearanceSnoc(list, g, tok);
  }

  // ---------------------------------------------------------------------------
  // The invariant

  lemma SelectAppend(ts: seq<Token>, t: Token, g: Group)
    ensures Select(ts + [t], g) == Select(ts, g) + (if InGroup(t.id, g) then [t] else [])
  {
    assert (ts + [t])[..|ts|] == ts;
  }

  /** `NewLexer` establishes the invariant. */
  lemma InitInvariant(code: string)
    ensures LexInvariant(code, Init())
  {
    forall g ensures GroupInvariant(Init(), g) {
      assert |EmptyTable.ids| == 0;
    }
  }

  /** Appending a token of group `g` keeps the invariant of group `g`. */
  lemma AppendInGroup(s: LexState, s1: LexState, g: Group, tok: Token)
    requires GroupInvariant(s, g)
    requires s1.tokens == s.tokens + [tok]
    requires TableOf(s1, g) == Intern(TableOf(s, g), tok.value).0
    requires tok.id == IdOf(g, Intern(TableOf(s, g), tok.value).1)
    requires ListOf(s1, g) == ListOf(s, g) + [tok]
    ensures GroupInvariant(s1, g)
  {
    SelectAppend(s.tokens, tok, g);
    IdOfGroup(g, Intern(TableOf(s, g), tok.value).1);
    InternPreservesValid(TableOf(s, g), tok.value);
    InternedAppend(ListOf(s, g), TableOf(s, g), g, tok);
    FirstAppearanceAppend(ListOf(s, g), TableOf(s, g), g, tok);
  }

  /** Appending a token outside group `h` keeps the invariant of group `h`. */
  lemma AppendOutsideGroup(s: LexState, s1: LexState, h: Group, tok: Token)
    requires GroupInvariant(s, h)
    requires s1.tokens == s.tokens + [tok] && !InGroup(tok.id, h)
    requires TableOf(s1, h) == TableOf(s, h) && ListOf(s1, h) == ListOf(s, h)
    ensures GroupInvariant(s1, h)
  {
    SelectAppend(s.tokens, tok, h);
  }

  /** Recording a match keeps the invariant of every group. */
  lemma EmitPreservesInvariant(code: string, s: LexState, rule: TokenType, m: string)
    requires LexInvariant(code, s) && s.pos + |m| <= |code|
    ensures LexInvariant(code, Emit(code, s, rule, m))
  {
    var s1 := Emit(code, s, rule, m);
    var tok := s1.tokens[|s.tokens|];
    assert s1.tokens == s.tokens + [tok];
    forall h ensures GroupInvariant(s1, h) {
      assert GroupInvariant(s, h);
      match GroupOf(rule.kind)
      case Some(g) =>
        IdOfGroup(g, Intern(TableOf(s, g), m).1);
        if h == g {
          AppendInGroup(s, s1, g, tok);
        } else {
          AppendOutsideGroup(s, s1, h, tok);
        }
      case None =>
        AppendOutsideGroup(s, s1, h, tok);
    }
  }

  /** Every `nextToken` step keeps the invariant. */
  lemma StepPreservesInvariant(rules: seq<TokenType>, code: string, s: LexState)
    requires LexInvariant(code, s)
    ensures LexInvariant(code, Step(rules, code, s).next)
  {
    var r := Step(rules, code, s);
    if s.pos < |code| {
      var text := code[s.pos..];
      var k := FirstMatch(rules, text);
      if !StartsWith(text, "{-") && !StartsWith(text, "--") && k < |rules| {
        EmitPreservesInvariant(code, s, rules[k], Find(rules[k].pattern, text));
      } else {
        assert r.next == s.(pos := r.next.pos);
        MovePreservesInvariant(code, s, r.next.pos);
      }
    }
  }

  /** Moving the cursor alone keeps the invariant. */
  lemma MovePreservesInvariant(code: string, s: LexState, p: nat)
    requires LexInvariant(code, s) && p <= |code|
    ensures LexInvariant(code, s.(pos := p))
  {
    forall g ensures GroupInvariant(s.(pos := p), g) {
      assert GroupInvariant(s, g);
      assert TableOf(s.(pos := p), g) == TableOf(s, g) && ListOf(s.(pos := p), g) == ListOf(s, g);
    }
  }

  /** The whole `LexAnalyze` loop keeps the invariant. */
  lemma {:induction false} RunPreservesInvariant(rules: seq<TokenType>, code: string, s: LexState)
    requires LexInvariant(code, s)
    ensures LexInvariant(code, Run(rules, code, s).0)
    decreases |code| - s.pos
  {
    var st := Step(rules, code, s);
    if st.success {
      StepPreservesInvariant(rules, code, s);
      RunPreservesInvariant(rules, code, st.next);
    }
  }

  /** Within one class, two tokens share an id exactly when they share a
      text. */
  lemma InterningConsistent(code: string, s: LexState, g: Group, i: nat, j: nat)
    requires LexInvariant(code, s)
    requires i < |ListOf(s, g)| && j < |ListOf(s, g)|
    ensures ListOf(s, g)[i].id == ListOf(s, g)[j].id <==> ListOf(s, g)[i].value == ListOf(s, g)[j].value
  {
    assert GroupInvariant(s, g);
    var list, t := ListOf(s, g), TableOf(s, g);
    IdOfInjective(g, t.ids[list[i].value], t.ids[list[j].value]);
  }

  /** The invariant holds when `LexAnalyze` returns. */
  lemma LexEndsValid(code: string)
    ensures LexInvariant(code, Lex(code).0)
  {
    InitInvariant(code);
    RunPreservesInvariant(TokenTypesList(), code, Init());
  }

  /** After lexing a whole text, each per-class list holds exactly the
      tokens of that class, in stream order. */
  lemma LexClassLists(code: string)
    ensures var s := Lex(code).0; forall g :: ListOf(s, g) == Select(s.tokens, g)
  {
    LexEndsValid(code);
    var s := Lex(code).0;
    forall g ensures ListOf(s, g) == Select(s.tokens, g) {
      assert GroupInvariant(s, g);
    }
  }

  /** After lexing a whole text, two tokens of one class share an id exactly
      when they share a text. */
  lemma LexInterning(code: string, g: Group)
    ensures var list := ListOf(Lex(code).0, g);
      forall i, j :: 0 <= i < |list| && 0 <= j < |list| ==>
        (list[i].id == list[j].id <==> list[i].value == list[j].value)
  {
    LexEndsValid(code);
    var s := Lex(code).0;
    var list := ListOf(s, g);
    forall i, j | 0 <= i < |list| && 0 <= j < |list|
      ensures list[i].id == list[j].id <==> list[i].value == list[j].value
    {
      InterningConsistent(code, s, g, i, j);
    }
  }

  /** A keyword list holding `in` with id 1 before `let` with id 0 breaks
      the order of first appearance, so no lexing run builds it. */
  lemma OutOfOrderIdsExcluded()
    ensures !FirstAppearance([Token("in", "in", 1, 1, KeywordId(1)), Token("let", "let", 1, 4, KeywordId(0))], KeywordGroup)
  {
    var list := [Token("in", "in", 1, 1, KeywordId(1)), Token("let", "let", 1, 4, KeywordId(0))];
    assert Values(list[..0]) == {};
  }

  /** After lexing a whole text, each table has handed out its ids in the
      order in which texts first appear in the class list: the first new
      text gets 0, the next new one 1, and so on. */
  lemma LexFirstAppearance(code: string, g: Group)
    ensures var list := ListOf(Lex(code).0, g);
      forall i :: 0 <= i < |list| && list[i].value !in Values(list[..i]) ==>
        list[i].id == IdOf(g, |Values(list[..i])|)
  {
    LexEndsValid(code);
    assert GroupInvariant(Lex(code).0, g);
  }

  // ---------------------------------------------------------------------------
  // One step

  lemma OccursShift(code: string, p: nat, pat: string, j: nat)
    requires p <= |code|
    ensures OccursAt(code[p..], pat, j) <==> OccursAt(code, pat, p + j)
  {
    if OccursAt(code[p..], pat, j) || OccursAt(code, pat, p + j) {
      assert code[p..][j..j + |pat|] == code[p + j..p + j + |pat|];
    }
  }

  /** Text starting with `{-`: when `-}` occurs at or after the cursor, the
      cursor moves just past its first such occurrence (which may overlap the
      opening `{-`); otherwise one error is recorded at the comment's
      position and the cursor jumps to the end. No token is emitted. */
  lemma StepBlockComment(rules: seq<TokenType>, code: string, s: LexState)
    requires s.pos < |code| && StartsWith(code[s.pos..], "{-")
    ensures var r := Step(rules, code, s);
      && r.success && r.next == s.(pos := r.next.pos)
      && (r.err == None <==> exists k :: s.pos <= k && OccursAt(code, "-}", k))
      && (r.err == None ==>
            && s.pos + 2 <= r.next.pos
            && OccursAt(code, "-}", r.next.pos - 2)
            && forall k :: s.pos <= k < r.next.pos - 2 ==> !OccursAt(code, "-}", k))
      && (r.err != None ==>
            && r.err == Some(UnclosedComment(LineCol(code, s.pos).0, LineCol(code, s.pos).1))
            && r.next.pos == |code|)
  {
    var text := code[s.pos..];
    var close := IndexFrom(text, "-}", 0);
    if close == -1 {
      forall k | s.pos <= k ensures !OccursAt(code, "-}", k) {
        OccursShift(code, s.pos, "-}", k - s.pos);
      }
    } else {
      OccursShift(code, s.pos, "-}", close);
      forall k | s.pos <= k < s.pos + close ensures !OccursAt(code, "-}", k) {
        OccursShift(code, s.pos, "-}", k - s.pos);
      }
    }
  }

  /** `{-}` closes itself: the cursor moves three characters. */
  lemma SelfClosingComment(rules: seq<TokenType>, code: string, s: LexState)
    requires s.pos < |code| && StartsWith(code[s.pos..], "{-}")
    ensures Step(rules, code, s) == StepResult(true, None, s.(pos := s.pos + 3))
  {
    var text := code[s.pos..];
    assert text[..2] == text[..3][..2] == "{-";
    assert text[1..3] == text[..3][1..3] == "-}";
    assert IndexFrom(text, "-}", 0) == 1;
  }

  /** Text starting with `--`: the cursor moves past the next newline, or to
      the end when there is none; no token and no error. */
  lemma StepLineComment(rules: seq<TokenType>, code: string, s: LexState)
    requires s.pos < |code| && StartsWith(code[s.pos..], "--")
    ensures var r := Step(rules, code, s);
      && r.success && r.err == None && r.next == s.(pos := r.next.pos)
      && (forall k :: s.pos <= k < r.next.pos - 1 ==> code[k] != '\n')
      && (r.next.pos == |code| || code[r.next.pos - 1] == '\n')
      && (r.next.pos == |code| && code[|code| - 1] != '\n' ==> forall k :: s.pos <= k < |code| ==> code[k] != '\n')
  {
    var text := code[s.pos..];
    assert text[0] == text[..2][0] == '-';
    var nl := IndexFrom(text, "\n", 0);
    forall j | 0 <= j < |text| ensures OccursAt(text, "\n", j) <==> text[j] == '\n' {
      assert text[j..j + 1] == [text[j]];
    }
  }

  /** When no comment starts at the cursor and some rule matches, the first
      matching rule wins: its match becomes one token at the cursor's line and
      column, the cursor moves past the match, and only the table and list of
      the rule's class change, the table by interning the match. */
  lemma StepMatch(rules: seq<TokenType>, code: string, s: LexState)
    requires s.pos < |code|
    requires !StartsWith(code[s.pos..], "{-") && !StartsWith(code[s.pos..], "--")
    requires FirstMatch(rules, code[s.pos..]) < |rules|
    ensures var text := code[s.pos..]; var k := FirstMatch(rules, text);
      var m := Find(rules[k].pattern, text); var r := Step(rules, code, s);
      && r.success && r.err == None
      && 0 < |m| && r.next.pos == s.pos + |m|
      && |r.next.tokens| == |s.tokens| + 1 && r.next.tokens[..|s.tokens|] == s.tokens
      && var tok := r.next.tokens[|s.tokens|];
      && tok.tokenType == rules[k].name && tok.value == m
      && (tok.line, tok.column) == LineCol(code, s.pos)
      && (match GroupOf(rules[k].kind)
          case Some(g) =>
            && TableOf(r.next, g) == Intern(TableOf(s, g), m).0
            && tok.id == IdOf(g, TableOf(r.next, g).ids[m])
            && ListOf(r.next, g) == ListOf(s, g) + [tok]
            && forall h :: h != g ==> TableOf(r.next, h) == TableOf(s, h) && ListOf(r.next, h) == ListOf(s, h)
          case None =>
            && tok.id == (if rules[k].kind == Preprocessor then PreprocessorId else NoId)
            && forall h :: TableOf(r.next, h) == TableOf(s, h) && ListOf(r.next, h) == ListOf(s, h))
  {
    var text := code[s.pos..];
    var k := FirstMatch(rules, text);
  }

  /** When no comment starts at the cursor and no rule matches, one error is
      recorded at the cursor's position and the cursor moves one character. */
  lemma StepUnknown(rules: seq<TokenType>, code: string, s: LexState)
    requires s.pos < |code|
    requires !StartsWith(code[s.pos..], "{-") && !StartsWith(code[s.pos..], "--")
    requires FirstMatch(rules, code[s.pos..]) == |rules|
    ensures Step(rules, code, s) ==
      StepResult(true, Some(UnknownCharacter(LineCol(code, s.pos).0, LineCol(code, s.pos).1)), s.(pos := s.pos + 1))
  {}

  // ---------------------------------------------------------------------------
  // The LexAnalyze loop

  /** One turn of the loop: stop when the step reports the end, otherwise
      keep its error (if any) ahead of the rest. */
  lemma RunUnfold(rules: seq<TokenType>, code: string, s: LexState)
    ensures var st := Step(rules, code, s);
      Run(rules, code, s) ==
        if st.success then
          (Run(rules, code, st.next).0, (if st.err.Some? then [st.err.value] else []) + Run(rules, code, st.next).1)
        else (s, [])
  {}

  /** Errors collected so far, followed by those of the loop from `s` on, are
      the errors collected through one more step followed by those of the
      loop after it; the final state is the same. */
  lemma RunAccumulate(rules: seq<TokenType>, code: string, s: LexState, acc: seq<Diagnostic>)
    requires s.pos < |code|
    ensures var st := Step(rules, code, s);
      && Run(rules, code, s).0 == Run(rules, code, st.next).0
      && (st.err.None? ==> acc + Run(rules, code, s).1 == acc + Run(rules, code, st.next).1)
      && (st.err.Some? ==> acc + Run(rules, code, s).1 == (acc + [st.err.value]) + Run(rules, code, st.next).1)
  {
    var st := Step(rules, code, s);
    var rest := Run(rules, code, st.next).1;
    RunUnfold(rules, code, s);
    if st.err.Some? {
      assert acc + ([st.err.value] + rest) == (acc + [st.err.value]) + rest;
    } else {
      assert [] + rest == rest;
    }
  }

  /** The loop only appends tokens, and produces at most one error per
      character it passes. */
  lemma {:induction false} RunAppends(rules: seq<TokenType>, code: string, s: LexState)
    requires s.pos <= |code|
    ensures var r := Run(rules, code, s);
      |s.tokens| <= |r.0.tokens| && r.0.tokens[..|s.tokens|] == s.tokens
      && |r.1| <= |code| - s.pos
    decreases |code| - s.pos
  {
    var st := Step(rules, code, s);
    if st.success {
      RunAppends(rules, code, st.next);
      assert st.next.tokens[..|s.tokens|] == s.tokens;
      var fin := Run(rules, code, st.next).0;
      assert fin.tokens[..|s.tokens|] == fin.tokens[..|st.next.tokens|][..|s.tokens|];
    }
  }
}
