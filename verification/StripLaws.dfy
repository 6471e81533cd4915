/** What `strip_go_like` of scripts/strip-comments.py does to every text, comment by comment: two laws
    that between them determine its result, and what becomes of directives. */
module StripLaws {
  import opened Text
  import opened GoLexer
  import opened StripComments

  /** All comments among the tokens are line comments that the pattern accepts where they stand, with what
      is before them on their line. */
  predicate OnlyDirectives(toks: seq<Token>, directive: Directive) {
    forall i | 0 <= i < |toks| :: !Removable(toks, i, directive)
  }

  predicate Removable(toks: seq<Token>, i: nat, directive: Directive)
    requires i < |toks|
  {
    toks[i].Block? || (toks[i].Line? && !directive(LastLine(TextOf(toks[..i])) + toks[i].s))
  }

  lemma OnlyDirectivesSettled(toks: seq<Token>, directive: Directive)
    ensures OnlyDirectives(toks, directive) <==> Settled(toks, directive)
  {
    forall i | 0 <= i < |toks|
      ensures Removable(toks, i, directive) <==> !Keeps(toks[..i], toks[i], directive)
    {
    }
  }

  /** First law: a text is left as it is if and only if its comments are all directives in place. */
  lemma DirectivesFixedExactly(text: string, directive: Directive)
    ensures Strip(text, directive) == text <==> OnlyDirectives(Lex(text), directive)
  {
    StripFixedExactly(text, directive);
    OnlyDirectivesSettled(Lex(text), directive);
  }

  /** What is left of a text when the comment between `before` and `after` goes. */
  function Without(before: string, after: string): string {
    if Blank(LastLine(before)) then
      before[..LineStart(before)] + if after != [] && after[0] == '\n' then after[1..] else after
    else before + after
  }

  lemma {:induction false} KeepPrefix(out: seq<Token>, a: seq<Token>, b: seq<Token>, directive: Directive)
    requires Settled(out + a, directive)
    ensures Keep(out, a + b, directive) == Keep(out + a, b, directive)
    decreases |a|
  {
    if a == [] {
      assert a + b == b && out + a == out;
    } else {
      assert Keeps((out + a)[..|out|], (out + a)[|out|], directive);
      assert (out + a)[..|out|] == out;
      assert (out + [a[0]]) + a[1..] == out + a;
      assert a + b == [a[0]] + (a[1..] + b);
      KeepCons(out, a[0], a[1..] + b, directive);
      KeepPrefix(out + [a[0]], a[1..], b, directive);
    }
  }

  /** The first comment to go, in tokens. */
  lemma KeepWithout(a: seq<Token>, c: Token, b: seq<Token>, directive: Directive)
    requires Settled(a, directive) && (c.Line? || c.Block?) && !Keeps(a, c, directive) && Stable(a + [c] + b)
    ensures var (a', b') := if Blank(LastLine(TextOf(a))) then (DropLine(a), SkipNewline(b)) else (a, b);
            && Keep([], a + ([c] + b), directive) == Keep([], a' + b', directive) && Stable(a' + b')
  {
    var blank := Blank(LastLine(TextOf(a)));
    var a' := if blank then DropLine(a) else a;
    var b' := if blank then SkipNewline(b) else b;
    if blank {
      RemoveCommentLine(a, c, b);
    } else {
      RemoveComment(a, c, b);
    }
    SettledPrefix(a, |a'|, directive);
    assert a[..|a'|] == a';
    hide Keep, Stable, Settled, Blank, DropLine, SkipNewline, Keeps;
    assert [] + a == a && [] + a' == a';
    KeepPrefix([], a, [c] + b, directive);
    KeepCons(a, c, b, directive);
    KeepPrefix([], a', b', directive);
  }

  lemma TextWithout(a: seq<Token>, c: Token, b: seq<Token>, directive: Directive)
    requires Settled(a, directive) && Stable(a + [c] + b)
    ensures var (a', b') := if Blank(LastLine(TextOf(a))) then (DropLine(a), SkipNewline(b)) else (a, b);
            TextOf(a' + b') == Without(TextOf(a), TextOf(b))
  {
    if Blank(LastLine(TextOf(a))) {
      assert a + [c] + b == a + ([c] + b);
      SettledSolid(a, [c] + b, directive);
      DropLineIsPop(a);
      TextOfConcat(DropLine(a), SkipNewline(b));
      TextOfSkipped(a, c, b);
    } else {
      TextOfConcat(a, b);
    }
  }

  lemma TextOfSkipped(a: seq<Token>, c: Token, b: seq<Token>)
    requires Stable(a + [c] + b)
    ensures TextOf(SkipNewline(b)) ==
            var after := TextOf(b); if after != [] && after[0] == '\n' then after[1..] else after
  {
    if b != [] {
      var all := a + [c] + b;
      assert StableAt(all, |a| + 1);
      assert all[|a| + 1] == b[0];
      StartsWithNewline(b[0]);
    }
  }

  lemma StartsWithNewline(tok: Token)
    requires tok.Chars() != [] && exists next :: Follows(tok, next)
    ensures tok == Code('\n') <==> tok.Chars()[0] == '\n'
  {
  }

  /** Second law: the first comment `c` that is no directive goes. If there is only white space before it
      on its line, that goes, too, and so does a newline right behind it. The rest is stripped in turn. */
  lemma FirstCommentGoes(text: string, a: seq<Token>, c: Token, b: seq<Token>, directive: Directive)
    requires Lex(text) == a + ([c] + b) && OnlyDirectives(a, directive)
    requires c.Block? || (c.Line? && !directive(LastLine(TextOf(a)) + c.s))
    ensures text == TextOf(a) + (c.Chars() + TextOf(b))
    ensures Strip(text, directive) == Strip(Without(TextOf(a), TextOf(b)), directive)
  {
    assert (c.Line? || c.Block?) && !Keeps(a, c, directive);
    hide *;
    OnlyDirectivesSettled(a, directive);
    LexLossless(text);
    LexStable(text);
    TextOfConcat(a, [c] + b);
    TextOfOne(c, b);
    ConcatAssoc(a, [c], b);
    FirstTokenGoes(text, a, c, b, directive);
  }

  lemma TextOfOne(c: Token, b: seq<Token>)
    ensures TextOf([c] + b) == c.Chars() + TextOf(b)
  {
    assert ([c] + b)[1..] == b;
  }

  lemma FirstTokenGoes(text: string, a: seq<Token>, c: Token, b: seq<Token>, directive: Directive)
    requires Lex(text) == a + ([c] + b) && Stable(a + [c] + b)
    requires Settled(a, directive) && (c.Line? || c.Block?) && !Keeps(a, c, directive)
    ensures Strip(text, directive) == Strip(Without(TextOf(a), TextOf(b)), directive)
  {
    hide Keep, Stable, Settled, Keeps, Without, Lex, TextOf, DropLine, SkipNewline, Blank, LastLine;
    KeepWithout(a, c, b, directive);
    TextWithout(a, c, b, directive);
    if Blank(LastLine(TextOf(a))) {
      StableLexes(DropLine(a) + SkipNewline(b));
    } else {
      StableLexes(a + b);
    }
  }

  // ---------- Directives ----------

  function LineComments(toks: seq<Token>): seq<Token> {
    if toks == [] then []
    else LineComments(toks[..|toks| - 1]) + if toks[|toks| - 1].Line? then [toks[|toks| - 1]] else []
  }

  lemma {:induction false} LineCommentsConcat(a: seq<Token>, b: seq<Token>)
    ensures LineComments(a + b) == LineComments(a) + LineComments(b)
  {
    if b == [] {
      assert a + b == a;
    } else {
      var b', x := b[..|b| - 1], b[|b| - 1];
      LineCommentsConcat(a, b');
      assert (a + b)[..|a + b| - 1] == a + b';
      ConcatAssoc(LineComments(a), LineComments(b'), if x.Line? then [x] else []);
    }
  }

  lemma {:induction false} NoLineComments(toks: seq<Token>)
    requires forall i | 0 <= i < |toks| :: !toks[i].Line?
    ensures LineComments(toks) == []
  {
    if toks != [] { NoLineComments(toks[..|toks| - 1]); }
  }

  /** A blank prefix holds no comment. */
  lemma LineCommentsDropLine(out: seq<Token>)
    requires (forall tok | tok in out :: Solid(tok)) && Blank(LastLine(TextOf(out)))
    ensures LineComments(DropLine(out)) == LineComments(out)
  {
    DropLineIsPop(out);
    var a := DropLine(out);
    var dropped := out[|a|..];
    assert out == a + dropped;
    forall i | 0 <= i < |dropped|
      ensures !dropped[i].Line?
    {
      assert dropped[i] in out[|a|..];
    }
    LineCommentsConcat(a, dropped);
    NoLineComments(dropped);
    assert LineComments(a) + [] == LineComments(a);
  }

  lemma {:induction false} KeepLineComments(out: seq<Token>, toks: seq<Token>, directive: Directive)
    requires Settled(out, directive) && Stable(out + toks) && forall s :: directive(s)
    ensures LineComments(Keep(out, toks, directive)) == LineComments(out) + LineComments(toks)
    decreases |toks|, 0
  {
    if toks == [] {
      assert LineComments(out) + [] == LineComments(out);
    } else {
      var tok, rest := toks[0], toks[1..];
      assert toks == [tok] + rest && out + toks == out + [tok] + rest;
      LineCommentsConcat([tok], rest);
      assert [tok][..0] == [];
      KeepCons(out, tok, rest, directive);
      if Keeps(out, tok, directive) {
        SettledSnoc(out, tok, directive);
        KeepLineComments(out + [tok], rest, directive);
        LineCommentsConcat(out, [tok]);
        ConcatAssoc(LineComments(out), LineComments([tok]), LineComments(rest));
      } else {
        assert LineComments([tok]) == [];
        assert LineComments([tok]) + LineComments(rest) == LineComments(rest);
        DroppedLineComments(out, tok, rest, directive);
      }
    }
  }

  lemma {:induction false} DroppedLineComments(out: seq<Token>, tok: Token, rest: seq<Token>, directive: Directive)
    requires Settled(out, directive) && Stable(out + [tok] + rest) && forall s :: directive(s)
    requires !Keeps(out, tok, directive)
    ensures LineComments(Keep(out, [tok] + rest, directive)) == LineComments(out) + LineComments(rest)
    decreases |rest|, 1
  {
    KeepCons(out, tok, rest, directive);
    var a := DropLine(out);
    CommentHere(out, tok, directive);
    hide Keep, Keeps, Settled, Stable, LineComments, Blank, DropLine, SkipNewline;
    if Blank(LastLine(TextOf(out))) {
      assert |SkipNewline(rest)| <= |rest| by { Skips(rest); }
      RemoveCommentLine(out, tok, rest);
      SettledPrefix(out, |a|, directive);
      assert a == out[..|a|];
      ConcatAssoc(out, [tok], rest);
      SettledSolid(out, [tok] + rest, directive);
      LineCommentsDropLine(out);
      SkippedLineComments(rest);
      KeepLineComments(a, SkipNewline(rest), directive);
    } else {
      RemoveComment(out, tok, rest);
      KeepLineComments(out, rest, directive);
    }
  }

  lemma Skips(rest: seq<Token>)
    ensures |SkipNewline(rest)| <= |rest|
  {
  }

  lemma SkippedLineComments(rest: seq<Token>)
    ensures LineComments(SkipNewline(rest)) == LineComments(rest)
  {
    if rest != [] && rest[0] == Code('\n') {
      assert rest == [rest[0]] + rest[1..];
      LineCommentsConcat([rest[0]], rest[1..]);
      assert [rest[0]][..0] == [];
      assert LineComments([rest[0]]) == [];
      assert [] + LineComments(rest[1..]) == LineComments(rest[1..]);
    }
  }

  /** If the pattern accepts everything, all line comments survive, in order. */
  lemma AllLineCommentsSurvive(text: string, directive: Directive)
    requires forall s :: directive(s)
    ensures LineComments(Lex(Strip(text, directive))) == LineComments(Lex(text))
  {
    StripLexes(text, directive);
    LexStable(text);
    assert [] + Lex(text) == Lex(text);
    KeepLineComments([], Lex(text), directive);
    assert [] + LineComments(Lex(text)) == LineComments(Lex(text));
  }
}
