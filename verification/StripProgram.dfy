/** `strip_go_like` of scripts/strip-comments.py as it runs: one loop over characters that pushes to and
    pops from a buffer, proved equal to the filter of `StripComments`. The program's buffer holds a
    directive line as one element; it is not blank and has no newline, so scanning and popping the
    buffer character by character, as here, finds the same places. */
module StripProgram {
  import opened Text
  import opened GoLexer
  import opened StripComments

  /** Outside a literal: `buf` is what is kept so far, `rest` is the text still to be read and
      `goal` is what is kept in the end. */
  ghost predicate Between(rest: string, buf: string, out: seq<Token>, goal: seq<Token>, directive: Directive) {
    && buf == TextOf(out)
    && Settled(out, directive) && Stable(out + Lex(rest))
    && Keep(out, Lex(rest), directive) == goal
  }

  /** Inside the literal `text[start..end]`, read up to `i`. */
  ghost predicate Inside(
    text: string, start: nat, i: nat, end: nat, buf: string, out: seq<Token>, goal: seq<Token>, directive: Directive)
  {
    && start < i <= end <= |text| && text[start] in QUOTES
    && |Literal(text[start], text[i..])| == end - i
    && buf == TextOf(out) + text[start..i]
    && Between(text[end..], TextOf(out) + text[start..end], out + [Lit(text[start..end])], goal, directive)
  }

  lemma BetweenStart(text: string, directive: Directive)
    ensures Between(text, [], [], Kept(text, directive), directive)
  {
    LexStable(text);
    assert [] + Lex(text) == Lex(text);
  }

  lemma BetweenKeep(rest: string, buf: string, out: seq<Token>, goal: seq<Token>, directive: Directive)
    requires rest != [] && Between(rest, buf, out, goal, directive)
    requires Keeps(out, NextToken(rest), directive)
    ensures var tok := NextToken(rest);
            Between(rest[|tok.Chars()|..], buf + tok.Chars(), out + [tok], goal, directive)
  {
    var tok := NextToken(rest);
    var toks := Lex(rest[|tok.Chars()|..]);
    assert Lex(rest) == [tok] + toks;
    KeepCons(out, tok, toks, directive);
    TextOfSnoc(out, tok);
    SettledSnoc(out, tok, directive);
    ConcatAssoc(out, [tok], toks);
  }

  lemma PrefixCut(s: string, p: string)
    requires p <= s
    ensures s[..|p|] == p
  {
  }

  /** `BetweenKeep` at an index of the text. */
  lemma KeepAt(
    text: string, i: nat, j: nat, tok: Token, buf: string, out: seq<Token>, goal: seq<Token>, directive: Directive)
    requires i < j <= |text| && Between(text[i..], buf, out, goal, directive)
    requires tok == NextToken(text[i..]) && |tok.Chars()| == j - i && Keeps(out, tok, directive)
    ensures tok.Chars() == text[i..j]
    ensures Between(text[j..], buf + text[i..j], out + [tok], goal, directive)
  {
    hide Between, Keeps, NextToken;
    BetweenKeep(text[i..], buf, out, goal, directive);
    PrefixCut(text[i..], tok.Chars());
    SliceOfRest(text, i, j - i);
  }

  lemma OpensLiteral(t: string)
    requires t != [] && t[0] in QUOTES
    ensures NextToken(t).Lit? && |NextToken(t).Chars()| == 1 + |Literal(t[0], t[1..])|
  {
  }

  lemma BetweenOpen(text: string, i: nat, buf: string, out: seq<Token>, goal: seq<Token>, directive: Directive)
    returns (end: nat)
    requires i < |text| && Between(text[i..], buf, out, goal, directive) && text[i] in QUOTES
    ensures Inside(text, i, i + 1, end, buf + [text[i]], out, goal, directive)
    ensures i < end <= |text|
  {
    assert buf == TextOf(out);
    var tok := NextToken(text[i..]);
    end := i + |tok.Chars()|;
    OpensLiteral(text[i..]);
    hide Between, NextToken, Literal, TextOf;
    KeepAt(text, i, end, tok, buf, out, goal, directive);
    SliceOfRest(text, i, 1);
    assert tok == Lit(text[i..end]);
    assert text[i..i + 1] == [text[i]];
  }

  /** One step inside a literal: `k` characters, two if the first is a backslash that escapes. */
  lemma InsideStep(
    text: string, start: nat, i: nat, end: nat, k: nat, buf: string, out: seq<Token>, goal: seq<Token>,
    directive: Directive)
    requires Inside(text, start, i, end, buf, out, goal, directive) && i < |text|
    requires k == if text[i] == '\\' && text[start] != '`' && i + 1 < |text| then 2 else 1
    ensures if k == 1 && text[i] == text[start]
            then Between(text[i + 1..], buf + text[i..i + k], out + [Lit(text[start..i + 1])], goal, directive)
            else Inside(text, start, i + k, end, buf + text[i..i + k], out, goal, directive) && i + k <= end
  {
    hide Between;
    SliceOfRest(text, i, k);
    LiteralStep(text[start], text[i..]);
    AppendSlice(TextOf(out), text, start, i, i + k);
  }

  lemma AppendSlice(p: string, text: string, start: nat, i: nat, j: nat)
    requires start <= i <= j <= |text|
    ensures (p + text[start..i]) + text[i..j] == p + text[start..j]
  {
  }

  lemma LiteralStep(q: char, t: string)
    requires q in QUOTES && t != []
    ensures var k := if t[0] == '\\' && q != '`' && |t| > 1 then 2 else 1;
            |Literal(q, t)| == if k == 1 && t[0] == q then 1 else k + |Literal(q, t[k..])|
  {
  }

  method LineCommentEnd(text: string, i: nat) returns (j: nat)
    requires i < |text| && text[i] == '/'
    ensures i < j <= |text| && text[i..j] == UpToNewline(text[i..])
  {
    j := i;
    while j < |text| && text[j] != '\n'
      invariant i <= j <= |text| && '\n' !in text[i..j]
    {
      j := j + 1;
    }
    UpToNewlineFixed(text[i..j], text[j..]);
    assert text[i..j] + text[j..] == text[i..];
  }

  method BlockCommentEnd(text: string, i: nat) returns (j: nat)
    requires i + 1 < |text|
    ensures i + 2 <= j <= |text| && text[i + 2..j] == BlockRest(text[i + 2..])
  {
    var n := |text|;
    j := i + 2;
    while j < n - 1 && !(text[j] == '*' && text[j + 1] == '/')
      invariant i + 2 <= j <= n
      invariant |BlockRest(text[i + 2..])| == j - (i + 2) + |BlockRest(text[j..])|
    {
      assert text[j..][1..] == text[j + 1..];
      j := j + 1;
    }
    j := if j + 2 <= n then j + 2 else n;
    assert text[i + 2..j] == text[i + 2..][..j - (i + 2)];
  }

  method FindLineStart(buf: string) returns (p: nat)
    ensures p == LineStart(buf)
  {
    p := |buf|;
    while p > 0 && buf[p - 1] != '\n'
      invariant p <= |buf| && '\n' !in buf[p..]
    {
      p := p - 1;
    }
    LineStartUnique(buf, p);
  }

  method PopLine(full: string) returns (buf: string)
    ensures buf == full[..LineStart(full)]
  {
    buf := full;
    while buf != [] && buf[|buf| - 1] != '\n'
      invariant |buf| <= |full| && buf == full[..|buf|] && '\n' !in full[|buf|..]
    {
      buf := buf[..|buf| - 1];
      assert full[|buf|..] == [full[|buf|]] + full[|buf| + 1..];
    }
    LineStartUnique(full, |buf|);
  }

  /** The tail shared by both kinds of comment: `text[i..j]` is the comment. */
  method DropComment(text: string, i: nat, j: nat, buf0: string, lineBegin: nat,
                     ghost out0: seq<Token>, ghost goal: seq<Token>, directive: Directive)
    returns (next: nat, buf: string, ghost out: seq<Token>)
    requires i < j <= |text| && Between(text[i..], buf0, out0, goal, directive) && lineBegin == LineStart(buf0)
    requires NextToken(text[i..]).Chars() == text[i..j] && !Keeps(out0, NextToken(text[i..]), directive)
    ensures j <= next <= |text| && Between(text[next..], buf, out, goal, directive)
  {
    hide Between, LineStart, DropLine, NextToken, Keeps, Blank;
    buf, next, out := buf0, j, out0;
    DropAt(text, i, j, buf0, out0, goal, directive);
    if Blank(buf0[lineBegin..]) {
      buf := PopLine(buf0);
      if j < |text| && text[j] == '\n' {
        next := j + 1;
      }
      out := DropLine(out0);
    }
  }

  /** `BetweenDrop` at an index of the text. */
  lemma DropAt(text: string, i: nat, j: nat, buf: string, out: seq<Token>, goal: seq<Token>, directive: Directive)
    requires i < j <= |text| && Between(text[i..], buf, out, goal, directive)
    requires NextToken(text[i..]).Chars() == text[i..j] && !Keeps(out, NextToken(text[i..]), directive)
    ensures if Blank(LastLine(buf))
            then var next := if j < |text| && text[j] == '\n' then j + 1 else j;
                 Between(text[next..], buf[..LineStart(buf)], DropLine(out), goal, directive)
            else Between(text[j..], buf, out, goal, directive)
  {
    hide Between, Keeps, NextToken, DropLine, LineStart, LastLine, Blank, AfterNewline;
    BetweenDrop(text[i..], buf, out, goal, directive);
    SliceOfRest(text, i, j - i);
    AfterNewlineAt(text, j);
  }

  lemma AfterNewlineAt(text: string, j: nat)
    requires j <= |text|
    ensures AfterNewline(text[j..]) == text[if j < |text| && text[j] == '\n' then j + 1 else j..]
  {
    if j < |text| { SliceOfRest(text, j, 1); }
  }

  function AfterNewline(t: string): string {
    if t != [] && t[0] == '\n' then t[1..] else t
  }

  lemma LexFirst(rest: string)
    requires rest != []
    ensures Lex(rest) == [NextToken(rest)] + Lex(rest[|NextToken(rest).Chars()|..])
  {
  }

  lemma BetweenDrop(rest: string, buf: string, out: seq<Token>, goal: seq<Token>, directive: Directive)
    requires rest != [] && Between(rest, buf, out, goal, directive) && !Keeps(out, NextToken(rest), directive)
    ensures var after := rest[|NextToken(rest).Chars()|..];
            if Blank(LastLine(buf))
            then Between(AfterNewline(after), buf[..LineStart(buf)], DropLine(out), goal, directive)
            else Between(after, buf, out, goal, directive)
  {
    LexFirst(rest);
    var tok := NextToken(rest);
    DropNext(tok, rest[|tok.Chars()|..], buf, out, goal, directive);
  }

  /** The same, with the comment and the text behind it given. */
  lemma DropNext(tok: Token, after: string, buf: string, out: seq<Token>, goal: seq<Token>, directive: Directive)
    requires buf == TextOf(out) && Settled(out, directive) && Stable(out + ([tok] + Lex(after)))
    requires Keep(out, [tok] + Lex(after), directive) == goal && !Keeps(out, tok, directive)
    ensures if Blank(LastLine(buf))
            then Between(AfterNewline(after), buf[..LineStart(buf)], DropLine(out), goal, directive)
            else Between(after, buf, out, goal, directive)
  {
    var toks := Lex(after);
    KeepCons(out, tok, toks, directive);
    ConcatAssoc(out, [tok], toks);
    hide Keep, Lex, Stable, Settled, TextOf, Blank, LastLine, LineStart, DropLine, SkipNewline, AfterNewline;
    CommentHere(out, tok, directive);
    if Blank(LastLine(buf)) {
      SettledSolid(out, [tok] + toks, directive);
      DropLineIsPop(out);
      RemoveCommentLine(out, tok, toks);
      SettledPrefix(out, |DropLine(out)|, directive);
      LexSkipsNewline(after);
      assert DropLine(out) == out[..|DropLine(out)|];
    } else {
      RemoveComment(out, tok, toks);
    }
  }

  lemma LexSkipsNewline(t: string)
    ensures SkipNewline(Lex(t)) == Lex(AfterNewline(t))
  {
    if t != [] {
      NextIsNewline(t);
      hide NextToken;
    }
  }

  lemma NextIsNewline(t: string)
    requires t != []
    ensures NextToken(t) == Code('\n') <==> t[0] == '\n'
  {
  }

  lemma BetweenEnd(text: string, buf: string, out: seq<Token>, goal: seq<Token>, directive: Directive)
    requires Between(text[|text|..], buf, out, goal, directive)
    ensures buf == TextOf(goal)
  {
  }

  lemma InsideEnd(
    text: string, start: nat, end: nat, buf: string, out: seq<Token>, goal: seq<Token>, directive: Directive)
    requires Inside(text, start, |text|, end, buf, out, goal, directive)
    ensures buf == TextOf(goal)
  {
  }

  method LineCommentStep(text: string, i: nat, buf0: string, ghost out0: seq<Token>, ghost goal: seq<Token>,
                         directive: Directive)
    returns (next: nat, buf: string, ghost out: seq<Token>)
    requires i + 1 < |text| && text[i] == '/' && text[i + 1] == '/'
    requires Between(text[i..], buf0, out0, goal, directive)
    ensures i < next <= |text| && Between(text[next..], buf, out, goal, directive)
  {
    var j := LineCommentEnd(text, i);
    var comment := text[i..j];
    var lineBegin := FindLineStart(buf0);
    if directive(buf0[lineBegin..] + comment) {
      KeepAt(text, i, j, Line(comment), buf0, out0, goal, directive);
      next, buf, out := j, buf0 + comment, out0 + [Line(comment)];
    } else {
      next, buf, out := DropComment(text, i, j, buf0, lineBegin, out0, goal, directive);
    }
  }

  method BlockCommentStep(text: string, i: nat, buf0: string, ghost out0: seq<Token>, ghost goal: seq<Token>,
                          directive: Directive)
    returns (next: nat, buf: string, ghost out: seq<Token>)
    requires i + 1 < |text| && text[i] == '/' && text[i + 1] == '*'
    requires Between(text[i..], buf0, out0, goal, directive)
    ensures i < next <= |text| && Between(text[next..], buf, out, goal, directive)
  {
    var j := BlockCommentEnd(text, i);
    var lineBegin := FindLineStart(buf0);
    BlockCommentToken(text, i, j);
    next, buf, out := DropComment(text, i, j, buf0, lineBegin, out0, goal, directive);
  }

  lemma BlockCommentToken(text: string, i: nat, j: nat)
    requires i + 2 <= j <= |text| && text[i] == '/' && text[i + 1] == '*'
    requires text[i + 2..j] == BlockRest(text[i + 2..])
    ensures NextToken(text[i..]) == Block(text[i..j])
  {
    assert text[i..][2..] == text[i + 2..];
    assert text[i..][..2] + text[i + 2..j] == text[i..j];
  }

  method StripGoLike(text: string, directive: Directive) returns (result: string)
    ensures result == Strip(text, directive)
  {
    hide Between, Inside, Keep, Lex, TextOf, Settled;
    var n := |text|;
    var i := 0;
    var inStr: string := [];   // empty, or the quote that opened the literal
    var inRaw := false;
    var buf: string := [];
    ghost var goal := Kept(text, directive);
    ghost var out: seq<Token> := [];
    ghost var start, end := 0, 0;
    BetweenStart(text, directive);
    assert text[0..] == text;

    while i < n
      invariant i <= n == |text|
      invariant inStr == [] ==> !inRaw && Between(text[i..], buf, out, goal, directive)
      invariant inStr != [] ==> start < i <= end <= n && Inside(text, start, i, end, buf, out, goal, directive)
      invariant inStr != [] ==> inStr == [text[start]] && inRaw == (inStr[0] == '`')
      decreases n - i
    {
      var ch := text[i];

      if inStr != [] {
        if ch == '\\' && !inRaw && i + 1 < n {
          InsideStep(text, start, i, end, 2, buf, out, goal, directive);
          buf := buf + text[i..i + 2];
          i := i + 2;
        } else {
          InsideStep(text, start, i, end, 1, buf, out, goal, directive);
          buf := buf + text[i..i + 1];
          i := i + 1;
          if ch == inStr[0] {
            out := out + [Lit(text[start..i])];
            inStr := [];
            inRaw := false;
          }
        }
      } else if ch == '"' || ch == '\'' || ch == '`' {
        start := i;
        end := BetweenOpen(text, i, buf, out, goal, directive);
        inStr := [ch];
        inRaw := ch == '`';
        buf := buf + [ch];
        i := i + 1;
      } else if ch == '/' && i + 1 < n && text[i + 1] == '/' {
        i, buf, out := LineCommentStep(text, i, buf, out, goal, directive);
      } else if ch == '/' && i + 1 < n && text[i + 1] == '*' {
        i, buf, out := BlockCommentStep(text, i, buf, out, goal, directive);
      } else {
        KeepAt(text, i, i + 1, Code(ch), buf, out, goal, directive);
        buf := buf + text[i..i + 1];
        out := out + [Code(ch)];
        i := i + 1;
      }
    }
    result := buf;
    if inStr == [] {
      BetweenEnd(text, buf, out, goal, directive);
    } else {
      InsideEnd(text, start, end, buf, out, goal, directive);
    }
  }
}
