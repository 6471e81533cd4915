/** What `strip_go_like` of scripts/strip-comments.py removes from Go and TypeScript text, as a filter
    over its tokens. The pattern that recognises directives is a parameter of the program, and of
    every result here. */
module StripComments {
  import opened Text
  import opened GoLexer

  type Directive = string -> bool

  // ---------- Keeping ----------

  /** The index at which the last line of `s` begins. */
  function LineStart(s: string): (p: nat)
    ensures p <= |s| && (p > 0 ==> s[p - 1] == '\n') && '\n' !in s[p..]
  {
    if s == [] || s[|s| - 1] == '\n' then |s| else LineStart(s[..|s| - 1])
  }

  function LastLine(s: string): string {
    s[LineStart(s)..]
  }

  function DropLine(out: seq<Token>): (r: seq<Token>)
    ensures r <= out && (r == [] || r[|r| - 1] == Code('\n'))
  {
    if out == [] || out[|out| - 1] == Code('\n') then out else DropLine(out[..|out| - 1])
  }

  function SkipNewline(toks: seq<Token>): seq<Token> {
    if toks != [] && toks[0] == Code('\n') then toks[1..] else toks
  }

  predicate Keeps(out: seq<Token>, tok: Token, directive: Directive) {
    tok.Code? || tok.Lit? || (tok.Line? && directive(LastLine(TextOf(out)) + tok.s))
  }

  /** The tokens kept of `toks` after `out` has been kept: code, literals and directives stay; any
      other comment goes, and if only white space stands before it on its line, that goes too,
      along with the newline right behind the comment. */
  function Keep(out: seq<Token>, toks: seq<Token>, directive: Directive): seq<Token>
    decreases |toks|
  {
    if toks == [] then out
    else if Keeps(out, toks[0], directive) then Keep(out + [toks[0]], toks[1..], directive)
    else if Blank(LastLine(TextOf(out))) then Keep(DropLine(out), SkipNewline(toks[1..]), directive)
    else Keep(out, toks[1..], directive)
  }

  function Kept(text: string, directive: Directive): seq<Token> {
    Keep([], Lex(text), directive)
  }

  function Strip(text: string, directive: Directive): string {
    TextOf(Kept(text, directive))
  }

  lemma KeepCons(out: seq<Token>, tok: Token, toks: seq<Token>, directive: Directive)
    ensures Keep(out, [tok] + toks, directive) ==
            if Keeps(out, tok, directive) then Keep(out + [tok], toks, directive)
            else if Blank(LastLine(TextOf(out))) then Keep(DropLine(out), SkipNewline(toks), directive)
            else Keep(out, toks, directive)
  {
    assert ([tok] + toks)[1..] == toks;
  }

  lemma CommentHere(out: seq<Token>, tok: Token, directive: Directive)
    requires !Keeps(out, tok, directive)
    ensures tok.Line? || tok.Block?
  {
  }

  // ---------- The last line, as text and as tokens ----------

  lemma {:induction false} LineStartUnique(s: string, p: nat)
    requires p <= |s| && (p > 0 ==> s[p - 1] == '\n') && '\n' !in s[p..]
    ensures LineStart(s) == p
  {
    if p < |s| {
      var init := s[..|s| - 1];
      assert s[p..] == init[p..] + [s[|s| - 1]];
      LineStartUnique(init, p);
    }
  }

  lemma LastLineConcat(s: string, u: string)
    requires '\n' !in u
    ensures LineStart(s + u) == LineStart(s) && LastLine(s + u) == LastLine(s) + u
  {
    var p := LineStart(s);
    assert (s + u)[p..] == s[p..] + u;
    LineStartUnique(s + u, p);
  }

  /** A token that a later comment can have before it on its line without hiding in blanks. */
  predicate Solid(tok: Token) {
    match tok
    case Code(_) => true
    case Lit(s) => s != [] && s[|s| - 1] in QUOTES
    case Line(s) => |s| > 0 && s[0] == '/' && '\n' !in s
    case Block(_) => false
  }

  /** If the last line is blank, its tokens are blank code characters and popping them from the
      text is dropping them from the tokens. */
  lemma {:induction false} DropLineIsPop(out: seq<Token>)
    requires forall tok | tok in out :: Solid(tok)
    requires Blank(LastLine(TextOf(out)))
    ensures TextOf(DropLine(out)) == TextOf(out)[..LineStart(TextOf(out))]
    ensures forall tok | tok in out[|DropLine(out)|..] :: tok.Code? && IsSpace(tok.c)
  {
    if out != [] {
      hide TextOf, Blank, LastLine, LineStart;
      var prev, last := out[..|out| - 1], out[|out| - 1];
      assert out == prev + [last];
      TextOfSnoc(prev, last);
      if last == Code('\n') {
        LineStartUnique(TextOf(out), |TextOf(out)|);
      } else {
        BlankTail(TextOf(prev), last);
        BlankLastLineSnoc(TextOf(prev), last.c);
        DropLineIsPop(prev);
        TailSnoc(prev, last, |DropLine(prev)|);
      }
    }
  }

  lemma TailSnoc(prev: seq<Token>, last: Token, k: nat)
    requires k <= |prev|
    ensures (prev + [last])[k..] == prev[k..] + [last]
  {
  }

  lemma BlankLastLineSnoc(s: string, c: char)
    requires c != '\n' && Blank(LastLine(s + [c]))
    ensures Blank(LastLine(s))
    ensures (s + [c])[..LineStart(s + [c])] == s[..LineStart(s)]
  {
    LastLineConcat(s, [c]);
    BlankConcat(LastLine(s), [c]);
  }

  lemma TextOfSnoc(toks: seq<Token>, tok: Token)
    ensures TextOf(toks + [tok]) == TextOf(toks) + tok.Chars()
  {
    TextOfConcat(toks, [tok]);
    assert TextOf([tok]) == tok.Chars();
  }

  lemma BlankTail(s: string, last: Token)
    requires Solid(last) && last != Code('\n')
    ensures Blank(LastLine(s + last.Chars())) ==> last.Code? && IsSpace(last.c)
  {
    var t := s + last.Chars();
    match last
    case Code(c) => LastLineConcat(s, [c]); assert c in LastLine(t);
    case Lit(u) => LastCharInLastLine(t);
    case Line(u) => LastLineConcat(s, u); assert u[0] in LastLine(t);
  }

  lemma LastCharInLastLine(t: string)
    requires t != [] && t[|t| - 1] != '\n'
    ensures t[|t| - 1] in LastLine(t)
  {
    assert LastLine(t)[|t| - 1 - LineStart(t)] == t[|t| - 1];
  }

  // ---------- What Keep preserves ----------

  /** Every token of `out` is kept where it stands. */
  predicate Settled(out: seq<Token>, directive: Directive) {
    forall i | 0 <= i < |out| :: Keeps(out[..i], out[i], directive)
  }

  lemma SettledSnoc(out: seq<Token>, tok: Token, directive: Directive)
    requires Settled(out, directive) && Keeps(out, tok, directive)
    ensures Settled(out + [tok], directive)
  {
    forall i | 0 <= i <= |out|
      ensures Keeps((out + [tok])[..i], (out + [tok])[i], directive)
    {
      assert (out + [tok])[..i] == out[..i];
    }
    assert out[..|out|] == out;
  }

  lemma SettledPrefix(out: seq<Token>, k: nat, directive: Directive)
    requires Settled(out, directive) && k <= |out|
    ensures Settled(out[..k], directive)
  {
    assert forall i | 0 <= i < k :: out[..k][..i] == out[..i];
  }

  lemma SettledSolid(out: seq<Token>, toks: seq<Token>, directive: Directive)
    requires Settled(out, directive) && Stable(out + toks) && toks != []
    ensures forall tok | tok in out :: Solid(tok)
  {
    var all := out + toks;
    forall i | 0 <= i < |out|
      ensures Solid(out[i])
    {
      assert Keeps(out[..i], out[i], directive);
      assert StableAt(all, i) && StableAt(all, i + 1);
      if out[i].Lit? {
        var s := out[i].s;
        LiteralFixed(s[0], s[1..], []);
      }
    }
  }

  lemma CommentMindsNoPredecessor(out: seq<Token>, comment: Token, rest: seq<Token>, next: string)
    requires Stable(out + [comment] + rest) && (comment.Line? || comment.Block?) && out != []
    ensures Follows(out[|out| - 1], next)
  {
    var all := out + [comment] + rest;
    assert StableAt(all, |out| - 1) && StableAt(all, |out|);
    assert comment.Chars()[..1] == "/";
    BeforeComment(out[|out| - 1], next);
  }

  /** Removing a comment leaves a sequence that still lexes to itself. */
  lemma RemoveComment(out: seq<Token>, comment: Token, rest: seq<Token>)
    requires Stable(out + [comment] + rest) && (comment.Line? || comment.Block?)
    ensures Stable(out + rest)
  {
    if out != [] {
      CommentMindsNoPredecessor(out, comment, rest, CharAt(out + rest, |out|));
    }
    StableCut(out, [comment], rest);
  }

  /** So does removing its line's prefix and the newline behind it as well. */
  lemma RemoveCommentLine(out: seq<Token>, comment: Token, rest: seq<Token>)
    requires Stable(out + [comment] + rest)
    ensures Stable(DropLine(out) + SkipNewline(rest))
  {
    var a, b := DropLine(out), SkipNewline(rest);
    var m := out[|a|..] + [comment] + rest[..|rest| - |b|];
    assert a + m + b == out + [comment] + rest;
    StableCut(a, m, b);
  }

  lemma {:induction false} KeepSettles(out: seq<Token>, toks: seq<Token>, directive: Directive)
    requires Settled(out, directive) && Stable(out + toks)
    ensures Settled(Keep(out, toks, directive), directive) && Stable(Keep(out, toks, directive))
    decreases |toks|
  {
    if toks == [] {
      assert out + toks == out;
    } else {
      var tok, rest := toks[0], toks[1..];
      assert out + toks == out + [tok] + rest;
      if Keeps(out, tok, directive) {
        SettledSnoc(out, tok, directive);
        KeepSettles(out + [tok], rest, directive);
      } else {
        if Blank(LastLine(TextOf(out))) {
          RemoveCommentLine(out, tok, rest);
          SettledPrefix(out, |DropLine(out)|, directive);
          assert DropLine(out) == out[..|DropLine(out)|];
          KeepSettles(DropLine(out), SkipNewline(rest), directive);
        } else {
          RemoveComment(out, tok, rest);
          KeepSettles(out, rest, directive);
        }
      }
    }
  }

  lemma {:induction false} SettledIsKept(out: seq<Token>, toks: seq<Token>, directive: Directive)
    requires Settled(out + toks, directive)
    ensures Keep(out, toks, directive) == out + toks
    decreases |toks|
  {
    if toks == [] {
      assert out + toks == out;
    } else {
      assert (out + toks)[..|out|] == out && (out + toks)[|out|] == toks[0];
      assert (out + [toks[0]]) + toks[1..] == out + toks;
      SettledIsKept(out + [toks[0]], toks[1..], directive);
    }
  }

  // ---------- Nothing but comments and white space is lost ----------

  /** Literals and code characters that are not white space. */
  predicate IsSignificant(tok: Token) {
    tok.Lit? || (tok.Code? && !IsSpace(tok.c))
  }

  function Significant(toks: seq<Token>): seq<Token> {
    if toks == [] then []
    else if IsSignificant(toks[0]) then [toks[0]] + Significant(toks[1..])
    else Significant(toks[1..])
  }

  lemma {:induction false} SignificantConcat(a: seq<Token>, b: seq<Token>)
    ensures Significant(a + b) == Significant(a) + Significant(b)
  {
    if a == [] {
      assert a + b == b;
    } else {
      SignificantConcat(a[1..], b);
      assert (a + b)[1..] == a[1..] + b;
    }
  }

  lemma {:induction false} NoneSignificant(toks: seq<Token>)
    requires forall tok | tok in toks :: !IsSignificant(tok)
    ensures Significant(toks) == []
  {
    if toks != [] { NoneSignificant(toks[1..]); }
  }

  lemma SignificantDropLine(out: seq<Token>)
    requires (forall tok | tok in out :: Solid(tok)) && Blank(LastLine(TextOf(out)))
    ensures Significant(DropLine(out)) == Significant(out)
  {
    DropLineIsPop(out);
    var dropped := out[|DropLine(out)|..];
    NoneSignificant(dropped);
    SplitPrefix(DropLine(out), out);
    SignificantConcat(DropLine(out), dropped);
  }

  lemma SplitPrefix(prefix: seq<Token>, all: seq<Token>)
    requires prefix <= all
    ensures all == prefix + all[|prefix|..]
  {
  }

  lemma {:induction false} KeepSignificant(out: seq<Token>, toks: seq<Token>, directive: Directive)
    requires Settled(out, directive) && Stable(out + toks)
    ensures Significant(Keep(out, toks, directive)) == Significant(out) + Significant(toks)
    decreases |toks|
  {
    hide Stable, Settled, Solid, Blank;
    if toks == [] {
      assert Significant(out) + [] == Significant(out);
    } else {
      var tok, rest := toks[0], toks[1..];
      ConcatAssoc(out, [tok], rest);
      assert toks == [tok] + rest;
      SignificantConcat([tok], rest);
      if Keeps(out, tok, directive) {
        SettledSnoc(out, tok, directive);
        KeepSignificant(out + [tok], rest, directive);
        SignificantConcat(out, [tok]);
        ConcatAssoc(Significant(out), Significant([tok]), Significant(rest));
      } else if Blank(LastLine(TextOf(out))) {
        SettledSolid(out, toks, directive);
        RemoveCommentLine(out, tok, rest);
        SettledPrefix(out, |DropLine(out)|, directive);
        assert DropLine(out) == out[..|DropLine(out)|];
        KeepSignificant(DropLine(out), SkipNewline(rest), directive);
        SignificantDropLine(out);
      } else {
        RemoveComment(out, tok, rest);
        KeepSignificant(out, rest, directive);
      }
    }
  }

  /** `a` is `b` with some tokens left out. */
  predicate Subsequence(a: seq<Token>, b: seq<Token>) {
    a == [] || (b != [] && ((a[0] == b[0] && Subsequence(a[1..], b[1..])) || Subsequence(a, b[1..])))
  }

  lemma {:induction false} SubsequenceTransitive(a: seq<Token>, b: seq<Token>, c: seq<Token>)
    requires Subsequence(a, b) && Subsequence(b, c)
    ensures Subsequence(a, c)
    decreases |b| + |c|
  {
    if a != [] {
      if b[0] == c[0] && Subsequence(b[1..], c[1..]) {
        if a[0] == b[0] && Subsequence(a[1..], b[1..]) {
          SubsequenceTransitive(a[1..], b[1..], c[1..]);
        } else {
          SubsequenceTransitive(a, b[1..], c[1..]);
        }
      } else {
        SubsequenceTransitive(a, b, c[1..]);
      }
    }
  }

  lemma {:induction false} SubsequenceOfCut(a: seq<Token>, m: seq<Token>, b: seq<Token>)
    ensures Subsequence(a + b, a + m + b)
    decreases |a| + |m| + |b|
  {
    if a != [] {
      SubsequenceOfCut(a[1..], m, b);
      assert (a + b)[1..] == a[1..] + b && (a + m + b)[1..] == a[1..] + m + b;
    } else if m != [] {
      SubsequenceOfCut(a, m[1..], b);
      assert (a + m + b)[1..] == a + m[1..] + b;
    } else if b != [] {
      SubsequenceOfCut(a, m, b[1..]);
      assert (a + b)[1..] == a + b[1..] && (a + m + b)[1..] == a + m + b[1..];
    }
  }

  lemma CutShape(out: seq<Token>, tok: Token, rest: seq<Token>, a: seq<Token>, b: seq<Token>)
    requires a <= out && |b| <= |rest| && b == rest[|rest| - |b|..]
    ensures out + ([tok] + rest) == a + (out[|a|..] + [tok] + rest[..|rest| - |b|]) + b
  {
    assert out == a + out[|a|..];
    assert rest == rest[..|rest| - |b|] + b;
  }

  /** One token dropped, with what goes with it: `a` is left of what was kept, `b` of what follows. */
  lemma DropSubsequence(
    kept: seq<Token>, out: seq<Token>, tok: Token, rest: seq<Token>, a: seq<Token>, b: seq<Token>)
    requires a <= out && |b| <= |rest| && b == rest[|rest| - |b|..]
    requires Subsequence(kept, a + b)
    ensures Subsequence(kept, out + ([tok] + rest))
  {
    hide Subsequence;
    var m := out[|a|..] + [tok] + rest[..|rest| - |b|];
    CutShape(out, tok, rest, a, b);
    SubsequenceOfCut(a, m, b);
    SubsequenceTransitive(kept, a + b, out + ([tok] + rest));
  }

  lemma {:induction false} KeepSubsequence(out: seq<Token>, toks: seq<Token>, directive: Directive)
    ensures Subsequence(Keep(out, toks, directive), out + toks)
    decreases |toks|
  {
    if toks == [] {
      SubsequenceOfCut(out, [], []);
      assert out + [] == out && out + [] + [] == out;
    } else {
      var tok, rest := toks[0], toks[1..];
      assert toks == [tok] + rest;
      KeepCons(out, tok, rest, directive);
      hide Subsequence, Keep, Keeps, Blank, TextOf, LastLine;
      if Keeps(out, tok, directive) {
        KeepSubsequence(out + [tok], rest, directive);
        ConcatAssoc(out, [tok], rest);
      } else if Blank(LastLine(TextOf(out))) {
        var a, b := DropLine(out), SkipNewline(rest);
        KeepSubsequence(a, b, directive);
        DropSubsequence(Keep(a, b, directive), out, tok, rest, a, b);
      } else {
        KeepSubsequence(out, rest, directive);
        DropSubsequence(Keep(out, rest, directive), out, tok, rest, out, rest);
      }
    }
  }

  // ---------- Main results ----------

  lemma KeptIsSettled(text: string, directive: Directive)
    ensures Stable(Kept(text, directive)) && Settled(Kept(text, directive), directive)
  {
    LexStable(text);
    assert [] + Lex(text) == Lex(text);
    KeepSettles([], Lex(text), directive);
  }

  /** The stripped text lexes to exactly the kept tokens: removal joins nothing into a new comment
      opener, splits no literal and merges none. */
  lemma StripLexes(text: string, directive: Directive)
    ensures Lex(Strip(text, directive)) == Kept(text, directive)
  {
    KeptIsSettled(text, directive);
    StableLexes(Kept(text, directive));
  }

  lemma StripIdempotent(text: string, directive: Directive)
    ensures Strip(Strip(text, directive), directive) == Strip(text, directive)
  {
    StripLexes(text, directive);
    KeptIsSettled(text, directive);
    SettledIsKept([], Kept(text, directive), directive);
    assert [] + Kept(text, directive) == Kept(text, directive);
  }

  /** Every literal and every code character that is not white space survives, verbatim and in
      order; nothing is added; and the only comments left are directives, recognised as such
      where they now stand. */
  lemma StripKeepsCode(text: string, directive: Directive)
    ensures var left := Lex(Strip(text, directive));
            && Significant(left) == Significant(Lex(text))
            && Subsequence(left, Lex(text))
            && forall i | 0 <= i < |left| ::
                 !left[i].Block? && (left[i].Line? ==> directive(LastLine(TextOf(left[..i])) + left[i].s))
  {
    StripLexes(text, directive);
    KeptIsSettled(text, directive);
    LexStable(text);
    assert [] + Lex(text) == Lex(text);
    KeepSignificant([], Lex(text), directive);
    KeepSubsequence([], Lex(text), directive);
    var left := Lex(Strip(text, directive));
    forall i | 0 <= i < |left|
      ensures !left[i].Block? && (left[i].Line? ==> directive(LastLine(TextOf(left[..i])) + left[i].s))
    {
      assert Keeps(left[..i], left[i], directive);
    }
  }

  /** The texts left unchanged are exactly those whose only comments are directives. */
  lemma StripFixedExactly(text: string, directive: Directive)
    ensures Strip(text, directive) == text <==> Settled(Lex(text), directive)
  {
    LexLossless(text);
    if Settled(Lex(text), directive) {
      assert [] + Lex(text) == Lex(text);
      SettledIsKept([], Lex(text), directive);
    }
    if Strip(text, directive) == text {
      StripLexes(text, directive);
      KeptIsSettled(text, directive);
    }
  }
}
