/** Go and TypeScript text as `strip_go_like` of scripts/strip-comments.py reads it: code characters,
    literals and comments, without losing a character; and which sequences of them read back to
    themselves. */
module GoLexer {
  import opened Text

  datatype Token =
    | Code(c: char)       // one character outside literals and comments
    | Lit(s: string)      // a literal with its quotes, up to the end of the text if unclosed
    | Line(s: string)     // a // comment without its newline
    | Block(s: string)    // a /* comment, up to the end of the text if unclosed
  {
    function Chars(): string {
      match this
      case Code(c) => [c]
      case Lit(s) => s
      case Line(s) => s
      case Block(s) => s
    }
  }

  const QUOTES := {'"', '\'', '`'}

  /** What follows an opening quote `q`, up to and including the closing one. A backslash shields
      the next character, except in a raw literal. */
  function Literal(q: char, t: string): (r: string)
    ensures r <= t
  {
    if t == [] then []
    else if t[0] == '\\' && q != '`' && |t| > 1 then t[..2] + Literal(q, t[2..])
    else if t[0] == q then t[..1]
    else t[..1] + Literal(q, t[1..])
  }

  predicate Closes(q: char, t: string) {
    t != [] &&
    if t[0] == '\\' && q != '`' && |t| > 1 then Closes(q, t[2..])
    else t[0] == q || Closes(q, t[1..])
  }

  function UpToNewline(t: string): (r: string)
    ensures r <= t && '\n' !in r
    ensures |r| < |t| ==> t[|r|] == '\n'
  {
    if t == [] || t[0] == '\n' then [] else t[..1] + UpToNewline(t[1..])
  }

  /** What follows the opening of a block comment, up to and including its end. */
  function BlockRest(t: string): (r: string)
    ensures r <= t
  {
    if |t| < 2 then t
    else if t[0] == '*' && t[1] == '/' then t[..2]
    else t[..1] + BlockRest(t[1..])
  }

  predicate BlockCloses(t: string) {
    |t| > 1 && ((t[0] == '*' && t[1] == '/') || BlockCloses(t[1..]))
  }

  function NextToken(t: string): (tok: Token)
    requires t != []
    ensures tok.Chars() <= t && tok.Chars() != []
  {
    if t[0] in QUOTES then Lit(t[..1] + Literal(t[0], t[1..]))
    else if |t| > 1 && t[0] == '/' && t[1] == '/' then Line(UpToNewline(t))
    else if |t| > 1 && t[0] == '/' && t[1] == '*' then Block(t[..2] + BlockRest(t[2..]))
    else Code(t[0])
  }

  function Lex(t: string): seq<Token>
    decreases |t|
  {
    if t == [] then [] else [NextToken(t)] + Lex(t[|NextToken(t).Chars()|..])
  }

  function TextOf(toks: seq<Token>): string {
    if toks == [] then [] else toks[0].Chars() + TextOf(toks[1..])
  }

  /** The lexing is lossless. */
  lemma {:induction false} LexLossless(t: string)
    ensures TextOf(Lex(t)) == t
    decreases |t|
  {
    if t != [] {
      LexLossless(t[|NextToken(t).Chars()|..]);
    }
  }

  lemma {:induction false} TextOfConcat(a: seq<Token>, b: seq<Token>)
    ensures TextOf(a + b) == TextOf(a) + TextOf(b)
  {
    if a == [] {
      assert a + b == b;
    } else {
      TextOfConcat(a[1..], b);
      assert (a + b)[1..] == a[1..] + b;
      ConcatAssoc(a[0].Chars(), TextOf(a[1..]), TextOf(b));
    }
  }

  // ---------- Token sequences that lex back to themselves ----------

  /** `tok` is what the lexer reads when the next character is `next`, or there is none. */
  predicate Follows(tok: Token, next: string) {
    match tok
    case Code(c) => c !in QUOTES && (c == '/' && next != [] ==> next[0] != '/' && next[0] != '*')
    case Lit(s) =>
      s != [] && s[0] in QUOTES && Literal(s[0], s[1..]) == s[1..] && (next == [] || Closes(s[0], s[1..]))
    case Line(s) => |s| > 1 && s[0] == s[1] == '/' && '\n' !in s && (next == [] || next[0] == '\n')
    case Block(s) =>
      |s| > 1 && s[0] == '/' && s[1] == '*' && BlockRest(s[2..]) == s[2..] && (next == [] || BlockCloses(s[2..]))
  }

  /** The first character of the i-th token, if there is one. */
  function CharAt(toks: seq<Token>, i: nat): string {
    if i >= |toks| || toks[i].Chars() == [] then [] else toks[i].Chars()[..1]
  }

  predicate StableAt(toks: seq<Token>, i: nat)
    requires i < |toks|
  {
    toks[i].Chars() != [] && Follows(toks[i], CharAt(toks, i + 1))
  }

  predicate Stable(toks: seq<Token>) {
    forall i | 0 <= i < |toks| :: StableAt(toks, i)
  }

  lemma {:induction false} LiteralFixed(q: char, t: string, rest: string)
    requires q in QUOTES
    ensures Literal(q, Literal(q, t)) == Literal(q, t)
    ensures Closes(q, Literal(q, t)) <==> Closes(q, t)
    ensures !Closes(q, t) ==> Literal(q, t) == t
    ensures Closes(q, t) ==> Literal(q, Literal(q, t) + rest) == Literal(q, t)
    ensures Closes(q, t) ==> Literal(q, t) != [] && Literal(q, t)[|Literal(q, t)| - 1] == q
    decreases |t|
  {
    if t != [] {
      var l := Literal(q, t);
      var k := if t[0] == '\\' && q != '`' && |t| > 1 then 2 else 1;
      if k == 1 && t[0] == q {
        assert (l + rest)[0] == q;
      } else {
        var l' := Literal(q, t[k..]);
        LiteralFixed(q, t[k..], rest);
        assert l == t[..k] + l' && l[k..] == l';
        ConcatAssoc(t[..k], l', rest);
        assert (l + rest)[k..] == l' + rest && (l + rest)[..k] == t[..k];
      }
    }
  }

  lemma {:induction false} BlockFixed(t: string, rest: string)
    ensures BlockRest(BlockRest(t)) == BlockRest(t)
    ensures BlockCloses(BlockRest(t)) <==> BlockCloses(t)
    ensures !BlockCloses(t) ==> BlockRest(t) == t
    ensures BlockCloses(t) ==> BlockRest(BlockRest(t) + rest) == BlockRest(t)
    decreases |t|
  {
    if |t| > 1 {
      var b := BlockRest(t);
      if !(t[0] == '*' && t[1] == '/') {
        BlockFixed(t[1..], rest);
        assert b[1..] == BlockRest(t[1..]);
        assert (b + rest)[1..] == BlockRest(t[1..]) + rest;
        assert BlockRest(t[1..]) != [] && BlockRest(t[1..])[0] == t[1];
      }
    }
  }

  lemma {:induction false} UpToNewlineFixed(s: string, rest: string)
    requires '\n' !in s && (rest == [] || rest[0] == '\n')
    ensures UpToNewline(s + rest) == s
  {
    if s == [] {
      assert s + rest == rest;
    } else {
      UpToNewlineFixed(s[1..], rest);
      assert (s + rest)[1..] == s[1..] + rest;
    }
  }

  /** The lexer's tokens follow one another as they must. */
  lemma NextTokenFollows(t: string)
    requires t != []
    ensures Follows(NextToken(t), t[|NextToken(t).Chars()|..])
  {
    var tok := NextToken(t);
    match tok
    case Code(c) =>
    case Lit(s) =>
      LiteralFixed(t[0], t[1..], []);
      assert s[1..] == Literal(t[0], t[1..]);
    case Line(s) =>
    case Block(s) =>
      BlockFixed(t[2..], []);
      assert s[2..] == BlockRest(t[2..]);
  }

  /** Conversely, tokens that follow one another so are read back. */
  lemma FollowsNextToken(tok: Token, rest: string)
    requires tok.Chars() != [] && Follows(tok, rest)
    ensures NextToken(tok.Chars() + rest) == tok
  {
    var t := tok.Chars() + rest;
    match tok
    case Code(c) =>
    case Lit(s) => LitReadBack(s, rest);
    case Line(s) => UpToNewlineFixed(s, rest);
    case Block(s) => BlockReadBack(s, rest);
  }

  lemma LitReadBack(s: string, rest: string)
    requires Follows(Lit(s), rest)
    ensures NextToken(s + rest) == Lit(s)
  {
    var t := s + rest;
    LiteralFixed(s[0], s[1..], rest);
    assert t[1..] == s[1..] + rest;
    if rest == [] { assert t[1..] == s[1..]; }
    assert Literal(t[0], t[1..]) == s[1..];
    assert t[..1] + s[1..] == s;
  }

  lemma BlockReadBack(s: string, rest: string)
    requires Follows(Block(s), rest)
    ensures NextToken(s + rest) == Block(s)
  {
    var t := s + rest;
    BlockFixed(s[2..], rest);
    assert t[2..] == s[2..] + rest;
    if rest == [] { assert t[2..] == s[2..]; }
    assert BlockRest(t[2..]) == s[2..];
    assert t[..2] + s[2..] == s;
  }

  lemma FollowsFirst(tok: Token, a: string, b: string)
    requires (a == [] <==> b == []) && (a != [] ==> a[0] == b[0])
    ensures Follows(tok, a) <==> Follows(tok, b)
  {
  }

  lemma {:induction false} LexStable(t: string)
    ensures Stable(Lex(t))
    ensures CharAt(Lex(t), 0) == if t == [] then [] else t[..1]
    decreases |t|
  {
    if t != [] {
      var tok := NextToken(t);
      var rest := t[|tok.Chars()|..];
      LexStable(rest);
      NextTokenFollows(t);
      FollowsFirst(tok, rest, CharAt(Lex(rest), 0));
      StableCons(tok, Lex(rest));
    }
  }

  lemma StableCons(tok: Token, toks: seq<Token>)
    requires Stable(toks) && tok.Chars() != [] && Follows(tok, CharAt(toks, 0))
    ensures Stable([tok] + toks)
  {
    var all := [tok] + toks;
    forall i | 0 <= i < |all|
      ensures StableAt(all, i)
    {
      if i > 0 {
        assert StableAt(toks, i - 1);
      }
    }
  }

  /** A sequence of tokens that follow one another as they must is what its text lexes to. */
  lemma {:induction false} StableLexes(toks: seq<Token>)
    requires Stable(toks)
    ensures Lex(TextOf(toks)) == toks
  {
    if toks != [] {
      var rest := toks[1..];
      StableTail(toks);
      StableLexes(rest);
      TextOfStart(rest);
      assert StableAt(toks, 0) && CharAt(toks, 1) == CharAt(rest, 0);
      FollowsFirst(toks[0], CharAt(toks, 1), TextOf(rest));
      FollowsNextToken(toks[0], TextOf(rest));
      LexCons(toks[0], TextOf(rest));
    }
  }

  lemma StableTail(toks: seq<Token>)
    requires Stable(toks) && toks != []
    ensures Stable(toks[1..])
  {
    forall i | 0 <= i < |toks[1..]|
      ensures StableAt(toks[1..], i)
    {
      assert StableAt(toks, i + 1);
    }
  }

  lemma TextOfStart(toks: seq<Token>)
    requires Stable(toks)
    ensures toks == [] <==> TextOf(toks) == []
    ensures toks != [] ==> CharAt(toks, 0) == TextOf(toks)[..1]
  {
    if toks != [] { assert StableAt(toks, 0); }
  }

  lemma LexCons(tok: Token, rest: string)
    requires tok.Chars() != [] && NextToken(tok.Chars() + rest) == tok
    ensures Lex(tok.Chars() + rest) == [tok] + Lex(rest)
  {
    assert (tok.Chars() + rest)[|tok.Chars()|..] == rest;
  }

  /** Cutting a piece out keeps the rest stable if the tokens on either side of the cut fit. */
  lemma StableCut(a: seq<Token>, m: seq<Token>, b: seq<Token>)
    requires Stable(a + m + b)
    requires a != [] ==> Follows(a[|a| - 1], CharAt(a + b, |a|))
    ensures Stable(a + b)
  {
    var x, y := a + m + b, a + b;
    forall i | 0 <= i < |y|
      ensures StableAt(y, i)
    {
      if i >= |a| {
        assert StableAt(x, i + |m|);
      } else {
        assert StableAt(x, i);
      }
    }
  }

  /** What stands before a comment minds no successor: had it ended in a slash, the lexer would
      have seen the comment open there. Removal therefore joins nothing into a new comment. */
  lemma BeforeComment(tok: Token, next: string)
    requires Follows(tok, "/")
    ensures Follows(tok, next)
  {
  }
}
