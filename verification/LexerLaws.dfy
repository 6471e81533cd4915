/** How `strip_go_like` of scripts/strip-comments.py reads each kind of token, in terms of the text alone. */
module LexerLaws {
  import opened Text
  import opened GoLexer

  function Cat(units: seq<string>): string {
    if units == [] then [] else units[0] + Cat(units[1..])
  }

  /** One unit inside a literal: a character that is not the quote or, but for raw literals, a character
      that is neither quote nor backslash, or a backslash with the character it shields. */
  predicate Unit(q: char, u: string) {
    if q == '`' then |u| == 1 && u[0] != '`'
    else (|u| == 1 && u[0] != q && u[0] != '\\') || (|u| == 2 && u[0] == '\\')
  }

  lemma {:induction false} LiteralOfUnits(q: char, units: seq<string>, rest: string)
    requires forall i | 0 <= i < |units| :: Unit(q, units[i])
    ensures Literal(q, Cat(units) + rest) == Cat(units) + Literal(q, rest)
  {
    if units == [] {
      assert Cat(units) + rest == rest;
    } else {
      var u, tail := units[0], Cat(units[1..]) + rest;
      LiteralOfUnits(q, units[1..], rest);
      ConcatAssoc(u, Cat(units[1..]), rest);
      OneUnit(q, u, tail);
      ConcatAssoc(u, Cat(units[1..]), Literal(q, rest));
    }
  }

  lemma OneUnit(q: char, u: string, tail: string)
    requires Unit(q, u)
    ensures Literal(q, u + tail) == u + Literal(q, tail)
  {
    assert (u + tail)[..|u|] == u && (u + tail)[|u|..] == tail;
  }

  /** A literal goes from any of the three quotes to the next one of its kind that is not shielded, and to
      the end of the text if there is none, a last backslash included. */
  lemma ReadsLiteral(q: char, units: seq<string>, rest: string)
    requires q in {'"', '\'', '`'} && forall i | 0 <= i < |units| :: Unit(q, units[i])
    ensures NextToken([q] + (Cat(units) + ([q] + rest))) == Lit([q] + (Cat(units) + [q]))
    ensures NextToken([q] + Cat(units)) == Lit([q] + Cat(units))
    ensures q != '`' ==> NextToken([q] + (Cat(units) + ['\\'])) == Lit([q] + (Cat(units) + ['\\']))
  {
    LiteralEnds(q, rest);
    hide Literal, NextToken, Unit, Cat;
    LiteralOfUnits(q, units, [q] + rest);
    LiteralOfUnits(q, units, []);
    LiteralOfUnits(q, units, ['\\']);
    assert Cat(units) + [] == Cat(units);
    AfterQuote(q, Cat(units) + ([q] + rest));
    AfterQuote(q, Cat(units));
    AfterQuote(q, Cat(units) + ['\\']);
  }

  lemma LiteralEnds(q: char, rest: string)
    requires q in {'"', '\'', '`'}
    ensures Literal(q, [q] + rest) == [q] && Literal(q, []) == [] && Literal(q, ['\\']) == ['\\']
  {
    assert ([q] + rest)[..1] == [q];
    assert Literal(q, ['\\'][1..]) == [];
  }

  lemma AfterQuote(q: char, t: string)
    requires q in {'"', '\'', '`'}
    ensures NextToken([q] + t) == Lit([q] + Literal(q, t))
  {
    assert ([q] + t)[..1] == [q] && ([q] + t)[1..] == t;
  }

  /** A line comment ends before the newline, or with the text. */
  lemma ReadsLine(body: string, rest: string)
    requires '\n' !in body && (rest == [] || rest[0] == '\n')
    ensures NextToken("//" + body + rest) == Line("//" + body)
  {
    UpToNewlineFixed("//" + body, rest);
  }

  /** `body` with the star behind it has no end of a block comment in it. */
  predicate NoEnd(body: string) {
    forall i | 0 <= i < |body| - 1 :: !(body[i] == '*' && body[i + 1] == '/')
  }

  lemma {:induction false} BlockOf(body: string, rest: string)
    requires NoEnd(body + ['*'])
    ensures BlockRest(body + ("*/" + rest)) == body + "*/"
  {
    var t := body + ("*/" + rest);
    if body == [] {
      assert t == "*/" + rest && t[..2] == "*/";
    } else {
      assert t[1..] == body[1..] + ("*/" + rest);
      assert (body + ['*'])[0] == t[0] && (body + ['*'])[1] == t[1];
      assert NoEnd(body[1..] + ['*']) by {
        assert forall i | 0 <= i < |body[1..] + ['*']| ::
            (body[1..] + ['*'])[i] == (body + ['*'])[i + 1];
      }
      BlockOf(body[1..], rest);
    }
  }

  lemma {:induction false} BlockOfAll(body: string)
    requires NoEnd(body)
    ensures BlockRest(body) == body
  {
    if |body| >= 2 {
      BlockOfAll(body[1..]);
    }
  }

  /** A block comment ends with the first end after its opening, or with the text. */
  lemma ReadsBlock(body: string, rest: string)
    ensures NoEnd(body + ['*']) ==> NextToken("/*" + (body + ("*/" + rest))) == Block("/*" + (body + "*/"))
    ensures NoEnd(body) ==> NextToken("/*" + body) == Block("/*" + body)
  {
    if NoEnd(body + ['*']) {
      BlockOf(body, rest);
      AfterOpening(body + ("*/" + rest));
    }
    if NoEnd(body) {
      BlockOfAll(body);
      AfterOpening(body);
    }
  }

  lemma AfterOpening(t: string)
    ensures NextToken("/*" + t) == Block("/*" + BlockRest(t))
  {
    assert ("/*" + t)[..2] == "/*" && ("/*" + t)[2..] == t;
  }

  /** Anything else is one character of code. */
  lemma ReadsCode(c: char, rest: string)
    requires c !in {'"', '\'', '`'} && !(c == '/' && rest != [] && rest[0] in {'/', '*'})
    ensures NextToken([c] + rest) == Code(c)
  {
  }

  /** And the text is read token by token. */
  lemma ReadsOn(tok: Token, rest: string)
    requires tok.Chars() != [] && NextToken(tok.Chars() + rest) == tok
    ensures Lex(tok.Chars() + rest) == [tok] + Lex(rest) && Lex([]) == []
  {
    LexCons(tok, rest);
  }

  /** What a line can be blank with. */
  lemma SpacesAre()
    ensures IsSpace(' ') && IsSpace('\t') && IsSpace('\r') && IsSpace('\n')
    ensures IsSpace(0x0B as char) && IsSpace(0x0C as char)
    ensures forall c | '!' <= c <= '~' :: !IsSpace(c)
  {
  }
}
