/** `collapse_blank_lines` of scripts/strip-comments.py: lines lose their trailing white space,
    runs of blank lines become one, and the text ends in one newline. */
module BlankLines {
  import opened Text

  function RStrip(line: string): (r: string)
    ensures r <= line && (r != [] ==> !IsSpace(r[|r| - 1]))
    ensures forall k | |r| <= k < |line| :: IsSpace(line[k])
  {
    if line == [] || !IsSpace(line[|line| - 1]) then line else RStrip(line[..|line| - 1])
  }

  /** The lines the loop appends; `afterBlank` says that the last line read was blank. */
  function Squeeze(lines: seq<string>, afterBlank: bool): seq<string> {
    if lines == [] then []
    else
      var line := RStrip(lines[0]);
      if line != [] then [line] + Squeeze(lines[1..], false)
      else if afterBlank then Squeeze(lines[1..], true)
      else [[]] + Squeeze(lines[1..], true)
  }

  function DropTrailingBlanks(lines: seq<string>): (r: seq<string>)
    ensures r <= lines && (r != [] ==> r[|r| - 1] != [])
    ensures forall k | |r| <= k < |lines| :: lines[k] == []
  {
    if lines == [] || lines[|lines| - 1] != [] then lines else DropTrailingBlanks(lines[..|lines| - 1])
  }

  function CollapsedLines(text: string): seq<string> {
    var kept := DropTrailingBlanks(Squeeze(Split(text), false));
    if kept == [] then [] else kept + [[]]
  }

  function Collapse(text: string): string {
    Join(CollapsedLines(text))
  }

  method CollapseBlankLines(text: string) returns (result: string)
    ensures result == Collapse(text)
  {
    var lines := Split(text);
    var out: seq<string> := [];
    var blankRun := 0;
    for i := 0 to |lines|
      invariant blankRun >= 0
      invariant Squeeze(lines, false) == out + Squeeze(lines[i..], blankRun > 0)
    {
      assert lines[i..][1..] == lines[i + 1..];
      var stripped := RStrip(lines[i]);
      if stripped == [] {
        blankRun := blankRun + 1;
        if blankRun <= 1 {
          ConcatAssoc(out, [[]], Squeeze(lines[i + 1..], true));
          out := out + [[]];
        }
      } else {
        blankRun := 0;
        ConcatAssoc(out, [stripped], Squeeze(lines[i + 1..], false));
        out := out + [stripped];
      }
    }
    assert out == Squeeze(lines, false);
    while out != [] && out[|out| - 1] == []
      invariant DropTrailingBlanks(out) == DropTrailingBlanks(Squeeze(lines, false))
    {
      out := out[..|out| - 1];
    }
    if out != [] {
      out := out + [[]];
    }
    result := Join(out);
  }

  // ---------- Tidy texts ----------

  /** Lines as the loop leaves them: stripped on the right, no two blank ones in a row. */
  predicate TidyLines(lines: seq<string>, afterBlank: bool) {
    lines == [] ||
    (RStrip(lines[0]) == lines[0] && !(afterBlank && lines[0] == []) && TidyLines(lines[1..], lines[0] == []))
  }

  /** Empty, or tidy lines of which the last is not blank, each ended by a newline. */
  predicate Tidy(text: string) {
    var lines := Split(text);
    text == [] || (|lines| > 1 && lines[|lines| - 1] == [] && lines[|lines| - 2] != [] && TidyLines(lines, false))
  }

  lemma RStripFixed(line: string)
    ensures RStrip(RStrip(line)) == RStrip(line)
  {
  }

  lemma {:induction false} SqueezeIsTidy(lines: seq<string>, afterBlank: bool)
    requires forall line | line in lines :: '\n' !in line
    ensures TidyLines(Squeeze(lines, afterBlank), afterBlank)
    ensures forall line | line in Squeeze(lines, afterBlank) :: '\n' !in line
  {
    if lines != [] {
      var line := RStrip(lines[0]);
      RStripFixed(lines[0]);
      assert lines[0] in lines && forall c | c in line :: c in lines[0];
      var next := Squeeze(lines[1..], line == []);
      SqueezeIsTidy(lines[1..], line == []);
      assert ([line] + next)[1..] == next;
      if line == [] && afterBlank {
        assert Squeeze(lines, afterBlank) == next;
      }
    }
  }

  lemma {:induction false} TidyIsSqueezed(lines: seq<string>, afterBlank: bool)
    requires TidyLines(lines, afterBlank)
    ensures Squeeze(lines, afterBlank) == lines
  {
    if lines != [] {
      TidyIsSqueezed(lines[1..], lines[0] == []);
      assert [lines[0]] + lines[1..] == lines;
    }
  }

  lemma {:induction false} TidyPrefix(lines: seq<string>, k: nat, afterBlank: bool)
    requires k <= |lines| && TidyLines(lines, afterBlank)
    ensures TidyLines(lines[..k], afterBlank)
  {
    if k > 0 {
      TidyPrefix(lines[1..], k - 1, lines[0] == []);
      assert lines[..k][1..] == lines[1..][..k - 1];
    }
  }

  lemma {:induction false} TidyThenNewline(lines: seq<string>, afterBlank: bool)
    requires TidyLines(lines, afterBlank) && lines != [] && lines[|lines| - 1] != []
    ensures TidyLines(lines + [[]], afterBlank)
  {
    assert (lines + [[]])[1..] == lines[1..] + [[]];
    if |lines| == 1 {
      assert TidyLines([[]], false);
    } else {
      TidyThenNewline(lines[1..], lines[0] == []);
    }
  }

  lemma CollapseIsTidy(text: string)
    ensures Tidy(Collapse(text))
    ensures CollapsedLines(text) != [] ==> Split(Collapse(text)) == CollapsedLines(text)
  {
    var squeezed := Squeeze(Split(text), false);
    SqueezeIsTidy(Split(text), false);
    var kept := DropTrailingBlanks(squeezed);
    if kept != [] {
      TidyPrefix(squeezed, |kept|, false);
      assert kept == squeezed[..|kept|];
      TidyThenNewline(kept, false);
      SplitJoin(kept + [[]]);
    }
  }

  lemma TidyIsFixed(text: string)
    requires Tidy(text)
    ensures Collapse(text) == text
  {
    if text == [] {
      assert Squeeze([[]], false) == [[]];
    } else {
      var lines := Split(text);
      var body := lines[..|lines| - 1];
      TidyIsSqueezed(lines, false);
      assert lines == body + [[]];
      assert DropTrailingBlanks(lines) == body;
      JoinSplit(text);
    }
  }

  /** The texts that `collapse_blank_lines` leaves alone are exactly the tidy ones. */
  lemma CollapseFixedExactly(text: string)
    ensures Collapse(text) == text <==> Tidy(text)
  {
    if Tidy(text) { TidyIsFixed(text); } else { CollapseIsTidy(text); }
  }

  lemma CollapseIdempotent(text: string)
    ensures Collapse(Collapse(text)) == Collapse(text)
  {
    CollapseIsTidy(text);
    TidyIsFixed(Collapse(text));
  }

  // ---------- No content is lost ----------

  /** The lines that are not blank, stripped on the right. */
  function Content(lines: seq<string>): seq<string> {
    if lines == [] then []
    else if RStrip(lines[0]) == [] then Content(lines[1..])
    else [RStrip(lines[0])] + Content(lines[1..])
  }

  lemma {:induction false} ContentConcat(a: seq<string>, b: seq<string>)
    ensures Content(a + b) == Content(a) + Content(b)
  {
    if a == [] {
      assert a + b == b;
    } else {
      ContentConcat(a[1..], b);
      assert (a + b)[1..] == a[1..] + b;
      ConcatAssoc([RStrip(a[0])], Content(a[1..]), Content(b));
    }
  }

  lemma {:induction false} SqueezeContent(lines: seq<string>, afterBlank: bool)
    ensures Content(Squeeze(lines, afterBlank)) == Content(lines)
  {
    if lines != [] {
      var line := RStrip(lines[0]);
      var next := Squeeze(lines[1..], line == []);
      SqueezeContent(lines[1..], line == []);
      RStripFixed(lines[0]);
      assert ([line] + next)[1..] == next;
    }
  }

  lemma {:induction false} BlanksHaveNoContent(lines: seq<string>)
    requires forall k | 0 <= k < |lines| :: lines[k] == []
    ensures Content(lines) == []
  {
    if lines != [] { BlanksHaveNoContent(lines[1..]); }
  }

  /** Every line that is not blank survives, in order, losing only its trailing white space. */
  lemma CollapseKeepsContent(text: string)
    ensures Content(Split(Collapse(text))) == Content(Split(text))
  {
    var squeezed := Squeeze(Split(text), false);
    var kept := DropTrailingBlanks(squeezed);
    SqueezeContent(Split(text), false);
    BlanksHaveNoContent(squeezed[|kept|..]);
    SplitAt(squeezed, |kept|);
    assert squeezed[..|kept|] == kept;
    ContentConcat(kept, squeezed[|kept|..]);
    CollapseIsTidy(text);
    ContentConcat(kept, [[]]);
    assert Content([[]]) == [];
  }

  // ---------- What becomes of every line ----------

  /** Whether a blank line would be the second in a row after these. */
  predicate EndsBlank(lines: seq<string>, afterBlank: bool) {
    if lines == [] then afterBlank else RStrip(lines[|lines| - 1]) == []
  }

  lemma {:induction false} SqueezeConcat(a: seq<string>, b: seq<string>, afterBlank: bool)
    ensures Squeeze(a + b, afterBlank) == Squeeze(a, afterBlank) + Squeeze(b, EndsBlank(a, afterBlank))
  {
    if a == [] {
      assert a + b == b;
    } else {
      var blank := RStrip(a[0]) == [];
      assert (a + b)[1..] == a[1..] + b;
      SqueezeConcat(a[1..], b, blank);
      var head := if blank then if afterBlank then [] else [[]] else [RStrip(a[0])];
      ConcatAssoc(head, Squeeze(a[1..], blank), Squeeze(b, EndsBlank(a[1..], blank)));
    }
  }

  lemma RStripBlank(line: string)
    ensures Blank(line) <==> RStrip(line) == []
  {
    var r := RStrip(line);
    if r == [] {
      assert forall k | 0 <= k < |line| :: IsSpace(line[k]);
    } else {
      assert line[|r| - 1] == r[|r| - 1] && line[|r| - 1] in line;
    }
  }

  lemma CollapseByLines(lines: seq<string>, lines': seq<string>)
    requires lines != [] && lines' != []
    requires (forall line | line in lines :: '\n' !in line) && forall line | line in lines' :: '\n' !in line
    requires DropTrailingBlanks(Squeeze(lines, false)) == DropTrailingBlanks(Squeeze(lines', false))
    ensures Collapse(Join(lines)) == Collapse(Join(lines'))
  {
    SplitJoin(lines);
    SplitJoin(lines');
  }

  /** Lines of a text. */
  predicate Lines(lines: seq<string>) {
    forall line | line in lines :: '\n' !in line
  }

  lemma LinesAround(a: seq<string>, m: seq<string>, b: seq<string>)
    requires Lines(a) && Lines(m) && Lines(b)
    ensures Lines(a + (m + b))
  {
  }

  /** The second of two blank lines makes no difference. */
  lemma TwoBlanksAreOne(a: seq<string>, x: string, y: string, b: seq<string>)
    requires Lines(a) && Lines([x, y]) && Lines(b) && Blank(x) && Blank(y)
    ensures Collapse(Join(a + ([x, y] + b))) == Collapse(Join(a + ([x] + b)))
  {
    LinesAround(a, [x, y], b);
    assert Lines([x]);
    LinesAround(a, [x], b);
    SqueezeConcat(a, [x, y] + b, false);
    SqueezeConcat(a, [x] + b, false);
    SecondBlank(x, y, b, EndsBlank(a, false));
    hide Squeeze, Collapse;
    CollapseByLines(a + ([x, y] + b), a + ([x] + b));
  }

  lemma SecondBlank(x: string, y: string, b: seq<string>, afterBlank: bool)
    requires Blank(x) && Blank(y)
    ensures Squeeze([x, y] + b, afterBlank) == Squeeze([x] + b, afterBlank)
  {
    RStripBlank(x);
    RStripBlank(y);
    assert ([x, y] + b)[1..] == [y] + b && ([x] + b)[1..] == b && ([y] + b)[1..] == b;
  }

  /** White space at the end of a line makes no difference. */
  lemma LinesAreStripped(a: seq<string>, line: string, b: seq<string>)
    requires Lines(a) && '\n' !in line && Lines(b)
    ensures '\n' !in RStrip(line)
    ensures Collapse(Join(a + ([line] + b))) == Collapse(Join(a + ([RStrip(line)] + b)))
  {
    var stripped := RStrip(line);
    assert stripped <= line;
    assert Lines([line]) && Lines([stripped]);
    LinesAround(a, [line], b);
    LinesAround(a, [stripped], b);
    SqueezeConcat(a, [line] + b, false);
    SqueezeConcat(a, [stripped] + b, false);
    RStripFixed(line);
    assert ([line] + b)[1..] == b && ([stripped] + b)[1..] == b;
    assert Squeeze([line] + b, EndsBlank(a, false)) == Squeeze([stripped] + b, EndsBlank(a, false));
    hide Squeeze, Collapse;
    CollapseByLines(a + ([line] + b), a + ([stripped] + b));
  }

  /** Nor does a blank line at the end of the text; so a final newline is there in the result if and only
      if there is any other line. */
  lemma LastBlankGoes(a: seq<string>, x: string)
    requires a != [] && Lines(a) && '\n' !in x && Blank(x)
    ensures Collapse(Join(a + [x])) == Collapse(Join(a))
  {
    assert Lines(a + [x]);
    SqueezeConcat(a, [x], false);
    OneBlank(x, EndsBlank(a, false));
    BlankDropped(Squeeze(a, false));
    assert Squeeze(a, false) + [] == Squeeze(a, false);
    hide Squeeze, Collapse;
    CollapseByLines(a + [x], a);
  }

  lemma OneBlank(x: string, afterBlank: bool)
    requires Blank(x)
    ensures Squeeze([x], afterBlank) == if afterBlank then [] else [[]]
  {
    RStripBlank(x);
    assert [x][1..] == [];
  }

  lemma BlankDropped(lines: seq<string>)
    ensures DropTrailingBlanks(lines + [[]]) == DropTrailingBlanks(lines)
  {
    assert (lines + [[]])[..|lines|] == lines;
  }
}
