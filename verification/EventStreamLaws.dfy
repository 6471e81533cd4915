/** What the browser's parser (frontend/src/lib/use-realtime-stream.ts) makes of a chunk of any lines, and
    what it hands on. */
module EventStreamLaws {
  import opened Options
  import opened EventStream
  import T = Text

  // ---------- Trimming ----------

  predicate AllSpace(s: string) {
    forall i | 0 <= i < |s| :: IsJsSpace(s[i])
  }

  lemma SpaceBefore(c: char, before: string)
    requires IsJsSpace(c) && AllSpace(before)
    ensures AllSpace([c] + before)
  {
    hide IsJsSpace;
  }

  lemma SpaceAfter(after: string, c: char)
    requires IsJsSpace(c) && AllSpace(after)
    ensures AllSpace(after + [c])
  {
    hide IsJsSpace;
  }

  lemma FirstAside(s: string, before: string, middle: string, after: string)
    requires s != [] && s[1..] == before + middle + after
    ensures s == [s[0]] + before + middle + after
  {
    T.SplitAt(s, 1);
  }

  lemma LastAside(s: string, middle: string, after: string)
    requires s != [] && s[..|s| - 1] == middle + after
    ensures s == middle + (after + [s[|s| - 1]])
  {
    T.SplitAt(s, |s| - 1);
  }

  lemma TrimOnce(s: string)
    ensures s != [] && IsJsSpace(s[0]) ==> Trim(s) == Trim(s[1..])
    ensures s != [] && !IsJsSpace(s[0]) && IsJsSpace(s[|s| - 1]) ==> Trim(s) == Trim(s[..|s| - 1])
    ensures NoOuterSpace(s) ==> Trim(s) == s
  {
  }

  /** Trimming takes white space off both ends, and all of it. */
  lemma {:induction false} TrimExactly(s: string) returns (before: string, after: string)
    ensures s == before + Trim(s) + after && AllSpace(before) && AllSpace(after)
    ensures NoOuterSpace(Trim(s))
  {
    before, after := [], [];
    TrimOnce(s);
    hide Trim, AllSpace, IsJsSpace;
    NoSpace();
    if s != [] && IsJsSpace(s[0]) {
      before, after := TrimExactly(s[1..]);
      SpaceBefore(s[0], before);
      FirstAside(s, before, Trim(s), after);
      before := [s[0]] + before;
    } else if s != [] && IsJsSpace(s[|s| - 1]) {
      before, after := TrimExactly(s[..|s| - 1]);
      SpaceAfter(after, s[|s| - 1]);
      LastAside(s, before + Trim(s), after);
      after := after + [s[|s| - 1]];
    }
  }

  lemma NoSpace()
    ensures AllSpace([])
  {
  }

  // ---------- Lines ----------

  function FieldsOf(chunk: string): Fields {
    LinesFields(Fields([], []), T.Split(chunk))
  }

  lemma {:induction false} SplitAppend(chunk: string, line: string)
    requires '\n' !in line
    ensures T.Split(chunk + ['\n'] + line) == T.Split(chunk) + [line]
  {
    if chunk == [] {
      T.SplitLine([], line);
      T.SplitLine(line, []);
      assert [] + ['\n'] + line == ['\n'] + line;
    } else {
      SplitAppend(chunk[1..], line);
      assert (chunk + ['\n'] + line)[1..] == chunk[1..] + ['\n'] + line;
      assert (chunk + ['\n'] + line)[0] == chunk[0];
    }
  }

  lemma {:induction false} FieldsAppend(f: Fields, lines: seq<string>, line: string)
    ensures LinesFields(f, lines + [line]) == LineFields(LinesFields(f, lines), line)
    decreases |lines|
  {
    if lines == [] {
      OneLineFields(f, line);
      assert lines + [line] == [line];
    } else {
      FieldsAppend(LineFields(f, lines[0]), lines[1..], line);
      assert (lines + [line])[1..] == lines[1..] + [line];
    }
  }

  lemma NextLine(chunk: string, line: string)
    requires '\n' !in line
    ensures FieldsOf(chunk + ['\n'] + line) == LineFields(FieldsOf(chunk), line)
  {
    SplitAppend(chunk, line);
    FieldsAppend(Fields([], []), T.Split(chunk), line);
  }

  /** One more line in a chunk: an `event:` line sets the type in place of an earlier one, a `data:` line is
      joined on to the data without a line break, and any other line is ignored. */
  lemma LineByLine(chunk: string, line: string, value: string)
    requires '\n' !in line
    ensures line == "event:" + value ==>
              FieldsOf(chunk + ['\n'] + line) == Fields(Trim(value), FieldsOf(chunk).data)
    ensures line == "data:" + value ==>
              FieldsOf(chunk + ['\n'] + line) == Fields(FieldsOf(chunk).kind, FieldsOf(chunk).data + Trim(value))
    ensures !("event:" <= line) && !("data:" <= line) ==> FieldsOf(chunk + ['\n'] + line) == FieldsOf(chunk)
  {
    NextLine(chunk, line);
    hide FieldsOf, Trim;
    if line == "event:" + value {
      assert line[6..] == value;
    } else if line == "data:" + value {
      assert line[0] == 'd' && line[5..] == value;
    }
  }

  /** The same for the first line. */
  lemma FirstLine(line: string, value: string)
    requires '\n' !in line
    ensures line == "event:" + value ==> FieldsOf(line) == Fields(Trim(value), [])
    ensures line == "data:" + value ==> FieldsOf(line) == Fields([], Trim(value))
    ensures !("event:" <= line) && !("data:" <= line) ==> FieldsOf(line) == Fields([], [])
  {
    T.SplitLine(line, []);
    OneLineFields(Fields([], []), line);
    hide LinesFields, Trim;
    if line == "event:" + value {
      assert line[6..] == value;
    } else if line == "data:" + value {
      assert line[0] == 'd' && line[5..] == value;
    }
  }

  /** A chunk without data says nothing. */
  lemma MessageExactly(chunk: string)
    ensures |FieldsOf(chunk).data| == 0 ==> ChunkMessage(chunk) == None
    ensures |FieldsOf(chunk).data| > 0 ==>
              ChunkMessage(chunk) == Some(Message(FieldsOf(chunk).kind, FieldsOf(chunk).data))
  {
  }

  // ---------- Events ----------

  /** A payload that does not parse is dropped, and one that does is handed on as it is, but for an event
      without a type in a frame that has one: it gets the frame's. */
  lemma EmissionExactly(parse: Parser, ms: seq<Message>, m: Message, ev: RealtimeEvent)
    ensures parse(m.data) == None ==> Emissions(parse, ms + [m]) == Emissions(parse, ms)
    ensures parse(m.data) == Some(ev) && |ev.kind| > 0 ==>
              Emissions(parse, ms + [m]) == Emissions(parse, ms) + [ev]
    ensures parse(m.data) == Some(ev) && |ev.kind| == 0 ==>
              Emissions(parse, ms + [m]) == Emissions(parse, ms) + [RealtimeEvent(m.kind, ev.rest)]
  {
    EmissionsSnoc(parse, ms, m);
    assert Emissions(parse, ms) + [] == Emissions(parse, ms);
    hide Emissions;
  }

  // ---------- Frames ----------

  /** An event is written as its type and its document, each on a line of its own, and a blank line. */
  lemma FrameText(kind: string, payload: string, stamp: string)
    ensures Frame(Event(kind, payload)) == "event: " + kind + "\ndata: " + payload + "\n\n"
    ensures Frame(KeepAlive(stamp)) == ": keepalive " + stamp + "\n\n"
  {
    assert ['\n'] + "data: " == "\ndata: ";
    assert BLANK_LINE == "\n\n";
  }
}
