/** The realtime event stream: the gateway's printer (services/api-gateway/internal/realtime/hub.go)
    and the browser's incremental parser (frontend/src/lib/use-realtime-stream.ts). The framing is
    that of section 9.2, Server-sent events, of the WHATWG HTML Standard. */
module EventStream {
  import opened Options
  import T = Text

  // ---------- The printer ----------

  /** What the gateway writes to a connection: events, and keepalives in between. */
  datatype Item = Event(kind: string, payload: string) | KeepAlive(stamp: string)

  /** A frame without the blank line that ends it. */
  function Body(item: Item): string {
    match item
    case Event(kind, payload) => "event: " + kind + ['\n'] + ("data: " + payload)
    case KeepAlive(stamp) => ": keepalive " + stamp
  }

  const BLANK_LINE := ['\n', '\n']

  function Frame(item: Item): string {
    Body(item) + BLANK_LINE
  }

  function Frames(items: seq<Item>): string {
    if items == [] then [] else Frame(items[0]) + Frames(items[1..])
  }

  class ResponseStream {
    var written: string

    constructor ()
      ensures written == []
    {
      written := [];
    }

    /** Event types come from a fixed table and payloads from json.Marshal. */
    method WriteSSE(kind: string, raw: string)
      modifies this
      ensures written == old(written) + Frame(Event(kind, raw))
    {
      written := written + ("event: " + kind + ['\n']);
      written := written + ("data: " + raw + BLANK_LINE);
      assert written == old(written) + Frame(Event(kind, raw));
    }

    method WriteKeepAlive(stamp: string)
      modifies this
      ensures written == old(written) + Frame(KeepAlive(stamp))
    {
      written := written + (": keepalive " + stamp + BLANK_LINE);
    }
  }

  // ---------- The parser ----------

  /** What `String.prototype.trim` removes. */
  predicate IsJsSpace(c: char) {
    var n := c as int;
    || 0x09 <= n <= 0x0D || n == 0x20 || n == 0xA0 || n == 0xFEFF || n == 0x1680 || 0x2000 <= n <= 0x200A
    || n == 0x2028 || n == 0x2029 || n == 0x202F || n == 0x205F || n == 0x3000
  }

  function Trim(s: string): string {
    if s == [] then []
    else if IsJsSpace(s[0]) then Trim(s[1..])
    else if IsJsSpace(s[|s| - 1]) then Trim(s[..|s| - 1])
    else s
  }

  /** What a chunk hands to JSON.parse, with the event type to fall back on. */
  datatype Message = Message(kind: string, data: string)

  datatype Fields = Fields(kind: string, data: string)

  function LineFields(f: Fields, line: string): Fields {
    if "event:" <= line then f.(kind := Trim(line[6..]))
    else if "data:" <= line then f.(data := f.data + Trim(line[5..]))
    else f
  }

  function LinesFields(f: Fields, lines: seq<string>): Fields
    decreases |lines|
  {
    if lines == [] then f else LinesFields(LineFields(f, lines[0]), lines[1..])
  }

  function ChunkMessage(chunk: string): Option<Message> {
    var f := LinesFields(Fields([], []), T.Split(chunk));
    if f.data == [] then None else Some(Message(f.kind, f.data))
  }

  function Messages(chunks: seq<string>): seq<Message> {
    if chunks == [] then []
    else
      var m := ChunkMessage(chunks[0]);
      (if m.Some? then [m.value] else []) + Messages(chunks[1..])
  }

  /** An event as the page sees it: its type, empty if there is none, and the rest. */
  datatype RealtimeEvent = RealtimeEvent(kind: string, rest: string)

  /** What JSON.parse makes of a text, or nothing if it throws. */
  type Parser = string -> Option<RealtimeEvent>

  /** The event handed to the bus: an event without a type gets the one of its frame. */
  function Emission(parse: Parser, m: Message): seq<RealtimeEvent> {
    match parse(m.data)
    case None => []
    case Some(ev) => [if ev.kind == "" && m.kind != "" then ev.(kind := m.kind) else ev]
  }

  function Emissions(parse: Parser, ms: seq<Message>): seq<RealtimeEvent> {
    if ms == [] then [] else Emissions(parse, ms[..|ms| - 1]) + Emission(parse, ms[|ms| - 1])
  }

  lemma EmissionsSnoc(parse: Parser, ms: seq<Message>, m: Message)
    ensures Emissions(parse, ms + [m]) == Emissions(parse, ms) + Emission(parse, m)
  {
    assert (ms + [m])[..|ms|] == ms;
  }

  lemma {:induction false} EmissionsConcat(parse: Parser, a: seq<Message>, b: seq<Message>)
    ensures Emissions(parse, a + b) == Emissions(parse, a) + Emissions(parse, b)
  {
    if b == [] {
      assert a + b == a;
    } else {
      hide Emission, Emissions;
      var c, m := b[..|b| - 1], b[|b| - 1];
      EmissionsConcat(parse, a, c);
      T.ConcatAssoc(a, c, [m]);
      assert c + [m] == b;
      EmissionsSnoc(parse, a + c, m);
      EmissionsSnoc(parse, c, m);
      T.ConcatAssoc(Emissions(parse, a), Emissions(parse, c), Emission(parse, m));
    }
  }

  /** `buffer.indexOf("\n\n")`. */
  function IndexOfBlank(s: string): (r: Option<nat>)
    ensures r.Some? ==> r.value + 2 <= |s| && s[r.value] == s[r.value + 1] == '\n'
  {
    if |s| < 2 then None
    else if s[0] == '\n' && s[1] == '\n' then Some(0)
    else
      var r := IndexOfBlank(s[1..]);
      if r.Some? then Some(r.value + 1) else None
  }

  /** The complete chunks of a text. */
  function Chunks(s: string): seq<string>
    decreases |s|
  {
    var i := IndexOfBlank(s);
    if i.None? then [] else [s[..i.value]] + Chunks(s[i.value + 2..])
  }

  /** What follows its last complete chunk. */
  function Unfinished(s: string): string
    decreases |s|
  {
    var i := IndexOfBlank(s);
    if i.None? then s else Unfinished(s[i.value + 2..])
  }

  lemma FirstChunk(s: string)
    requires IndexOfBlank(s).Some?
    ensures var k := IndexOfBlank(s).value;
            var m := ChunkMessage(s[..k]);
            && Unfinished(s) == Unfinished(s[k + 2..])
            && Messages(Chunks(s)) == (if m.Some? then [m.value] else []) + Messages(Chunks(s[k + 2..]))
  {
    hide IndexOfBlank, Messages, ChunkMessage;
    MessagesCons(s[..IndexOfBlank(s).value], Chunks(s[IndexOfBlank(s).value + 2..]));
  }

  class StreamClient {
    const parse: Parser
    var buffer: string
    var emitted: seq<RealtimeEvent>

    constructor (parse: Parser)
      ensures this.parse == parse && buffer == [] && emitted == []
    {
      this.parse := parse;
      buffer := [];
      emitted := [];
    }

    /** One turn of the reading loop, with its inner loop over complete chunks. */
    method Read(value: string)
      modifies this
      ensures buffer == Unfinished(old(buffer) + value)
      ensures emitted == old(emitted) + Emissions(parse, Messages(Chunks(old(buffer) + value)))
    {
      hide Emissions, Messages, Chunks, Unfinished;
      buffer := buffer + value;
      var idx := IndexOfBlank(buffer);
      ghost var text := buffer;
      ghost var sent := [];
      assert Emissions(parse, []) == [] by { EmissionsOfNone(parse); }
      while idx.Some?
        invariant idx == IndexOfBlank(buffer)
        invariant Unfinished(buffer) == Unfinished(text)
        invariant sent + Messages(Chunks(buffer)) == Messages(Chunks(text))
        invariant emitted == old(emitted) + Emissions(parse, sent)
        decreases |buffer|
      {
        var chunk := buffer[..idx.value];
        FirstChunk(buffer);
        ghost var next := One(ChunkMessage(chunk));
        buffer := buffer[idx.value + 2..];
        HandleChunk(chunk);
        EmissionsConcat(parse, sent, next);
        T.ConcatAssoc(old(emitted), Emissions(parse, sent), Emissions(parse, next));
        T.ConcatAssoc(sent, next, Messages(Chunks(buffer)));
        sent := sent + next;
        idx := IndexOfBlank(buffer);
      }
      NoChunk(buffer);
      assert Messages([]) == [] by { MessagesOfNone(); }
      assert sent + [] == sent;
    }

    /** The reading loop over one connection, which begins with an empty buffer. */
    method ReadAll(received: seq<string>)
      modifies this
      ensures buffer == AfterReads(received).buffer
      ensures emitted == old(emitted) + Emissions(parse, AfterReads(received).emitted)
    {
      buffer := "";
      for i := 0 to |received|
        invariant buffer == AfterReads(received[..i]).buffer
        invariant emitted == old(emitted) + Emissions(parse, AfterReads(received[..i]).emitted)
      {
        assert received[..i + 1][..i] == received[..i];
        ghost var before := AfterReads(received[..i]);
        ghost var more := Messages(Chunks(before.buffer + received[i]));
        hide Emissions, Messages, Chunks, Unfinished;
        Read(received[i]);
        EmissionsConcat(parse, before.emitted, more);
        T.ConcatAssoc(old(emitted), Emissions(parse, before.emitted), Emissions(parse, more));
      }
      assert received[..|received|] == received;
    }

    method HandleChunk(chunk: string)
      modifies this`emitted
      ensures emitted == old(emitted) + Emissions(parse, One(ChunkMessage(chunk)))
    {
      var lines := T.Split(chunk);
      var eventType: string := [];
      var dataRaw: string := [];
      for i := 0 to |lines|
        invariant LinesFields(Fields(eventType, dataRaw), lines[i..]) == LinesFields(Fields([], []), lines)
        invariant emitted == old(emitted)
      {
        var line := lines[i];
        assert lines[i..][1..] == lines[i + 1..];
        if "event:" <= line {
          eventType := Trim(line[6..]);
        } else if "data:" <= line {
          dataRaw := dataRaw + Trim(line[5..]);
        }
      }
      EmissionsOfNone(parse);
      EmissionsOfOne(parse, Message(eventType, dataRaw));
      if dataRaw != [] {
        match parse(dataRaw)
        case Some(parsed) =>
          var ev := parsed;
          if ev.kind == "" && eventType != "" {
            ev := ev.(kind := eventType);
          }
          emitted := emitted + [ev];
        case None =>
      }
    }
  }

  function One(m: Option<Message>): seq<Message> {
    if m.Some? then [m.value] else []
  }

  lemma EmissionsOfNone(parse: Parser)
    ensures Emissions(parse, []) == []
  {
  }

  lemma EmissionsOfOne(parse: Parser, m: Message)
    ensures Emissions(parse, [m]) == Emission(parse, m)
  {
    assert [m][..0] == [];
  }

  lemma MessagesOfNone()
    ensures Messages([]) == []
  {
  }

  lemma {:induction false} IndexOfBlankAppend(s: string, t: string)
    requires IndexOfBlank(s).Some?
    ensures IndexOfBlank(s + t) == IndexOfBlank(s)
  {
    if !(s[0] == '\n' && s[1] == '\n') {
      IndexOfBlankAppend(s[1..], t);
      assert (s + t)[1..] == s[1..] + t;
    }
  }

  lemma ChunkFirst(s: string, first: string, rest: string)
    requires IndexOfBlank(s) == Some(|first|) && s[..|first|] == first && s[|first| + 2..] == rest
    ensures Chunks(s) == [first] + Chunks(rest) && Unfinished(s) == Unfinished(rest)
  {
  }

  lemma NoChunk(s: string)
    requires IndexOfBlank(s).None?
    ensures Chunks(s) == [] && Unfinished(s) == s
  {
  }

  /** Parsing a text and then some more is parsing it all at once. */
  lemma {:induction false} ParseAppend(s: string, t: string)
    ensures Chunks(s + t) == Chunks(s) + Chunks(Unfinished(s) + t)
    ensures Unfinished(s + t) == Unfinished(Unfinished(s) + t)
    decreases |s|
  {
    hide Chunks, Unfinished;
    var i := IndexOfBlank(s);
    if i.None? {
      NoChunk(s);
    } else {
      var first, rest := s[..i.value], s[i.value + 2..];
      IndexOfBlankAppend(s, t);
      hide IndexOfBlank;
      assert (s + t)[..i.value] == first && (s + t)[i.value + 2..] == rest + t;
      ChunkFirst(s, first, rest);
      ChunkFirst(s + t, first, rest + t);
      ParseAppend(rest, t);
      T.ConcatAssoc([first], Chunks(rest), Chunks(Unfinished(rest) + t));
    }
  }

  lemma {:induction false} MessagesConcat(a: seq<string>, b: seq<string>)
    ensures Messages(a + b) == Messages(a) + Messages(b)
  {
    if a == [] {
      assert a + b == b;
    } else {
      MessagesConcat(a[1..], b);
      assert (a + b)[1..] == a[1..] + b;
      var m := ChunkMessage(a[0]);
      T.ConcatAssoc(if m.Some? then [m.value] else [], Messages(a[1..]), Messages(b));
    }
  }

  datatype Client = Client(buffer: string, emitted: seq<Message>)

  /** The client's state after the reads, each one as `StreamClient.Read` treats it. */
  function AfterReads(received: seq<string>): Client {
    if received == [] then Client([], [])
    else
      var c := AfterReads(received[..|received| - 1]);
      var text := c.buffer + received[|received| - 1];
      Client(Unfinished(text), c.emitted + Messages(Chunks(text)))
  }

  function Concat(received: seq<string>): string {
    if received == [] then [] else Concat(received[..|received| - 1]) + received[|received| - 1]
  }

  /** For every text and every way to split it into reads. */
  lemma {:induction false} ReadsAreParse(received: seq<string>)
    ensures AfterReads(received) == Client(Unfinished(Concat(received)), Messages(Chunks(Concat(received))))
  {
    if received != [] {
      var before, last := Concat(received[..|received| - 1]), received[|received| - 1];
      ReadsAreParse(received[..|received| - 1]);
      ParseAppend(before, last);
      MessagesConcat(Chunks(before), Chunks(Unfinished(before) + last));
    }
  }

  // ---------- Frames ----------

  /** json.Marshal writes no raw newline, and no event type contains one. */
  predicate OneLine(item: Item) {
    match item
    case Event(kind, payload) => '\n' !in kind && '\n' !in payload
    case KeepAlive(stamp) => '\n' !in stamp
  }

  lemma {:induction false} IndexInLine(line: string, t: string)
    requires '\n' !in line
    ensures IndexOfBlank(line + t) == if IndexOfBlank(t).Some? then Some(|line| + IndexOfBlank(t).value) else None
  {
    if line == [] {
      assert line + t == t;
    } else {
      IndexInLine(line[1..], t);
      assert (line + t)[1..] == line[1..] + t;
      if |line + t| < 2 { assert |t| == 0; }
    }
  }

  lemma BlankAfterLine(line: string, t: string)
    requires '\n' !in line
    ensures IndexOfBlank(line + (BLANK_LINE + t)) == Some(|line|)
  {
    IndexInLine(line, BLANK_LINE + t);
  }

  lemma BlankAfterTwoLines(first: string, tail: string, u: string)
    requires '\n' !in first && tail != [] && tail[0] != '\n' && IndexOfBlank(tail).Some?
    requires u == ['\n'] + tail
    ensures IndexOfBlank(first + u) == Some(|first| + 1 + IndexOfBlank(tail).value)
  {
    BlankAfterNewline(tail);
    IndexInLine(first, u);
  }

  lemma BlankAfterNewline(t: string)
    requires t != [] && t[0] != '\n'
    ensures IndexOfBlank(['\n'] + t) == if IndexOfBlank(t).Some? then Some(1 + IndexOfBlank(t).value) else None
  {
    assert (['\n'] + t)[1..] == t;
  }

  /** The first blank line after a frame's beginning is the one that ends it. */
  lemma FrameEnd(item: Item, t: string)
    requires OneLine(item)
    ensures IndexOfBlank(Frame(item) + t) == Some(|Body(item)|)
  {
    match item
    case Event(kind, payload) =>
      var first, second := "event: " + kind, "data: " + payload;
      var tail := second + (BLANK_LINE + t);
      BlankAfterLine(second, t);
      assert tail[0] == 'd';
      BlankAfterTwoLines(first, tail, ['\n'] + tail);
      assert Frame(item) + t == first + (['\n'] + (second + (BLANK_LINE + t)));
    case KeepAlive(stamp) =>
      BlankAfterLine(": keepalive " + stamp, t);
      assert Frame(item) + t == (": keepalive " + stamp) + (BLANK_LINE + t);
  }

  lemma FrameParses(item: Item, t: string)
    requires OneLine(item)
    ensures Chunks(Frame(item) + t) == [Body(item)] + Chunks(t)
    ensures Unfinished(Frame(item) + t) == Unfinished(t)
  {
    FrameEnd(item, t);
    var s, k := Frame(item) + t, |Body(item)|;
    assert s[..k] == Body(item) && s[k + 2..] == t;
  }

  /** A frame cut short contains no blank line. */
  lemma CutFrameWaits(item: Item, k: nat)
    requires OneLine(item) && k < |Frame(item)|
    ensures IndexOfBlank(Frame(item)[..k]).None?
  {
    var cut, rest := Frame(item)[..k], Frame(item)[k..];
    FrameEnd(item, []);
    assert Frame(item) + [] == Frame(item) == cut + rest;
    if IndexOfBlank(cut).Some? { IndexOfBlankAppend(cut, rest); }
  }

  /** What a frame makes the client emit: nothing for a keepalive. */
  function Sent1(item: Item): seq<Message> {
    match item
    case Event(kind, payload) => if Trim(payload) == [] then [] else [Message(Trim(kind), Trim(payload))]
    case KeepAlive(_) => []
  }

  function Sent(items: seq<Item>): seq<Message> {
    if items == [] then [] else Sent1(items[0]) + Sent(items[1..])
  }

  lemma {:induction false} TrimLeadingSpace(s: string)
    ensures Trim([' '] + s) == Trim(s)
  {
    assert ([' '] + s)[1..] == s;
  }

  lemma EventLines(kind: string, payload: string)
    requires '\n' !in kind && '\n' !in payload
    ensures T.Split("event: " + kind + ['\n'] + ("data: " + payload)) == ["event: " + kind, "data: " + payload]
  {
    T.SplitLine("event: " + kind, "data: " + payload);
    T.SplitLine("data: " + payload, []);
  }

  lemma KindLine(f: Fields, kind: string)
    ensures LineFields(f, "event: " + kind) == f.(kind := Trim(kind))
  {
    assert ("event: " + kind)[6..] == [' '] + kind;
    TrimLeadingSpace(kind);
  }

  lemma DataLine(f: Fields, payload: string)
    ensures LineFields(f, "data: " + payload) == f.(data := f.data + Trim(payload))
  {
    var line := "data: " + payload;
    assert line[0] == 'd';
    assert line[5..] == [' '] + payload;
    TrimLeadingSpace(payload);
  }

  lemma CommentLine(f: Fields, stamp: string)
    ensures LineFields(f, ": keepalive " + stamp) == f
  {
    assert (": keepalive " + stamp)[0] == ':';
  }

  lemma OneLineFields(f: Fields, line: string)
    ensures LinesFields(f, [line]) == LineFields(f, line)
  {
    assert [line][1..] == [];
    assert LinesFields(LineFields(f, line), []) == LineFields(f, line);
  }

  lemma TwoLinesFields(f: Fields, first: string, second: string)
    ensures LinesFields(f, [first, second]) == LineFields(LineFields(f, first), second)
  {
    assert [first, second][1..] == [second];
    OneLineFields(LineFields(f, first), second);
  }

  /** What the parser makes of a frame is what the printer was given. */
  lemma BodyMessage(item: Item)
    requires OneLine(item)
    ensures Sent1(item) == if ChunkMessage(Body(item)).Some? then [ChunkMessage(Body(item)).value] else []
  {
    match item
    case Event(kind, payload) =>
      EventLines(kind, payload);
      TwoLinesFields(Fields([], []), "event: " + kind, "data: " + payload);
      KindLine(Fields([], []), kind);
      DataLine(Fields(Trim(kind), []), payload);
      assert [] + Trim(payload) == Trim(payload);
    case KeepAlive(stamp) =>
      T.SplitLine(": keepalive " + stamp, []);
      OneLineFields(Fields([], []), ": keepalive " + stamp);
      CommentLine(Fields([], []), stamp);
  }

  // ---------- Main results ----------

  lemma {:induction false} FramesParse(items: seq<Item>, t: string)
    requires forall item | item in items :: OneLine(item)
    ensures Messages(Chunks(Frames(items) + t)) == Sent(items) + Messages(Chunks(t))
    ensures Unfinished(Frames(items) + t) == Unfinished(t)
  {
    if items == [] {
      assert Frames(items) + t == t;
    } else {
      var rest := Frames(items[1..]) + t;
      FramesParse(items[1..], t);
      FrameParses(items[0], rest);
      BodyMessage(items[0]);
      T.ConcatAssoc(Frame(items[0]), Frames(items[1..]), t);
      MessagesCons(Body(items[0]), Chunks(rest));
      T.ConcatAssoc(Sent1(items[0]), Sent(items[1..]), Messages(Chunks(t)));
    }
  }

  lemma MessagesCons(chunk: string, chunks: seq<string>)
    ensures Messages([chunk] + chunks) ==
            (if ChunkMessage(chunk).Some? then [ChunkMessage(chunk).value] else []) + Messages(chunks)
  {
    assert ([chunk] + chunks)[1..] == chunks;
  }

  /** For any events interleaved with keepalives and any splitting of the written text into reads:
      when all of it has been read, the client has emitted exactly the events sent, in order, and
      its buffer is empty. */
  lemma RoundTrip(items: seq<Item>, received: seq<string>)
    requires forall item | item in items :: OneLine(item)
    requires Concat(received) == Frames(items)
    ensures AfterReads(received) == Client([], Sent(items))
  {
    ReadsAreParse(received);
    FramesParse(items, []);
    assert Frames(items) + [] == Frames(items) && Sent(items) + [] == Sent(items);
  }

  /** At any moment before, having read the first `k` frames and `cut` characters of the next, the
      client has emitted exactly the events of those frames and its buffer holds exactly the
      unfinished one. */
  lemma BufferIsUnfinishedFrame(items: seq<Item>, k: nat, cut: nat, received: seq<string>)
    requires (forall item | item in items :: OneLine(item)) && k < |items| && cut < |Frame(items[k])|
    requires Concat(received) == Frames(items[..k]) + Frame(items[k])[..cut]
    ensures AfterReads(received) == Client(Frame(items[k])[..cut], Sent(items[..k]))
  {
    ReadsAreParse(received);
    CutFrameWaits(items[k], cut);
    FramesParse(items[..k], Frame(items[k])[..cut]);
    assert Sent(items[..k]) + [] == Sent(items[..k]);
  }

  /** Every prefix of the written text is of that form, so `BufferIsUnfinishedFrame` and `RoundTrip`
      together describe the client at every moment. */
  lemma {:induction false} PrefixIsCutFrame(items: seq<Item>, text: string) returns (k: nat, cut: nat)
    requires text <= Frames(items)
    ensures k <= |items|
    ensures if k == |items| then text == Frames(items)
            else cut < |Frame(items[k])| && text == Frames(items[..k]) + Frame(items[k])[..cut]
  {
    if items == [] {
      k, cut := 0, 0;
    } else if |text| < |Frame(items[0])| {
      k, cut := 0, |text|;
      assert Frames(items[..0]) == [];
    } else {
      var n := |Frame(items[0])|;
      assert text[n..] <= Frames(items[1..]);
      k, cut := PrefixIsCutFrame(items[1..], text[n..]);
      k := k + 1;
      T.SplitAt(text, n);
      assert text[..n] == Frame(items[0]);
      if k < |items| {
        assert items[..k][1..] == items[1..][..k - 1];
        T.ConcatAssoc(Frame(items[0]), Frames(items[1..][..k - 1]), Frame(items[k])[..cut]);
      }
    }
  }

  // ---------- What was sent, as it was sent ----------

  /** Event types and JSON documents have no outer white space, and a document is never empty. */
  predicate Bare(item: Item) {
    item.Event? ==> item.payload != [] && NoOuterSpace(item.kind) && NoOuterSpace(item.payload)
  }

  predicate NoOuterSpace(s: string) {
    s == [] || (!IsJsSpace(s[0]) && !IsJsSpace(s[|s| - 1]))
  }

  /** The types and payloads of the events, without the keepalives. */
  function Events(items: seq<Item>): seq<Message> {
    if items == [] then []
    else (if items[0].Event? then [Message(items[0].kind, items[0].payload)] else []) + Events(items[1..])
  }

  lemma {:induction false} SentIsEvents(items: seq<Item>)
    requires forall item | item in items :: Bare(item)
    ensures Sent(items) == Events(items)
  {
    if items != [] {
      assert Bare(items[0]);
      SentIsEvents(items[1..]);
    }
  }

  /** For any events interleaved with keepalives and any splitting of the written text into reads:
      when all of it has been read, the client has emitted exactly the types and payloads sent, in
      order, and its buffer is empty. */
  lemma RoundTripExactly(items: seq<Item>, received: seq<string>)
    requires forall item | item in items :: OneLine(item) && Bare(item)
    requires Concat(received) == Frames(items)
    ensures AfterReads(received) == Client([], Events(items))
  {
    RoundTrip(items, received);
    SentIsEvents(items);
  }

  /** And at every moment before, whatever part of the text has been read: it has emitted exactly the
      events of the frames that are complete, and holds exactly the unfinished one. */
  lemma ReadsExactly(items: seq<Item>, received: seq<string>) returns (k: nat)
    requires forall item | item in items :: OneLine(item) && Bare(item)
    requires Concat(received) <= Frames(items)
    ensures k <= |items| && AfterReads(received).emitted == Events(items[..k])
    ensures Concat(received) == Frames(items[..k]) + AfterReads(received).buffer
    ensures if k == |items| then AfterReads(received).buffer == []
            else AfterReads(received).buffer <= Frame(items[k]) && AfterReads(received).buffer != Frame(items[k])
  {
    var cut;
    k, cut := PrefixIsCutFrame(items, Concat(received));
    hide Frame, Frames, Events, OneLine, Bare, AfterReads, Concat, Sent;
    if k == |items| {
      RoundTripExactly(items, received);
      assert items[..k] == items && Frames(items) + [] == Frames(items);
    } else {
      BufferIsUnfinishedFrame(items, k, cut, received);
      SentIsEvents(items[..k]);
    }
  }

  // ---------- From the gateway's events to the page's ----------

  /** What a connection is given to write. */
  datatype Write = Send(ev: RealtimeEvent) | Tick(stamp: string)

  /** The type goes into the frame and, with the rest, into the JSON document. */
  function ItemOf(encode: RealtimeEvent -> string, w: Write): Item {
    match w
    case Send(ev) => Event(ev.kind, encode(ev))
    case Tick(stamp) => KeepAlive(stamp)
  }

  function ItemsOf(encode: RealtimeEvent -> string, writes: seq<Write>): seq<Item> {
    if writes == [] then [] else [ItemOf(encode, writes[0])] + ItemsOf(encode, writes[1..])
  }

  function EventsOf(writes: seq<Write>): seq<RealtimeEvent> {
    if writes == [] then [] else (if writes[0].Send? then [writes[0].ev] else []) + EventsOf(writes[1..])
  }

  /** What is written fits the framing, and what is printed is parsed back. */
  predicate Fits(encode: RealtimeEvent -> string, parse: Parser, w: Write) {
    && OneLine(ItemOf(encode, w)) && Bare(ItemOf(encode, w))
    && (w.Send? ==> parse(encode(w.ev)) == Some(w.ev))
  }

  lemma {:induction false} ItemsFit(encode: RealtimeEvent -> string, parse: Parser, writes: seq<Write>)
    requires forall i | 0 <= i < |writes| :: Fits(encode, parse, writes[i])
    ensures forall item | item in ItemsOf(encode, writes) :: OneLine(item) && Bare(item)
  {
    if writes != [] {
      assert Fits(encode, parse, writes[0]);
      ItemsFit(encode, parse, writes[1..]);
    }
  }

  lemma EmittedBack(encode: RealtimeEvent -> string, parse: Parser, ev: RealtimeEvent)
    requires parse(encode(ev)) == Some(ev)
    ensures Emissions(parse, [Message(ev.kind, encode(ev))]) == [ev]
  {
    EmissionsOfOne(parse, Message(ev.kind, encode(ev)));
  }

  function MessageOf(encode: RealtimeEvent -> string, w: Write): seq<Message> {
    if w.Send? then [Message(w.ev.kind, encode(w.ev))] else []
  }

  lemma EventsNext(encode: RealtimeEvent -> string, w: Write, rest: seq<Write>)
    ensures Events(ItemsOf(encode, [w] + rest)) == MessageOf(encode, w) + Events(ItemsOf(encode, rest))
    ensures EventsOf([w] + rest) == (if w.Send? then [w.ev] else []) + EventsOf(rest)
  {
    assert ([w] + rest)[1..] == rest;
    var items := [ItemOf(encode, w)] + ItemsOf(encode, rest);
    assert items[1..] == ItemsOf(encode, rest);
  }

  lemma MessageArrives(encode: RealtimeEvent -> string, parse: Parser, w: Write)
    requires Fits(encode, parse, w)
    ensures Emissions(parse, MessageOf(encode, w)) == if w.Send? then [w.ev] else []
  {
    EmissionsOfNone(parse);
    if w.Send? { EmittedBack(encode, parse, w.ev); }
  }

  lemma {:induction false} EventsArrive(encode: RealtimeEvent -> string, parse: Parser, writes: seq<Write>)
    requires forall i | 0 <= i < |writes| :: Fits(encode, parse, writes[i])
    ensures Emissions(parse, Events(ItemsOf(encode, writes))) == EventsOf(writes)
  {
    EmissionsOfNone(parse);
    if writes != [] {
      hide Emissions, Events, ItemsOf, EventsOf, Fits, MessageOf;
      var w, rest := writes[0], writes[1..];
      assert writes == [w] + rest;
      EventsArrive(encode, parse, rest);
      EventsNext(encode, w, rest);
      MessageArrives(encode, parse, w);
      EmissionsConcat(parse, MessageOf(encode, w), Events(ItemsOf(encode, rest)));
    }
  }

  /** For any events interleaved with keepalives and any splitting of the written text into reads, the
      page gets exactly the events that the gateway sent, in order. */
  lemma DeliversExactly(
    encode: RealtimeEvent -> string, parse: Parser, writes: seq<Write>, received: seq<string>)
    requires forall i | 0 <= i < |writes| :: Fits(encode, parse, writes[i])
    requires Concat(received) == Frames(ItemsOf(encode, writes))
    ensures Emissions(parse, AfterReads(received).emitted) == EventsOf(writes) && AfterReads(received).buffer == []
  {
    ItemsFit(encode, parse, writes);
    RoundTripExactly(ItemsOf(encode, writes), received);
    EventsArrive(encode, parse, writes);
  }
}
