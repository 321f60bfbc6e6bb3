/** Server-sent event framing (chat.py, `_sse_frame`, `_sse_trace_frame` and the frames
    of `generate`) against a decoder following section 9.2.6 of the WHATWG HTML Living
    Standard, "Interpreting an event stream". */
module Sse {
  import opened Wrappers

  const LF: char := '\n'
  const CR: char := '\r'

  // --- the printer -----------------------------------------------------------------

  /** `s.replace("\r\n", "\n")` */
  function ReplaceCrLf(s: string): string {
    if s == [] then []
    else if |s| >= 2 && s[0] == CR && s[1] == LF then [LF] + ReplaceCrLf(s[2..])
    else [s[0]] + ReplaceCrLf(s[1..])
  }

  /** `s.replace("\r", "\n")` */
  function ReplaceCr(s: string): string {
    if s == [] then [] else [if s[0] == CR then LF else s[0]] + ReplaceCr(s[1..])
  }

  function Normalize(s: string): string { ReplaceCr(ReplaceCrLf(s)) }

  /** `s.split("\n")` */
  function Split(s: string): (lines: seq<string>)
    ensures lines != []
  {
    if s == [] then [""]
    else if s[0] == LF then [""] + Split(s[1..])
    else
      var rest := Split(s[1..]);
      [[s[0]] + rest[0]] + rest[1..]
  }

  /** `"".join(f"data: {line}\n" for line in lines)` */
  function DataFields(lines: seq<string>): string {
    if lines == [] then "" else "data: " + lines[0] + "\n" + DataFields(lines[1..])
  }

  /** `_sse_frame` */
  function ChunkFrame(chunk: string): string { DataFields(Split(Normalize(chunk))) + "\n" }

  /** `_sse_trace_frame` and the other named frames. */
  function NamedFrame(name: string, payload: string): string {
    "event: " + name + "\ndata: " + payload + "\n\n"
  }

  const PING := ": ping\n\n"

  // --- the decoder -------------------------------------------------------------------

  /** Terminated lines of a stream; a line ends at CR LF, LF or CR, and an
      unterminated rest is discarded. */
  function StreamLines(s: string, line: string): seq<string> {
    if s == [] then []
    else if s[0] == CR && |s| >= 2 && s[1] == LF then [line] + StreamLines(s[2..], "")
    else if s[0] == LF || s[0] == CR then [line] + StreamLines(s[1..], "")
    else StreamLines(s[1..], line + [s[0]])
  }

  datatype Event = Event(kind: string, data: string)

  datatype Parser = Parser(data: string, kind: string, events: seq<Event>)

  function Colon(line: string): Option<nat> {
    if line == [] then None
    else if line[0] == ':' then Some(0)
    else match Colon(line[1..]) case None => None case Some(k) => Some(k + 1)
  }

  function Field(p: Parser, field: string, value: string): Parser {
    if field == "event" then p.(kind := value)
    else if field == "data" then p.(data := p.data + value + [LF])
    else p
  }

  function Dispatch(p: Parser): Parser {
    if p.data == "" then p.(kind := "")
    else
      var data := if p.data[|p.data| - 1] == LF then p.data[..|p.data| - 1] else p.data;
      Parser("", "", p.events + [Event(if p.kind == "" then "message" else p.kind, data)])
  }

  /** One line; the fields `id` and `retry` do not affect the events delivered here. */
  function ParseLine(p: Parser, line: string): Parser {
    if line == [] then Dispatch(p)
    else
      match Colon(line)
      case Some(k) =>
        if k == 0 || k >= |line| then p
        else
          var value := line[k + 1..];
          Field(p, line[..k], if value != [] && value[0] == ' ' then value[1..] else value)
      case None => Field(p, line, "")
  }

  function ParseLines(p: Parser, lines: seq<string>): Parser
    decreases |lines|
  {
    if lines == [] then p else ParseLines(ParseLine(p, lines[0]), lines[1..])
  }

  /** One leading byte order mark is dropped. */
  function Decode(stream: string): seq<Event> {
    var s := if stream != [] && stream[0] == '\U{FEFF}' then stream[1..] else stream;
    ParseLines(Parser("", "", []), StreamLines(s, "")).events
  }

  function Messages(events: seq<Event>): seq<string> {
    if events == [] then []
    else (if events[0].kind == "message" then [events[0].data] else []) + Messages(events[1..])
  }

  // --- line facts ------------------------------------------------------------------------

  ghost predicate OneLine(s: string) {
    forall i :: 0 <= i < |s| ==> s[i] != LF && s[i] != CR
  }

  /** A one-line text followed by LF is one line of the stream. */
  lemma {:induction false} LineThenRest(text: string, rest: string, line: string)
    requires OneLine(text)
    ensures StreamLines(text + "\n" + rest, line) == [line + text] + StreamLines(rest, "")
  {
    var s := text + "\n" + rest;
    if text == [] {
      assert s == "\n" + rest && s[1..] == rest && line + text == line;
    } else {
      assert s[1..] == text[1..] + "\n" + rest;
      LineThenRest(text[1..], rest, line + [text[0]]);
      assert line + [text[0]] + text[1..] == line + text;
    }
  }

  lemma {:induction false} NormalizedHasNoCr(s: string)
    ensures forall i :: 0 <= i < |ReplaceCr(s)| ==> ReplaceCr(s)[i] != CR
  {
    if s != [] {
      NormalizedHasNoCr(s[1..]);
    }
  }

  lemma {:induction false} SplitLinesAreLines(s: string)
    requires forall i :: 0 <= i < |s| ==> s[i] != CR
    ensures forall k :: 0 <= k < |Split(s)| ==> OneLine(Split(s)[k])
  {
    if s != [] {
      SplitLinesAreLines(s[1..]);
    }
  }

  /** The lines with their LFs back are the text and one final LF. */
  function Joined(lines: seq<string>): string {
    if lines == [] then "" else lines[0] + "\n" + Joined(lines[1..])
  }

  lemma JoinedCons(line: string, rest: seq<string>)
    ensures Joined([line] + rest) == line + "\n" + Joined(rest)
  {
    assert ([line] + rest)[1..] == rest;
  }

  lemma JoinedNil()
    ensures Joined([]) == ""
  {
  }

  lemma {:induction false} JoinOfSplit(s: string)
    ensures Joined(Split(s)) == s + "\n"
  {
    hide Joined;
    if s == [] {
      JoinedCons("", []);
      JoinedNil();
      assert [""] + [] == Split(s) && s + "\n" == "" + "\n" + "";
    } else {
      JoinOfSplit(s[1..]);
      var rest := Split(s[1..]);
      assert s == [s[0]] + s[1..];
      if s[0] == LF {
        JoinedCons("", rest);
      } else {
        JoinedCons(rest[0], rest[1..]);
        JoinedCons([s[0]] + rest[0], rest[1..]);
        assert rest == [rest[0]] + rest[1..];
        assert Joined(Split(s)) == [s[0]] + Joined(rest);
      }
    }
  }

  lemma {:induction false} ColonAfter(name: string, rest: string)
    requires (forall i :: 0 <= i < |name| ==> name[i] != ':') && rest != [] && rest[0] == ':'
    ensures Colon(name + rest) == Some(|name|)
  {
    if name == [] {
      assert name + rest == rest;
    } else {
      assert (name + rest)[1..] == name[1..] + rest;
      ColonAfter(name[1..], rest);
    }
  }

  lemma DataLine(p: Parser, text: string)
    ensures ParseLine(p, "data: " + text) == p.(data := p.data + text + [LF])
  {
    var line := "data: " + text;
    assert line == "data" + (": " + text);
    ColonAfter("data", ": " + text);
    assert line[..4] == "data" && line[5..] == " " + text && (" " + text)[1..] == text;
  }

  lemma EventLine(p: Parser, text: string)
    ensures ParseLine(p, "event: " + text) == p.(kind := text)
  {
    var line := "event: " + text;
    assert line == "event" + (": " + text);
    ColonAfter("event", ": " + text);
    assert line[..5] == "event" && line[6..] == " " + text && (" " + text)[1..] == text;
  }

  // --- frames ---------------------------------------------------------------------------

  /** The decoder between frames: empty buffers. */
  function Idle(events: seq<Event>): Parser { Parser("", "", events) }

  /** Reading a frame at an idle decoder delivers the events and leaves it idle, whatever follows. */
  ghost predicate Delivers(frame: string, events: seq<Event>) {
    forall before, rest ::
      ParseLines(Idle(before), StreamLines(frame + rest, ""))
      == ParseLines(Idle(before + events), StreamLines(rest, ""))
  }

  lemma {:induction false} DataFieldsParse(p: Parser, lines: seq<string>, rest: string)
    requires forall k :: 0 <= k < |lines| ==> OneLine(lines[k])
    ensures ParseLines(p, StreamLines(DataFields(lines) + rest, "")) ==
            ParseLines(p.(data := p.data + Joined(lines)), StreamLines(rest, ""))
    decreases |lines|
  {
    hide ParseLine, ParseLines, StreamLines, OneLine;
    if lines == [] {
      assert DataFields(lines) + rest == rest && p.data + Joined(lines) == p.data;
    } else {
      var tail := DataFields(lines[1..]) + rest;
      var q := p.(data := p.data + lines[0] + [LF]);
      DataIsOneLine(lines[0]);
      DataLine(p, lines[0]);
      FirstLine(p, "data: " + lines[0], tail);
      DataFieldsParse(q, lines[1..], rest);
      SameText(lines, rest, p.data);
    }
  }

  lemma SameText(lines: seq<string>, rest: string, data: string)
    requires lines != []
    ensures DataFields(lines) + rest == "data: " + lines[0] + "\n" + (DataFields(lines[1..]) + rest)
    ensures data + Joined(lines) == data + lines[0] + [LF] + Joined(lines[1..])
  {
  }

  lemma DataIsOneLine(text: string)
    requires OneLine(text)
    ensures OneLine("data: " + text) && OneLine("event: " + text)
  {
  }

  lemma BlankLine(p: Parser, rest: string)
    ensures ParseLines(p, StreamLines("\n" + rest, "")) == ParseLines(Dispatch(p), StreamLines(rest, ""))
  {
    assert "" + "\n" + rest == "\n" + rest;
    LineThenRest("", rest, "");
  }

  /** A chunk frame delivers one default message: the chunk with its line ends made LF. */
  lemma ChunkDelivered(chunk: string)
    ensures Delivers(ChunkFrame(chunk), [Event("message", Normalize(chunk))])
  {
    hide ParseLines, StreamLines, DataFields, Split, Normalize, Joined;
    var text := Normalize(chunk);
    var lines := Split(text);
    assert forall k :: 0 <= k < |lines| ==> OneLine(lines[k]) by { ChunkLines(chunk); }
    JoinOfSplit(text);
    forall before, rest
      ensures ParseLines(Idle(before), StreamLines(ChunkFrame(chunk) + rest, "")) ==
              ParseLines(Idle(before + [Event("message", text)]), StreamLines(rest, ""))
    {
      assert ChunkFrame(chunk) + rest == DataFields(lines) + ("\n" + rest);
      DataFieldsParse(Idle(before), lines, "\n" + rest);
      var p := Parser(text + "\n", "", before);
      assert "" + Joined(lines) == text + "\n";
      BlankLine(p, rest);
      assert p.data[..|p.data| - 1] == text;
      assert Dispatch(p) == Idle(before + [Event("message", text)]);
    }
  }

  lemma ChunkLines(chunk: string)
    ensures forall k :: 0 <= k < |Split(Normalize(chunk))| ==> OneLine(Split(Normalize(chunk))[k])
  {
    NormalizedHasNoCr(ReplaceCrLf(chunk));
    SplitLinesAreLines(Normalize(chunk));
  }

  /** A named frame delivers one event of its own kind. */
  lemma NamedDelivered(name: string, payload: string)
    requires OneLine(name) && OneLine(payload) && name != ""
    ensures Delivers(NamedFrame(name, payload), [Event(name, payload)])
  {
    hide ParseLines, ParseLine, StreamLines;
    forall before, rest
      ensures ParseLines(Idle(before), StreamLines(NamedFrame(name, payload) + rest, "")) ==
              ParseLines(Idle(before + [Event(name, payload)]), StreamLines(rest, ""))
    {
      var tail := ("data: " + payload) + "\n" + ("\n" + rest);
      DataIsOneLine(name);
      DataIsOneLine(payload);
      assert NamedFrame(name, payload) + rest == ("event: " + name) + "\n" + tail;
      FirstLine(Idle(before), "event: " + name, tail);
      EventLine(Idle(before), name);
      FirstLine(Parser("", name, before), "data: " + payload, "\n" + rest);
      DataLine(Parser("", name, before), payload);
      assert "" + payload + [LF] == payload + [LF];
      var p := Parser(payload + [LF], name, before);
      BlankLine(p, rest);
      assert p.data[..|p.data| - 1] == payload;
    }
  }

  lemma FirstLine(p: Parser, text: string, rest: string)
    requires OneLine(text)
    ensures ParseLines(p, StreamLines(text + "\n" + rest, "")) == ParseLines(ParseLine(p, text), StreamLines(rest, ""))
  {
    LineThenRest(text, rest, "");
    assert "" + text == text;
  }

  /** A ping is a comment: it delivers nothing. */
  lemma PingDelivered()
    ensures Delivers(PING, [])
  {
    hide ParseLines, StreamLines;
    forall before, rest
      ensures ParseLines(Idle(before), StreamLines(PING + rest, ""))
              == ParseLines(Idle(before + []), StreamLines(rest, ""))
    {
      assert PING + rest == ": ping" + "\n" + ("\n" + rest);
      FirstLine(Idle(before), ": ping", "\n" + rest);
      assert Colon(": ping") == Some(0);
      BlankLine(Idle(before), rest);
      assert before + [] == before;
    }
  }

  lemma DeliversConcat(a: string, b: string, xs: seq<Event>, ys: seq<Event>)
    requires Delivers(a, xs) && Delivers(b, ys)
    ensures Delivers(a + b, xs + ys)
  {
    hide ParseLines, StreamLines;
    forall before, rest
      ensures ParseLines(Idle(before), StreamLines(a + b + rest, "")) ==
              ParseLines(Idle(before + (xs + ys)), StreamLines(rest, ""))
    {
      assert a + b + rest == a + (b + rest);
      assert before + (xs + ys) == before + xs + ys;
    }
  }

  // --- the generator -------------------------------------------------------------------------

  const HEARTBEAT := ""
  const STREAM_ERROR := "[[STREAM_ERROR]]"

  /** What the service yields: text, or a named event that the request asked for or not. */
  datatype Item = Content(text: string) | Named(name: string, payload: string, wanted: bool)

  function ItemFrame(item: Item): string {
    match item
    case Named(name, payload, wanted) => if wanted then NamedFrame(name, payload) else ""
    case Content(text) =>
      if text == HEARTBEAT then PING
      else if text == STREAM_ERROR then "data: [STREAM_ERROR]\n\n"
      else ChunkFrame(text)
  }

  method Generate(items: seq<Item>) returns (stream: string)
    ensures stream == Stream(items) + "data: [DONE]\n\n"
  {
    stream := "";
    for i := 0 to |items|
      invariant stream == Stream(items[..i])
    {
      assert items[..i + 1][..i] == items[..i];
      stream := stream + ItemFrame(items[i]);
    }
    assert items[..|items|] == items;
    stream := stream + "data: [DONE]\n\n";
  }

  function Stream(items: seq<Item>): string {
    if items == [] then "" else Stream(items[..|items| - 1]) + ItemFrame(items[|items| - 1])
  }

  /** The events an item means to its reader. */
  function Meaning(item: Item): seq<Event> {
    match item
    case Named(name, payload, wanted) => if wanted then [Event(name, payload)] else []
    case Content(text) =>
      if text == HEARTBEAT then []
      else if text == STREAM_ERROR then [Event("message", "[STREAM_ERROR]")]
      else [Event("message", Normalize(text))]
  }

  function Meanings(items: seq<Item>): seq<Event> {
    if items == [] then [] else Meanings(items[..|items| - 1]) + Meaning(items[|items| - 1])
  }

  ghost predicate Printable(item: Item) {
    item.Named? ==> OneLine(item.name) && OneLine(item.payload) && item.name != ""
  }

  lemma PlainFrame(text: string)
    requires OneLine(text)
    ensures ChunkFrame(text) == "data: " + text + "\n\n" && Normalize(text) == text
  {
    PlainNormalize(text);
    PlainSplit(text);
    assert Split(text) == [text];
    assert DataFields([text]) == "data: " + text + "\n" + DataFields([]);
  }

  lemma {:induction false} PlainNormalize(text: string)
    requires OneLine(text)
    ensures ReplaceCrLf(text) == text && ReplaceCr(text) == text
  {
    if text != [] {
      PlainNormalize(text[1..]);
      assert text == [text[0]] + text[1..];
    }
  }

  lemma {:induction false} PlainSplit(text: string)
    requires OneLine(text)
    ensures Split(text) == [text]
  {
    if text != [] {
      PlainSplit(text[1..]);
      assert text == [text[0]] + text[1..];
    }
  }

  lemma ItemDelivered(item: Item)
    requires Printable(item)
    ensures Delivers(ItemFrame(item), Meaning(item))
  {
    hide ParseLines, StreamLines, ChunkFrame, NamedFrame, Normalize;
    match item
    case Named(name, payload, wanted) =>
      if wanted { NamedDelivered(name, payload); } else { NothingDelivered(); }
    case Content(text) =>
      if text == HEARTBEAT { PingDelivered(); }
      else if text == STREAM_ERROR {
        assert OneLine("[STREAM_ERROR]");
        PlainFrame("[STREAM_ERROR]");
        ChunkDelivered("[STREAM_ERROR]");
        assert "data: " + "[STREAM_ERROR]" + "\n\n" == "data: [STREAM_ERROR]\n\n";
      }
      else { ChunkDelivered(text); }
  }

  lemma NothingDelivered()
    ensures Delivers("", [])
  {
    hide ParseLines, StreamLines;
    forall before: seq<Event>, rest: string
      ensures ParseLines(Idle(before), StreamLines("" + rest, ""))
              == ParseLines(Idle(before + []), StreamLines(rest, ""))
    {
      assert "" + rest == rest && before + [] == before;
    }
  }

  lemma {:induction false} StreamDelivered(items: seq<Item>)
    requires forall i :: 0 <= i < |items| ==> Printable(items[i])
    ensures Delivers(Stream(items), Meanings(items))
  {
    hide Delivers, ItemFrame, Meaning;
    if items == [] {
      NothingDelivered();
    } else {
      StreamDelivered(items[..|items| - 1]);
      ItemDelivered(items[|items| - 1]);
      DeliversConcat(Stream(items[..|items| - 1]), ItemFrame(items[|items| - 1]),
                     Meanings(items[..|items| - 1]), Meaning(items[|items| - 1]));
    }
  }

  /** A stream never begins with a byte order mark. */
  lemma {:induction false} NoByteOrderMark(items: seq<Item>, rest: string)
    requires rest != [] && rest[0] != '\U{FEFF}'
    ensures Stream(items) + rest != [] && (Stream(items) + rest)[0] != '\U{FEFF}'
  {
    hide ItemFrame;
    if items == [] {
      assert Stream(items) + rest == rest;
    } else {
      var frame := ItemFrame(items[|items| - 1]);
      FrameStart(items[|items| - 1]);
      NoByteOrderMark(items[..|items| - 1], frame + rest);
      assert Stream(items) + rest == Stream(items[..|items| - 1]) + (frame + rest);
    }
  }

  lemma FrameStart(item: Item)
    ensures ItemFrame(item) == [] || ItemFrame(item)[0] != '\U{FEFF}'
  {
    hide Normalize, Split;
    if item.Content? {
      assert DataFields(Split(Normalize(item.text)))[0] == 'd';
    }
  }

  /** What a text delivers from the start is what it decodes to. */
  lemma DecodeDelivered(s: string, events: seq<Event>)
    requires Delivers(s, events) && s != [] && s[0] != '\U{FEFF}'
    ensures Decode(s) == events
  {
    hide ParseLines, StreamLines;
    assert s + "" == s && [] + events == events;
    EmptyRest(Idle(events));
    assert ParseLines(Idle([]), StreamLines(s + "", "")) == ParseLines(Idle([] + events), StreamLines("", ""));
  }

  lemma EmptyRest(p: Parser)
    ensures ParseLines(p, StreamLines("", "")) == p
  {
  }

  /** The final frame of every response. */
  lemma DoneDelivered()
    ensures Delivers("data: [DONE]\n\n", [Event("message", "[DONE]")])
  {
    hide Delivers, ChunkFrame, Normalize;
    assert OneLine("[DONE]");
    PlainFrame("[DONE]");
    ChunkDelivered("[DONE]");
    assert "data: " + "[DONE]" + "\n\n" == "data: [DONE]\n\n";
  }

  /** The whole response decodes to exactly what its items mean, in order, and a final
      done message: every text chunk comes back with CR LF and CR turned into LF. The
      empty text alone is not delivered, being the heartbeat. */
  lemma StreamRoundTrip(items: seq<Item>)
    requires forall i :: 0 <= i < |items| ==> Printable(items[i])
    ensures Decode(Stream(items) + "data: [DONE]\n\n") == Meanings(items) + [Event("message", "[DONE]")]
  {
    hide Delivers, Stream, Meanings, Decode, Printable;
    StreamDelivered(items);
    DoneDelivered();
    DeliversConcat(Stream(items), "data: [DONE]\n\n", Meanings(items), [Event("message", "[DONE]")]);
    NoByteOrderMark(items, "data: [DONE]\n\n");
    DecodeDelivered(Stream(items) + "data: [DONE]\n\n", Meanings(items) + [Event("message", "[DONE]")]);
  }

  /** Default messages of a stream of chunks, pings and traces: exactly the chunks. */
  function Chunks(items: seq<Item>): seq<string> {
    if items == [] then []
    else
      Chunks(items[..|items| - 1])
      + match items[|items| - 1]
        case Named(_, _, _) => []
        case Content(text) =>
          if text == HEARTBEAT then [] else if text == STREAM_ERROR then ["[STREAM_ERROR]"] else [Normalize(text)]
  }

  lemma {:induction false} MessagesConcat(a: seq<Event>, b: seq<Event>)
    ensures Messages(a + b) == Messages(a) + Messages(b)
  {
    if a == [] {
      assert a + b == b;
    } else {
      assert (a + b)[1..] == a[1..] + b;
      MessagesConcat(a[1..], b);
    }
  }

  lemma {:induction false} MessagesOfMeanings(items: seq<Item>)
    requires forall i :: 0 <= i < |items| && items[i].Named? ==> items[i].name != "message"
    ensures Messages(Meanings(items)) == Chunks(items)
  {
    hide Messages, Meaning, Normalize;
    if items != [] {
      MessagesOfMeanings(items[..|items| - 1]);
      MessagesConcat(Meanings(items[..|items| - 1]), Meaning(items[|items| - 1]));
      MessagesOfMeaning(items[|items| - 1]);
    } else {
      NoMessages();
    }
  }

  lemma NoMessages()
    ensures Messages([]) == []
  {
  }

  lemma MessagesOfMeaning(item: Item)
    requires item.Named? ==> item.name != "message"
    ensures Messages(Meaning(item)) ==
            match item
            case Named(_, _, _) => []
            case Content(text) =>
              if text == HEARTBEAT then [] else if text == STREAM_ERROR then ["[STREAM_ERROR]"] else [Normalize(text)]
  {
    hide Normalize;
    assert forall e :: Messages([e]) == (if e.kind == "message" then [e.data] else []) + Messages([]);
  }

  /** Consumers of default messages see the chunks alone, whatever named events are mixed in. */
  lemma ContentContract(items: seq<Item>)
    requires forall i :: 0 <= i < |items| ==> Printable(items[i]) && (items[i].Named? ==> items[i].name != "message")
    ensures Messages(Decode(Stream(items) + "data: [DONE]\n\n")) == Chunks(items) + ["[DONE]"]
  {
    hide Decode, Meanings, Stream, Chunks, Printable;
    StreamRoundTrip(items);
    MessagesOfMeanings(items);
    DoneMessage(Meanings(items));
  }

  lemma DoneMessage(events: seq<Event>)
    ensures Messages(events + [Event("message", "[DONE]")]) == Messages(events) + ["[DONE]"]
  {
    MessagesConcat(events, [Event("message", "[DONE]")]);
    assert Messages([Event("message", "[DONE]")]) == ["[DONE]"] + Messages([]);
  }

  /** What the service yields as text, with line ends made LF. */
  function Texts(items: seq<Item>): seq<string> {
    if items == [] then []
    else
      Texts(items[..|items| - 1])
      + match items[|items| - 1]
        case Named(_, _, _) => []
        case Content(text) => [Normalize(text)]
  }

  /** Neither of the two texts that mean something else to the generator. */
  ghost predicate Plain(item: Item) { item != Content("") && item != Content("[[STREAM_ERROR]]") }

  lemma {:induction false} ChunksAreTexts(items: seq<Item>)
    ensures |Chunks(items)| <= |Texts(items)|
    ensures Chunks(items) == Texts(items) <==> forall i :: 0 <= i < |items| ==> Plain(items[i])
  {
    hide Normalize;
    if items != [] {
      var k := |items| - 1;
      ChunksAreTexts(items[..k]);
      assert (forall i :: 0 <= i < |items| ==> Plain(items[i]))
             <==> Plain(items[k]) && forall i :: 0 <= i < k ==> Plain(items[..k][i]);
      match items[k]
      case Named(_, _, _) => assert Chunks(items) == Chunks(items[..k]) && Texts(items) == Texts(items[..k]);
      case Content(text) =>
        SameWithLast(Chunks(items[..k]), Texts(items[..k]), Normalize(text));
        if text == STREAM_ERROR {
          ErrorTextIsPlain();
          OtherLast(Chunks(items[..k]), Texts(items[..k]), "[STREAM_ERROR]", STREAM_ERROR);
        }
    }
  }

  lemma SameWithLast(a: seq<string>, b: seq<string>, last: string)
    ensures a + [last] == b + [last] <==> a == b
  {
    if a + [last] == b + [last] {
      assert |a| == |b|;
      assert a == (a + [last])[..|a|] && b == (b + [last])[..|b|];
    }
  }

  lemma OtherLast(a: seq<string>, b: seq<string>, x: string, y: string)
    requires |x| != |y|
    ensures a + [x] != b + [y]
  {
    assert |a| == |b| ==> (a + [x])[|a|] != (b + [y])[|b|];
  }

  lemma ErrorTextIsPlain()
    ensures Normalize(STREAM_ERROR) == STREAM_ERROR
  {
    hide Normalize;
    PlainFrame(STREAM_ERROR);
  }

  /** The default messages are every text the service yielded, exactly unless one of them
      is the heartbeat's or the stream error's. */
  lemma TextsDeliveredExactly(items: seq<Item>)
    requires forall i :: 0 <= i < |items| ==> Printable(items[i]) && (items[i].Named? ==> items[i].name != "message")
    ensures Messages(Decode(Stream(items) + "data: [DONE]\n\n")) == Texts(items) + ["[DONE]"]
            <==> forall i :: 0 <= i < |items| ==> Plain(items[i])
  {
    hide Decode, Stream, Chunks, Texts, Printable, Plain;
    ContentContract(items);
    ChunksAreTexts(items);
    SameWithLast(Chunks(items), Texts(items), "[DONE]");
  }

  /** One chunk frame alone, for every chunk, empty and newline-only ones included. */
  lemma FrameRoundTrip(chunk: string)
    ensures Decode(ChunkFrame(chunk)) == [Event("message", Normalize(chunk))]
  {
    hide Delivers, Normalize, Split;
    ChunkDelivered(chunk);
    assert DataFields(Split(Normalize(chunk)))[0] == 'd';
    DecodeDelivered(ChunkFrame(chunk), [Event("message", Normalize(chunk))]);
  }

  // --- normalization -------------------------------------------------------------------------

  /** What the two replacements do together: CR LF and CR each become one LF, all else stays. */
  function LineEndsToLf(s: string): string {
    if s == [] then []
    else if s[0] == CR then [LF] + LineEndsToLf(if |s| >= 2 && s[1] == LF then s[2..] else s[1..])
    else [s[0]] + LineEndsToLf(s[1..])
  }

  lemma {:induction false} NormalizeMeans(s: string)
    ensures Normalize(s) == LineEndsToLf(s)
  {
    if s != [] {
      if |s| >= 2 && s[0] == CR && s[1] == LF {
        NormalizeMeans(s[2..]);
        assert ([LF] + ReplaceCrLf(s[2..]))[1..] == ReplaceCrLf(s[2..]);
      } else {
        NormalizeMeans(s[1..]);
        assert ([s[0]] + ReplaceCrLf(s[1..]))[1..] == ReplaceCrLf(s[1..]);
      }
    }
  }
}
