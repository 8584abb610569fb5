/** The frames that src/ai_api/proxy/responses.py and router.py yield, against the
    event stream parser of section 9.2.6 of the WHATWG HTML Living Standard. */
module Sse {
  import opened Common

  /** f"{name}: {value}\n" */
  function FieldText(name: string, value: string): string {
    name + ": " + value + "\n"
  }

  /** The type line only for a type that is set. */
  function TypeLine(eventType: Option<string>): string {
    if eventType.Some? && eventType.value != "" then FieldText("event", eventType.value) else ""
  }

  function Frame(eventType: Option<string>, data: string): string {
    TypeLine(eventType) + (FieldText("data", data) + "\n")
  }

  /** The text on the wire: no type line for a type that is missing or empty. */
  lemma FrameText(eventType: string, data: string)
    ensures eventType != "" ==>
      Frame(Some(eventType), data) == "event: " + eventType + "\n" + "data: " + data + "\n\n"
    ensures Frame(None, data) == "data: " + data + "\n\n" && Frame(Some(""), data) == "data: " + data + "\n\n"
  {
    assert ("data: " + data + "\n") + "\n" == "data: " + data + "\n\n";
    assert "event" + ": " == "event: " && "data" + ": " == "data: ";
    assert "" + ("data: " + data + "\n\n") == "data: " + data + "\n\n";
    var typeLine := "event: " + eventType + "\n";
    assert typeLine + ("data: " + data + "\n\n") == typeLine + "data: " + data + "\n\n";
  }

  /* ---------- The parser of the standard ---------- */

  datatype Message = Message(eventType: string, data: string)

  /** Buffers of the parser. The data buffer ends in a line feed for each data field. */
  datatype Parser = Parser(line: string, afterCr: bool, typeBuffer: string, dataBuffer: string, out: seq<Message>)

  const START := Parser("", false, "", "", [])

  function StripOneSpace(s: string): string {
    if s != "" && s[0] == ' ' then s[1..] else s
  }

  function Field(p: Parser, name: string, value: string): Parser {
    if name == "event" then p.(typeBuffer := value)
    else if name == "data" then p.(dataBuffer := p.dataBuffer + value + "\n")
    else p
  }

  /** An empty line dispatches. */
  function Dispatch(p: Parser): Parser {
    var cleared := p.(typeBuffer := "", dataBuffer := "");
    if p.dataBuffer == "" then cleared
    else
      var data := if p.dataBuffer[|p.dataBuffer| - 1] == '\n' then p.dataBuffer[..|p.dataBuffer| - 1] else p.dataBuffer;
      cleared.(out := p.out + [Message(if p.typeBuffer == "" then "message" else p.typeBuffer, data)])
  }

  function EndLine(p: Parser): Parser {
    var line := p.line;
    var q := p.(line := "");
    var k := IndexOf(line, ':');
    if line == "" then Dispatch(q)
    else if k == 0 then q
    else if k < |line| then Field(q, line[..k], StripOneSpace(line[k + 1..]))
    else Field(q, line, "")
  }

  /** Lines end in CR LF, LF or CR. */
  function Feed(p: Parser, c: char): Parser {
    if c == '\n' && p.afterCr then p.(afterCr := false)
    else if c == '\n' then EndLine(p)
    else if c == '\r' then EndLine(p).(afterCr := true)
    else p.(line := p.line + [c], afterCr := false)
  }

  function FeedAll(p: Parser, text: string): Parser {
    if text == "" then p else Feed(FeedAll(p, text[..|text| - 1]), text[|text| - 1])
  }

  /** What a client gets from a stream that ends here: an event without its empty line
      is not dispatched. */
  function Parse(text: string): seq<Message> {
    FeedAll(START, text).out
  }

  /* ---------- Feeding in pieces ---------- */

  lemma {:induction false} FeedAppend(p: Parser, a: string, b: string)
    ensures FeedAll(p, a + b) == FeedAll(FeedAll(p, a), b)
    decreases |b|
  {
    if b == "" {
      assert a + b == a;
    } else {
      var n := |b| - 1;
      assert (a + b)[..|a + b| - 1] == a + b[..n];
      FeedAppend(p, a, b[..n]);
    }
  }

  predicate OneLine(s: string) {
    '\n' !in s && '\r' !in s
  }

  lemma {:induction false} FeedLine(p: Parser, s: string)
    requires OneLine(s) && !p.afterCr
    ensures FeedAll(p, s) == p.(line := p.line + s)
  {
    if s == "" {
      assert p.line + s == p.line;
    } else {
      var n := |s| - 1;
      assert OneLine(s[..n]) && s[n] in s;
      FeedLine(p, s[..n]);
      assert p.line + s[..n] + [s[n]] == p.line + s by {
        assert s == s[..n] + [s[n]];
      }
    }
  }

  /** Between frames the parser is clean. */
  predicate Clean(p: Parser) {
    p.line == "" && !p.afterCr && p.typeBuffer == "" && p.dataBuffer == ""
  }

  lemma FeedWholeLine(p: Parser, s: string)
    requires OneLine(s) && p.line == "" && !p.afterCr
    ensures FeedAll(p, s + "\n") == EndLine(p.(line := s))
  {
    FeedLine(p, s);
    assert p.line + s == s;
    assert (s + "\n")[..|s|] == s;
  }

  lemma FieldLine(p: Parser, name: string, value: string)
    requires name in {"event", "data"} && p.afterCr == false
    ensures EndLine(p.(line := name + ": " + value)) == Field(p.(line := ""), name, value)
  {
    var line := name + ": " + value;
    assert line[|name|] == ':';
    IndexOfAt(line, ':', |name|);
    assert line[..|name|] == name;
    assert line[|name| + 1..] == " " + value;
    assert (" " + value)[1..] == value;
  }

  /* ---------- One frame ---------- */

  /** A type that is absent or empty leaves the default. */
  function MessageOf(eventType: Option<string>, data: string): Message {
    Message(if eventType.Some? && eventType.value != "" then eventType.value else "message", data)
  }

  predicate Sendable(eventType: Option<string>, data: string) {
    (eventType.Some? ==> OneLine(eventType.value)) && OneLine(data)
  }

  function TypeOf(eventType: Option<string>): string {
    if eventType.Some? then eventType.value else ""
  }

  lemma FeedField(p: Parser, name: string, value: string)
    requires p.line == "" && !p.afterCr && OneLine(value) && name in {"event", "data"}
    ensures FeedAll(p, FieldText(name, value)) == Field(p, name, value)
  {
    var s := name + ": " + value;
    assert OneLine(s);
    FeedWholeLine(p, s);
    FieldLine(p, name, value);
    assert p.(line := "") == p;
  }

  lemma FeedTypeLine(p: Parser, eventType: Option<string>)
    requires Clean(p) && (eventType.Some? ==> OneLine(eventType.value))
    ensures FeedAll(p, TypeLine(eventType)) == p.(typeBuffer := TypeOf(eventType))
  {
    if TypeOf(eventType) != "" {
      FeedField(p, "event", eventType.value);
    }
  }

  lemma FeedDataLine(p: Parser, data: string)
    requires p.line == "" && !p.afterCr && p.dataBuffer == "" && OneLine(data)
    ensures FeedAll(p, FieldText("data", data)) == p.(dataBuffer := data + "\n")
  {
    FeedField(p, "data", data);
    assert "" + data == data;
  }

  /** A whole frame adds its message and leaves the parser clean. */
  lemma FeedFrame(p: Parser, eventType: Option<string>, data: string)
    requires Clean(p) && Sendable(eventType, data)
    ensures FeedAll(p, Frame(eventType, data)) == p.(out := p.out + [MessageOf(eventType, data)])
  {
    var t, d := TypeLine(eventType), FieldText("data", data);
    FeedAppend(p, t, d + "\n");
    FeedTypeLine(p, eventType);
    var q := p.(typeBuffer := TypeOf(eventType));
    FeedAppend(q, d, "\n");
    FeedDataLine(q, data);
    var r := q.(dataBuffer := data + "\n");
    assert FeedAll(r, "\n") == EndLine(r) by {
      assert "\n"[..0] == "";
    }
    assert r.dataBuffer[..|data|] == data;
  }

  /* ---------- Main results ---------- */

  function Stream(events: seq<(Option<string>, string)>): string {
    if events == [] then "" else Stream(events[..|events| - 1]) + Frame(events[|events| - 1].0, events[|events| - 1].1)
  }

  function Messages(events: seq<(Option<string>, string)>): seq<Message> {
    if events == [] then []
    else Messages(events[..|events| - 1]) + [MessageOf(events[|events| - 1].0, events[|events| - 1].1)]
  }

  /** One message for each event, in order, with its data and its type; an event without
      a type is a "message". */
  lemma {:induction false} MessagesAt(events: seq<(Option<string>, string)>, i: nat)
    requires i < |events|
    ensures |Messages(events)| == |events| && Messages(events)[i] == MessageOf(events[i].0, events[i].1)
    ensures Messages(events)[i].data == events[i].1
    ensures Messages(events)[i].eventType ==
      if events[i].0.None? || events[i].0.value == "" then "message" else events[i].0.value
  {
    var front := events[..|events| - 1];
    if front == [] {
    } else {
      MessagesAt(front, if i < |front| then i else 0);
    }
  }

  predicate AllSendable(events: seq<(Option<string>, string)>) {
    forall i | 0 <= i < |events| :: Sendable(events[i].0, events[i].1)
  }

  lemma {:induction false} FeedStream(events: seq<(Option<string>, string)>)
    requires AllSendable(events)
    ensures FeedAll(START, Stream(events)) == START.(out := Messages(events))
  {
    if events == [] {
    } else {
      var front, last := events[..|events| - 1], events[|events| - 1];
      FeedStream(front);
      FeedAppend(START, Stream(front), Frame(last.0, last.1));
      FeedFrame(START.(out := Messages(front)), last.0, last.1);
    }
  }

  /** Parsing the frames of any sequence of events gives back exactly that sequence. */
  lemma RoundTrip(events: seq<(Option<string>, string)>)
    requires AllSendable(events)
    ensures Parse(Stream(events)) == Messages(events)
  {
    FeedStream(events);
  }

  lemma OutGrowsBy(p: Parser, c: char)
    ensures p.out <= Feed(p, c).out
  {
  }

  lemma {:induction false} OutGrows(p: Parser, text: string)
    ensures p.out <= FeedAll(p, text).out
  {
    if text == "" {
    } else {
      OutGrows(p, text[..|text| - 1]);
      OutGrowsBy(FeedAll(p, text[..|text| - 1]), text[|text| - 1]);
    }
  }

  /** A connection cut after any character shows a front part of the events, each
      whole: no cut makes the client see an event that was not sent. */
  lemma CutShowsFrontPart(events: seq<(Option<string>, string)>, n: nat)
    requires AllSendable(events) && n <= |Stream(events)|
    ensures Parse(Stream(events)[..n]) <= Messages(events)
  {
    var text := Stream(events);
    RoundTrip(events);
    assert text == text[..n] + text[n..];
    FeedAppend(START, text[..n], text[n..]);
    OutGrows(FeedAll(START, text[..n]), text[n..]);
  }

  /** An event is shown as soon as its frame is complete, whatever follows. */
  lemma CompleteFramesShow(events: seq<(Option<string>, string)>, rest: string)
    requires AllSendable(events)
    ensures Messages(events) <= Parse(Stream(events) + rest)
  {
    FeedStream(events);
    FeedAppend(START, Stream(events), rest);
    OutGrows(FeedAll(START, Stream(events)), rest);
  }

  /* ---------- Exactly which events survive ---------- */

  /** The characters of data in these messages. */
  function Weight(messages: seq<Message>): nat {
    if messages == [] then 0 else Weight(messages[..|messages| - 1]) + |messages[|messages| - 1].data|
  }

  lemma WeightOneMore(messages: seq<Message>, m: Message)
    ensures Weight(messages + [m]) == Weight(messages) + |m.data|
  {
    assert (messages + [m])[..|messages|] == messages;
  }

  /** All that the parser holds that can still become data. */
  function Held(p: Parser): nat {
    Weight(p.out) + (if p.dataBuffer == "" then 0 else |p.dataBuffer| - 1) + |p.line|
  }

  /** No buffer holds what ends a line, but for the line feeds that join data; and the
      data buffer, if not empty, ends in one. */
  predicate Tidy(p: Parser) {
    && OneLine(p.line) && OneLine(p.typeBuffer)
    && '\r' !in p.dataBuffer && (p.dataBuffer != "" ==> p.dataBuffer[|p.dataBuffer| - 1] == '\n')
    && forall m | m in p.out :: OneLine(m.eventType) && '\r' !in m.data
  }

  lemma DispatchHolds(p: Parser)
    requires Tidy(p) && p.line == ""
    ensures Tidy(Dispatch(p)) && Held(Dispatch(p)) == Held(p)
  {
    if p.dataBuffer != "" {
      WeightOneMore(p.out, Dispatch(p).out[|p.out|]);
    }
  }

  lemma FieldHolds(p: Parser, name: string, value: string)
    requires Tidy(p) && OneLine(value)
    ensures Tidy(Field(p, name, value))
    ensures Held(Field(p, name, value)) <= Held(p) + (if name == "data" then |value| + 1 else 0)
  {
  }

  /** The end of a line turns it into at most as much data, and a data line into less. */
  lemma EndLineHolds(p: Parser)
    requires Tidy(p)
    ensures Tidy(EndLine(p)) && Held(EndLine(p)) <= Held(p)
  {
    var line, q := p.line, p.(line := "");
    var k := IndexOf(line, ':');
    LineTaken(p);
    if line == "" {
      DispatchHolds(q);
    } else if k == 0 {
    } else if k < |line| {
      ValueFits(line, k);
      FieldHolds(q, line[..k], StripOneSpace(line[k + 1..]));
    } else {
      FieldHolds(q, line, "");
      assert line == "data" ==> |line| == 4;
    }
  }

  lemma LineTaken(p: Parser)
    requires Tidy(p)
    ensures Tidy(p.(line := "")) && Held(p) == Held(p.(line := "")) + |p.line|
  {
  }

  lemma ValueFits(line: string, k: nat)
    requires OneLine(line) && k < |line|
    ensures var value := StripOneSpace(line[k + 1..]);
      OneLine(value) && (line[..k] == "data" ==> |value| + 5 <= |line|)
  {
    assert |line[..k]| == k;
  }

  lemma FeedHolds(p: Parser, c: char)
    requires Tidy(p)
    ensures Tidy(Feed(p, c)) && Held(Feed(p, c)) <= Held(p) + 1
  {
    if c == '\n' && p.afterCr {
    } else if c == '\n' || c == '\r' {
      EndLineHolds(p);
    }
  }

  lemma {:induction false} FeedAllHolds(p: Parser, text: string)
    requires Tidy(p)
    ensures Tidy(FeedAll(p, text)) && Held(FeedAll(p, text)) <= Held(p) + |text|
  {
    if text == "" {
    } else {
      FeedAllHolds(p, text[..|text| - 1]);
      FeedHolds(FeedAll(p, text[..|text| - 1]), text[|text| - 1]);
    }
  }

  lemma {:induction false} NoCarriageReturn(p: Parser, text: string)
    requires !p.afterCr && '\r' !in text
    ensures !FeedAll(p, text).afterCr
  {
    if text == "" {
    } else {
      NoCarriageReturn(p, text[..|text| - 1]);
    }
  }

  /** Data that spans lines reaches the client shorter than it was sent. */
  lemma BrokenDataShrinks(p: Parser, eventType: Option<string>, data: string)
    requires Clean(p) && Tidy(p) && (eventType.Some? ==> OneLine(eventType.value))
    requires '\r' !in data && '\n' in data
    ensures var q := FeedAll(p, Frame(eventType, data));
      Clean(q) && Tidy(q) && Weight(q.out) < Weight(p.out) + |data|
  {
    var k := IndexOf(data, '\n');
    var front, tail := data[..k], data[k + 1..];
    FrameSplits(eventType, data, k);
    FeedAppend(p, TypeLine(eventType), FieldText("data", front) + (tail + "\n\n"));
    FeedTypeLine(p, eventType);
    var p1 := p.(typeBuffer := TypeOf(eventType));
    FeedAppend(p1, FieldText("data", front), tail + "\n\n");
    FeedDataLine(p1, front);
    var p2 := p1.(dataBuffer := front + "\n");
    FeedAppend(p2, tail, "\n\n");
    FeedAllHolds(p2, tail);
    NoCarriageReturn(p2, tail);
    TwoLineFeeds(FeedAll(p2, tail));
  }

  lemma FrameSplits(eventType: Option<string>, data: string, k: nat)
    requires k < |data| && data[k] == '\n'
    ensures Frame(eventType, data) ==
      TypeLine(eventType) + (FieldText("data", data[..k]) + (data[k + 1..] + "\n\n"))
  {
    assert data == data[..k] + ("\n" + data[k + 1..]);
  }

  lemma TwoLineFeeds(p: Parser)
    requires Tidy(p) && !p.afterCr
    ensures var q := FeedAll(p, "\n\n"); Clean(q) && Tidy(q) && Weight(q.out) <= Held(p)
  {
    assert "\n\n" == "\n" + "\n";
    FeedAppend(p, "\n", "\n");
    FeedLineFeed(p);
    EndLineHolds(p);
    var q := EndLine(p);
    FeedLineFeed(q);
    EmptyLineCleans(q);
    DispatchHolds(q);
  }

  lemma FeedLineFeed(p: Parser)
    requires !p.afterCr
    ensures FeedAll(p, "\n") == EndLine(p) && EndLine(p).line == "" && !EndLine(p).afterCr
  {
    assert "\n"[..0] == "";
  }

  lemma EmptyLineCleans(p: Parser)
    requires p.line == "" && !p.afterCr
    ensures EndLine(p) == Dispatch(p) && Clean(Dispatch(p)) && Held(Dispatch(p)) == Weight(Dispatch(p).out)
  {
  }

  /** Events whose type and data the parser could give back at all. */
  predicate Mild(events: seq<(Option<string>, string)>) {
    forall i | 0 <= i < |events| :: (events[i].0.Some? ==> OneLine(events[i].0.value)) && '\r' !in events[i].1
  }

  function DataLength(events: seq<(Option<string>, string)>): nat {
    if events == [] then 0 else DataLength(events[..|events| - 1]) + |events[|events| - 1].1|
  }

  lemma {:induction false} MessagesWeigh(events: seq<(Option<string>, string)>)
    ensures Weight(Messages(events)) == DataLength(events)
  {
    if events == [] {
    } else {
      MessagesWeigh(events[..|events| - 1]);
      WeightOneMore(Messages(events[..|events| - 1]), MessageOf(events[|events| - 1].0, events[|events| - 1].1));
    }
  }

  lemma FrameWeighs(p: Parser, eventType: Option<string>, data: string)
    requires Clean(p) && Tidy(p) && (eventType.Some? ==> OneLine(eventType.value)) && '\r' !in data
    ensures var q := FeedAll(p, Frame(eventType, data));
      && Clean(q) && Tidy(q) && Weight(q.out) <= Weight(p.out) + |data|
      && (!OneLine(data) ==> Weight(q.out) < Weight(p.out) + |data|)
  {
    if OneLine(data) {
      FeedFrame(p, eventType, data);
      OneMoreMessage(p, MessageOf(eventType, data));
    } else {
      BrokenDataShrinks(p, eventType, data);
    }
  }

  lemma OneMoreMessage(p: Parser, m: Message)
    requires Clean(p) && Tidy(p) && OneLine(m.eventType) && '\r' !in m.data
    ensures var q := p.(out := p.out + [m]);
      Clean(q) && Tidy(q) && Weight(q.out) == Weight(p.out) + |m.data|
  {
    WeightOneMore(p.out, m);
  }

  /** What the parser is left with after these events: nothing weighs more than it did,
      and anything that spans lines weighs less. */
  predicate Weighed(events: seq<(Option<string>, string)>, p: Parser) {
    && Clean(p) && Tidy(p) && Weight(p.out) <= DataLength(events)
    && (!AllSendable(events) ==> Weight(p.out) < DataLength(events))
  }

  lemma {:induction false} StreamWeighs(events: seq<(Option<string>, string)>)
    requires Mild(events)
    ensures Weighed(events, FeedAll(START, Stream(events)))
  {
    if events == [] {
    } else {
      var front, last := events[..|events| - 1], events[|events| - 1];
      StreamWeighs(front);
      var p := FeedAll(START, Stream(front));
      FeedAppend(START, Stream(front), Frame(last.0, last.1));
      FrameWeighs(p, last.0, last.1);
      OneMoreWeighed(events, p, FeedAll(p, Frame(last.0, last.1)));
    }
  }

  lemma OneMoreWeighed(events: seq<(Option<string>, string)>, p: Parser, q: Parser)
    requires events != [] && Mild(events) && Weighed(events[..|events| - 1], p)
    requires Clean(q) && Tidy(q) && Weight(q.out) <= Weight(p.out) + |events[|events| - 1].1|
    requires !OneLine(events[|events| - 1].1) ==> Weight(q.out) < Weight(p.out) + |events[|events| - 1].1|
    ensures Weighed(events, q)
  {
    if AllSendable(events[..|events| - 1]) && OneLine(events[|events| - 1].1) {
      assert AllSendable(events);
    }
  }

  /** A client gets exactly the events that were sent if and only if every type and all
      data keep to one line. */
  lemma RoundTripExactly(events: seq<(Option<string>, string)>)
    ensures Parse(Stream(events)) == Messages(events) <==> AllSendable(events)
  {
    if AllSendable(events) {
      RoundTrip(events);
    } else if Mild(events) {
      StreamWeighs(events);
      MessagesWeigh(events);
    } else {
      var i :| 0 <= i < |events| && !((events[i].0.Some? ==> OneLine(events[i].0.value)) && '\r' !in events[i].1);
      MessagesAt(events, i);
      FeedAllHolds(START, Stream(events));
      assert MessageOf(events[i].0, events[i].1) in Messages(events);
      assert MessageOf(events[i].0, events[i].1) !in Parse(Stream(events));
    }
  }

  /** A type that holds a line feed and a data field shows as another type with longer
      data. */
  lemma TypeSmugglesData(t: string, x: string, data: string)
    requires t != "" && OneLine(t) && OneLine(x) && OneLine(data)
    ensures Parse(Stream([(Some(t + "\ndata: " + x), data)])) == [Message(t, x + "\n" + data)]
  {
    var data1, data2 := FieldText("data", x), FieldText("data", data) + "\n";
    SmuggledStream(t, x, data);
    FeedAppend(START, FieldText("event", t), data1 + data2);
    FeedField(START, "event", t);
    var p := START.(typeBuffer := t);
    FeedAppend(p, data1, data2);
    FeedDataLine(p, x);
    SecondDataLine(p.(dataBuffer := x + "\n"), x, data);
  }

  lemma SmuggledStream(t: string, x: string, data: string)
    requires t != ""
    ensures Stream([(Some(t + "\ndata: " + x), data)]) ==
      FieldText("event", t) + (FieldText("data", x) + (FieldText("data", data) + "\n"))
  {
    var event: (Option<string>, string) := (Some(t + "\ndata: " + x), data);
    assert [event][..0] == [] && "" + Frame(event.0, data) == Frame(event.0, data);
    assert TypeLine(event.0) == FieldText("event", t) + FieldText("data", x);
  }

  lemma SecondDataLine(p: Parser, x: string, data: string)
    requires p.line == "" && !p.afterCr && p.typeBuffer != "" && p.out == []
    requires p.dataBuffer == x + "\n" && OneLine(data)
    ensures FeedAll(p, FieldText("data", data) + "\n").out == [Message(p.typeBuffer, x + "\n" + data)]
  {
    FeedAppend(p, FieldText("data", data), "\n");
    FeedField(p, "data", data);
    var q := Field(p, "data", data);
    FeedLineFeed(q);
    assert q.dataBuffer == (x + "\n" + data) + "\n";
  }
}
