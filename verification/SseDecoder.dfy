/**
 The order event stream decoder (iter_sse_events in src/benchmarkservice/sse.py; WHATWG HTML Living
 Standard, section 9.2.6 "Interpreting an event stream").

 Lines are text: decoding their UTF-8 is not modelled. Two differences from the standard are kept:
 lines end at LF only, and an empty event field makes the event type empty instead of "message".
 */
module SseDecoder {
  import opened Options

  datatype ServerSentEvent = ServerSentEvent(event: string, data: string, eventId: Option<string>)

  datatype State = State(eventType: string, data: seq<string>, lastEventId: Option<string>, firstLine: bool)

  const INITIAL := State("message", [], None, true)

  const BYTE_ORDER_MARK := '\U{FEFF}'

  /** line.rstrip("\r\n") */
  function RStrip(line: string): string {
    if line != "" && (line[|line| - 1] == '\r' || line[|line| - 1] == '\n') then RStrip(line[..|line| - 1]) else line
  }

  function StripLine(first: bool, raw: string): string {
    var line := RStrip(raw);
    if first && line != "" && line[0] == BYTE_ORDER_MARK then line[1..] else line
  }

  /** The position of the first `c`, or the length. */
  function IndexOf(s: string, c: char): (i: nat)
    ensures i <= |s| && c !in s[..i] && (i < |s| ==> s[i] == c)
  {
    if s == "" || s[0] == c then 0 else 1 + IndexOf(s[1..], c)
  }

  /** The field name and the value of a line: the value starts after the first colon and one
      optional space. */
  function FieldOf(line: string): (string, string) {
    var i := IndexOf(line, ':');
    if i == |line| then (line, "")
    else
      var value := line[i + 1..];
      (line[..i], if value != "" && value[0] == ' ' then value[1..] else value)
  }

  function JoinData(data: seq<string>): string {
    if data == [] then "" else if |data| == 1 then data[0] else data[0] + "\n" + JoinData(data[1..])
  }

  function Dispatch(state: State): seq<ServerSentEvent> {
    if state.data == [] then [] else [ServerSentEvent(state.eventType, JoinData(state.data), state.lastEventId)]
  }

  function ApplyField(state: State, name: string, value: string): State {
    if name == "event" then state.(eventType := value)
    else if name == "data" then state.(data := state.data + [value])
    else if name == "id" && '\0' !in value then state.(lastEventId := Some(value))
    else state
  }

  /** One line: the state after it and the event it dispatches, if any. */
  function Step(state: State, raw: string): (State, seq<ServerSentEvent>) {
    var line := StripLine(state.firstLine, raw);
    var next := state.(firstLine := false);
    if line == "" then (next.(eventType := "message", data := []), Dispatch(state))
    else if line[0] == ':' then (next, [])
    else (ApplyField(next, FieldOf(line).0, FieldOf(line).1), [])
  }

  function Decode(state: State, lines: seq<string>): (State, seq<ServerSentEvent>)
    decreases |lines|
  {
    if lines == [] then (state, [])
    else
      var (next, events) := Step(state, lines[0]);
      var (last, more) := Decode(next, lines[1..]);
      (last, events + more)
  }

  lemma DecodeCons(state: State, line: string, rest: seq<string>)
    ensures Decode(state, [line] + rest).0 == Decode(Step(state, line).0, rest).0
    ensures Decode(state, [line] + rest).1 == Step(state, line).1 + Decode(Step(state, line).0, rest).1
  {
    assert ([line] + rest)[1..] == rest;
  }

  /** One round of the loop of iter_sse_events. */
  method NextLine(state: State, raw: string) returns (next: State, yielded: seq<ServerSentEvent>)
    ensures (next, yielded) == Step(state, raw)
  {
    var eventType, data, lastEventId := state.eventType, state.data, state.lastEventId;
    yielded := [];
    var line := RStrip(raw);
    if state.firstLine && line != "" && line[0] == BYTE_ORDER_MARK {
      line := line[1..];
    }
    if line == "" {
      if data != [] {
        yielded := [ServerSentEvent(eventType, JoinData(data), lastEventId)];
      }
      eventType := "message";
      data := [];
    } else if line[0] != ':' {
      var (name, value) := FieldOf(line);
      if name == "event" {
        eventType := value;
      } else if name == "data" {
        data := data + [value];
      } else if name == "id" && '\0' !in value {
        lastEventId := Some(value);
      }
    }
    next := State(eventType, data, lastEventId, false);
  }

  /** iter_sse_events, its events collected. */
  method IterSseEvents(lines: seq<string>) returns (events: seq<ServerSentEvent>)
    ensures events == Decode(INITIAL, lines).1
  {
    var state := INITIAL;
    events := [];
    assert lines[0..] == lines;
    for i := 0 to |lines|
      invariant Decode(INITIAL, lines).1 == events + Decode(state, lines[i..]).1
    {
      assert lines[i..] == [lines[i]] + lines[i + 1..];
      DecodeCons(state, lines[i], lines[i + 1..]);
      var next, yielded := NextLine(state, lines[i]);
      assert events + (yielded + Decode(next, lines[i + 1..]).1) == events + yielded + Decode(next, lines[i + 1..]).1;
      state := next;
      events := events + yielded;
    }
  }

  lemma Associative(a: seq<ServerSentEvent>, b: seq<ServerSentEvent>, c: seq<ServerSentEvent>)
    ensures a + (b + c) == a + b + c
  {
  }

  lemma {:induction false} DecodeConcat(state: State, a: seq<string>, b: seq<string>)
    ensures var (middle, first) := Decode(state, a); var (last, second) := Decode(middle, b);
            Decode(state, a + b) == (last, first + second)
    decreases |a|
  {
    if a == [] {
      assert a + b == b;
      assert [] + Decode(state, b).1 == Decode(state, b).1;
    } else {
      var next, rest := Step(state, a[0]), a[1..];
      assert a == [a[0]] + rest && a + b == [a[0]] + (rest + b);
      DecodeCons(state, a[0], rest);
      DecodeCons(state, a[0], rest + b);
      DecodeConcat(next.0, rest, b);
      Associative(next.1, Decode(next.0, rest).1, Decode(Decode(next.0, rest).0, b).1);
    }
  }

  // ----- A specification encoder -----

  /** What a server sends: an event type, at least one data line, and an ID if it sets a new one. */
  datatype Sent = Sent(event: string, data: seq<string>, id: Option<string>)

  predicate OneLine(s: string) {
    '\n' !in s && (s == "" || s[|s| - 1] != '\r')
  }

  predicate CanSend(sent: Sent) {
    && OneLine(sent.event)
    && sent.data != [] && (forall i :: 0 <= i < |sent.data| ==> OneLine(sent.data[i]))
    && (sent.id.Some? ==> OneLine(sent.id.value) && '\0' !in sent.id.value)
  }

  function FieldText(name: string, value: string): string {
    name + ": " + value
  }

  function DataLines(data: seq<string>): seq<string> {
    seq(|data|, i requires 0 <= i < |data| => FieldText("data", data[i]))
  }

  function IdLines(sent: Sent): seq<string> {
    if sent.id.Some? then [FieldText("id", sent.id.value)] else []
  }

  function EventLines(sent: Sent): seq<string> {
    if sent.event != "message" then [FieldText("event", sent.event)] else []
  }

  function EncodeEvent(sent: Sent): seq<string> {
    Fields(sent) + [""]
  }

  function Encode(events: seq<Sent>): seq<string>
    decreases |events|
  {
    if events == [] then [] else EncodeEvent(events[0]) + Encode(events[1..])
  }

  function Carried(sent: Sent, lastEventId: Option<string>): Option<string> {
    if sent.id.Some? then sent.id else lastEventId
  }

  /** What is to be received: the last event ID carries over to later events. */
  function Received(events: seq<Sent>, lastEventId: Option<string>): seq<ServerSentEvent>
    decreases |events|
  {
    if events == [] then []
    else
      var id := Carried(events[0], lastEventId);
      [ServerSentEvent(events[0].event, JoinData(events[0].data), id)] + Received(events[1..], id)
  }

  function LastId(events: seq<Sent>, lastEventId: Option<string>): Option<string>
    decreases |events|
  {
    if events == [] then lastEventId else LastId(events[1..], Carried(events[0], lastEventId))
  }

  function Between(lastEventId: Option<string>): State {
    State("message", [], lastEventId, false)
  }

  lemma StripClean(line: string)
    requires OneLine(line)
    ensures RStrip(line) == line
  {
  }

  lemma {:induction false} FirstAt(s: string, c: char, k: nat)
    requires k < |s| && s[k] == c && c !in s[..k]
    ensures IndexOf(s, c) == k
    decreases k
  {
    if k > 0 {
      assert s[0] == s[..k][0];
      assert s[1..][..k - 1] == s[..k][1..];
      FirstAt(s[1..], c, k - 1);
    }
  }

  lemma FieldLine(name: string, value: string)
    requires ':' !in name
    ensures FieldOf(FieldText(name, value)) == (name, value)
  {
    var line := FieldText(name, value);
    assert line[..|name|] == name;
    FirstAt(line, ':', |name|);
    assert line[|name| + 1..] == " " + value;
    assert (" " + value)[1..] == value;
  }

  /** A name: value line has the effect of its field. */
  lemma FieldStep(state: State, name: string, value: string)
    requires !state.firstLine && name != "" && ':' !in name && OneLine(value) && '\n' !in name
    ensures Step(state, FieldText(name, value)) == (ApplyField(state, name, value), [])
  {
    var line := FieldText(name, value);
    assert line[0] == name[0];
    assert OneLine(line) by {
      assert line[|line| - 1] == if value == "" then ' ' else value[|value| - 1];
    }
    StripClean(line);
    FieldLine(name, value);
  }

  /** Lines that dispatch nothing, put before others. */
  lemma DecodeSilent(state: State, a: seq<string>, middle: State, b: seq<string>)
    requires Decode(state, a) == (middle, [])
    ensures Decode(state, a + b) == Decode(middle, b)
  {
    DecodeConcat(state, a, b);
    assert [] + Decode(middle, b).1 == Decode(middle, b).1;
  }

  lemma DecodeOne(state: State, line: string)
    ensures Decode(state, [line]) == Step(state, line)
  {
    assert [line][1..] == [];
    assert Step(state, line).1 + [] == Step(state, line).1;
  }

  function WithData(state: State, data: seq<string>): State {
    state.(data := state.data + data)
  }

  lemma WithMoreData(state: State, data: seq<string>, value: string)
    ensures WithData(WithData(state, data), [value]) == WithData(state, data + [value])
  {
    assert state.data + data + [value] == state.data + (data + [value]);
  }

  lemma OneDataLine(state: State, value: string)
    requires !state.firstLine && OneLine(value)
    ensures Decode(state, [FieldText("data", value)]) == (WithData(state, [value]), [])
  {
    FieldStep(state, "data", value);
    DecodeOne(state, FieldText("data", value));
  }

  lemma DecodeOneMore(state: State, lines: seq<string>, data: seq<string>, value: string)
    requires !state.firstLine && Decode(state, lines) == (WithData(state, data), []) && OneLine(value)
    ensures Decode(state, lines + [FieldText("data", value)]) == (WithData(state, data + [value]), [])
  {
    DecodeSilent(state, lines, WithData(state, data), [FieldText("data", value)]);
    OneDataLine(WithData(state, data), value);
    WithMoreData(state, data, value);
  }

  lemma DataLinesSnoc(data: seq<string>)
    requires data != []
    ensures DataLines(data) == DataLines(data[..|data| - 1]) + [FieldText("data", data[|data| - 1])]
  {
  }

  lemma {:induction false} DecodeDataLines(state: State, data: seq<string>, n: nat)
    requires !state.firstLine && n <= |data| && forall i :: 0 <= i < |data| ==> OneLine(data[i])
    ensures Decode(state, DataLines(data[..n])) == (WithData(state, data[..n]), [])
    decreases n
  {
    if n == 0 {
      assert state.data + [] == state.data;
    } else {
      DecodeDataLines(state, data, n - 1);
      assert data[..n][..n - 1] == data[..n - 1];
      DataLinesSnoc(data[..n]);
      DecodeOneMore(state, DataLines(data[..n - 1]), data[..n - 1], data[n - 1]);
      assert data[..n - 1] + [data[n - 1]] == data[..n];
    }
  }

  lemma DecodeIdLines(sent: Sent, state: State)
    requires CanSend(sent) && !state.firstLine
    ensures Decode(state, IdLines(sent))
        == (state.(lastEventId := if sent.id.Some? then sent.id else state.lastEventId), [])
  {
    if sent.id.Some? {
      FieldStep(state, "id", sent.id.value);
      DecodeOne(state, FieldText("id", sent.id.value));
    }
  }

  lemma DecodeEventLines(sent: Sent, state: State)
    requires CanSend(sent) && !state.firstLine && state.eventType == "message"
    ensures Decode(state, EventLines(sent)) == (state.(eventType := sent.event), [])
  {
    if sent.event != "message" {
      FieldStep(state, "event", sent.event);
      DecodeOne(state, FieldText("event", sent.event));
    }
  }

  lemma BlankStep(state: State)
    requires !state.firstLine
    ensures Decode(state, [""]) == (state.(eventType := "message", data := []), Dispatch(state))
  {
    DecodeOne(state, "");
  }

  function Fields(sent: Sent): seq<string> {
    IdLines(sent) + (EventLines(sent) + DataLines(sent.data))
  }

  lemma DecodeFieldLines(sent: Sent, lastEventId: Option<string>)
    requires CanSend(sent)
    ensures Decode(Between(lastEventId), Fields(sent))
        == (State(sent.event, sent.data, Carried(sent, lastEventId), false), [])
  {
    var s0 := Between(lastEventId);
    var s1 := Between(Carried(sent, lastEventId));
    var s2 := s1.(eventType := sent.event);
    DecodeIdLines(sent, s0);
    DecodeSilent(s0, IdLines(sent), s1, EventLines(sent) + DataLines(sent.data));
    DecodeEventLines(sent, s1);
    DecodeSilent(s1, EventLines(sent), s2, DataLines(sent.data));
    DecodeDataLines(s2, sent.data, |sent.data|);
    assert sent.data[..|sent.data|] == sent.data == [] + sent.data;
  }

  lemma DecodeEvent(sent: Sent, lastEventId: Option<string>)
    requires CanSend(sent)
    ensures Decode(Between(lastEventId), EncodeEvent(sent))
         == (Between(Carried(sent, lastEventId)),
             [ServerSentEvent(sent.event, JoinData(sent.data), Carried(sent, lastEventId))])
  {
    var full := State(sent.event, sent.data, Carried(sent, lastEventId), false);
    DecodeFieldLines(sent, lastEventId);
    DecodeSilent(Between(lastEventId), Fields(sent), full, [""]);
    BlankStep(full);
  }

  lemma {:induction false} DecodeEncoded(events: seq<Sent>, lastEventId: Option<string>)
    requires forall i :: 0 <= i < |events| ==> CanSend(events[i])
    ensures Decode(Between(lastEventId), Encode(events))
        == (Between(LastId(events, lastEventId)), Received(events, lastEventId))
    decreases |events|
  {
    if events != [] {
      var id := Carried(events[0], lastEventId);
      DecodeEvent(events[0], lastEventId);
      DecodeEncoded(events[1..], id);
      DecodeConcat(Between(lastEventId), EncodeEvent(events[0]), Encode(events[1..]));
    }
  }

  // ----- Comments, line ends, byte order mark, end of stream -----

  predicate IsComment(line: string) {
    line != "" && line[0] == ':'
  }

  function WithoutComments(lines: seq<string>): seq<string>
    decreases |lines|
  {
    if lines == [] then []
    else (if IsComment(lines[0]) then [] else [lines[0]]) + WithoutComments(lines[1..])
  }

  lemma CommentStep(state: State, line: string)
    requires IsComment(line) && !state.firstLine
    ensures Step(state, line) == (state, [])
  {
    CommentStrips(line);
  }

  lemma {:induction false} CommentStrips(line: string)
    requires IsComment(line)
    ensures IsComment(RStrip(line))
    decreases |line|
  {
    if |line| > 1 && (line[|line| - 1] == '\r' || line[|line| - 1] == '\n') {
      CommentStrips(line[..|line| - 1]);
    }
  }

  /** Comment lines may be inserted anywhere. */
  lemma {:induction false} CommentsAreIgnored(state: State, lines: seq<string>)
    requires !state.firstLine
    ensures Decode(state, lines) == Decode(state, WithoutComments(lines))
    decreases |lines|
  {
    if lines != [] {
      var rest := WithoutComments(lines[1..]);
      if IsComment(lines[0]) {
        CommentStep(state, lines[0]);
        CommentsAreIgnored(state, lines[1..]);
        assert [] + rest == rest;
        assert [] + Decode(state, lines[1..]).1 == Decode(state, lines[1..]).1;
      } else {
        CommentsAreIgnored(Step(state, lines[0]).0, lines[1..]);
        assert ([lines[0]] + rest)[1..] == rest;
      }
    }
  }

  /** Only a byte order mark makes the first line special; without one the flag does not matter. */
  lemma FirstLineFlag(state: State, lines: seq<string>)
    requires lines != [] && !Marked(lines[0])
    ensures Decode(state.(firstLine := true), lines) == Decode(state.(firstLine := false), lines)
  {
    StripKeepsStart(lines[0]);
  }

  predicate Marked(line: string) {
    line != "" && line[0] == BYTE_ORDER_MARK
  }

  lemma {:induction false} StripKeepsStart(line: string)
    ensures RStrip(line) <= line
    decreases |line|
  {
    if line != "" {
      StripKeepsStart(line[..|line| - 1]);
    }
  }

  lemma {:induction false} StripMarked(line: string)
    ensures RStrip([BYTE_ORDER_MARK] + line) == [BYTE_ORDER_MARK] + RStrip(line)
    decreases |line|
  {
    var marked := [BYTE_ORDER_MARK] + line;
    if line == "" {
      assert marked == [BYTE_ORDER_MARK];
    } else {
      assert marked[|marked| - 1] == line[|line| - 1];
      assert marked[..|marked| - 1] == [BYTE_ORDER_MARK] + line[..|line| - 1];
      StripMarked(line[..|line| - 1]);
    }
  }

  /** One byte order mark at the start of the stream is skipped. */
  lemma ByteOrderMarkIsSkipped(state: State, line: string, rest: seq<string>)
    ensures Decode(state.(firstLine := true), [[BYTE_ORDER_MARK] + line] + rest)
        == Decode(state.(firstLine := false), [line] + rest)
  {
    var marked := [BYTE_ORDER_MARK] + line;
    StripMarked(line);
    assert RStrip(marked)[1..] == RStrip(line);
    assert ([marked] + rest)[1..] == rest == ([line] + rest)[1..];
  }

  /** Line ends as the transport leaves them. Only the last line may lack its LF, or all of its end. */
  datatype LineEnd = Lf | CrLf | CrOnly | CutOff

  function EndOf(end: LineEnd): string {
    match end
    case Lf => "\n"
    case CrLf => "\r\n"
    case CrOnly => "\r"
    case CutOff => ""
  }

  function Terminate(lines: seq<string>, ends: seq<LineEnd>): seq<string>
    requires |ends| == |lines|
  {
    seq(|lines|, i requires 0 <= i < |lines| => lines[i] + EndOf(ends[i]))
  }

  /** The line ends a reader can see: an empty line that is cut off is no line at all. */
  predicate CanEnd(lines: seq<string>, ends: seq<LineEnd>) {
    && |ends| == |lines|
    && (forall i :: 0 <= i < |ends| - 1 ==> ends[i].Lf? || ends[i].CrLf?)
    && (lines != [] && ends[|ends| - 1].CutOff? ==> lines[|lines| - 1] != "")
  }

  lemma StripTerminated(line: string, end: LineEnd)
    ensures RStrip(line + EndOf(end)) == RStrip(line)
  {
    var ended := line + EndOf(end);
    if end.CutOff? {
      assert ended == line;
    } else {
      var shorter := ended[..|ended| - 1];
      if end.CrLf? {
        assert shorter == line + "\r";
        assert shorter[..|shorter| - 1] == line;
      } else {
        assert shorter == line;
      }
    }
  }

  lemma {:induction false} TerminatorsAreIgnored(state: State, lines: seq<string>, ends: seq<LineEnd>)
    requires |ends| == |lines|
    ensures Decode(state, Terminate(lines, ends)) == Decode(state, lines)
    decreases |lines|
  {
    if lines != [] {
      StripTerminated(lines[0], ends[0]);
      assert Terminate(lines, ends)[1..] == Terminate(lines[1..], ends[1..]);
      TerminatorsAreIgnored(Step(state, lines[0]).0, lines[1..], ends[1..]);
    }
  }

  // ----- The whole stream -----

  /** Nothing is dispatched without a blank line. */
  lemma {:induction false} NoBlankLineNoEvent(state: State, lines: seq<string>)
    requires !state.firstLine && forall i :: 0 <= i < |lines| ==> RStrip(lines[i]) != ""
    ensures Decode(state, lines).1 == []
    decreases |lines|
  {
    if lines != [] {
      assert forall i :: 0 <= i < |lines| - 1 ==> lines[1..][i] == lines[i + 1];
      NoBlankLineNoEvent(Step(state, lines[0]).0, lines[1..]);
    }
  }

  lemma FieldStart(sent: Sent, i: nat)
    requires CanSend(sent) && i < |Fields(sent)|
    ensures Fields(sent)[i] != "" && Fields(sent)[i][0] in "ied"
  {
  }

  /** Field lines are neither blank nor marked. */
  lemma FieldsAreFields(sent: Sent, i: nat)
    requires CanSend(sent) && i < |Fields(sent)|
    ensures RStrip(Fields(sent)[i]) != "" && !Marked(Fields(sent)[i])
  {
    FieldStart(sent, i);
    FirstKept(Fields(sent)[i]);
  }

  lemma {:induction false} FirstKept(line: string)
    requires line != "" && line[0] != '\r' && line[0] != '\n'
    ensures RStrip(line) != ""
    decreases |line|
  {
    if |line| > 1 {
      FirstKept(line[..|line| - 1]);
    }
  }

  /** The first k field lines of an event, and m characters of the next. */
  function CutAt(sent: Sent, k: nat, m: nat): seq<string>
    requires k <= |Fields(sent)| && (m > 0 ==> k < |Fields(sent)| && m <= |Fields(sent)[k]|)
  {
    Fields(sent)[..k] + if m == 0 then [] else [Fields(sent)[k][..m]]
  }

  ghost predicate IsCutAt(cut: seq<string>, sent: Sent, k: nat, m: nat) {
    && CanSend(sent)
    && k <= |Fields(sent)| && (m > 0 ==> k < |Fields(sent)| && m <= |Fields(sent)[k]|)
    && cut == CutAt(sent, k, m)
  }

  /** What is left of an event the stream ends in the middle of, which may be the middle of a line. */
  ghost predicate IsCut(cut: seq<string>) {
    exists sent, k: nat, m: nat :: IsCutAt(cut, sent, k, m)
  }

  lemma CutLineIsField(cut: seq<string>, i: nat)
    requires IsCut(cut) && i < |cut|
    ensures RStrip(cut[i]) != "" && !Marked(cut[i])
  {
    var sent, k: nat, m: nat :| IsCutAt(cut, sent, k, m);
    if i < k {
      FieldsAreFields(sent, i);
    } else {
      FieldStart(sent, k);
      FirstKept(cut[i]);
    }
  }

  predicate StartsUnmarked(lines: seq<string>) {
    lines == [] || !Marked(lines[0])
  }

  lemma UnmarkedConcat(a: seq<string>, b: seq<string>)
    requires StartsUnmarked(a) && StartsUnmarked(b)
    ensures StartsUnmarked(a + b)
  {
  }

  lemma FieldsUnmarked(sent: Sent)
    requires CanSend(sent)
    ensures StartsUnmarked(Fields(sent))
  {
    if Fields(sent) != [] {
      FieldsAreFields(sent, 0);
    }
  }

  lemma {:induction false} EncodeUnmarked(events: seq<Sent>)
    requires forall i :: 0 <= i < |events| ==> CanSend(events[i])
    ensures StartsUnmarked(Encode(events))
    decreases |events|
  {
    if events != [] {
      FieldsUnmarked(events[0]);
      UnmarkedConcat(Fields(events[0]), [""]);
      EncodeUnmarked(events[1..]);
      UnmarkedConcat(EncodeEvent(events[0]), Encode(events[1..]));
    }
  }

  lemma CutUnmarked(cut: seq<string>)
    requires IsCut(cut)
    ensures StartsUnmarked(cut)
  {
    if cut != [] {
      CutLineIsField(cut, 0);
    }
  }

  lemma CutIsDropped(state: State, cut: seq<string>)
    requires !state.firstLine && IsCut(cut)
    ensures Decode(state, cut).1 == []
  {
    forall i | 0 <= i < |cut| ensures RStrip(cut[i]) != "" {
      CutLineIsField(cut, i);
    }
    NoBlankLineNoEvent(state, cut);
  }

  /** A byte order mark put before a stream, or none. */
  function Mark(marked: bool, lines: seq<string>): seq<string> {
    if marked && lines != [] then [[BYTE_ORDER_MARK] + lines[0]] + lines[1..] else lines
  }

  lemma MarkIsIgnored(marked: bool, lines: seq<string>)
    requires lines != [] ==> !Marked(lines[0])
    ensures Decode(INITIAL, Mark(marked, lines)).1 == Decode(Between(None), lines).1
  {
    if lines != [] {
      if marked {
        assert [lines[0]] + lines[1..] == lines;
        ByteOrderMarkIsSkipped(INITIAL, lines[0], lines[1..]);
      } else {
        FirstLineFlag(INITIAL, lines);
      }
    }
  }

  /** Decoding inverts encoding, whatever comment lines are inserted anywhere, however each line
      ends, with or without a byte order mark, and even if the stream stops in the middle of a
      further event, or of a line of it, which is dropped. */
  lemma StreamRoundTrip(events: seq<Sent>, cut: seq<string>, stream: seq<string>, ends: seq<LineEnd>, marked: bool)
    requires (forall i :: 0 <= i < |events| ==> CanSend(events[i])) && IsCut(cut)
    requires WithoutComments(stream) == Encode(events) + cut && CanEnd(stream, ends)
    ensures Decode(INITIAL, Terminate(Mark(marked, stream), ends)).1 == Received(events, None)
  {
    TerminatorsAreIgnored(INITIAL, Mark(marked, stream), ends);
    if stream != [] && !IsComment(stream[0]) {
      EncodeUnmarked(events);
      CutUnmarked(cut);
      UnmarkedConcat(Encode(events), cut);
    }
    MarkIsIgnored(marked, stream);
    CommentsAreIgnored(Between(None), stream);
    DecodeConcat(Between(None), Encode(events), cut);
    DecodeEncoded(events, None);
    CutIsDropped(Between(LastId(events, None)), cut);
  }

  /** The data lines of an event are told apart by its joined data. */
  function SplitLines(text: string): seq<string>
    decreases |text|
  {
    var i := IndexOf(text, '\n');
    if i == |text| then [text] else [text[..i]] + SplitLines(text[i + 1..])
  }

  lemma {:induction false} JoinedDataSplits(data: seq<string>)
    requires data != [] && forall i :: 0 <= i < |data| ==> OneLine(data[i])
    ensures SplitLines(JoinData(data)) == data
    decreases |data|
  {
    var text, first := JoinData(data), data[0];
    assert OneLine(first);
    if |data| > 1 {
      var rest := data[1..];
      assert text == first + "\n" + JoinData(rest);
      assert text[..|first|] == first && text[|first| + 1..] == JoinData(rest);
      FirstAt(text, '\n', |first|);
      JoinedDataSplits(rest);
    } else {
      assert text[..IndexOf(text, '\n')] <= first;
    }
  }
}
