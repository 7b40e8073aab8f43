/**
 What any stream of lines decodes to, read off its fields (WHATWG HTML Living Standard, section 9.2.6;
 iter_sse_events in src/benchmarkservice/sse.py): a stream is blocks of field lines, each ended by a
 blank line. Blocks may be empty, as a heartbeat is, repeat fields, hold fields that mean nothing, and
 leave out the space or the colon.
 */
module SseBlocks {
  import opened Options
  import opened SseDecoder

  /** A field of a line; the name of a comment is empty. */
  type Pair = (string, string)

  /** The ways to write a field: with a space after the colon, without one, or without a colon. */
  predicate Spells(line: string, name: string, value: string) {
    && ':' !in name && OneLine(name) && OneLine(value)
    && (line == name + ": " + value
        || (line == name + ":" + value && (value == "" || value[0] != ' '))
        || (line == name && name != "" && value == ""))
  }

  ghost predicate SpellsAll(lines: seq<string>, fields: seq<Pair>) {
    |lines| == |fields| && forall i :: 0 <= i < |lines| ==> Spells(lines[i], fields[i].0, fields[i].1)
  }

  // ----- What fields mean -----

  /** The event type: the last one given, "message" by default. */
  function EventOf(fields: seq<Pair>): string
    decreases |fields|
  {
    if fields == [] then "message"
    else if fields[|fields| - 1].0 == "event" then fields[|fields| - 1].1
    else EventOf(fields[..|fields| - 1])
  }

  /** The data: all that is given, in order. */
  function DataOf(fields: seq<Pair>): seq<string>
    decreases |fields|
  {
    if fields == [] then []
    else DataOf(fields[..|fields| - 1]) + if fields[|fields| - 1].0 == "data" then [fields[|fields| - 1].1] else []
  }

  /** The ID: the last one given without a NUL, or else the one before. */
  function IdOf(fields: seq<Pair>, before: Option<string>): Option<string>
    decreases |fields|
  {
    if fields == [] then before
    else if fields[|fields| - 1].0 == "id" && '\0' !in fields[|fields| - 1].1 then Some(fields[|fields| - 1].1)
    else IdOf(fields[..|fields| - 1], before)
  }

  /** The event of a block: none without data. */
  function Dispatched(fields: seq<Pair>, before: Option<string>): seq<ServerSentEvent> {
    if DataOf(fields) == [] then []
    else [ServerSentEvent(EventOf(fields), JoinData(DataOf(fields)), IdOf(fields, before))]
  }

  /** The events of all blocks; the ID carries over. */
  function AllDispatched(blocks: seq<seq<Pair>>, before: Option<string>): seq<ServerSentEvent>
    decreases |blocks|
  {
    if blocks == [] then []
    else Dispatched(blocks[0], before) + AllDispatched(blocks[1..], IdOf(blocks[0], before))
  }

  /** The lines of all blocks, each with its blank line. */
  function Lines(blocks: seq<seq<string>>): seq<string>
    decreases |blocks|
  {
    if blocks == [] then [] else blocks[0] + [""] + Lines(blocks[1..])
  }

  // ----- One line -----

  lemma NoColon(line: string)
    requires ':' !in line
    ensures FieldOf(line) == (line, "")
  {
    assert forall k :: 0 <= k < |line| ==> line[k] != ':';
  }

  lemma NoSpace(name: string, value: string)
    requires ':' !in name && (value == "" || value[0] != ' ')
    ensures FieldOf(name + ":" + value) == (name, value)
  {
    var line := name + ":" + value;
    assert line[..|name|] == name;
    FirstAt(line, ':', |name|);
    assert line[|name| + 1..] == value;
  }

  lemma SpelledField(line: string, name: string, value: string)
    requires Spells(line, name, value)
    ensures FieldOf(line) == (name, value)
  {
    if line == name && name != "" && value == "" {
      NoColon(line);
    } else if line == name + ":" + value && (value == "" || value[0] != ' ') {
      NoSpace(name, value);
    } else {
      assert line == FieldText(name, value);
      FieldLine(name, value);
    }
  }

  lemma SpelledIsOneLine(line: string, name: string, value: string)
    requires Spells(line, name, value)
    ensures OneLine(line) && line != "" && (line[0] == ':' <==> name == "")
  {
    if line == name && name != "" && value == "" {
      assert line[0] in name;
    } else {
      var joint := if line == name + ": " + value then ": " else ":";
      assert line == name + joint + value;
      assert line[|line| - 1] == if value == "" then joint[|joint| - 1] else value[|value| - 1];
      assert name != "" ==> line[0] == name[0] && name[0] in name;
    }
  }

  /** A line has the effect of its field, however it is written; a field that means nothing, a comment
      and an ID with a NUL have none. */
  lemma SpelledStep(state: State, line: string, name: string, value: string)
    requires !state.firstLine && Spells(line, name, value)
    ensures Step(state, line).1 == []
    ensures var next := Step(state, line).0;
            && !next.firstLine
            && next.eventType == (if name == "event" then value else state.eventType)
            && next.data == (if name == "data" then state.data + [value] else state.data)
            && next.lastEventId == (if name == "id" && '\0' !in value then Some(value) else state.lastEventId)
  {
    SpelledIsOneLine(line, name, value);
    StripClean(line);
    SpelledField(line, name, value);
  }

  // ----- Blocks -----

  /** What is known within a block after its fields so far. */
  function Meaning(fields: seq<Pair>, before: Option<string>): State {
    State(EventOf(fields), DataOf(fields), IdOf(fields, before), false)
  }

  lemma OneMoreField(line: string, fields: seq<Pair>, before: Option<string>)
    requires fields != [] && Spells(line, fields[|fields| - 1].0, fields[|fields| - 1].1)
    ensures Decode(Meaning(fields[..|fields| - 1], before), [line]) == (Meaning(fields, before), [])
  {
    var last := fields[|fields| - 1];
    var middle := Meaning(fields[..|fields| - 1], before);
    SpelledStep(middle, line, last.0, last.1);
    assert last.0 != "data" ==> DataOf(fields) == middle.data;
    DecodeOne(middle, line);
  }

  lemma {:induction false} BlockFields(lines: seq<string>, fields: seq<Pair>, before: Option<string>)
    requires SpellsAll(lines, fields)
    ensures Decode(Between(before), lines) == (Meaning(fields, before), [])
    decreases |lines|
  {
    if lines != [] {
      var k := |lines| - 1;
      BlockFields(lines[..k], fields[..k], before);
      OneMoreField(lines[k], fields, before);
      DecodeSilent(Between(before), lines[..k], Meaning(fields[..k], before), [lines[k]]);
      assert lines[..k] + [lines[k]] == lines;
    }
  }

  lemma BlockDecodes(lines: seq<string>, fields: seq<Pair>, before: Option<string>)
    requires SpellsAll(lines, fields)
    ensures Decode(Between(before), lines + [""]) == (Between(IdOf(fields, before)), Dispatched(fields, before))
  {
    var full := Meaning(fields, before);
    BlockFields(lines, fields, before);
    DecodeSilent(Between(before), lines, full, [""]);
    BlankStep(full);
  }

  /** Any stream of blocks decodes to the events that its fields give, block by block; a block without
      data, such as a heartbeat, gives none, and does not disturb the others. */
  lemma {:induction false} BlocksDecode(blocks: seq<seq<string>>, fields: seq<seq<Pair>>, before: Option<string>)
    requires |blocks| == |fields| && forall i :: 0 <= i < |blocks| ==> SpellsAll(blocks[i], fields[i])
    ensures Decode(Between(before), Lines(blocks)).1 == AllDispatched(fields, before)
    decreases |blocks|
  {
    if blocks != [] {
      var after := IdOf(fields[0], before);
      BlockDecodes(blocks[0], fields[0], before);
      BlocksDecode(blocks[1..], fields[1..], after);
      DecodeConcat(Between(before), blocks[0] + [""], Lines(blocks[1..]));
    }
  }

  /** A heartbeat: a comment and a blank line change nothing at all. */
  lemma Heartbeat(text: string, before: Option<string>)
    requires OneLine(text)
    ensures Decode(Between(before), [": " + text, ""]) == (Between(before), [])
  {
    var line, fields := ": " + text, [("", text)];
    assert "" + line == line;
    assert Spells(line, "", text);
    BlockDecodes([line], fields, before);
    assert [line] + [""] == [line, ""];
    assert fields[..0] == [];
    assert DataOf(fields) == [] && IdOf(fields, before) == before;
  }
}
