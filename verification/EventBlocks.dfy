/** What the lines of a block say, field by field, and what the reader makes of them. */
module EventBlocks {
  import opened Options
  import opened EventStream

  /** The field name of a line; a comment has the empty name. */
  function Name(line: string): string {
    var colon := IndexOf(line, ':');
    if colon == -1 then line else line[..colon]
  }

  function Value(line: string): string {
    var colon := IndexOf(line, ':');
    if colon == -1 then "" else DropSpace(line[colon + 1..])
  }

  /** The values given to a field, in order. */
  function Values(lines: seq<string>, name: string): seq<string> {
    if lines == [] then []
    else
      var line := lines[|lines| - 1];
      Values(lines[..|lines| - 1], name) + (if Name(line) == name then [Value(line)] else [])
  }

  function Last(values: seq<string>, none: string): string {
    if values == [] then none else values[|values| - 1]
  }

  lemma {:induction false} ValuesSnoc(lines: seq<string>, line: string, name: string)
    ensures Values(lines + [line], name) ==
      if Name(line) == name then Values(lines, name) + [Value(line)] else Values(lines, name)
  {
    assert (lines + [line])[..|lines|] == lines;
    assert Values(lines, name) + [] == Values(lines, name);
  }

  lemma {:induction false} AddLinesSnoc(f: Fields, lines: seq<string>, line: string)
    ensures AddLines(f, lines + [line]) == AddLine(AddLines(f, lines), line)
    decreases |lines|
  {
    if lines == [] {
      assert lines + [line] == [line] + [];
      AddLinesCons(line, [], f);
    } else {
      var head, rest := lines[0], lines[1..];
      assert lines == [head] + rest && lines + [line] == [head] + (rest + [line]);
      AddLinesCons(head, rest, f);
      AddLinesCons(head, rest + [line], f);
      AddLinesSnoc(AddLine(f, head), rest, line);
    }
  }

  lemma {:induction false} AddLineByName(f: Fields, line: string)
    ensures AddLine(f, line) ==
      if Name(line) == "event" then f.(event := Value(line))
      else if Name(line) == "data" then f.(data := f.data + [Value(line)])
      else if Name(line) == "id" then f.(id := Some(Value(line)))
      else f
  {
    if line != "" && line[0] == ':' { assert Name(line) == ""; }
  }

  /** The fields a block leaves on top of earlier ones: all the data, and the last event and id. */
  function Summed(f: Fields, lines: seq<string>): Fields {
    var ids := Values(lines, "id");
    Fields(Last(Values(lines, "event"), f.event), f.data + Values(lines, "data"),
           if ids == [] then f.id else Some(Last(ids, "")))
  }

  lemma {:induction false} SummedSnoc(f: Fields, lines: seq<string>, line: string)
    ensures Summed(f, lines + [line]) == AddLine(Summed(f, lines), line)
  {
    AddLineByName(Summed(f, lines), line);
    ValuesSnoc(lines, line, "event");
    ValuesSnoc(lines, line, "data");
    ValuesSnoc(lines, line, "id");
    DataSnoc(f.data, Values(lines, "data"), Value(line));
    LastSnoc(Values(lines, "event"), Value(line), f.event);
    LastSnoc(Values(lines, "id"), Value(line), "");
  }

  lemma {:induction false} LastSnoc(values: seq<string>, value: string, none: string)
    ensures Last(values + [value], none) == value
  {
  }

  lemma {:induction false} DataSnoc(earlier: seq<string>, data: seq<string>, value: string)
    ensures (earlier + data) + [value] == earlier + (data + [value])
  {
  }

  lemma {:induction false} AddLinesSums(f: Fields, lines: seq<string>)
    ensures AddLines(f, lines) == Summed(f, lines)
  {
    if lines == [] {
      assert f.data + [] == f.data;
    } else {
      var front, line := lines[..|lines| - 1], lines[|lines| - 1];
      assert lines == front + [line];
      AddLinesSums(f, front);
      AddLinesSnoc(f, front, line);
      SummedSnoc(f, front, line);
    }
  }

  lemma {:induction false} ValuesAppend(a: seq<string>, b: seq<string>, name: string)
    ensures Values(a + b, name) == Values(a, name) + Values(b, name)
  {
    if b == [] {
      assert a + b == a && Values(a, name) + [] == Values(a, name);
    } else {
      var front, line := b[..|b| - 1], b[|b| - 1];
      assert b == front + [line] && a + b == (a + front) + [line];
      ValuesAppend(a, front, name);
      ValuesSnoc(a + front, line, name);
      ValuesSnoc(front, line, name);
    }
  }

  // --- Block by block ---------------------------------------------------------------------------

  /** The blocks between blank lines; the last one is not followed by a blank line. */
  function Blocks(lines: seq<string>): (r: seq<seq<string>>)
    requires lines != []
    ensures r != []
  {
    if |lines| == 1 then [lines]
    else if lines[0] == "" then [[]] + Blocks(lines[1..])
    else
      var rest := Blocks(lines[1..]);
      [[lines[0]] + rest[0]] + rest[1..]
  }

  function BlockFrames(block: seq<string>): seq<Frame> { Emit(Complete(AddLines(NO_FIELDS, block))) }

  function AllFrames(blocks: seq<seq<string>>): seq<Frame> {
    if blocks == [] then [] else BlockFrames(blocks[0]) + AllFrames(blocks[1..])
  }

  /** The pending lines belong to the first block. */
  function Pend(pending: seq<string>, blocks: seq<seq<string>>): (r: seq<seq<string>>)
    requires blocks != []
    ensures r != []
  {
    [pending + blocks[0]] + blocks[1..]
  }

  lemma {:induction false} PendNothing(blocks: seq<seq<string>>)
    requires blocks != []
    ensures Pend([], blocks) == blocks
  {
    assert [] + blocks[0] == blocks[0];
  }

  lemma {:induction false} PendAtBlank(pending: seq<string>, rest: seq<string>)
    requires rest != []
    ensures Pend(pending, Blocks([""] + rest)) == [pending] + Blocks(rest)
  {
    assert ([""] + rest)[1..] == rest && pending + [] == pending;
  }

  lemma {:induction false} PendLine(pending: seq<string>, line: string, rest: seq<string>)
    requires rest != [] && line != ""
    ensures Pend(pending, Blocks([line] + rest)) == Pend(pending + [line], Blocks(rest))
  {
    assert ([line] + rest)[1..] == rest;
    assert pending + ([line] + Blocks(rest)[0]) == (pending + [line]) + Blocks(rest)[0];
  }

  lemma {:induction false} AllFramesCons(block: seq<string>, blocks: seq<seq<string>>)
    ensures AllFrames([block] + blocks) == BlockFrames(block) + AllFrames(blocks)
  {
    assert ([block] + blocks)[1..] == blocks;
  }

  lemma {:induction false} LastLineFrames(pending: seq<string>, line: string)
    ensures LineFrames([line], AddLines(NO_FIELDS, pending)) == AllFrames(Pend(pending, Blocks([line])))
  {
    var f := AddLines(NO_FIELDS, pending);
    AddLinesSnoc(NO_FIELDS, pending, line);
    LastLinesAreOneBlock([line], f);
    assert [line] + [] == [line];
    AddLinesCons(line, [], f);
    AllFramesCons(pending + [line], []);
    assert Pend(pending, Blocks([line])) == [pending + [line]] + [];
    assert BlockFrames(pending + [line]) + [] == BlockFrames(pending + [line]);
  }

  lemma {:induction false} FramesBehind(pending: seq<string>, lines: seq<string>)
    requires lines != []
    ensures LineFrames(lines, AddLines(NO_FIELDS, pending)) == AllFrames(Pend(pending, Blocks(lines)))
    decreases |lines|
  {
    var line, rest := lines[0], lines[1..];
    assert lines == [line] + rest;
    if rest == [] {
      assert lines == [line];
      LastLineFrames(pending, line);
    } else {
      LineFramesCons(line, rest, AddLines(NO_FIELDS, pending));
      if line == "" {
        FramesBehind([], rest);
        PendNothing(Blocks(rest));
        PendAtBlank(pending, rest);
        AllFramesCons(pending, Blocks(rest));
      } else {
        FramesBehind(pending + [line], rest);
        AddLinesSnoc(NO_FIELDS, pending, line);
        PendLine(pending, line, rest);
      }
    }
  }

  /** The frames of a text are those of its blocks. */
  lemma {:induction false} FramesByBlock(text: string)
    ensures Frames(text) == AllFrames(Blocks(Lines(text)))
  {
    FramesLineByLine(text);
    FramesBehind([], Lines(text));
    PendNothing(Blocks(Lines(text)));
  }
}
