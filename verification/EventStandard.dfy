/** The reader against section 9.2.6 of the WHATWG HTML standard, which browsers follow: where the
    two differ, and the exact chunks on which they agree. */
module EventStandard {
  import opened Options
  import opened EventBlocks
  import opened EventCuts
  import opened EventPieces
  import opened EventStream

  // --- The standard's reading --------------------------------------------------------------

  datatype Message = Message(kind: string, data: string, lastId: string)

  /** The data, event type and last event ID buffers. */
  datatype Buffers = Buffers(data: string, kind: string, lastId: string)

  const NUL := '\0'

  /** Buffers at the start of an event: the last event ID alone persists. */
  function Start(lastId: string): Buffers { Buffers("", "", lastId) }

  /** The characters before the first colon, or the whole line. */
  function FieldName(line: string): string {
    if line == "" || line[0] == ':' then "" else [line[0]] + FieldName(line[1..])
  }

  /** The characters after the first colon, if there is one. */
  function BehindColon(line: string): Option<string> {
    if line == "" then None else if line[0] == ':' then Some(line[1..]) else BehindColon(line[1..])
  }

  /** One space in front of the value is removed; without a colon the value is empty. */
  function FieldValue(line: string): string {
    match BehindColon(line)
    case None => ""
    case Some(value) => if " " <= value then value[1..] else value
  }

  /** Processing a field; an ID that holds NUL is ignored. */
  function Process(b: Buffers, line: string): Buffers {
    if FieldName(line) == "event" then b.(kind := FieldValue(line))
    else if FieldName(line) == "data" then b.(data := b.data + FieldValue(line) + "\n")
    else if FieldName(line) == "id" && NUL !in FieldValue(line) then b.(lastId := FieldValue(line))
    else b
  }

  lemma {:induction false} ColonSplits(line: string)
    ensures var colon := IndexOf(line, ':');
      && FieldName(line) == (if colon == -1 then line else line[..colon])
      && BehindColon(line) == if colon == -1 then None else Some(line[colon + 1..])
  {
    if line != "" && line[0] != ':' {
      ColonSplits(line[1..]);
      var colon := IndexOf(line[1..], ':');
      assert line == [line[0]] + line[1..];
      if colon != -1 {
        assert line[..colon + 1] == [line[0]] + line[1..][..colon] && line[1..][colon + 1..] == line[colon + 2..];
      }
    }
  }

  /** The code takes lines apart as the standard does. */
  lemma {:induction false} FieldsAreStandard(line: string)
    ensures Name(line) == FieldName(line) && Value(line) == FieldValue(line)
  {
    ColonSplits(line);
  }

  /** Dispatching: nothing without data; the final newline goes; an empty type means `message`. */
  function Dispatch(b: Buffers): seq<Message> {
    if b.data == "" then []
    else [Message(if b.kind == "" then "message" else b.kind, b.data[..|b.data| - 1], b.lastId)]
  }

  /** Blank lines dispatch; what is pending at the end is discarded. */
  function Read(lines: seq<string>, b: Buffers): seq<Message>
    decreases |lines|
  {
    if lines == [] then []
    else if lines[0] == "" then Dispatch(b) + Read(lines[1..], Start(b.lastId))
    else Read(lines[1..], Process(b, lines[0]))
  }

  /** A line is ended by a CRLF pair, a lone line feed or a lone carriage return. */
  function StandardLines(text: string): (r: seq<string>)
    ensures |r| >= 1
  {
    if text == "" then [""]
    else if |text| > 1 && text[0] == '\r' && text[1] == '\n' then [""] + StandardLines(text[2..])
    else if text[0] == '\n' || text[0] == '\r' then [""] + StandardLines(text[1..])
    else
      var rest := StandardLines(text[1..]);
      [[text[0]] + rest[0]] + rest[1..]
  }

  /** A rest behind the last line end completes no event. */
  function Terminated(lines: seq<string>): seq<string>
    requires lines != []
  {
    lines[..|lines| - 1]
  }

  function Standard(text: string): seq<Message> { Read(Terminated(StandardLines(text)), Start("")) }

  /** A frame as a browser would report it: no id is the empty id. */
  function AsMessage(f: Frame): Message { Message(f.event, f.data, if f.id.Some? then f.id.value else "") }

  function AsMessages(frames: seq<Frame>): seq<Message> {
    seq(|frames|, i requires 0 <= i < |frames| => AsMessage(frames[i]))
  }

  /** What the reader reports of the chunks it gets. */
  function Reported(chunks: seq<string>): seq<Message> { AsMessages(Frames(NormalizedEach(chunks))) }

  lemma {:induction false} LinesAreStandard(text: string)
    ensures StandardLines(text) == Lines(Normalized(text))
    decreases |text|
  {
    if text != "" {
      NormalizedStep(text);
      LinesAreStandard(text[Width(text)..]);
      var first, rest := if text[0] == '\r' then '\n' else text[0], Normalized(text[Width(text)..]);
      assert ([first] + rest)[1..] == rest;
    }
  }

  // --- When they agree -----------------------------------------------------------------------

  /** The last id without NUL, in the block or carried into it. */
  function CarriedAfter(carried: string, ids: seq<string>): string {
    if ids == [] then carried
    else if NUL !in ids[|ids| - 1] then ids[|ids| - 1]
    else CarriedAfter(carried, ids[..|ids| - 1])
  }

  /** A block with data names no empty event, and has an id of its own, free of NUL, or stands
      where no id is in force. */
  predicate BlockConforms(block: seq<string>, carried: string) {
    var ids := Values(block, "id");
    Values(block, "data") != [] ==>
      Last(Values(block, "event"), "message") != "" && (if ids == [] then carried == "" else NUL !in Last(ids, ""))
  }

  /** Every block conforms, and the unterminated one holds no data. */
  predicate BlocksConform(blocks: seq<seq<string>>, carried: string)
    requires blocks != []
  {
    if |blocks| == 1 then Values(blocks[0], "data") == []
    else
      && BlockConforms(blocks[0], carried)
      && BlocksConform(blocks[1..], CarriedAfter(carried, Values(blocks[0], "id")))
  }

  // --- One block ---------------------------------------------------------------------------

  function ProcessAll(b: Buffers, lines: seq<string>): Buffers {
    if lines == [] then b else Process(ProcessAll(b, lines[..|lines| - 1]), lines[|lines| - 1])
  }

  /** Every value with its newline. */
  function Buffered(data: seq<string>): string {
    if data == [] then "" else Buffered(data[..|data| - 1]) + data[|data| - 1] + "\n"
  }

  lemma {:induction false} ProcessAllSnoc(b: Buffers, lines: seq<string>, line: string)
    ensures ProcessAll(b, lines + [line]) == Process(ProcessAll(b, lines), line)
  {
    assert (lines + [line])[..|lines|] == lines;
  }

  /** The buffers behind some lines, in terms of the values the fields were given. */
  ghost predicate Holds(b: Buffers, carried: string, lines: seq<string>) {
    && b.data == Buffered(Values(lines, "data"))
    && b.kind == Last(Values(lines, "event"), "")
    && b.lastId == CarriedAfter(carried, Values(lines, "id"))
  }

  lemma {:induction false} BuffersHold(carried: string, lines: seq<string>)
    ensures Holds(ProcessAll(Start(carried), lines), carried, lines)
  {
    if lines != [] {
      var front, line := lines[..|lines| - 1], lines[|lines| - 1];
      BuffersHold(carried, front);
      assert lines == front + [line];
      BuffersStep(ProcessAll(Start(carried), front), carried, front, line);
    }
  }

  lemma {:induction false} BuffersStep(b: Buffers, carried: string, lines: seq<string>, line: string)
    requires Holds(b, carried, lines)
    ensures Holds(Process(b, line), carried, lines + [line])
  {
    FieldsAreStandard(line);
    ValuesSnoc(lines, line, "event");
    ValuesSnoc(lines, line, "data");
    ValuesSnoc(lines, line, "id");
    var data, ids := Values(lines, "data"), Values(lines, "id");
    assert (data + [Value(line)])[..|data|] == data;
    assert (ids + [Value(line)])[..|ids|] == ids;
  }

  lemma {:induction false} BufferedJoins(data: seq<string>)
    requires data != []
    ensures Buffered(data) == Joined(data) + "\n"
  {
    if |data| > 1 {
      BufferedCons(data[0], data[1..]);
      BufferedJoins(data[1..]);
      assert data == [data[0]] + data[1..];
    } else {
      assert data[..0] == [] && Buffered(data[..0]) == "";
    }
  }

  lemma {:induction false} BufferedCons(first: string, rest: seq<string>)
    ensures Buffered([first] + rest) == first + "\n" + Buffered(rest)
  {
    var all := [first] + rest;
    if rest == [] {
      assert all[..0] == [] && Buffered(all[..0]) == "";
    } else {
      var front, last := rest[..|rest| - 1], rest[|rest| - 1];
      BufferedCons(first, front);
      assert all[..|all| - 1] == [first] + front && all[|all| - 1] == last;
    }
  }

  lemma {:induction false} CarriedIsClean(carried: string, ids: seq<string>)
    requires NUL !in carried
    ensures NUL !in CarriedAfter(carried, ids)
  {
    if ids != [] { CarriedIsClean(carried, ids[..|ids| - 1]); }
  }

  /** What the code yields for a block of lines. */
  function Yielded(block: seq<string>): seq<Message> {
    AsMessages(BlockFrames(block))
  }

  lemma {:induction false} YieldedIs(block: seq<string>)
    ensures var data, ids := Values(block, "data"), Values(block, "id");
      Yielded(block) ==
        if data == [] then [] else [Message(Last(Values(block, "event"), "message"), Joined(data), Last(ids, ""))]
  {
    AddLinesSums(NO_FIELDS, block);
    assert NO_FIELDS.data + Values(block, "data") == Values(block, "data");
  }

  lemma {:induction false} DispatchIs(block: seq<string>, carried: string)
    ensures var data, kind := Values(block, "data"), Last(Values(block, "event"), "");
      Dispatch(ProcessAll(Start(carried), block)) ==
        if data == [] then []
        else [Message(if kind == "" then "message" else kind, Joined(data), CarriedAfter(carried, Values(block, "id")))]
  {
    BuffersHold(carried, block);
    if Values(block, "data") != [] { BufferedJoins(Values(block, "data")); }
  }

  /** A block is read alike, in as many messages, exactly when it conforms. */
  lemma {:induction false} BlockAgreesExactly(block: seq<string>, carried: string)
    requires NUL !in carried
    ensures |Yielded(block)| == |Dispatch(ProcessAll(Start(carried), block))|
    ensures Yielded(block) == Dispatch(ProcessAll(Start(carried), block)) <==> BlockConforms(block, carried)
  {
    YieldedIs(block);
    DispatchIs(block, carried);
    var ids := Values(block, "id");
    CarriedIsClean(carried, ids);
    if ids != [] { CarriedIsClean(carried, ids[..|ids| - 1]); }
  }

  // --- A whole text -------------------------------------------------------------------------

  lemma {:induction false} AsMessagesAppend(a: seq<Frame>, b: seq<Frame>)
    ensures AsMessages(a + b) == AsMessages(a) + AsMessages(b)
  {
  }

  /** The standard's messages, block by block; the last block is not dispatched. */
  function Dispatched(blocks: seq<seq<string>>, carried: string): seq<Message>
    requires blocks != []
  {
    if |blocks| == 1 then []
    else
      Dispatch(ProcessAll(Start(carried), blocks[0]))
      + Dispatched(blocks[1..], CarriedAfter(carried, Values(blocks[0], "id")))
  }

  lemma {:induction false} DispatchedCons(block: seq<string>, more: seq<seq<string>>, carried: string)
    requires more != []
    ensures Dispatched([block] + more, carried) ==
      Dispatch(ProcessAll(Start(carried), block)) + Dispatched(more, CarriedAfter(carried, Values(block, "id")))
  {
    assert ([block] + more)[1..] == more;
  }

  lemma {:induction false} TerminatedCons(line: string, rest: seq<string>)
    requires rest != []
    ensures Terminated([line] + rest) == [line] + Terminated(rest)
  {
  }

  lemma {:induction false} ReadCons(line: string, more: seq<string>, b: Buffers)
    ensures Read([line] + more, b) ==
      if line == "" then Dispatch(b) + Read(more, Start(b.lastId)) else Read(more, Process(b, line))
  {
    assert ([line] + more)[1..] == more;
  }

  lemma {:induction false} ReadBehind(pending: seq<string>, lines: seq<string>, carried: string)
    requires lines != []
    ensures Read(Terminated(lines), ProcessAll(Start(carried), pending)) ==
      Dispatched(Pend(pending, Blocks(lines)), carried)
    decreases |lines|
  {
    var line, rest := lines[0], lines[1..];
    assert lines == [line] + rest;
    if rest != [] {
      var b := ProcessAll(Start(carried), pending);
      TerminatedCons(line, rest);
      ReadCons(line, Terminated(rest), b);
      if line == "" {
        var next := CarriedAfter(carried, Values(pending, "id"));
        BuffersHold(carried, pending);
        ReadBehind([], rest, next);
        PendNothing(Blocks(rest));
        PendAtBlank(pending, rest);
        DispatchedCons(pending, Blocks(rest), carried);
      } else {
        ProcessAllSnoc(Start(carried), pending, line);
        ReadBehind(pending + [line], rest, carried);
        PendLine(pending, line, rest);
      }
    }
  }

  lemma {:induction false} StandardByBlock(text: string)
    ensures Standard(text) == Dispatched(Blocks(Lines(Normalized(text))), "")
  {
    LinesAreStandard(text);
    ReadBehind([], Lines(Normalized(text)), "");
    PendNothing(Blocks(Lines(Normalized(text))));
  }

  // --- Chunks that split no pair ---------------------------------------------------------------

  lemma {:induction false} LastBlockAgrees(block: seq<string>)
    ensures AsMessages(AllFrames([block])) == [] <==> Values(block, "data") == []
  {
    AllFramesCons(block, []);
    assert [block] + [] == [block] && BlockFrames(block) + [] == BlockFrames(block);
    YieldedIs(block);
  }

  lemma {:induction false} BlocksAgreeExactly(blocks: seq<seq<string>>, carried: string)
    requires blocks != [] && NUL !in carried
    ensures |AllFrames(blocks)| >= |Dispatched(blocks, carried)|
    ensures AsMessages(AllFrames(blocks)) == Dispatched(blocks, carried) <==> BlocksConform(blocks, carried)
    decreases |blocks|
  {
    var block, rest := blocks[0], blocks[1..];
    assert blocks == [block] + rest;
    if rest == [] {
      assert blocks == [block];
      LastBlockAgrees(block);
    } else {
      var next := CarriedAfter(carried, Values(block, "id"));
      CarriedIsClean(carried, Values(block, "id"));
      BlocksAgreeExactly(rest, next);
      BlockAgreesExactly(block, carried);
      AllFramesCons(block, rest);
      DispatchedCons(block, rest, carried);
      AsMessagesAppend(BlockFrames(block), AllFrames(rest));
      SameParts(Yielded(block), AsMessages(AllFrames(rest)),
                Dispatch(ProcessAll(Start(carried), block)), Dispatched(rest, next));
    }
  }

  /** Chunks that split no CRLF pair are reported as the standard prescribes for their text if and
      only if every block with data names no empty event and has a NUL-free id of its own or none in
      force, and no data is left behind the last blank line. */
  lemma {:induction false} AgreesWithStandardExactly(chunks: seq<string>)
    requires CutsCleanly(chunks)
    ensures Reported(chunks) == Standard(Flat(chunks)) <==> BlocksConform(Blocks(StandardLines(Flat(chunks))), "")
  {
    var text := Normalized(Flat(chunks));
    CleanCutsNormalize(chunks);
    LinesAreStandard(Flat(chunks));
    FramesByBlock(text);
    StandardByBlock(Flat(chunks));
    BlocksAgreeExactly(Blocks(Lines(text)), "");
  }

  // --- Any chunks --------------------------------------------------------------------------------

  /** The event type the standard gives a block. */
  function TypeOf(block: seq<string>): string {
    var kind := Last(Values(block, "event"), "");
    if kind == "" then "message" else kind
  }

  /** At most one piece holds data, and the code reads from it what the standard reads from the block. */
  ghost predicate PiecesConform(pieces: Pieces, carried: string) {
    var block := Flatten(pieces);
    forall i :: 0 <= i < |pieces| && HasData(pieces[i]) ==>
      && Values(pieces[i], "data") == Values(block, "data")
      && Last(Values(pieces[i], "event"), "message") == TypeOf(block)
      && Last(Values(pieces[i], "id"), "") == CarriedAfter(carried, Values(block, "id"))
  }

  /** The pieces of every block conform, and those of the unterminated one hold no data. */
  ghost predicate CutsConform(blocks: seq<Pieces>, carried: string)
    requires blocks != []
  {
    if |blocks| == 1 then !HasData(Flatten(blocks[0]))
    else
      && PiecesConform(blocks[0], carried)
      && CutsConform(blocks[1..], CarriedAfter(carried, Values(Flatten(blocks[0]), "id")))
  }

  lemma {:induction false} SolePieceAgrees(pieces: Pieces, i: nat, carried: string)
    requires Sole(pieces, i)
    ensures |AllFrames(pieces)| == |Dispatch(ProcessAll(Start(carried), Flatten(pieces)))|
    ensures AsMessages(AllFrames(pieces)) == Dispatch(ProcessAll(Start(carried), Flatten(pieces))) <==>
      PiecesConform(pieces, carried)
  {
    SoleReads(pieces, i);
    YieldedIs(pieces[i]);
    DispatchIs(Flatten(pieces), carried);
  }

  lemma {:induction false} PiecesAgreeExactly(pieces: Pieces, carried: string)
    ensures |AllFrames(pieces)| >= |Dispatch(ProcessAll(Start(carried), Flatten(pieces)))|
    ensures AsMessages(AllFrames(pieces)) == Dispatch(ProcessAll(Start(carried), Flatten(pieces))) <==>
      PiecesConform(pieces, carried)
  {
    var i, j := SoleOrNot(pieces);
    DispatchIs(Flatten(pieces), carried);
    if i == -1 {
      NoDataNoFrames(pieces);
    } else if j == -1 {
      SolePieceAgrees(pieces, i, carried);
    } else {
      TwoRead(pieces, i, j);
    }
  }

  lemma {:induction false} LastPiecesAgree(pieces: Pieces)
    ensures AllFrames(pieces) == [] <==> !HasData(Flatten(pieces))
  {
    var i, j := SoleOrNot(pieces);
    if i == -1 { NoDataNoFrames(pieces); } else { DataGivesFrames(pieces, i); }
  }

  lemma {:induction false} CutsAgreeExactly(blocks: seq<Pieces>, carried: string)
    requires blocks != []
    ensures Wholes(blocks) != [] && |AllFrames(Flatten(blocks))| >= |Dispatched(Wholes(blocks), carried)|
    ensures AsMessages(AllFrames(Flatten(blocks))) == Dispatched(Wholes(blocks), carried) <==>
      CutsConform(blocks, carried)
    decreases |blocks|
  {
    var first, rest := blocks[0], blocks[1..];
    assert blocks == [first] + rest;
    FlattenCons(first, rest);
    WholesCons(first, rest);
    if rest == [] {
      assert first + [] == first;
      LastPiecesAgree(first);
    } else {
      var block := Flatten(first);
      var next := CarriedAfter(carried, Values(block, "id"));
      CutsAgreeExactly(rest, next);
      PiecesAgreeExactly(first, carried);
      AllFramesAppend(first, Flatten(rest));
      DispatchedCons(block, Wholes(rest), carried);
      AsMessagesAppend(AllFrames(first), AllFrames(Flatten(rest)));
      SameParts(AsMessages(AllFrames(first)), AsMessages(AllFrames(Flatten(rest))),
                Dispatch(ProcessAll(Start(carried), block)), Dispatched(Wholes(rest), next));
    }
  }

  /** Any chunks at all are reported as the standard prescribes for their text if and only if, of the
      pieces that the cuts part each block into, at most one holds data, its event name and id are
      those the standard gives the block, and no data is left behind the last blank line. */
  lemma {:induction false} ReaderAgreesExactly(chunks: seq<string>)
    ensures Reported(chunks) == Standard(Flat(chunks)) <==> CutsConform(CutBlocks(chunks), "")
  {
    CutBlocksRead(chunks);
    StandardByBlock(Flat(chunks));
    CutsAgreeExactly(CutBlocks(chunks), "");
  }

  // --- Five ways in which they differ ---------------------------------------------------------

  lemma {:induction false} NameAndValue(name: string, value: string)
    requires ':' !in name
    ensures Name(name + ": " + value) == name && Value(name + ": " + value) == value
  {
    assert name + ": " + value == name + [':'] + (" " + value);
    IndexAfter(name, ':', " " + value);
    assert (name + ": " + value)[|name| + 1..] == " " + value && (" " + value)[1..] == value;
  }

  /** The values of a line `name: value` and of a line in front of others. */
  lemma {:induction false} OneLineValues(name: string, value: string, other: string)
    requires ':' !in name
    ensures Values([name + ": " + value], other) == if name == other then [value] else []
  {
    NameAndValue(name, value);
    ValuesSnoc([], name + ": " + value, other);
    assert [] + [name + ": " + value] == [name + ": " + value];
  }

  lemma {:induction false} TwoLineValues(first: string, a: string, second: string, b: string, other: string)
    requires ':' !in first && ':' !in second
    ensures Values([first + ": " + a, second + ": " + b], other) ==
      (if first == other then [a] else []) + (if second == other then [b] else [])
  {
    OneLineValues(first, a, other);
    NameAndValue(second, b);
    ValuesSnoc([first + ": " + a], second + ": " + b, other);
    assert [first + ": " + a] + [second + ": " + b] == [first + ": " + a, second + ": " + b];
  }

  lemma {:induction false} ReadPlain(block: seq<string>, more: seq<string>, b: Buffers)
    requires "" !in block
    ensures Read(block + more, b) == Read(more, ProcessAll(b, block))
  {
    if block == [] {
      assert block + more == more;
    } else {
      var front, line := block[..|block| - 1], block[|block| - 1];
      assert block + more == front + ([line] + more) && line in block;
      ReadPlain(front, [line] + more, b);
      assert ([line] + more)[1..] == more;
    }
  }

  /** Both readings of a block, its blank line and more. */
  lemma {:induction false} ReadBlock(block: seq<string>, more: seq<string>, lastId: string)
    requires "" !in block
    ensures AsMessages(LineFrames(block + ([""] + more), NO_FIELDS)) ==
      Yielded(block) + AsMessages(LineFrames(more, NO_FIELDS))
    ensures var b := ProcessAll(Start(lastId), block);
      Read(block + ([""] + more), Start(lastId)) == Dispatch(b) + Read(more, Start(b.lastId))
  {
    LinesBeforeBlankAreOneBlock(block, NO_FIELDS, more);
    AsMessagesAppend(Emit(Complete(AddLines(NO_FIELDS, block))), LineFrames(more, NO_FIELDS));
    ReadPlain(block, [""] + more, Start(lastId));
    assert ([""] + more)[1..] == more;
  }

  lemma {:induction false} NothingLeft()
    ensures LineFrames([""], NO_FIELDS) == []
  {
    LastLinesAreOneBlock([""], NO_FIELDS);
    assert AddLines(NO_FIELDS, [""]) == NO_FIELDS;
  }

  lemma {:induction false} TwoBlocksReported(first: seq<string>, second: seq<string>)
    requires "" !in first && "" !in second
    ensures AsMessages(LineFrames(first + ([""] + (second + ([""] + [""]))), NO_FIELDS))
            == Yielded(first) + Yielded(second)
  {
    ReadBlock(first, second + ([""] + [""]), "");
    ReadBlock(second, [""], "");
    NothingLeft();
    assert Yielded(second) + [] == Yielded(second);
  }

  lemma {:induction false} OneBlockStandard(block: seq<string>)
    requires "" !in block
    ensures Read(Terminated(block + ([""] + [""])), Start("")) == Dispatch(ProcessAll(Start(""), block))
  {
    var b := ProcessAll(Start(""), block);
    ReadBlock(block, [], "");
    assert Terminated(block + ([""] + [""])) == block + ([""] + []);
    assert Dispatch(b) + [] == Dispatch(b);
  }

  /** A text without carriage returns, in one chunk. */
  lemma {:induction false} OneChunk(text: string)
    requires '\r' !in text
    ensures Reported([text]) == AsMessages(Frames(text)) && StandardLines(text) == Lines(text)
  {
    NormalizedOne(text);
    NormalizedCrFree(text);
    LinesAreStandard(text);
  }

  lemma {:induction false} ReadLines(text: string, lines: seq<string>)
    requires '\r' !in text && lines == Lines(text)
    ensures Reported([text]) == AsMessages(LineFrames(lines, NO_FIELDS))
    ensures Standard(text) == Read(Terminated(lines), Start(""))
  {
    OneChunk(text);
    FramesLineByLine(text);
  }

  /** A text of one block: its lines, a blank one, and nothing behind it. */
  lemma {:induction false} ReadOneBlock(text: string, block: seq<string>)
    requires '\r' !in text && "" !in block && Lines(text) == block + ([""] + [""])
    ensures Reported([text]) == Yielded(block)
    ensures Standard(text) == Dispatch(ProcessAll(Start(""), block))
  {
    OneChunk(text);
    FramesLineByLine(text);
    ReadBlock(block, [""], "");
    NothingLeft();
    assert Yielded(block) + [] == Yielded(block);
    OneBlockStandard(block);
  }

  /** `name: value`, `data: data` and a blank line. */
  function FieldAndData(name: string, value: string, data: string): string {
    (name + ": " + value) + "\n" + (("data: " + data) + "\n" + ("\n" + ""))
  }

  lemma {:induction false} ReadFieldAndData(name: string, value: string, data: string)
    requires OneLine(name) && ':' !in name && OneLine(value) && OneLine(data)
    ensures var text, block := FieldAndData(name, value, data), [name + ": " + value, "data" + ": " + data];
      Reported([text]) == Yielded(block) && Standard(text) == Dispatch(ProcessAll(Start(""), block))
  {
    assert "data: " == "data" + ": ";
    var block := [name + ": " + value, "data" + ": " + data];
    TwoLinesThenBlank(name + ": " + value, "data: " + data, "");
    ReadOneBlock(FieldAndData(name, value, data), block);
  }

  /** Both readings of a field and a data line. */
  lemma {:induction false} FieldReads(name: string, value: string, data: string)
    requires OneLine(name) && ':' !in name && name != "data" && OneLine(value) && OneLine(data)
    ensures Reported([FieldAndData(name, value, data)]) ==
      [Message(if name == "event" then value else "message", data, if name == "id" then value else "")]
    ensures Standard(FieldAndData(name, value, data)) ==
      [Message(if name == "event" && value != "" then value else "message", data,
               if name == "id" && NUL !in value then value else "")]
  {
    var block := [name + ": " + value, "data" + ": " + data];
    ReadFieldAndData(name, value, data);
    TwoLineValues(name, value, "data", data, "event");
    TwoLineValues(name, value, "data", data, "data");
    TwoLineValues(name, value, "data", data, "id");
    assert [value][..0] == [];
    YieldedIs(block);
    DispatchIs(block, "");
  }

  /** An event named by the empty text: `message` in the standard, nameless in the code. */
  lemma {:induction false} EmptyNameDiffers(data: string)
    requires OneLine(data)
    ensures Reported([FieldAndData("event", "", data)]) == [Message("", data, "")]
    ensures Standard(FieldAndData("event", "", data)) == [Message("message", data, "")]
  {
    FieldReads("event", "", data);
  }

  /** An id that holds NUL: ignored in the standard, reported by the code. */
  lemma {:induction false} NulIdDiffers(id: string, data: string)
    requires OneLine(data) && OneLine(id) && NUL in id
    ensures Reported([FieldAndData("id", id, data)]) == [Message("message", data, id)]
    ensures Standard(FieldAndData("id", id, data)) == [Message("message", data, "")]
  {
    FieldReads("id", id, data);
  }

  /** Data behind the last blank line: discarded in the standard, an event in the code. */
  lemma {:induction false} UnterminatedDiffers(data: string)
    requires OneLine(data)
    ensures Reported(["data: " + data]) == [Message("message", data, "")]
    ensures Standard("data: " + data) == []
  {
    var line := "data: " + data;
    assert line == "data" + ": " + data;
    LoneLine(line);
    OneDataLine(line, data);
  }

  /** A text of one line without an end. */
  lemma {:induction false} LoneLine(line: string)
    requires OneLine(line)
    ensures Reported([line]) == Yielded([line]) && Standard(line) == []
  {
    OneChunk(line);
    LinesSingle(line);
    FramesLineByLine(line);
    LastLinesAreOneBlock([line], NO_FIELDS);
  }

  /** Two blocks of lines, each ended by a blank line. */
  function TwoBlocks(a: string, b: string, c: string): string {
    a + "\n" + (b + "\n" + ("\n" + (c + "\n\n" + "")))
  }

  lemma {:induction false} TwoBlocksLines(a: string, b: string, c: string)
    requires '\n' !in a && '\n' !in b && '\n' !in c
    ensures Lines(TwoBlocks(a, b, c)) == [a, b] + ([""] + ([c] + ([""] + [""])))
  {
    OneLineThenBlank(c, "");
    TwoLinesThenBlank(a, b, c + "\n\n" + "");
  }

  /** The first block reads alike, as one message whose id is then in force; the second has none. */
  ghost predicate IdThenNone(first: seq<string>, second: seq<string>, id: string, a: string, b: string) {
    && Yielded(first) == Dispatch(ProcessAll(Start(""), first)) == [Message("message", a, id)]
    && ProcessAll(Start(""), first).lastId == id && Yielded(second) == [Message("message", b, "")]
    && Dispatch(ProcessAll(Start(id), second)) == [Message("message", b, id)]
  }

  lemma {:induction false} TwoBlocksRead(x: string, y: string, z: string, id: string, a: string, b: string)
    requires OneLine(x) && OneLine(y) && OneLine(z) && x != "" && y != "" && z != ""
    requires IdThenNone([x, y], [z], id, a, b)
    ensures Reported([TwoBlocks(x, y, z)]) == [Message("message", a, id)] + [Message("message", b, "")]
    ensures Standard(TwoBlocks(x, y, z)) == [Message("message", a, id)] + [Message("message", b, id)]
  {
    var text, first, second := TwoBlocks(x, y, z), [x, y], [z];
    TwoBlocksLines(x, y, z);
    EarlierIdReads(first, second, id, a, b);
    TerminatedTwo(first, second);
    ReadLines(text, first + ([""] + (second + ([""] + [""]))));
  }

  lemma {:induction false} IdThenNoneLines(x: string, y: string, z: string, id: string, a: string, b: string)
    requires NUL !in id && x == "id" + ": " + id && y == "data" + ": " + a && z == "data" + ": " + b
    ensures IdThenNone([x, y], [z], id, a, b)
  {
    TwoLineValues("id", id, "data", a, "event");
    TwoLineValues("id", id, "data", a, "data");
    TwoLineValues("id", id, "data", a, "id");
    FirstBlockReads([x, y], id, a);
    OneLineValues("data", b, "event");
    OneLineValues("data", b, "data");
    OneLineValues("data", b, "id");
    SecondBlockReads([z], b, id);
  }

  /** An event with an id and one without: the standard repeats the id, the code does not. */
  lemma {:induction false} EarlierIdDiffers(x: string, y: string, z: string, id: string, a: string, b: string)
    requires OneLine(id) && OneLine(a) && OneLine(b) && NUL !in id
    requires x == "id" + ": " + id && y == "data" + ": " + a && z == "data" + ": " + b
    ensures Reported([TwoBlocks(x, y, z)]) == [Message("message", a, id)] + [Message("message", b, "")]
    ensures Standard(TwoBlocks(x, y, z)) == [Message("message", a, id)] + [Message("message", b, id)]
  {
    IdThenNoneLines(x, y, z, id, a, b);
    TwoBlocksRead(x, y, z, id, a, b);
  }

  lemma {:induction false} TerminatedTwo(first: seq<string>, second: seq<string>)
    ensures var lines := first + ([""] + (second + ([""] + [""])));
      lines[..|lines| - 1] == first + ([""] + (second + ([""] + [])))
  {
  }

  lemma {:induction false} EarlierIdReads(first: seq<string>, second: seq<string>, id: string, a: string, b: string)
    requires "" !in first && "" !in second
    requires IdThenNone(first, second, id, a, b)
    ensures AsMessages(LineFrames(first + ([""] + (second + ([""] + [""]))), NO_FIELDS)) ==
      [Message("message", a, id)] + [Message("message", b, "")]
    ensures Read(first + ([""] + (second + ([""] + []))), Start("")) ==
      [Message("message", a, id)] + [Message("message", b, id)]
  {
    TwoBlocksReported(first, second);
    ReadBlock(first, second + ([""] + []), "");
    ReadBlock(second, [], id);
  }

  lemma {:induction false} FirstBlockReads(block: seq<string>, id: string, a: string)
    requires NUL !in id && Values(block, "event") == [] && Values(block, "data") == [a] && Values(block, "id") == [id]
    ensures Yielded(block) == Dispatch(ProcessAll(Start(""), block)) == [Message("message", a, id)]
    ensures ProcessAll(Start(""), block).lastId == id
  {
    YieldedIs(block);
    DispatchIs(block, "");
    BuffersHold("", block);
  }

  lemma {:induction false} SecondBlockReads(block: seq<string>, b: string, lastId: string)
    requires Values(block, "event") == [] && Values(block, "data") == [b] && Values(block, "id") == []
    ensures Yielded(block) == [Message("message", b, "")]
    ensures Dispatch(ProcessAll(Start(lastId), block)) == [Message("message", b, lastId)]
  {
    YieldedIs(block);
    DispatchIs(block, lastId);
  }

  /** The chunks of two data lines whose cut falls inside the pair that ends the first. */
  function SplitPair(x: string, y: string): seq<string> { [x + "\r", "\n" + (y + "\r\n\r\n")] }

  lemma {:induction false} EndsNormalize(y: string)
    requires OneLine(y)
    ensures Normalized(y + "\r\n\r\n") == y + "\n" + ("\n" + "")
  {
    NormalizedCut(y + "\r\n", "\r\n");
    NormalizedEnds(y);
    NormalizedEnds("");
    assert y + "\r\n" + "\r\n" == y + "\r\n\r\n" && "" + "\r\n" == "\r\n";
  }

  lemma {:induction false} SplitPairTexts(x: string, y: string)
    requires OneLine(x) && OneLine(y)
    ensures NormalizedEach(SplitPair(x, y)) == x + "\n" + ("\n" + (y + "\n" + ("\n" + "")))
    ensures Normalized(Flat(SplitPair(x, y))) == x + "\n" + (y + "\n" + ("\n" + ""))
  {
    var a, b := x + "\r", "\n" + (y + "\r\n\r\n");
    NormalizedTwo(a, b);
    FlatTwo(a, b);
    SplitPairNormalizes(a, b);
    EndsNormalize(y);
    NormalizedCrFree(x);
    assert a[..|a| - 1] == x && b[1..] == y + "\r\n\r\n";
  }

  lemma {:induction false} SplitPairLines(x: string, y: string)
    requires OneLine(x) && OneLine(y)
    ensures Lines(NormalizedEach(SplitPair(x, y))) == [x] + ([""] + ([y] + ([""] + [""])))
    ensures StandardLines(Flat(SplitPair(x, y))) == [x, y] + ([""] + [""])
  {
    SplitPairTexts(x, y);
    LinesAreStandard(Flat(SplitPair(x, y)));
    TwoLinesThenBlank(x, y, "");
    LineThen(x, "\n" + (y + "\n" + ("\n" + "")));
    BlankThen(y + "\n" + ("\n" + ""));
    LineThen(y, "\n" + "");
    BlankThen("");
  }

  lemma {:induction false} SplitPairReads(x: string, y: string)
    requires OneLine(x) && OneLine(y) && x != "" && y != ""
    ensures Reported(SplitPair(x, y)) == Yielded([x]) + Yielded([y])
    ensures Standard(Flat(SplitPair(x, y))) == Dispatch(ProcessAll(Start(""), [x, y]))
  {
    SplitPairLines(x, y);
    FramesLineByLine(NormalizedEach(SplitPair(x, y)));
    TwoBlocksReported([x], [y]);
    OneBlockStandard([x, y]);
  }

  lemma {:induction false} TwoLinesConform(x: string, y: string)
    requires x != "" && y != "" && BlockConforms([x, y], "")
    ensures BlocksConform(Blocks([x, y] + ([""] + [""])), "")
  {
    var last: seq<string> := [""];
    BlocksCons("", last);
    BlocksCons(y, [""] + last);
    BlocksCons(x, [y] + ([""] + last));
    assert [x, y] + ([""] + last) == [x] + ([y] + ([""] + last));
    assert [y] + [] == [y] && [x] + [y] == [x, y];
    assert Blocks([x, y] + ([""] + last)) == [[x, y]] + [last];
    assert ([[x, y]] + [last])[1..] == [last];
    assert Values(last, "data") == [];
  }

  /** A cut inside a pair: one event of two data lines in the standard, two events in the code, and
      the text itself conforms. */
  lemma {:induction false} SplitPairDiffers(x: string, y: string, a: string, b: string)
    requires OneLine(a) && OneLine(b) && x == "data" + ": " + a && y == "data" + ": " + b
    ensures BlocksConform(Blocks(StandardLines(Flat(SplitPair(x, y)))), "")
    ensures Reported(SplitPair(x, y)) == [Message("message", a, "")] + [Message("message", b, "")]
    ensures Standard(Flat(SplitPair(x, y))) == [Message("message", a + "\n" + b, "")]
  {
    SplitPairReads(x, y);
    SplitPairLines(x, y);
    DataLinesRead(x, y, a, b);
    TwoLinesConform(x, y);
  }

  lemma {:induction false} DataLinesRead(x: string, y: string, a: string, b: string)
    requires x == "data" + ": " + a && y == "data" + ": " + b
    ensures BlockConforms([x, y], "")
    ensures Yielded([x]) == [Message("message", a, "")] && Yielded([y]) == [Message("message", b, "")]
    ensures Dispatch(ProcessAll(Start(""), [x, y])) == [Message("message", a + "\n" + b, "")]
  {
    OneDataLine(x, a);
    OneDataLine(y, b);
    TwoLineValues("data", a, "data", b, "event");
    TwoLineValues("data", a, "data", b, "data");
    TwoLineValues("data", a, "data", b, "id");
    assert [a] + [b] == [a, b] && [a, b][1..] == [b];
    DispatchIs([x, y], "");
  }

  lemma {:induction false} OneDataLine(x: string, a: string)
    requires x == "data" + ": " + a
    ensures Yielded([x]) == [Message("message", a, "")]
  {
    OneLineValues("data", a, "event");
    OneLineValues("data", a, "data");
    OneLineValues("data", a, "id");
    YieldedIs([x]);
  }
}
