/** The text/event-stream reader used for POST streams, the printer on the other side, and the
    same reading taken line by line. */
module EventStream {
  import opened Options

  datatype Frame = Frame(event: string, data: string, id: Option<string>)

  /** The fields of a block under construction. */
  datatype Fields = Fields(event: string, data: seq<string>, id: Option<string>)

  const NO_FIELDS := Fields("message", [], None)

  // --- One block ----------------------------------------------------------------

  /** The text cut at every newline; always at least one line. */
  function Lines(text: string): (r: seq<string>)
    ensures |r| >= 1
  {
    if text == "" then [""]
    else if text[0] == '\n' then [""] + Lines(text[1..])
    else
      var rest := Lines(text[1..]);
      [[text[0]] + rest[0]] + rest[1..]
  }

  /** The index of the first `c`, or -1. */
  function IndexOf(text: string, c: char): (r: int)
    ensures r == -1 || 0 <= r < |text|
  {
    if text == "" then -1
    else if text[0] == c then 0
    else
      var r := IndexOf(text[1..], c);
      if r == -1 then -1 else r + 1
  }

  lemma {:induction false} IndexOfIsFirst(text: string, c: char)
    ensures var r := IndexOf(text, c);
      if r == -1 then c !in text else text[r] == c && c !in text[..r]
  {
    if text != "" && text[0] != c {
      IndexOfIsFirst(text[1..], c);
      var r := IndexOf(text, c);
      if r != -1 { assert text[..r] == [text[0]] + text[1..][..r - 1]; }
    }
  }

  function DropSpace(value: string): string {
    if value != "" && value[0] == ' ' then value[1..] else value
  }

  function AddLine(f: Fields, line: string): Fields {
    if line == "" || line[0] == ':' then f
    else
      var colon := IndexOf(line, ':');
      var field := if colon == -1 then line else line[..colon];
      var value := if colon == -1 then "" else DropSpace(line[colon + 1..]);
      if field == "event" then f.(event := value)
      else if field == "data" then f.(data := f.data + [value])
      else if field == "id" then f.(id := Some(value))
      else f
  }

  function AddLines(f: Fields, lines: seq<string>): Fields
    decreases |lines|
  {
    if lines == [] then f else AddLines(AddLine(f, lines[0]), lines[1..])
  }

  function Joined(data: seq<string>): string {
    if data == [] then "" else if |data| == 1 then data[0]
    else data[0] + "\n" + Joined(data[1..])
  }

  function Complete(f: Fields): Option<Frame> {
    if f.data == [] then None else Some(Frame(f.event, Joined(f.data), f.id))
  }

  function Parsed(block: string): Option<Frame> {
    Complete(AddLines(NO_FIELDS, Lines(block)))
  }

  method ParseBlock(block: string) returns (r: Option<Frame>)
    ensures r == Parsed(block)
  {
    var event := "message";
    var id: Option<string> := None;
    var data: seq<string> := [];
    var lines := Lines(block);
    var i := 0;
    while i < |lines|
      invariant 0 <= i <= |lines|
      invariant AddLines(Fields(event, data, id), lines[i..]) == AddLines(NO_FIELDS, lines)
    {
      var line := lines[i];
      assert lines[i..][0] == line && lines[i..][1..] == lines[i + 1..];
      i := i + 1;
      if line == "" || line[0] == ':' { continue; }
      var colon := IndexOf(line, ':');
      var field := if colon == -1 then line else line[..colon];
      var value := if colon == -1 then "" else DropSpace(line[colon + 1..]);
      if field == "event" { event := value; }
      else if field == "data" { data := data + [value]; }
      else if field == "id" { id := Some(value); }
    }
    if |data| == 0 { return None; }
    return Some(Frame(event, Joined(data), id));
  }

  // --- The reader -----------------------------------------------------------------

  /** `\r\n` and lone `\r` become `\n`, within one chunk. */
  function Normalized(chunk: string): string {
    if chunk == "" then ""
    else if chunk[0] != '\r' then [chunk[0]] + Normalized(chunk[1..])
    else "\n" + Normalized(if |chunk| > 1 && chunk[1] == '\n' then chunk[2..] else chunk[1..])
  }

  /** The index of the first blank-line break, or -1. */
  function Break(text: string): (r: int)
    ensures r == -1 || 0 <= r < |text| - 1
  {
    if |text| < 2 then -1
    else if text[0] == '\n' && text[1] == '\n' then 0
    else
      var r := Break(text[1..]);
      if r == -1 then -1 else r + 1
  }

  predicate BreakAt(text: string, i: int) {
    0 <= i < |text| - 1 && text[i] == '\n' && text[i + 1] == '\n'
  }

  lemma {:induction false} BreakIsFirst(text: string)
    ensures var r := Break(text);
      (r >= 0 ==> BreakAt(text, r)) && forall i :: BreakAt(text, i) ==> 0 <= r <= i
  {
    if |text| >= 2 && !BreakAt(text, 0) {
      BreakIsFirst(text[1..]);
      forall i | BreakAt(text, i) ensures BreakAt(text[1..], i - 1) {}
    }
  }

  function Emit(f: Option<Frame>): seq<Frame> {
    if f.Some? then [f.value] else []
  }

  /** All frames of a whole text: one block per blank-line break, and what is left at the end. */
  function Frames(text: string): seq<Frame>
    decreases |text|
  {
    var i := Break(text);
    if i == -1 then Emit(Parsed(text))
    else Emit(Parsed(text[..i])) + Frames(text[i + 2..])
  }

  /** A break found early is found at the same place whatever follows. */
  lemma {:induction false} BreakStays(a: string, b: string)
    requires Break(a) != -1
    ensures Break(a + b) == Break(a)
  {
    if !BreakAt(a, 0) {
      assert (a + b)[1..] == a[1..] + b;
      BreakStays(a[1..], b);
    }
  }

  lemma {:induction false} FramesAtBreak(text: string, i: nat)
    requires Break(text) == i
    ensures Frames(text) == Emit(Parsed(text[..i])) + Frames(text[i + 2..])
  {
  }

  lemma {:induction false} FramesHead(a: string, b: string)
    requires Break(a) != -1
    ensures Frames(a + b) == Emit(Parsed(a[..Break(a)])) + Frames(a[Break(a) + 2..] + b)
  {
    var i, text := Break(a), a + b;
    BreakStays(a, b);
    assert text[..i] == a[..i] && text[i + 2..] == a[i + 2..] + b;
    FramesAtBreak(text, i);
  }

  lemma {:induction false} Regroup(x: seq<Frame>, y: seq<Frame>, z: seq<Frame>)
    ensures x + (y + z) == (x + y) + z
  {
  }

  /** A complete block at the front is framed the same whatever follows. */
  lemma {:induction false} FramesStep(out: seq<Frame>, a: string, b: string)
    requires Break(a) != -1
    ensures out + Frames(a + b) == (out + Emit(Parsed(a[..Break(a)]))) + Frames(a[Break(a) + 2..] + b)
  {
    FramesHead(a, b);
    Regroup(out, Emit(Parsed(a[..Break(a)])), Frames(a[Break(a) + 2..] + b));
  }

  function Flat(chunks: seq<string>): string {
    if chunks == [] then "" else chunks[0] + Flat(chunks[1..])
  }

  function NormalizedEach(chunks: seq<string>): string {
    if chunks == [] then "" else Normalized(chunks[0]) + NormalizedEach(chunks[1..])
  }

  /** `out` and the frames still ahead are all the frames. */
  ghost predicate Ahead(all: seq<Frame>, out: seq<Frame>, text: string) { all == out + Frames(text) }

  lemma {:induction false} AheadStep(all: seq<Frame>, out: seq<Frame>, buffer: string, later: string)
    requires Break(buffer) != -1 && Ahead(all, out, buffer + later)
    ensures var parsed, rest := Parsed(buffer[..Break(buffer)]), buffer[Break(buffer) + 2..];
      && (parsed.None? ==> Ahead(all, out, rest + later))
      && (parsed.Some? ==> Ahead(all, out + [parsed.value], rest + later))
  {
    FramesStep(out, buffer, later);
    assert out + [] == out;
  }

  /** Yield every complete block of the buffer after `done`; `later` is the text still to come. */
  method DrainBlocks(done: seq<Frame>, text: string, ghost later: string, ghost all: seq<Frame>)
    returns (out: seq<Frame>, buffer: string)
    requires Ahead(all, done, text + later)
    ensures Break(buffer) == -1 && Ahead(all, out, buffer + later)
  {
    out, buffer := done, text;
    var index := Break(buffer);
    while index != -1
      invariant index == Break(buffer) && Ahead(all, out, buffer + later)
      decreases |buffer|
    {
      var block := buffer[..index];
      AheadStep(all, out, buffer, later);
      buffer := buffer[index + 2..];
      var parsed := ParseBlock(block);
      if parsed.Some? { out := out + [parsed.value]; }
      index := Break(buffer);
    }
  }

  lemma {:induction false} NextChunk(chunks: seq<string>, k: nat, buffer: string)
    requires k < |chunks|
    ensures buffer + NormalizedEach(chunks[k..]) == (buffer + Normalized(chunks[k])) + NormalizedEach(chunks[k + 1..])
  {
    assert chunks[k..][0] == chunks[k] && chunks[k..][1..] == chunks[k + 1..];
  }

  method ReadEventStream(chunks: seq<string>) returns (out: seq<Frame>)
    ensures out == Frames(NormalizedEach(chunks))
  {
    out := [];
    var buffer := "";
    ghost var all := Frames(NormalizedEach(chunks));
    var k := 0;
    assert chunks[k..] == chunks && buffer + NormalizedEach(chunks) == NormalizedEach(chunks);
    while k < |chunks|
      invariant 0 <= k <= |chunks| && Break(buffer) == -1
      invariant Ahead(all, out, buffer + NormalizedEach(chunks[k..]))
    {
      NextChunk(chunks, k, buffer);
      out, buffer := DrainBlocks(out, buffer + Normalized(chunks[k]), NormalizedEach(chunks[k + 1..]), all);
      k := k + 1;
    }
    assert chunks[k..] == [] && buffer + "" == buffer;
    var tail := ParseBlock(buffer);
    if tail.Some? { out := out + [tail.value]; }
  }

  // --- Chunking -------------------------------------------------------------------

  /** A cut here falls between a `\r` and its `\n`. */
  predicate SplitsCrlf(before: string, after: string) {
    before != "" && before[|before| - 1] == '\r' && after != "" && after[0] == '\n'
  }

  /** How many characters the first normalised one stands for. */
  function Width(text: string): nat
    requires text != ""
  {
    if text[0] == '\r' && |text| > 1 && text[1] == '\n' then 2 else 1
  }

  lemma {:induction false} NormalizedStep(text: string)
    requires text != ""
    ensures Normalized(text) == [if text[0] == '\r' then '\n' else text[0]] + Normalized(text[Width(text)..])
  {
  }

  lemma {:induction false} CrlfCut(a: string, b: string)
    requires |a| == 1 && SplitsCrlf(a, b)
    ensures |Normalized(a + b)| + 1 == |Normalized(a)| + |Normalized(b)|
  {
    assert (a + b)[2..] == b[1..];
    NormalizedStep(a + b);
    NormalizedStep(b);
    NormalizedStep(a);
  }

  lemma {:induction false} CutStep(a: string, b: string)
    requires a != "" && !(|a| == 1 && SplitsCrlf(a, b))
    ensures Width(a + b) == Width(a) && (a + b)[Width(a)..] == a[Width(a)..] + b
    ensures SplitsCrlf(a, b) <==> SplitsCrlf(a[Width(a)..], b)
  {
    var k := Width(a);
    assert |a| > k ==> a[k..][|a| - k - 1] == a[|a| - 1];
  }

  /** `whole` is the two parts together, or one character short of them. */
  ghost predicate Makes(whole: string, x: string, y: string, short: bool) {
    if short then |whole| + 1 == |x| + |y| else whole == x + y
  }

  lemma {:induction false} MakesCons(c: char, whole: string, x: string, y: string, short: bool)
    requires Makes(whole, x, y, short)
    ensures Makes([c] + whole, [c] + x, y, short)
  {
  }

  lemma {:induction false} NormalizedCut(a: string, b: string)
    ensures Makes(Normalized(a + b), Normalized(a), Normalized(b), SplitsCrlf(a, b))
    decreases |a|
  {
    if a == "" {
      assert a + b == b && Normalized(a) + Normalized(b) == Normalized(b);
    } else if |a| == 1 && SplitsCrlf(a, b) {
      CrlfCut(a, b);
    } else {
      var rest := a[Width(a)..];
      CutStep(a, b);
      NormalizedCut(rest, b);
      NormalizedStep(a);
      NormalizedStep(a + b);
      var c := if a[0] == '\r' then '\n' else a[0];
      MakesCons(c, Normalized(rest + b), Normalized(rest), Normalized(b), SplitsCrlf(a, b));
    }
  }

  /** Normalising two chunks apart gives the text of both together exactly when the cut does
      not fall inside a CRLF pair. */
  lemma {:induction false} CutIsExact(a: string, b: string)
    ensures Normalized(a + b) == Normalized(a) + Normalized(b) <==> !SplitsCrlf(a, b)
  {
    NormalizedCut(a, b);
  }

  /** No cut between chunks falls inside a CRLF pair. */
  predicate CutsCleanly(chunks: seq<string>) {
    chunks == [] || (!SplitsCrlf(chunks[0], Flat(chunks[1..])) && CutsCleanly(chunks[1..]))
  }

  /** Every cut inside a CRLF pair adds a character, and no other does. */
  lemma {:induction false} NormalizedLengths(chunks: seq<string>)
    ensures |NormalizedEach(chunks)| >= |Normalized(Flat(chunks))|
    ensures |NormalizedEach(chunks)| == |Normalized(Flat(chunks))| <==> CutsCleanly(chunks)
  {
    if chunks != [] {
      NormalizedLengths(chunks[1..]);
      NormalizedCut(chunks[0], Flat(chunks[1..]));
    }
  }

  lemma {:induction false} CleanCutsNormalize(chunks: seq<string>)
    requires CutsCleanly(chunks)
    ensures NormalizedEach(chunks) == Normalized(Flat(chunks))
  {
    if chunks != [] {
      CleanCutsNormalize(chunks[1..]);
      NormalizedCut(chunks[0], Flat(chunks[1..]));
    }
  }

  /** Any number of chunks normalise like their text exactly when no cut falls inside a CRLF pair. */
  lemma {:induction false} CutsAreExact(chunks: seq<string>)
    ensures NormalizedEach(chunks) == Normalized(Flat(chunks)) <==> CutsCleanly(chunks)
  {
    NormalizedLengths(chunks);
    if CutsCleanly(chunks) { CleanCutsNormalize(chunks); }
  }

  lemma {:induction false} CrFreeCutsCleanly(chunks: seq<string>)
    requires '\r' !in Flat(chunks)
    ensures CutsCleanly(chunks)
  {
    if chunks != [] {
      var c := chunks[0];
      assert forall i :: 0 <= i < |c| ==> Flat(chunks)[i] == c[i];
      assert forall i :: 0 <= i < |Flat(chunks[1..])| ==> Flat(chunks)[|c| + i] == Flat(chunks[1..])[i];
      CrFreeCutsCleanly(chunks[1..]);
    }
  }

  /** Every way of cutting a text yields the frames of the text in one chunk, as long as no cut
      splits a CRLF pair; a text without `\r` has no such pair. */
  lemma {:induction false} ChunkInvariance(chunks: seq<string>)
    requires CutsCleanly(chunks) || '\r' !in Flat(chunks)
    ensures Frames(NormalizedEach(chunks)) == Frames(NormalizedEach([Flat(chunks)]))
  {
    if '\r' !in Flat(chunks) { CrFreeCutsCleanly(chunks); }
    CleanCutsNormalize(chunks);
    var whole := [Flat(chunks)];
    assert whole[1..] == [] && NormalizedEach(whole) == Normalized(whole[0]) + NormalizedEach([]);
    assert NormalizedEach(whole) == Normalized(Flat(chunks));
  }

  // --- The same frames line by line -------------------------------------------------

  /** Fields collect until a blank line or the end of the text sends them off. */
  function LineFrames(lines: seq<string>, f: Fields): seq<Frame>
    decreases |lines|
  {
    if lines == [] then Emit(Complete(f))
    else if lines[0] == "" then Emit(Complete(f)) + LineFrames(lines[1..], NO_FIELDS)
    else LineFrames(lines[1..], AddLine(f, lines[0]))
  }

  lemma {:induction false} LinesAppend(a: string, b: string)
    ensures Lines(a + "\n" + b) == Lines(a) + Lines(b)
  {
    var text := a + "\n" + b;
    if a == "" {
      assert text[1..] == b;
    } else {
      assert text[1..] == a[1..] + "\n" + b;
      LinesAppend(a[1..], b);
    }
  }

  lemma {:induction false} LinesSingle(line: string)
    requires '\n' !in line
    ensures Lines(line) == [line]
  {
    if line != "" {
      LinesSingle(line[1..]);
      assert line == [line[0]] + line[1..];
    }
  }

  lemma {:induction false} CutAtNewline(text: string, i: nat)
    requires i < |text| && text[i] == '\n'
    ensures text == text[..i] + "\n" + text[i + 1..]
  {
  }

  /** The first line of a text and the text after it. */
  lemma {:induction false} FirstLine(text: string) returns (line: string, rest: Option<string>)
    ensures '\n' !in line && (line == "" <==> text == "" || text[0] == '\n')
    ensures rest.Some? ==> text == line + "\n" + rest.value && Lines(text) == [line] + Lines(rest.value)
    ensures rest.None? ==> text == line && Lines(text) == [line]
  {
    var i := IndexOf(text, '\n');
    IndexOfIsFirst(text, '\n');
    if i == -1 {
      line, rest := text, None;
      LinesSingle(line);
    } else {
      line, rest := text[..i], Some(text[i + 1..]);
      CutAtNewline(text, i);
      LineThen(line, rest.value);
    }
  }

  lemma {:induction false} NoBreakAfter(line: string, rest: string)
    requires Break(line + "\n" + rest) == -1
    ensures Break(rest) == -1 && (rest == "" || rest[0] != '\n')
  {
    var text := line + "\n" + rest;
    BreakIsFirst(text);
    BreakIsFirst(rest);
    assert rest != "" && rest[0] == '\n' ==> BreakAt(text, |line|);
    assert Break(rest) != -1 ==> BreakAt(text, |line| + 1 + Break(rest));
  }

  /** A stretch that has no break and does not open with a newline holds no blank line, except
      perhaps an empty last one. */
  lemma {:induction false} StretchHasNoBlank(text: string)
    requires Break(text) == -1 && (text == "" || text[0] != '\n')
    ensures forall i :: 0 <= i < |Lines(text)| - 1 ==> Lines(text)[i] != ""
    ensures text != "" && text[|text| - 1] != '\n' ==> Lines(text)[|Lines(text)| - 1] != ""
    decreases |text|
  {
    var line, rest := FirstLine(text);
    if rest.Some? {
      NoBreakAfter(line, rest.value);
      StretchHasNoBlank(rest.value);
      assert rest.value != "" ==> rest.value[|rest.value| - 1] == text[|text| - 1];
    }
  }

  /** Lines without a blank one, up to the end, are one block. */
  lemma {:induction false} LastLinesAreOneBlock(lines: seq<string>, f: Fields)
    requires lines != [] && forall i :: 0 <= i < |lines| - 1 ==> lines[i] != ""
    ensures LineFrames(lines, f) == Emit(Complete(AddLines(f, lines)))
  {
    var line, rest := lines[0], lines[1..];
    assert lines == [line] + rest;
    LineFramesCons(line, rest, f);
    AddLinesCons(line, rest, f);
    if rest != [] { LastLinesAreOneBlock(rest, AddLine(f, line)); }
  }

  /** Lines without a blank one are one block up to the blank line behind them. */
  lemma {:induction false} LinesBeforeBlankAreOneBlock(lines: seq<string>, f: Fields, more: seq<string>)
    requires "" !in lines
    ensures LineFrames(lines + ([""] + more), f) == Emit(Complete(AddLines(f, lines))) + LineFrames(more, NO_FIELDS)
  {
    if lines == [] {
      assert lines + ([""] + more) == [""] + more;
      LineFramesCons("", more, f);
    } else {
      var line, rest := lines[0], lines[1..];
      assert lines == [line] + rest && line in lines;
      LineFramesCons(line, rest + ([""] + more), f);
      assert lines + ([""] + more) == [line] + (rest + ([""] + more));
      AddLinesCons(line, rest, f);
      LinesBeforeBlankAreOneBlock(rest, AddLine(f, line), more);
    }
  }

  /** A stretch without a break, read line by line, is one block. */
  lemma {:induction false} StretchAtEnd(text: string, f: Fields)
    requires Break(text) == -1 && (text == "" || text[0] != '\n')
    ensures LineFrames(Lines(text), f) == Emit(Complete(AddLines(f, Lines(text))))
  {
    StretchHasNoBlank(text);
    LastLinesAreOneBlock(Lines(text), f);
  }

  /** The same, followed by a blank line and more. */
  lemma {:induction false} StretchBeforeBlank(text: string, more: seq<string>)
    requires Break(text) == -1 && (text == "" || (text[0] != '\n' && text[|text| - 1] != '\n'))
    ensures LineFrames(Lines(text) + ([""] + more), NO_FIELDS)
            == Emit(Complete(AddLines(NO_FIELDS, Lines(text)))) + LineFrames(more, NO_FIELDS)
  {
    if text == "" {
      LinesBeforeBlankAreOneBlock([], NO_FIELDS, [""] + more);
      LinesBeforeBlankAreOneBlock([], NO_FIELDS, more);
      assert Lines(text) + ([""] + more) == [] + ([""] + ([""] + more));
      assert AddLines(NO_FIELDS, [""]) == NO_FIELDS;
    } else {
      StretchHasNoBlank(text);
      LinesBeforeBlankAreOneBlock(Lines(text), NO_FIELDS, more);
    }
  }

  /** A break-free stretch that opens with a newline: the blank line sends off nothing. */
  lemma {:induction false} LeadingNewline(text: string)
    requires Break(text) == -1 && text != "" && text[0] == '\n'
    ensures Break(text[1..]) == -1 && (text[1..] == "" || text[1] != '\n')
    ensures Lines(text) == [""] + Lines(text[1..])
    ensures AddLines(NO_FIELDS, Lines(text)) == AddLines(NO_FIELDS, Lines(text[1..]))
    ensures forall more :: LineFrames(Lines(text) + more, NO_FIELDS) == LineFrames(Lines(text[1..]) + more, NO_FIELDS)
  {
    assert text == "" + "\n" + text[1..];
    NoBreakAfter("", text[1..]);
    forall more ensures LineFrames(Lines(text) + more, NO_FIELDS) == LineFrames(Lines(text[1..]) + more, NO_FIELDS) {
      assert (Lines(text) + more)[1..] == Lines(text[1..]) + more;
    }
  }

  /** Splitting at blank-line breaks and parsing blocks gives exactly the line-by-line reading. */
  lemma {:induction false} FramesLineByLine(text: string)
    ensures Frames(text) == LineFrames(Lines(text), NO_FIELDS)
    decreases |text|
  {
    var i := Break(text);
    if i == -1 {
      WholeIsOneBlock(text);
    } else {
      var block, rest := text[..i], text[i + 2..];
      BreakIsFirst(text);
      BreakIsFirst(block);
      assert Break(block) != -1 ==> BreakAt(text, Break(block));
      assert block != "" && block[i - 1] == '\n' ==> BreakAt(text, i - 1);
      assert text == block + "\n" + ("\n" + rest);
      LinesAppend(block, "\n" + rest);
      assert Lines("\n" + rest) == [""] + Lines(rest) by { assert ("\n" + rest)[1..] == rest; }
      BlockThenBlank(block, Lines(rest));
      FramesLineByLine(rest);
    }
  }

  lemma {:induction false} WholeIsOneBlock(text: string)
    requires Break(text) == -1
    ensures LineFrames(Lines(text), NO_FIELDS) == Emit(Parsed(text))
  {
    if text != "" && text[0] == '\n' {
      LeadingNewline(text);
      StretchAtEnd(text[1..], NO_FIELDS);
      assert Lines(text) + [] == Lines(text) && Lines(text[1..]) + [] == Lines(text[1..]);
    } else {
      StretchAtEnd(text, NO_FIELDS);
    }
  }

  lemma {:induction false} BlockThenBlank(block: string, more: seq<string>)
    requires Break(block) == -1 && (block == "" || block[|block| - 1] != '\n')
    ensures LineFrames(Lines(block) + ([""] + more), NO_FIELDS) == Emit(Parsed(block)) + LineFrames(more, NO_FIELDS)
  {
    if block != "" && block[0] == '\n' {
      LeadingNewline(block);
      StretchBeforeBlank(block[1..], more);
    } else {
      StretchBeforeBlank(block, more);
    }
  }

  // --- Printing and reading back ------------------------------------------------------

  /** What the server writes: events, keepalive comments and retry hints. */
  datatype Piece = Event(id: Option<string>, event: string, data: string)
                 | Comment(text: string) | Retry(delay: string)

  predicate OneLine(s: string) { '\n' !in s && '\r' !in s }

  predicate Printable(p: Piece) {
    match p
    case Event(id, event, data) => (id.Some? ==> OneLine(id.value)) && OneLine(event) && OneLine(data)
    case Comment(text) => OneLine(text)
    case Retry(delay) => OneLine(delay)
  }

  /** The lines of a piece, without the newlines that end them. */
  function PieceLines(p: Piece): seq<string> {
    match p
    case Event(id, event, data) =>
      (if id.Some? then ["id: " + id.value] else []) + ["event: " + event, "data: " + data]
    case Comment(text) => [":" + text]
    case Retry(delay) => ["retry: " + delay]
  }

  function SseEvent(event: string, data: string, id: Option<string>): string {
    var idLine := if id.Some? then "id: " + id.value + "\n" else "";
    idLine + "event: " + event + "\ndata: " + data + "\n\n"
  }

  function Printed(p: Piece): string {
    match p
    case Event(id, event, data) => SseEvent(event, data, id)
    case Comment(text) => ":" + text + "\n\n"
    case Retry(delay) => "retry: " + delay + "\n\n"
  }

  function PrintedAll(pieces: seq<Piece>): string {
    if pieces == [] then "" else Printed(pieces[0]) + PrintedAll(pieces[1..])
  }

  function FramesOf(pieces: seq<Piece>): seq<Frame> {
    if pieces == [] then []
    else (if pieces[0].Event? then [Frame(pieces[0].event, pieces[0].data, pieces[0].id)] else [])
         + FramesOf(pieces[1..])
  }

  lemma {:induction false} IndexAfter(a: string, c: char, b: string)
    requires c !in a
    ensures IndexOf(a + [c] + b, c) == |a|
  {
    if a != "" {
      assert (a + [c] + b)[1..] == a[1..] + [c] + b;
      IndexAfter(a[1..], c, b);
    }
  }

  lemma {:induction false} ValueOfLine(f: Fields, name: string, value: string, line: string)
    requires name == "id" || name == "event" || name == "data" || name == "retry"
    requires line == name + ([':'] + (" " + value))
    ensures AddLine(f, line) ==
      if name == "event" then f.(event := value)
      else if name == "data" then f.(data := f.data + [value])
      else if name == "id" then f.(id := Some(value)) else f
  {
    assert line == name + [':'] + (" " + value);
    IndexAfter(name, ':', " " + value);
    assert line[..|name|] == name;
    assert line[|name| + 1..] == " " + value;
  }

  lemma {:induction false} EventLine(f: Fields, v: string)
    ensures AddLine(f, "event: " + v) == f.(event := v)
  {
    ValueOfLine(f, "event", v, "event: " + v);
  }

  lemma {:induction false} DataLine(f: Fields, v: string)
    ensures AddLine(f, "data: " + v) == f.(data := f.data + [v])
  {
    ValueOfLine(f, "data", v, "data: " + v);
  }

  lemma {:induction false} IdLine(f: Fields, v: string)
    ensures AddLine(f, "id: " + v) == f.(id := Some(v))
  {
    ValueOfLine(f, "id", v, "id: " + v);
  }

  lemma {:induction false} RetryLine(f: Fields, v: string)
    ensures AddLine(f, "retry: " + v) == f
  {
    ValueOfLine(f, "retry", v, "retry: " + v);
  }

  lemma {:induction false} BlankThen(rest: string)
    ensures Lines("\n" + rest) == [""] + Lines(rest)
  {
    assert ("\n" + rest)[1..] == rest;
  }

  lemma {:induction false} TwoLinesText(first: string, name: string, value: string, rest: string)
    ensures first + ("\n" + name) + value + "\n\n" + rest == first + "\n" + ((name + value) + "\n" + ("\n" + rest))
  {
  }

  lemma {:induction false} TwoLinesThenBlank(first: string, second: string, rest: string)
    requires '\n' !in first && '\n' !in second
    ensures Lines(first + "\n" + (second + "\n" + ("\n" + rest))) == [first, second] + ([""] + Lines(rest))
  {
    var tail := "\n" + rest;
    var later := second + "\n" + tail;
    BlankThen(rest);
    LineThen(second, tail);
    LineThen(first, later);
    assert [first] + ([second] + Lines(tail)) == [first, second] + Lines(tail);
  }

  lemma {:induction false} EventBodyLines(event: string, data: string, rest: string)
    requires OneLine(event) && OneLine(data)
    ensures Lines("event: " + event + "\ndata: " + data + "\n\n" + rest)
            == ["event: " + event, "data: " + data] + ([""] + Lines(rest))
  {
    assert "\ndata: " == "\n" + "data: ";
    TwoLinesText("event: " + event, "data: ", data, rest);
    TwoLinesThenBlank("event: " + event, "data: " + data, rest);
  }

  lemma {:induction false} OneLineThenBlank(line: string, rest: string)
    requires '\n' !in line
    ensures Lines(line + "\n\n" + rest) == [line] + ([""] + Lines(rest))
  {
    BlankThen(rest);
    LineThen(line, "\n" + rest);
    assert line + "\n\n" + rest == line + "\n" + ("\n" + rest);
  }

  lemma {:induction false} Regroup5(a: string, b: string, c: string, d: string, e: string, f: string, rest: string)
    ensures a + b + c + d + e + f + rest == a + (b + c + d + e + f + rest)
  {
  }

  lemma {:induction false} EventText(event: string, data: string, id: Option<string>, rest: string)
    ensures var body := "event: " + event + "\ndata: " + data + "\n\n" + rest;
      SseEvent(event, data, id) + rest == if id.Some? then ("id: " + id.value) + "\n" + body else body
  {
    var idLine := if id.Some? then "id: " + id.value + "\n" else "";
    Regroup5(idLine, "event: ", event, "\ndata: ", data, "\n\n", rest);
  }

  lemma {:induction false} EventLines(event: string, data: string, id: Option<string>, rest: string)
    requires OneLine(event) && OneLine(data) && (id.Some? ==> OneLine(id.value))
    ensures Lines(SseEvent(event, data, id) + rest) == PieceLines(Event(id, event, data)) + ([""] + Lines(rest))
  {
    EventText(event, data, id, rest);
    EventBodyLines(event, data, rest);
    if id.Some? { LineThen("id: " + id.value, "event: " + event + "\ndata: " + data + "\n\n" + rest); }
  }

  /** A printed piece holds its lines, then the blank line. */
  lemma {:induction false} PrintedLines(p: Piece, rest: string)
    requires Printable(p)
    ensures Lines(Printed(p) + rest) == PieceLines(p) + ([""] + Lines(rest))
  {
    match p
    case Comment(text) =>
      OneLineThenBlank(":" + text, rest);
      assert Printed(p) + rest == (":" + text) + "\n\n" + rest;
    case Retry(delay) =>
      OneLineThenBlank("retry: " + delay, rest);
      assert Printed(p) + rest == ("retry: " + delay) + "\n\n" + rest;
    case Event(id, event, data) =>
      EventLines(event, data, id, rest);
  }

  lemma {:induction false} LineThen(line: string, rest: string)
    requires '\n' !in line
    ensures Lines(line + "\n" + rest) == [line] + Lines(rest)
  {
    LinesSingle(line);
    LinesAppend(line, rest);
  }

  lemma {:induction false} AddLinesCons(line: string, rest: seq<string>, f: Fields)
    ensures AddLines(f, [line] + rest) == AddLines(AddLine(f, line), rest)
  {
    assert ([line] + rest)[1..] == rest;
  }

  lemma {:induction false} LineFramesCons(line: string, rest: seq<string>, f: Fields)
    ensures line != "" ==> LineFrames([line] + rest, f) == LineFrames(rest, AddLine(f, line))
    ensures line == "" ==> LineFrames([line] + rest, f) == Emit(Complete(f)) + LineFrames(rest, NO_FIELDS)
  {
    assert ([line] + rest)[1..] == rest;
  }

  lemma {:induction false} EventReadsBack(f: Fields, event: string, data: string, more: seq<string>)
    requires f.data == []
    ensures LineFrames(["event: " + event, "data: " + data, ""] + more, f)
            == [Frame(event, data, f.id)] + LineFrames(more, NO_FIELDS)
  {
    var g := f.(event := event);
    var h := g.(data := [data]);
    EventLine(f, event);
    DataLine(g, data);
    LineFramesCons("event: " + event, ["data: " + data] + ([""] + more), f);
    LineFramesCons("data: " + data, [""] + more, g);
    LineFramesCons("", more, h);
    assert ["event: " + event] + (["data: " + data] + ([""] + more)) == ["event: " + event, "data: " + data, ""] + more;
    assert g.data + [data] == [data];
  }

  /** Reading a piece's lines from scratch and meeting the blank line gives its frame back. */
  lemma {:induction false} PieceReadsBack(p: Piece, more: seq<string>)
    requires Printable(p)
    ensures LineFrames(PieceLines(p) + ([""] + more), NO_FIELDS)
            == (if p.Event? then [Frame(p.event, p.data, p.id)] else []) + LineFrames(more, NO_FIELDS)
  {
    var lines := PieceLines(p) + ([""] + more);
    match p
    case Comment(text) =>
      assert lines[1..] == [""] + more && lines[1..][1..] == more;
    case Retry(delay) =>
      assert lines[1..] == [""] + more && lines[1..][1..] == more;
      RetryLine(NO_FIELDS, delay);
    case Event(id, event, data) =>
      var two := ["event: " + event, "data: " + data, ""] + more;
      if id.Some? {
        IdLine(NO_FIELDS, id.value);
        assert lines[1..] == two;
        EventReadsBack(NO_FIELDS.(id := id), event, data, more);
      } else {
        assert lines == two;
        EventReadsBack(NO_FIELDS, event, data, more);
      }
  }

  lemma {:induction false} PrintedHasNoCr(p: Piece)
    requires Printable(p)
    ensures '\r' !in Printed(p)
  {
  }

  lemma {:induction false} PrintedReadsBack(pieces: seq<Piece>)
    requires forall p :: p in pieces ==> Printable(p)
    ensures LineFrames(Lines(PrintedAll(pieces)), NO_FIELDS) == FramesOf(pieces)
    ensures '\r' !in PrintedAll(pieces)
  {
    if pieces == [] {
      assert LineFrames([""], NO_FIELDS) == Emit(Complete(NO_FIELDS)) + LineFrames([], NO_FIELDS);
    } else {
      PrintedHasNoCr(pieces[0]);
      PrintedLines(pieces[0], PrintedAll(pieces[1..]));
      PieceReadsBack(pieces[0], Lines(PrintedAll(pieces[1..])));
      PrintedReadsBack(pieces[1..]);
    }
  }

  /** Round trip: whatever the server writes and however it is cut up on the way, the reader
      yields exactly its events, in order. */
  lemma {:induction false} RoundTrip(pieces: seq<Piece>, chunks: seq<string>)
    requires forall p :: p in pieces ==> Printable(p)
    requires Flat(chunks) == PrintedAll(pieces)
    ensures Frames(NormalizedEach(chunks)) == FramesOf(pieces)
  {
    PrintedReadsBack(pieces);
    CrFreeCutsCleanly(chunks);
    CleanCutsNormalize(chunks);
    NormalizedCrFree(Flat(chunks));
    FramesLineByLine(Flat(chunks));
  }

  lemma {:induction false} NormalizedCrFree(text: string)
    requires '\r' !in text
    ensures Normalized(text) == text
  {
    if text != "" { NormalizedCrFree(text[1..]); }
  }

  lemma {:induction false} NormalizedTwo(a: string, b: string)
    ensures NormalizedEach([a, b]) == Normalized(a) + Normalized(b)
  {
    assert [a, b][1..] == [b] && [b][1..] == [];
    assert NormalizedEach([b]) == Normalized(b) + "";
  }

  lemma {:induction false} NormalizedEnds(x: string)
    requires OneLine(x)
    ensures Normalized(x + "\r") == x + "\n" && Normalized(x + "\r\n") == x + "\n"
  {
    NormalizedCut(x, "\r");
    NormalizedCut(x, "\r\n");
    NormalizedCrFree(x);
    assert Normalized("\r") == "\n" + Normalized("");
    assert Normalized("\r\n") == "\n" + Normalized("");
  }

  lemma {:induction false} TwoDataLines(a: string, b: string)
    ensures LineFrames(["data: " + a] + ["data: " + b], NO_FIELDS) == [Frame("message", a + "\n" + b, None)]
    ensures LineFrames(["data: " + a] + ([""] + ["data: " + b]), NO_FIELDS)
            == [Frame("message", a, None), Frame("message", b, None)]
  {
    var x, y := "data: " + a, "data: " + b;
    var f := NO_FIELDS.(data := [a]);
    DataLine(NO_FIELDS, a);
    DataLine(NO_FIELDS, b);
    DataLine(f, b);
    LineFramesCons(x, [y], NO_FIELDS);
    LineFramesCons(x, [""] + [y], NO_FIELDS);
    LineFramesCons("", [y], f);
    assert [y] + [] == [y];
    LineFramesCons(y, [], f);
    LineFramesCons(y, [], NO_FIELDS);
    assert NO_FIELDS.data + [a] == [a] && NO_FIELDS.data + [b] == [b] && f.data + [b] == [a, b];
    assert [a, b][1..] == [b] && Joined([a, b]) == a + "\n" + b;
  }

  /** A cut inside a CRLF pair can change the events: one event of two data lines arrives as two
      events, although the text is the same. */
  lemma {:induction false} SplitCrlfBreaksAnEvent(a: string, b: string)
    requires OneLine(a) && OneLine(b)
    ensures var x, y := "data: " + a, "data: " + b;
      && Flat([x + "\r", "\n" + y]) == Flat([x + "\r\n", y])
      && Frames(NormalizedEach([x + "\r", "\n" + y])) == [Frame("message", a, None), Frame("message", b, None)]
      && Frames(NormalizedEach([x + "\r\n", y])) == [Frame("message", a + "\n" + b, None)]
  {
    var x, y := "data: " + a, "data: " + b;
    assert Flat([x + "\r", "\n" + y]) == Flat([x + "\r\n", y]) by {
      FlatTwo(x + "\r", "\n" + y);
      FlatTwo(x + "\r\n", y);
    }
    NormalizedEnds(x);
    NormalizedCrFree(y);
    NormalizedCrFree("\n" + y);
    NormalizedTwo(x + "\r", "\n" + y);
    NormalizedTwo(x + "\r\n", y);
    SplitLines(x, y);
    TwoDataLines(a, b);
  }

  lemma {:induction false} SplitLines(x: string, y: string)
    requires OneLine(x) && OneLine(y)
    ensures Frames(x + "\n" + ("\n" + y)) == LineFrames([x] + ([""] + [y]), NO_FIELDS)
    ensures Frames(x + "\n" + y) == LineFrames([x] + [y], NO_FIELDS)
  {
    FramesLineByLine(x + "\n" + ("\n" + y));
    FramesLineByLine(x + "\n" + y);
    LineThen(x, "\n" + y);
    LineThen(x, y);
    BlankThen(y);
    LinesSingle(y);
  }

  lemma {:induction false} FlatTwo(a: string, b: string)
    ensures Flat([a, b]) == a + b
  {
    assert [a, b][1..] == [b] && [b][1..] == [] && Flat([b]) == b + "";
  }
}
