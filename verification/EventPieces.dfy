/** What any list of chunks does to the events: every cut inside a CRLF pair parts a block of the
    text into pieces, and the events stay exactly when the pieces of each block say what it says. */
module EventPieces {
  import opened Options
  import opened EventBlocks
  import opened EventCuts
  import opened EventStream

  // --- The text between the split pairs ---------------------------------------------------------

  /** The normalised text, taken apart at the pairs that a cut splits. */
  function Stretches(chunks: seq<string>): (r: seq<string>)
    ensures r != []
  {
    if chunks == [] then [""]
    else
      var c, rest := chunks[0], Stretches(chunks[1..]);
      if SplitsCrlf(c, Flat(chunks[1..])) then [Normalized(c[..|c| - 1])] + [DropFirst(rest[0])] + rest[1..]
      else [Normalized(c) + rest[0]] + rest[1..]
  }

  function DropFirst(text: string): string { if text == "" then "" else text[1..] }

  function JoinedBy(parts: seq<string>, between: string): string
    requires parts != []
  {
    if |parts| == 1 then parts[0] else parts[0] + between + JoinedBy(parts[1..], between)
  }

  lemma {:induction false} JoinedCons(part: string, more: seq<string>, between: string)
    requires more != []
    ensures JoinedBy([part] + more, between) == part + between + JoinedBy(more, between)
  {
    assert ([part] + more)[1..] == more;
  }

  lemma {:induction false} JoinedFirst(head: string, parts: seq<string>, between: string)
    requires parts != []
    ensures JoinedBy([head + parts[0]] + parts[1..], between) == head + JoinedBy(parts, between)
  {
    var more := [head + parts[0]] + parts[1..];
    assert more[1..] == parts[1..];
  }

  /** A text that opens with a newline keeps it in its first stretch. */
  lemma {:induction false} FirstNewline(chunks: seq<string>)
    requires Flat(chunks) != "" && Flat(chunks)[0] == '\n'
    ensures Stretches(chunks)[0] != "" && Stretches(chunks)[0][0] == '\n'
  {
    var c := chunks[0];
    if c == "" {
      FirstNewline(chunks[1..]);
    } else {
      assert c[0] == '\n';
    }
  }

  /** The text of the chunks, with one newline at each split pair for the whole and two for the parts. */
  ghost predicate MadeOf(chunks: seq<string>, parts: seq<string>)
    requires parts != []
  {
    Normalized(Flat(chunks)) == JoinedBy(parts, "\n") && NormalizedEach(chunks) == JoinedBy(parts, "\n\n")
  }

  lemma {:induction false} AfterSplit(head: string, rest: seq<string>, between: string)
    requires rest != [] && rest[0] != "" && rest[0][0] == '\n'
    ensures JoinedBy(rest, between) == "\n" + JoinedBy([DropFirst(rest[0])] + rest[1..], between)
    ensures JoinedBy([head] + [DropFirst(rest[0])] + rest[1..], between)
            == head + between + JoinedBy([DropFirst(rest[0])] + rest[1..], between)
  {
    var more := [DropFirst(rest[0])] + rest[1..];
    assert rest[0] == "\n" + DropFirst(rest[0]) && more[1..] == rest[1..];
    JoinedFirst("\n", more, between);
    assert ["\n" + more[0]] + more[1..] == rest;
    JoinedCons(head, more, between);
    assert [head] + [DropFirst(rest[0])] + rest[1..] == [head] + more;
  }

  lemma {:induction false} SplitMadeOf(c: string, chunks: seq<string>, rest: seq<string>)
    requires SplitsCrlf(c, Flat(chunks)) && rest != [] && rest[0] != "" && rest[0][0] == '\n' && MadeOf(chunks, rest)
    ensures MadeOf([c] + chunks, [Normalized(c[..|c| - 1])] + [DropFirst(rest[0])] + rest[1..])
  {
    var x, y := Normalized(c[..|c| - 1]), Normalized(Flat(chunks)[1..]);
    var more := [DropFirst(rest[0])] + rest[1..];
    SplitPairNormalizes(c, Flat(chunks));
    AfterSplit(x, rest, "\n");
    AfterSplit(x, rest, "\n\n");
    assert ([c] + chunks)[1..] == chunks;
    SameAfter("\n", y, JoinedBy(more, "\n"));
    TwoNewlinesBetween(x, JoinedBy(more, "\n\n"));
  }

  lemma {:induction false} SameAfter(head: string, a: string, b: string)
    requires head + a == head + b
    ensures a == b
  {
    assert (head + a)[|head|..] == a && (head + b)[|head|..] == b;
  }

  lemma {:induction false} TwoNewlinesBetween(a: string, b: string)
    ensures (a + "\n") + ("\n" + b) == a + "\n\n" + b
  {
  }

  lemma {:induction false} PlainMadeOf(c: string, chunks: seq<string>, rest: seq<string>)
    requires !SplitsCrlf(c, Flat(chunks)) && rest != [] && MadeOf(chunks, rest)
    ensures MadeOf([c] + chunks, [Normalized(c) + rest[0]] + rest[1..])
  {
    CutIsExact(c, Flat(chunks));
    JoinedFirst(Normalized(c), rest, "\n");
    JoinedFirst(Normalized(c), rest, "\n\n");
    assert ([c] + chunks)[1..] == chunks;
  }

  lemma {:induction false} ChunksMadeOf(chunks: seq<string>)
    ensures MadeOf(chunks, Stretches(chunks))
  {
    if chunks != [] {
      var c, more := chunks[0], chunks[1..];
      assert chunks == [c] + more;
      ChunksMadeOf(more);
      if SplitsCrlf(c, Flat(more)) {
        FirstNewline(more);
        SplitMadeOf(c, more, Stretches(more));
      } else {
        PlainMadeOf(c, more, Stretches(more));
      }
    }
  }

  // --- Lines and marks -------------------------------------------------------------------------

  /** A line of the text, or the mark of a blank line that a cut inserts. */
  type Mark = Option<string>

  function Marks(lines: seq<string>): seq<Mark> {
    if lines == [] then [] else [Some(lines[0])] + Marks(lines[1..])
  }

  function Marked(parts: seq<string>): (r: seq<Mark>)
    requires parts != []
  {
    if |parts| == 1 then Marks(Lines(parts[0])) else Marks(Lines(parts[0])) + ([None] + Marked(parts[1..]))
  }

  /** The lines of the text. */
  function Whole(marked: seq<Mark>): seq<string> {
    if marked == [] then []
    else (if marked[0].Some? then [marked[0].value] else []) + Whole(marked[1..])
  }

  /** The lines the reader gets. */
  function Split(marked: seq<Mark>): seq<string> {
    if marked == [] then []
    else [if marked[0].Some? then marked[0].value else ""] + Split(marked[1..])
  }

  lemma {:induction false} ReadMark(mark: Mark, more: seq<Mark>)
    ensures Whole([mark] + more) == if mark.Some? then [mark.value] + Whole(more) else Whole(more)
    ensures Split([mark] + more) == [if mark.Some? then mark.value else ""] + Split(more)
  {
    assert ([mark] + more)[1..] == more;
  }

  lemma {:induction false} MarksThen(lines: seq<string>, more: seq<Mark>)
    ensures Whole(Marks(lines) + more) == lines + Whole(more) && Split(Marks(lines) + more) == lines + Split(more)
  {
    if lines == [] {
      assert Marks(lines) + more == more;
    } else {
      var line, rest := lines[0], lines[1..];
      MarksThen(rest, more);
      ReadMark(Some(line), Marks(rest) + more);
      assert Marks(lines) + more == [Some(line)] + (Marks(rest) + more);
      ConsThen(line, rest, lines, Whole(more));
      ConsThen(line, rest, lines, Split(more));
    }
  }

  lemma {:induction false} ConsThen(line: string, rest: seq<string>, lines: seq<string>, more: seq<string>)
    requires lines == [line] + rest
    ensures [line] + (rest + more) == lines + more
  {
  }

  lemma {:induction false} LinesThenMark(lines: seq<string>, more: seq<Mark>)
    ensures Whole(Marks(lines) + ([None] + more)) == lines + Whole(more)
    ensures Split(Marks(lines) + ([None] + more)) == lines + ([""] + Split(more))
  {
    MarksThen(lines, [None] + more);
    ReadMark(None, more);
  }

  lemma {:induction false} LinesAlone(lines: seq<string>)
    ensures Whole(Marks(lines)) == lines && Split(Marks(lines)) == lines
  {
    MarksThen(lines, []);
    assert Marks(lines) + [] == Marks(lines) && lines + [] == lines;
  }

  lemma {:induction false} MarkedWhole(parts: seq<string>)
    requires parts != []
    ensures Whole(Marked(parts)) == Lines(JoinedBy(parts, "\n"))
  {
    if |parts| == 1 {
      LinesAlone(Lines(parts[0]));
    } else {
      MarkedWhole(parts[1..]);
      LinesThenMark(Lines(parts[0]), Marked(parts[1..]));
      LinesAppend(parts[0], JoinedBy(parts[1..], "\n"));
    }
  }

  lemma {:induction false} TwoNewlines(a: string, b: string)
    ensures Lines(a + "\n\n" + b) == Lines(a) + ([""] + Lines(b))
  {
    LinesAppend(a, "\n" + b);
    BlankThen(b);
    assert a + "\n" + ("\n" + b) == a + "\n\n" + b;
  }

  lemma {:induction false} MarkedSplit(parts: seq<string>)
    requires parts != []
    ensures Split(Marked(parts)) == Lines(JoinedBy(parts, "\n\n"))
  {
    if |parts| == 1 {
      LinesAlone(Lines(parts[0]));
    } else {
      MarkedSplit(parts[1..]);
      LinesThenMark(Lines(parts[0]), Marked(parts[1..]));
      TwoNewlines(parts[0], JoinedBy(parts[1..], "\n\n"));
    }
  }

  ghost predicate EndsInLine(marked: seq<Mark>) { marked != [] && marked[|marked| - 1].Some? }

  lemma {:induction false} MarksLength(lines: seq<string>)
    ensures |Marks(lines)| == |lines| && forall i :: 0 <= i < |lines| ==> Marks(lines)[i] == Some(lines[i])
  {
    if lines != [] { MarksLength(lines[1..]); }
  }

  lemma {:induction false} MarkedEnds(parts: seq<string>)
    requires parts != []
    ensures EndsInLine(Marked(parts))
  {
    MarksLength(Lines(parts[0]));
    if |parts| > 1 { MarkedEnds(parts[1..]); }
  }

  // --- Blocks and their pieces -------------------------------------------------------------------

  /** The pieces of a block, in order. */
  type Pieces = seq<seq<string>>

  function Flatten<T>(parts: seq<seq<T>>): seq<T> {
    if parts == [] then [] else parts[0] + Flatten(parts[1..])
  }

  lemma {:induction false} FlattenCons<T>(part: seq<T>, more: seq<seq<T>>)
    ensures Flatten([part] + more) == part + Flatten(more)
  {
    assert ([part] + more)[1..] == more;
  }

  /** One mark in front of blocks that are already cut. */
  function CutAt(mark: Mark, rest: seq<Pieces>): seq<Pieces>
    requires rest != [] && rest[0] != []
  {
    if mark.None? then [[[]] + rest[0]] + rest[1..]
    else if mark.value == "" then [[[]]] + rest
    else [[[mark.value] + rest[0][0]] + rest[0][1..]] + rest[1..]
  }

  /** The blocks of the text, each as the pieces its marks part it into. */
  function Cut(marked: seq<Mark>): (r: seq<Pieces>)
    requires EndsInLine(marked)
    ensures r != [] && forall i :: 0 <= i < |r| ==> r[i] != []
  {
    if |marked| == 1 then [[[marked[0].value]]]
    else
      CutAt(marked[0], Cut(marked[1..]))
  }

  function Wholes(blocks: seq<Pieces>): seq<seq<string>> {
    if blocks == [] then [] else [Flatten(blocks[0])] + Wholes(blocks[1..])
  }

  lemma {:induction false} BlocksCons(line: string, rest: seq<string>)
    requires rest != []
    ensures Blocks([line] + rest) ==
      if line == "" then [[]] + Blocks(rest) else [[line] + Blocks(rest)[0]] + Blocks(rest)[1..]
  {
    assert ([line] + rest)[1..] == rest;
  }

  lemma {:induction false} CutOne(marked: seq<Mark>)
    requires EndsInLine(marked) && |marked| == 1
    ensures Split(marked) == [marked[0].value] && Whole(marked) == [marked[0].value]
    ensures Flatten(Cut(marked)) == [[marked[0].value]] && Wholes(Cut(marked)) == [[marked[0].value]]
  {
    var line := [marked[0].value];
    assert marked[1..] == [] && line + [] == line;
    assert Flatten([[line]]) == [line] by { FlattenCons([line], []); assert [[line]] + [] == [[line]]; }
    assert Flatten([line]) == line by { FlattenCons(line, []); assert [line] + [] == [line]; }
    assert [[line]][1..] == [] && [line] + [] == [line];
  }

  lemma {:induction false} FlattenCut(mark: Mark, rest: seq<Pieces>)
    requires rest != [] && rest[0] != []
    ensures var all, line := Flatten(rest), if mark.Some? then mark.value else "";
      && all != []
      && Flatten(CutAt(mark, rest)) == if line == "" then [[]] + all else [[line] + all[0]] + all[1..]
  {
    var first, more := rest[0], rest[1..];
    assert rest == [first] + more;
    FlattenCons(first, more);
    if mark.None? {
      FlattenCons([[]] + first, more);
    } else if mark.value == "" {
      FlattenCons([[]], rest);
    } else {
      FlattenCons([[mark.value] + first[0]] + first[1..], more);
    }
  }

  lemma {:induction false} WholesCons(block: Pieces, more: seq<Pieces>)
    ensures Wholes([block] + more) == [Flatten(block)] + Wholes(more)
  {
    assert ([block] + more)[1..] == more;
  }

  lemma {:induction false} FlattenLonger(line: string, block: Pieces)
    requires block != []
    ensures Flatten([[line] + block[0]] + block[1..]) == [line] + Flatten(block)
    ensures Flatten([[]] + block) == Flatten(block)
  {
    FlattenCons([line] + block[0], block[1..]);
    FlattenCons([], block);
  }

  lemma {:induction false} WholesCut(mark: Mark, rest: seq<Pieces>)
    requires rest != [] && rest[0] != []
    ensures var all := Wholes(rest);
      && all != []
      && Wholes(CutAt(mark, rest)) ==
           if mark.None? then all else if mark.value == "" then [[]] + all else [[mark.value] + all[0]] + all[1..]
  {
    var first, more := rest[0], rest[1..];
    assert rest == [first] + more;
    WholesCons(first, more);
    if mark.None? {
      FlattenLonger("", first);
      WholesCons([[]] + first, more);
    } else if mark.value == "" {
      WholesCons([[]], rest);
      assert Flatten<string>([[]]) == [];
    } else {
      FlattenLonger(mark.value, first);
      WholesCons([[mark.value] + first[0]] + first[1..], more);
    }
  }

  /** The reader's blocks are all the pieces; the blocks of the text are the pieces put together. */
  lemma {:induction false} CutIsRight(marked: seq<Mark>)
    requires EndsInLine(marked)
    ensures Split(marked) != [] && Blocks(Split(marked)) == Flatten(Cut(marked))
    ensures Whole(marked) != [] && Blocks(Whole(marked)) == Wholes(Cut(marked))
  {
    if |marked| == 1 {
      CutOne(marked);
    } else {
      var mark, rest := marked[0], marked[1..];
      assert marked == [mark] + rest;
      CutIsRight(rest);
      ReadMark(mark, rest);
      FlattenCut(mark, Cut(rest));
      WholesCut(mark, Cut(rest));
      BlocksCons(if mark.Some? then mark.value else "", Split(rest));
      if mark.Some? { BlocksCons(mark.value, Whole(rest)); }
    }
  }

  // --- One block -----------------------------------------------------------------------------------

  predicate HasData(lines: seq<string>) { Values(lines, "data") != [] }

  lemma {:induction false} AllFramesAppend(a: seq<seq<string>>, b: seq<seq<string>>)
    ensures AllFrames(a + b) == AllFrames(a) + AllFrames(b)
  {
    if a == [] {
      assert a + b == b;
    } else {
      assert a + b == [a[0]] + (a[1..] + b) && a == [a[0]] + a[1..];
      AllFramesAppend(a[1..], b);
      AllFramesCons(a[0], a[1..] + b);
    }
  }

  lemma {:induction false} FlattenAppend<T>(a: seq<seq<T>>, b: seq<seq<T>>)
    ensures Flatten(a + b) == Flatten(a) + Flatten(b)
  {
    if a == [] {
      assert a + b == b;
    } else {
      assert a + b == [a[0]] + (a[1..] + b) && a == [a[0]] + a[1..];
      FlattenAppend(a[1..], b);
      FlattenCons(a[0], a[1..] + b);
    }
  }

  /** A block's frame, in terms of its fields. */
  lemma {:induction false} BlockFramesAre(block: seq<string>)
    ensures var ids := Values(block, "id");
      BlockFrames(block) ==
        if !HasData(block) then []
        else [Frame(Last(Values(block, "event"), "message"), Joined(Values(block, "data")),
                    if ids == [] then None else Some(Last(ids, "")))]
  {
    AddLinesSums(NO_FIELDS, block);
    assert NO_FIELDS.data + Values(block, "data") == Values(block, "data");
  }

  /** Around piece `i`. */
  lemma {:induction false} AtPiece(pieces: Pieces, i: nat)
    requires i < |pieces|
    ensures AllFrames(pieces) == AllFrames(pieces[..i]) + (BlockFrames(pieces[i]) + AllFrames(pieces[i + 1..]))
    ensures Values(Flatten(pieces), "data") == Values(Flatten(pieces[..i]), "data")
              + (Values(pieces[i], "data") + Values(Flatten(pieces[i + 1..]), "data"))
  {
    var before, piece, after := pieces[..i], pieces[i], pieces[i + 1..];
    assert pieces == before + ([piece] + after);
    AllFramesAppend(before, [piece] + after);
    AllFramesCons(piece, after);
    FlattenAppend(before, [piece] + after);
    FlattenCons(piece, after);
    ValuesAppend(Flatten(before), piece + Flatten(after), "data");
    ValuesAppend(piece, Flatten(after), "data");
  }

  lemma {:induction false} NoDataNoFrames(pieces: Pieces)
    requires forall i :: 0 <= i < |pieces| ==> !HasData(pieces[i])
    ensures AllFrames(pieces) == [] && Values(Flatten(pieces), "data") == []
  {
    if pieces != [] {
      NoDataNoFrames(pieces[1..]);
      BlockFramesAre(pieces[0]);
      ValuesAppend(pieces[0], Flatten(pieces[1..]), "data");
    }
  }

  /** Piece `i` alone holds data. */
  ghost predicate Sole(pieces: Pieces, i: int) {
    0 <= i < |pieces| && HasData(pieces[i]) && forall j :: 0 <= j < |pieces| && j != i ==> !HasData(pieces[j])
  }

  lemma {:induction false} SoleReads(pieces: Pieces, i: nat)
    requires Sole(pieces, i)
    ensures AllFrames(pieces) == BlockFrames(pieces[i])
    ensures Values(Flatten(pieces), "data") == Values(pieces[i], "data")
  {
    AtPiece(pieces, i);
    NoDataNoFrames(pieces[..i]);
    NoDataNoFrames(pieces[i + 1..]);
  }

  lemma {:induction false} Lengths<T>(a: seq<T>, b: seq<T>, c: seq<T>)
    ensures |a + (b + c)| == |a| + |b| + |c|
  {
  }

  ghost function DataCount(lines: seq<string>): nat { |Values(lines, "data")| }

  lemma {:induction false} CountsAtPiece(pieces: Pieces, i: nat)
    requires i < |pieces|
    ensures |AllFrames(pieces)| == |AllFrames(pieces[..i])| + |BlockFrames(pieces[i])| + |AllFrames(pieces[i + 1..])|
    ensures DataCount(Flatten(pieces)) ==
      DataCount(Flatten(pieces[..i])) + DataCount(pieces[i]) + DataCount(Flatten(pieces[i + 1..]))
  {
    var before, after := pieces[..i], pieces[i + 1..];
    AtPiece(pieces, i);
    Lengths(AllFrames(before), BlockFrames(pieces[i]), AllFrames(after));
    Lengths(Values(Flatten(before), "data"), Values(pieces[i], "data"), Values(Flatten(after), "data"));
  }

  /** A piece with data gives a frame. */
  lemma {:induction false} DataGivesFrames(pieces: Pieces, i: nat)
    requires i < |pieces| && HasData(pieces[i])
    ensures |AllFrames(pieces)| >= 1 && DataCount(Flatten(pieces)) >= 1
  {
    CountsAtPiece(pieces, i);
    BlockFramesAre(pieces[i]);
  }

  lemma {:induction false} LaterData(pieces: Pieces, i: nat, j: nat)
    requires i < j < |pieces| && HasData(pieces[j])
    ensures |AllFrames(pieces[i + 1..])| >= 1 && DataCount(Flatten(pieces[i + 1..])) >= 1
  {
    var after := pieces[i + 1..];
    assert after[j - i - 1] == pieces[j];
    DataGivesFrames(after, j - i - 1);
  }

  lemma {:induction false} OneFrame(piece: seq<string>)
    requires HasData(piece)
    ensures |BlockFrames(piece)| == 1
  {
    BlockFramesAre(piece);
  }

  /** With two pieces that hold data there are two frames, and the first does not hold all of it. */
  lemma {:induction false} TwoRead(pieces: Pieces, i: nat, j: nat)
    requires i < j < |pieces| && HasData(pieces[i]) && HasData(pieces[j])
    ensures |AllFrames(pieces)| >= 2 && DataCount(pieces[i]) < DataCount(Flatten(pieces))
  {
    CountsAtPiece(pieces, i);
    LaterData(pieces, i, j);
    OneFrame(pieces[i]);
  }

  /** No piece, one piece or several hold data. */
  lemma {:induction false} SoleOrNot(pieces: Pieces) returns (i: int, j: int)
    ensures i == -1 ==> forall k :: 0 <= k < |pieces| ==> !HasData(pieces[k])
    ensures i != -1 && j == -1 ==> Sole(pieces, i)
    ensures i != -1 && j != -1 ==> 0 <= i < j < |pieces| && HasData(pieces[i]) && HasData(pieces[j])
  {
    i, j := -1, -1;
    if k :| 0 <= k < |pieces| && HasData(pieces[k]) {
      i := k;
      if m :| 0 <= m < |pieces| && m != k && HasData(pieces[m]) {
        if k < m { j := m; } else { i, j := m, k; }
      }
    }
  }

  /** The piece says what the block says: all its data, its event name and its id. */
  predicate SaysAll(piece: seq<string>, block: seq<string>) {
    var own, ids := Values(piece, "id"), Values(block, "id");
    && Values(piece, "data") == Values(block, "data")
    && Last(Values(piece, "event"), "message") == Last(Values(block, "event"), "message")
    && (own == [] <==> ids == []) && Last(own, "") == Last(ids, "")
  }

  /** At most one piece holds data, and it says what the block says. */
  ghost predicate Kept(pieces: Pieces) {
    forall i :: 0 <= i < |pieces| && HasData(pieces[i]) ==> SaysAll(pieces[i], Flatten(pieces))
  }

  lemma {:induction false} SameFrame(piece: seq<string>, block: seq<string>)
    requires HasData(piece) && Values(piece, "data") == Values(block, "data")
    ensures BlockFrames(piece) == BlockFrames(block) <==> SaysAll(piece, block)
  {
    BlockFramesAre(piece);
    BlockFramesAre(block);
    if BlockFrames(piece) == BlockFrames(block) { assert BlockFrames(piece)[0] == BlockFrames(block)[0]; }
  }

  /** The pieces give the block's events exactly when they are kept; they never give fewer. */
  lemma {:induction false} PiecesMatterExactly(pieces: Pieces)
    ensures |AllFrames(pieces)| >= |BlockFrames(Flatten(pieces))|
    ensures AllFrames(pieces) == BlockFrames(Flatten(pieces)) <==> Kept(pieces)
  {
    var block := Flatten(pieces);
    var i, j := SoleOrNot(pieces);
    BlockFramesAre(block);
    if i == -1 {
      NoDataNoFrames(pieces);
    } else if j == -1 {
      SoleReads(pieces, i);
      SameFrame(pieces[i], block);
      BlockFramesAre(pieces[i]);
    } else {
      TwoRead(pieces, i, j);
    }
  }

  // --- The whole list --------------------------------------------------------------------------------

  lemma {:induction false} SameParts<T>(a: seq<T>, x: seq<T>, b: seq<T>, y: seq<T>)
    requires |a| >= |b| && |x| >= |y|
    ensures a + x == b + y <==> a == b && x == y
  {
    if a + x == b + y {
      assert |a + x| == |a| + |x| && |b + y| == |b| + |y|;
      assert (a + x)[..|a|] == a && (b + y)[..|b|] == b && (a + x)[|a|..] == x && (b + y)[|b|..] == y;
    }
  }

  lemma {:induction false} BlocksMatterExactly(blocks: seq<Pieces>)
    ensures |AllFrames(Flatten(blocks))| >= |AllFrames(Wholes(blocks))|
    ensures AllFrames(Flatten(blocks)) == AllFrames(Wholes(blocks)) <==>
      forall i :: 0 <= i < |blocks| ==> Kept(blocks[i])
  {
    if blocks != [] {
      var first, rest := blocks[0], blocks[1..];
      assert blocks == [first] + rest;
      BlocksMatterExactly(rest);
      PiecesMatterExactly(first);
      FlattenCons(first, rest);
      AllFramesAppend(first, Flatten(rest));
      WholesCons(first, rest);
      AllFramesCons(Flatten(first), Wholes(rest));
      SameParts(AllFrames(first), AllFrames(Flatten(rest)), BlockFrames(Flatten(first)), AllFrames(Wholes(rest)));
    }
  }

  /** The blocks of the text, each as the pieces that the chunks part it into. */
  function CutBlocks(chunks: seq<string>): (r: seq<Pieces>)
    ensures r != []
  {
    MarkedEnds(Stretches(chunks));
    Cut(Marked(Stretches(chunks)))
  }

  lemma {:induction false} CutBlocksRead(chunks: seq<string>)
    ensures Frames(NormalizedEach(chunks)) == AllFrames(Flatten(CutBlocks(chunks)))
    ensures Blocks(Lines(Normalized(Flat(chunks)))) == Wholes(CutBlocks(chunks))
  {
    var parts := Stretches(chunks);
    ChunksMadeOf(chunks);
    MarkedWhole(parts);
    MarkedSplit(parts);
    MarkedEnds(parts);
    CutIsRight(Marked(parts));
    FramesByBlock(NormalizedEach(chunks));
  }

  /** Any list of chunks yields the events of its text in one chunk if and only if, of the pieces
      that the cuts part each block into, at most one holds data and that one has the block's event
      name and id. */
  lemma {:induction false} CutsMatterExactly(chunks: seq<string>)
    ensures Frames(NormalizedEach(chunks)) == Frames(NormalizedEach([Flat(chunks)])) <==>
      forall i :: 0 <= i < |CutBlocks(chunks)| ==> Kept(CutBlocks(chunks)[i])
  {
    CutBlocksRead(chunks);
    NormalizedOne(Flat(chunks));
    FramesByBlock(Normalized(Flat(chunks)));
    BlocksMatterExactly(CutBlocks(chunks));
  }
}
