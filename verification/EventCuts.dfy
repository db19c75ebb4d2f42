/** What a cut inside a CRLF pair does to the events: it inserts a blank line, and
    changes nothing exactly when that line is harmless. */
module EventCuts {
  import opened EventBlocks
  import opened EventStream

  // --- Around a blank line ----------------------------------------------------------------------

  /** The lines behind the last blank one. */
  function LastBlock(lines: seq<string>): seq<string> {
    if lines == [] || lines[|lines| - 1] == "" then []
    else LastBlock(lines[..|lines| - 1]) + [lines[|lines| - 1]]
  }

  /** The lines before the first blank one. */
  function FirstBlock(lines: seq<string>): seq<string> {
    if lines == [] || lines[0] == "" then [] else [lines[0]] + FirstBlock(lines[1..])
  }

  /** The frames of the lines behind the first blank one. */
  function Later(lines: seq<string>): seq<Frame> {
    if lines == [] then []
    else if lines[0] == "" then LineFrames(lines[1..], NO_FIELDS)
    else Later(lines[1..])
  }

  /** What has been sent off once the lines are read, with nothing pending before them. */
  function Sent(lines: seq<string>): seq<Frame> {
    if lines == [] then []
    else
      var front := lines[..|lines| - 1];
      Sent(front) + (if lines[|lines| - 1] == "" then Emit(Complete(Pending(front))) else [])
  }

  function Pending(lines: seq<string>): Fields { AddLines(NO_FIELDS, LastBlock(lines)) }

  lemma {:induction false} PendingSnoc(lines: seq<string>, line: string)
    ensures Pending(lines + [line]) == if line == "" then NO_FIELDS else AddLine(Pending(lines), line)
    ensures Sent(lines + [line]) == Sent(lines) + (if line == "" then Emit(Complete(Pending(lines))) else [])
  {
    assert (lines + [line])[..|lines|] == lines;
    AddLinesSnoc(NO_FIELDS, LastBlock(lines), line);
  }

  /** Reading some lines first: what they send off, then the rest with what is pending. */
  lemma {:induction false} ReadFirst(lines: seq<string>, more: seq<string>)
    ensures LineFrames(lines + more, NO_FIELDS) == Sent(lines) + LineFrames(more, Pending(lines))
  {
    if lines == [] {
      assert lines + more == more;
    } else {
      var front, line := lines[..|lines| - 1], lines[|lines| - 1];
      assert lines == front + [line] && lines + more == front + ([line] + more);
      ReadFirst(front, [line] + more);
      PendingSnoc(front, line);
      LineFramesCons(line, more, Pending(front));
      Regroup(Sent(front), Emit(Complete(Pending(front))), LineFrames(more, NO_FIELDS));
    }
  }

  /** Pending fields only matter for the first block that follows. */
  lemma {:induction false} ReadOn(lines: seq<string>, f: Fields)
    ensures LineFrames(lines, f) == Emit(Complete(AddLines(f, FirstBlock(lines)))) + Later(lines)
    decreases |lines|
  {
    if lines != [] {
      var line, rest := lines[0], lines[1..];
      assert lines == [line] + rest;
      LineFramesCons(line, rest, f);
      if line != "" {
        ReadOn(rest, AddLine(f, line));
        AddLinesCons(line, FirstBlock(rest), f);
      }
    }
  }

  // --- When a blank line changes nothing -----------------------------------------------------------

  /** Two blocks read apart give what they give together: data on one side only, and the other
      side's event name and id lost to nothing. */
  predicate Harmless(p: seq<string>, q: seq<string>) {
    var name := Last(Values(p, "event"), "message");
    var ids, later := Values(p, "id"), Values(q, "id");
    if Values(p, "data") == [] then
      || Values(q, "data") == []
      || ((Values(q, "event") != [] || name == "message") && (later != [] || ids == []))
    else
      && Values(q, "data") == []
      && Last(Values(q, "event"), name) == name
      && (later == [] || (ids != [] && Last(later, "") == Last(ids, "")))
  }

  lemma {:induction false} ApartIsTogetherExactly(p: seq<string>, q: seq<string>)
    ensures var f := AddLines(NO_FIELDS, p);
      Emit(Complete(f)) + Emit(Complete(AddLines(NO_FIELDS, q))) == Emit(Complete(AddLines(f, q))) <==> Harmless(p, q)
  {
    var f := AddLines(NO_FIELDS, p);
    AddLinesSums(NO_FIELDS, p);
    AddLinesSums(NO_FIELDS, q);
    AddLinesSums(f, q);
    assert NO_FIELDS.data + Values(p, "data") == Values(p, "data");
    assert NO_FIELDS.data + Values(q, "data") == Values(q, "data");
    TwoOrOne(f, AddLines(NO_FIELDS, q), AddLines(f, q));
  }

  lemma {:induction false} TwoOrOne(f: Fields, g: Fields, both: Fields)
    requires both.data == f.data + g.data
    ensures Emit(Complete(f)) + Emit(Complete(g)) == Emit(Complete(both)) <==>
      if f.data == [] then g.data == [] || (g.event == both.event && g.id == both.id)
      else g.data == [] && f.event == both.event && f.id == both.id
  {
    assert [] + g.data == g.data && f.data + [] == f.data;
    var x, y, z := Emit(Complete(f)), Emit(Complete(g)), Emit(Complete(both));
    assert |x + y| == |x| + |y|;
    if f.data == [] {
      assert x + y == y;
      assert g.data != [] ==> y[0] == Frame(g.event, Joined(g.data), g.id);
    } else if g.data == [] {
      assert x + y == x && x[0] == Frame(f.event, Joined(f.data), f.id);
    }
  }

  lemma {:induction false} SameTails(a: seq<Frame>, b: seq<Frame>, tail: seq<Frame>)
    ensures a + tail == b + tail <==> a == b
  {
    if a + tail == b + tail {
      assert |a| == |b|;
      assert (a + tail)[..|a|] == a && (b + tail)[..|b|] == b;
    }
  }

  lemma {:induction false} SameHeads(head: seq<Frame>, a: seq<Frame>, b: seq<Frame>)
    ensures head + a == head + b <==> a == b
  {
    assert (head + a)[|head|..] == a && (head + b)[|head|..] == b;
  }

  lemma {:induction false} BlankBetweenExactly(lines: seq<string>, more: seq<string>)
    ensures LineFrames(lines + ([""] + more), NO_FIELDS) == LineFrames(lines + more, NO_FIELDS) <==>
      Harmless(LastBlock(lines), FirstBlock(more))
  {
    var f, p, q := Pending(lines), LastBlock(lines), FirstBlock(more);
    ReadFirst(lines, more);
    ReadFirst(lines, [""] + more);
    LineFramesCons("", more, f);
    ReadOn(more, f);
    ReadOn(more, NO_FIELDS);
    var x, y, z := Emit(Complete(f)), Emit(Complete(AddLines(NO_FIELDS, q))), Emit(Complete(AddLines(f, q)));
    Regroup(x, y, Later(more));
    SameHeads(Sent(lines), x + (y + Later(more)), z + Later(more));
    SameTails(x + y, z, Later(more));
    ApartIsTogetherExactly(p, q);
  }

  /** A blank line put between two texts changes nothing exactly when it is harmless. */
  lemma {:induction false} BlankLineMattersExactly(x: string, y: string)
    ensures Frames(x + "\n" + ("\n" + y)) == Frames(x + "\n" + y) <==>
      Harmless(LastBlock(Lines(x)), FirstBlock(Lines(y)))
  {
    FramesLineByLine(x + "\n" + ("\n" + y));
    FramesLineByLine(x + "\n" + y);
    LinesAppend(x, "\n" + y);
    LinesAppend(x, y);
    BlankThen(y);
    BlankBetweenExactly(Lines(x), Lines(y));
  }

  // --- One cut among many -----------------------------------------------------------------------------

  lemma {:induction false} NormalizedEachAppend(a: seq<string>, b: seq<string>)
    ensures NormalizedEach(a + b) == NormalizedEach(a) + NormalizedEach(b)
  {
    if a == [] {
      assert a + b == b;
    } else {
      NormalizedEachAppend(a[1..], b);
      assert (a + b)[1..] == a[1..] + b && (a + b)[0] == a[0];
      assert (Normalized(a[0]) + NormalizedEach(a[1..])) + NormalizedEach(b) ==
        Normalized(a[0]) + (NormalizedEach(a[1..]) + NormalizedEach(b));
    }
  }

  lemma {:induction false} NormalizedOne(a: string)
    ensures NormalizedEach([a]) == Normalized(a)
  {
    assert [a][1..] == [] && Normalized(a) + "" == Normalized(a);
  }

  /** The texts on both sides of a split pair, without the pair. */
  lemma {:induction false} SplitPairNormalizes(a: string, b: string)
    requires SplitsCrlf(a, b)
    ensures var x, y := Normalized(a[..|a| - 1]), Normalized(b[1..]);
      && Normalized(a) == x + "\n" && Normalized(b) == "\n" + y && Normalized(a + b) == x + "\n" + y
  {
    var before, after := a[..|a| - 1], b[1..];
    assert a == before + "\r" && b == "\n" + after && a + b == before + ("\r\n" + after);
    NormalizedCut(before, "\r");
    NormalizedCut(before, "\r\n" + after);
    NormalizedStep(b);
    NormalizedStep("\r\n" + after);
    assert ("\r\n" + after)[2..] == after;
    NormalizedStep("\r");
    assert Normalized("\r") == "\n";
  }

  lemma {:induction false} RegroupSplit(p: string, x: string, y: string, q: string)
    ensures p + (x + "\n") + ("\n" + y) + q == (p + x) + "\n" + ("\n" + (y + q))
    ensures p + (x + "\n" + y) + q == (p + x) + "\n" + (y + q)
  {
  }

  lemma {:induction false} SplitMattersExactly(p: string, a: string, b: string, q: string)
    requires SplitsCrlf(a, b)
    ensures var x, y := Normalized(a[..|a| - 1]), Normalized(b[1..]);
      Frames(p + Normalized(a) + Normalized(b) + q) == Frames(p + Normalized(a + b) + q) <==>
        Harmless(LastBlock(Lines(p + x)), FirstBlock(Lines(y + q)))
  {
    var x, y := Normalized(a[..|a| - 1]), Normalized(b[1..]);
    SplitPairNormalizes(a, b);
    RegroupSplit(p, x, y, q);
    BlankLineMattersExactly(p + x, y + q);
  }

  /** The text before the cut and the one behind it, without a pair that the cut splits. */
  function BeforeCut(before: seq<string>, a: string): string {
    NormalizedEach(before) + Normalized(if a == "" then "" else a[..|a| - 1])
  }

  function BehindCut(b: string, after: seq<string>): string {
    Normalized(if b == "" then "" else b[1..]) + NormalizedEach(after)
  }

  /** Cutting between `a` and `b` leaves the events as they were, whatever the other chunks, exactly
      when the cut splits no CRLF pair or the blank line it inserts is harmless. */
  lemma {:induction false} CutMattersExactly(before: seq<string>, a: string, b: string, after: seq<string>)
    ensures Frames(NormalizedEach(before + [a] + [b] + after)) == Frames(NormalizedEach(before + [a + b] + after)) <==>
      !SplitsCrlf(a, b) || Harmless(LastBlock(Lines(BeforeCut(before, a))), FirstBlock(Lines(BehindCut(b, after))))
  {
    AroundCut(before, a, b, after);
    var p, q := NormalizedEach(before), NormalizedEach(after);
    if SplitsCrlf(a, b) {
      SplitMattersExactly(p, a, b, q);
    } else {
      CutIsExact(a, b);
      assert p + Normalized(a) + Normalized(b) + q == p + (Normalized(a) + Normalized(b)) + q;
    }
  }

  lemma {:induction false} AroundCut(before: seq<string>, a: string, b: string, after: seq<string>)
    ensures var p, q := NormalizedEach(before), NormalizedEach(after);
      && NormalizedEach(before + [a] + [b] + after) == p + Normalized(a) + Normalized(b) + q
      && NormalizedEach(before + [a + b] + after) == p + Normalized(a + b) + q
  {
    NormalizedEachAppend(before + [a] + [b], after);
    NormalizedEachAppend(before + [a], [b]);
    NormalizedEachAppend(before, [a]);
    NormalizedEachAppend(before + [a + b], after);
    NormalizedEachAppend(before, [a + b]);
    NormalizedOne(a);
    NormalizedOne(b);
    NormalizedOne(a + b);
  }

  /** Cutting a lone line end in two splits the pair and changes no frame. */
  lemma {:induction false} SplitBlankLineIsHarmless()
    ensures SplitsCrlf("\r", "\n")
    ensures Frames(NormalizedEach(["\r"] + ["\n"])) == Frames(NormalizedEach(["\r" + "\n"]))
  {
    CutMattersExactly([], "\r", "\n", []);
    assert [] + ["\r"] + ["\n"] + [] == ["\r"] + ["\n"] && [] + ["\r" + "\n"] + [] == ["\r" + "\n"];
    assert BeforeCut([], "\r") == "" && BehindCut("\n", []) == "" && Lines("") == [""];
  }
}
