/** Numbering the new-side lines of a unified diff: `annotate` of the pull-request reviewer. */
module DiffLines {
  import opened Options

  // --- Numbers as text -----------------------------------------------------------------

  predicate IsDigit(c: char) { '0' <= c <= '9' }

  function Digit(n: nat): char
    requires n < 10
  {
    '0' + n as char
  }

  function Decimal(n: nat): (r: string)
    ensures r != "" && forall i :: 0 <= i < |r| ==> IsDigit(r[i])
  {
    if n < 10 then [Digit(n)] else Decimal(n / 10) + [Digit(n % 10)]
  }

  function ParseDecimal(s: string): nat
    requires forall i :: 0 <= i < |s| ==> IsDigit(s[i])
  {
    if s == "" then 0
    else
      assert IsDigit(s[|s| - 1]);
      10 * ParseDecimal(s[..|s| - 1]) + (s[|s| - 1] as int - '0' as int)
  }

  lemma {:induction false} DecimalParsesBack(n: nat)
    ensures ParseDecimal(Decimal(n)) == n
  {
    if n >= 10 {
      DecimalParsesBack(n / 10);
      assert Decimal(n)[..|Decimal(n)| - 1] == Decimal(n / 10);
    } else {
      assert Decimal(n)[..0] == "";
    }
  }

  /** Right-aligned in five columns, wider if it must be. */
  function Pad5(n: nat): string {
    var d := Decimal(n);
    seq(if |d| < 5 then 5 - |d| else 0, _ => ' ') + d
  }

  // --- Hunk headers -----------------------------------------------------------------------

  /** How many digits the text starts with. */
  function Digits(s: string): (r: nat)
    ensures r <= |s| && forall i :: 0 <= i < r ==> IsDigit(s[i])
  {
    if s == "" || !IsDigit(s[0]) then 0 else Digits(s[1..]) + 1
  }

  /** The text after an optional `,count`. */
  function AfterCount(s: string): string {
    if s != "" && s[0] == ',' && Digits(s[1..]) > 0 then s[1 + Digits(s[1..])..] else s
  }

  /** The number of ` +c[,d] @@...`. */
  function NewStart(tail: string): Option<nat> {
    if !(" +" <= tail) || Digits(tail[2..]) == 0 then None
    else
      var side := tail[2..];
      var n := Digits(side);
      if !(" @@" <= AfterCount(side[n..])) then None else Some(ParseDecimal(side[..n]))
  }

  /** The new-side start of a row of the form `@@ -a[,b] +c[,d] @@...`. */
  function HunkStart(row: string): Option<nat> {
    if !("@@ -" <= row) || Digits(row[4..]) == 0 then None
    else NewStart(AfterCount(row[4..][Digits(row[4..])..]))
  }

  lemma {:induction false} DigitsThen(digits: string, rest: string)
    requires (forall i :: 0 <= i < |digits| ==> IsDigit(digits[i])) && (rest == "" || !IsDigit(rest[0]))
    ensures Digits(digits + rest) == |digits|
  {
    if digits == "" {
      assert digits + rest == rest;
    } else {
      assert (digits + rest)[1..] == digits[1..] + rest;
      DigitsThen(digits[1..], rest);
    }
  }

  /** A `,count`, or nothing. */
  function Count(count: Option<nat>): string { if count.None? then "" else "," + Decimal(count.value) }

  lemma {:induction false} CommaDigitsSkipped(digits: string, rest: string)
    requires digits != "" && (forall i :: 0 <= i < |digits| ==> IsDigit(digits[i])) && rest != "" && !IsDigit(rest[0])
    ensures AfterCount([','] + digits + rest) == rest
  {
    var s := [','] + digits + rest;
    DigitsThen(digits, rest);
    assert s[1..] == digits + rest && s[1 + |digits|..] == rest;
  }

  lemma {:induction false} CountIsSkipped(count: Option<nat>, rest: string)
    requires rest != "" && !IsDigit(rest[0]) && rest[0] != ','
    ensures AfterCount(Count(count) + rest) == rest
  {
    if count.Some? {
      CommaDigitsSkipped(Decimal(count.value), rest);
    } else {
      assert Count(count) + rest == rest;
    }
  }

  lemma {:induction false} NumberThenCount(n: nat, count: Option<nat>, rest: string)
    requires rest != "" && !IsDigit(rest[0]) && rest[0] != ','
    ensures var s := Decimal(n) + (Count(count) + rest);
      Digits(s) == |Decimal(n)| && s[..Digits(s)] == Decimal(n) && AfterCount(s[Digits(s)..]) == rest
  {
    var tail := Count(count) + rest;
    DigitsThen(Decimal(n), tail);
    CountIsSkipped(count, rest);
    assert (Decimal(n) + tail)[|Decimal(n)|..] == tail;
  }

  lemma {:induction false} NewStartReadsBack(c: nat, d: Option<nat>, side: string, last: string)
    requires " @@" <= last && side == Decimal(c) + (Count(d) + last)
    ensures NewStart(" +" + side) == Some(c)
  {
    NumberThenCount(c, d, last);
    DecimalParsesBack(c);
    var tail := " +" + side;
    assert tail[..2] == " +" && tail[2..] == side;
  }

  lemma {:induction false} HunkStartReadsBack(a: nat, b: Option<nat>, side: string, tail: string)
    requires " +" <= tail && side == Decimal(a) + (Count(b) + tail)
    ensures HunkStart("@@ -" + side) == NewStart(tail)
  {
    NumberThenCount(a, b, tail);
    var row := "@@ -" + side;
    assert row[..4] == "@@ -" && row[4..] == side;
  }

  /** A printed header is read back, whatever the old side, the counts and the section text. */
  lemma {:induction false} HeaderReadsBack(a: nat, b: Option<nat>, c: nat, d: Option<nat>, section: string)
    ensures var newSide := Decimal(c) + (Count(d) + (" @@" + section));
      HunkStart("@@ -" + (Decimal(a) + (Count(b) + (" +" + newSide)))) == Some(c)
  {
    var last := " @@" + section;
    var newSide := Decimal(c) + (Count(d) + last);
    assert last[..3] == " @@";
    NewStartReadsBack(c, d, newSide, last);
    assert (" +" + newSide)[..2] == " +";
    HunkStartReadsBack(a, b, Decimal(a) + (Count(b) + (" +" + newSide)), " +" + newSide);
  }

  /** A header matcher: the new-side start of a row that opens a hunk. */
  type Matcher = string -> Option<nat>

  /** Hunk headers are told from body rows by their first character. */
  ghost predicate MatchesOnlyAt(hunk: Matcher) {
    forall row :: hunk(row).Some? ==> StartsWith(row, '@')
  }

  lemma {:induction false} HunkStartMatchesOnlyAt()
    ensures MatchesOnlyAt(HunkStart)
  {
  }

  // --- Rows ----------------------------------------------------------------------------------

  /** Where `str.splitlines` ends a line: not only at a newline. */
  const LINE_ENDS := {'\n', '\r', '\U{b}', '\U{c}', '\U{1c}', '\U{1d}', '\U{1e}', '\U{85}', '\U{2028}', '\U{2029}'}

  /** The length of the first line. */
  function LineEnd(s: string): (r: nat)
    ensures r <= |s|
  {
    if s == "" || s[0] in LINE_ENDS then 0 else LineEnd(s[1..]) + 1
  }

  /** Where the next line starts. */
  function NextLine(s: string): (r: nat)
    ensures r <= |s| && (s != "" ==> r > 0)
  {
    var i := LineEnd(s);
    if i == |s| then i
    else if s[i] == '\r' && i + 1 < |s| && s[i + 1] == '\n' then i + 2
    else i + 1
  }

  function SplitLines(s: string): seq<string>
    decreases |s|
  {
    if s == "" then [] else [s[..LineEnd(s)]] + SplitLines(s[NextLine(s)..])
  }

  /** The rows joined by newlines. */
  function Unsplit(rows: seq<string>): string {
    if rows == [] then "" else if |rows| == 1 then rows[0] else rows[0] + "\n" + Unsplit(rows[1..])
  }

  /** The characters at which Python ends a line: line feed to carriage return, the three information
      separators, next line, and the line and paragraph separators. */
  predicate EndsLine(c: char) {
    || '\n' <= c <= '\r' || '\U{1c}' <= c <= '\U{1e}' || c == '\U{85}' || '\U{2028}' <= c <= '\U{2029}'
  }

  predicate Clean(row: string) { forall i :: 0 <= i < |row| ==> !EndsLine(row[i]) }

  lemma {:induction false} FirstLineIsClean(s: string)
    ensures Clean(s[..LineEnd(s)])
  {
    if s != "" && s[0] !in LINE_ENDS {
      FirstLineIsClean(s[1..]);
      assert s[..LineEnd(s)] == [s[0]] + s[1..][..LineEnd(s[1..])];
    }
  }

  lemma {:induction false} SplitIsClean(s: string)
    ensures forall row :: row in SplitLines(s) ==> Clean(row)
    decreases |s|
  {
    if s != "" {
      FirstLineIsClean(s);
      SplitIsClean(s[NextLine(s)..]);
    }
  }

  lemma {:induction false} CleanLineEnds(row: string, rest: string)
    requires Clean(row) && (rest == "" || EndsLine(rest[0]))
    ensures LineEnd(row + rest) == |row|
  {
    if row == "" {
      assert row + rest == rest;
    } else {
      assert (row + rest)[1..] == row[1..] + rest && (row + rest)[0] == row[0];
      CleanLineEnds(row[1..], rest);
    }
  }

  lemma {:induction false} SplitFirst(row: string, rest: string)
    requires Clean(row)
    ensures SplitLines(row + "\n" + rest) == [row] + SplitLines(rest)
  {
    SplitAt(row, '\n', rest);
  }

  lemma {:induction false} SplitAt(row: string, end: char, rest: string)
    requires Clean(row) && EndsLine(end) && end != '\r'
    ensures SplitLines(row + [end] + rest) == [row] + SplitLines(rest)
  {
    var s := row + [end] + rest;
    assert s == row + ([end] + rest);
    CleanLineEnds(row, [end] + rest);
    assert s[..|row|] == row && s[|row|] == end && s[|row| + 1..] == rest;
  }

  lemma {:induction false} OneRowSplits(row: string)
    requires Clean(row)
    ensures SplitLines(row) == if row == "" then [] else [row]
  {
    assert row + "" == row;
    CleanLineEnds(row, "");
    assert row[..|row|] == row && row[|row|..] == "";
  }

  /** The rows, each ended by a carriage return and a line feed. */
  function CrlfText(rows: seq<string>): string {
    if rows == [] then "" else rows[0] + "\r\n" + CrlfText(rows[1..])
  }

  lemma {:induction false} SplitAtCrlf(row: string, rest: string)
    requires Clean(row)
    ensures SplitLines(row + "\r\n" + rest) == [row] + SplitLines(rest)
  {
    var s := row + "\r\n" + rest;
    assert s == row + ("\r\n" + rest) && ("\r\n" + rest)[0] == '\r';
    CleanLineEnds(row, "\r\n" + rest);
    assert s[..|row|] == row && s[|row|] == '\r' && s[|row| + 1] == '\n' && s[|row| + 2..] == rest;
  }

  /** A carriage return and a line feed end one line, not two. */
  lemma {:induction false} CrlfRowsComeBack(rows: seq<string>)
    requires forall row :: row in rows ==> Clean(row)
    ensures SplitLines(CrlfText(rows)) == rows
  {
    if rows != [] {
      assert rows[0] in rows && rows == [rows[0]] + rows[1..];
      CrlfRowsComeBack(rows[1..]);
      SplitAtCrlf(rows[0], CrlfText(rows[1..]));
    }
  }

  /** What clean rows come back as: an empty last row is lost. */
  function WithoutEmptyEnd(rows: seq<string>): seq<string> {
    if rows != [] && rows[|rows| - 1] == "" then rows[..|rows| - 1] else rows
  }

  lemma {:induction false} WithoutEmptyEndCons(row: string, rest: seq<string>)
    requires rest != []
    ensures WithoutEmptyEnd([row] + rest) == [row] + WithoutEmptyEnd(rest)
  {
    var rows := [row] + rest;
    assert rows[..|rows| - 1] == [row] + rest[..|rest| - 1];
  }

  lemma {:induction false} CleanRowsSplit(rows: seq<string>)
    requires forall row :: row in rows ==> Clean(row)
    ensures SplitLines(Unsplit(rows)) == WithoutEmptyEnd(rows)
  {
    if |rows| == 1 {
      assert rows[0] in rows && rows == [rows[0]] && rows[..0] == [];
      OneRowSplits(rows[0]);
    } else if |rows| > 1 {
      var row, rest := rows[0], rows[1..];
      assert row in rows && rows == [row] + rest;
      CleanRowsSplit(rest);
      SplitFirst(row, Unsplit(rest));
      WithoutEmptyEndCons(row, rest);
    }
  }

  /** The rows of a patch come back from its text exactly when none holds another line end and the
      last one is not empty. */
  lemma {:induction false} RowsComeBackExactly(rows: seq<string>)
    ensures SplitLines(Unsplit(rows)) == rows <==>
      (forall row :: row in rows ==> Clean(row)) && (rows == [] || rows[|rows| - 1] != "")
  {
    SplitIsClean(Unsplit(rows));
    if forall row :: row in rows ==> Clean(row) {
      CleanRowsSplit(rows);
      assert rows != [] ==> |rows[..|rows| - 1]| != |rows|;
    }
  }

  // --- Annotating ----------------------------------------------------------------------------

  /** A rendered row; `number` is the new-file line it shows, if it shows one. */
  datatype Out = Out(text: string, number: Option<nat>)

  /** The next line number and what the row renders to, if anything. */
  function Render(hunk: Matcher, current: nat, row: string): (nat, Option<Out>) {
    var header := hunk(row);
    if header.Some? then (header.value, Some(Out(row, None)))
    else if current == 0 || StartsWith(row, '\\') then (current, None)
    else if StartsWith(row, '-') then (current, Some(Out("      " + row, None)))
    else
      var marker := if StartsWith(row, '+') then "+" else " ";
      (current + 1, Some(Out(Pad5(current) + " " + marker + Rest(row), Some(current))))
  }

  predicate StartsWith(row: string, c: char) { row != "" && row[0] == c }

  function Rest(row: string): string { if row == "" then "" else row[1..] }

  /** The line number reached after some rows; 0 before the first hunk. */
  function LineAfter(hunk: Matcher, rows: seq<string>): nat {
    if rows == [] then 0 else Render(hunk, LineAfter(hunk, rows[..|rows| - 1]), rows[|rows| - 1]).0
  }

  /** All rendered rows, with no budget. */
  function Rendered(hunk: Matcher, rows: seq<string>): seq<Out> {
    if rows == [] then []
    else
      var front := rows[..|rows| - 1];
      var out := Render(hunk, LineAfter(hunk, front), rows[|rows| - 1]).1;
      Rendered(hunk, front) + (if out.Some? then [out.value] else [])
  }

  lemma {:induction false} RenderedSnoc(hunk: Matcher, rows: seq<string>, row: string)
    ensures var step := Render(hunk, LineAfter(hunk, rows), row);
      && LineAfter(hunk, rows + [row]) == step.0
      && Rendered(hunk, rows + [row]) == Rendered(hunk, rows) + (if step.1.Some? then [step.1.value] else [])
  {
    assert (rows + [row])[..|rows|] == rows;
  }

  lemma {:induction false} RenderedGrows(hunk: Matcher, rows: seq<string>, k: nat)
    requires k <= |rows|
    ensures Rendered(hunk, rows[..k]) <= Rendered(hunk, rows)
  {
    if k < |rows| {
      var front := rows[..|rows| - 1];
      RenderedGrows(hunk, front, k);
      assert front[..k] == rows[..k];
    } else {
      assert rows[..k] == rows;
    }
  }

  function Chars(outs: seq<Out>): nat {
    if outs == [] then 0 else Chars(outs[..|outs| - 1]) + |outs[|outs| - 1].text| + 1
  }

  function Texts(outs: seq<Out>): seq<string> {
    seq(|outs|, i requires 0 <= i < |outs| => outs[i].text)
  }

  function Numbers(outs: seq<Out>): set<nat> {
    set i | 0 <= i < |outs| && outs[i].number.Some? :: outs[i].number.value
  }

  function Joined(texts: seq<string>): string {
    if texts == [] then "" else if |texts| == 1 then texts[0]
    else Joined(texts[..|texts| - 1]) + "\n" + texts[|texts| - 1]
  }

  /** The prefix fits the budget, and one row more would not. */
  ghost predicate Shows(shown: seq<Out>, outs: seq<Out>, maxChars: int) {
    && shown <= outs
    && (shown != [] ==> Chars(shown) <= maxChars)
    && (|shown| < |outs| ==> Chars(shown) + |outs[|shown|].text| + 1 > maxChars)
  }

  /** The longest prefix of the rendered rows that fits the budget. */
  function Shown(outs: seq<Out>, maxChars: int): seq<Out> {
    if outs == [] then []
    else
      var front := outs[..|outs| - 1];
      var shown := Shown(front, maxChars);
      if shown == front && Chars(outs) <= maxChars then outs else shown
  }

  lemma {:induction false} ShownShows(outs: seq<Out>, maxChars: int)
    ensures Shows(Shown(outs, maxChars), outs, maxChars)
  {
    if outs != [] {
      var front := outs[..|outs| - 1];
      ShownShows(front, maxChars);
      var shown := Shown(front, maxChars);
      if |shown| < |front| {
        assert front[|shown|] == outs[|shown|];
      } else {
        assert shown == front;
      }
    }
  }

  lemma {:induction false} ShowsOnlyShown(shown: seq<Out>, outs: seq<Out>, maxChars: int)
    requires Shows(shown, outs, maxChars)
    ensures shown == Shown(outs, maxChars)
  {
    ShownShows(outs, maxChars);
    SmallerBudgetShowsLess(outs, shown, Shown(outs, maxChars), maxChars, maxChars);
    SmallerBudgetShowsLess(outs, Shown(outs, maxChars), shown, maxChars, maxChars);
  }

  /** The loop, over any header matcher. */
  method AnnotateWith(hunk: Matcher, rows: seq<string>, maxChars: int)
    returns (text: string, lines: set<nat>, truncated: bool)
    ensures var all := Rendered(hunk, rows);
      && text == Joined(Texts(Shown(all, maxChars))) && lines == Numbers(Shown(all, maxChars))
      && truncated == (Shown(all, maxChars) < all)
  {
    var rendered: seq<string> := [];
    lines := {};
    var size := 0;
    var current := 0;
    truncated := false;
    ghost var shown: seq<Out> := [];
    for i := 0 to |rows|
      invariant !truncated && current == LineAfter(hunk, rows[..i]) && shown == Rendered(hunk, rows[..i])
      invariant rendered == Texts(shown) && lines == Numbers(shown) && size == Chars(shown)
      invariant shown != [] ==> size <= maxChars
    {
      RenderedStep(hunk, rows, i);
      var step := Render(hunk, current, rows[i]);
      current := step.0;
      if step.1.None? { continue; }
      var out := step.1.value;
      if size + |out.text| + 1 > maxChars {
        truncated := true;
        break;
      }
      ShownSnoc(shown, out);
      rendered := rendered + [out.text];
      size := size + |out.text| + 1;
      if out.number.Some? { lines := lines + {out.number.value}; }
      shown := shown + [out];
    }
    assert rows[..|rows|] == rows;
    ShowsOnlyShown(shown, Rendered(hunk, rows), maxChars);
    text := Joined(rendered);
  }

  method Annotate(patch: string, maxChars: int) returns (text: string, lines: set<nat>, truncated: bool)
    ensures var all := Rendered(HunkStart, SplitLines(patch));
      && text == Joined(Texts(Shown(all, maxChars))) && lines == Numbers(Shown(all, maxChars))
      && truncated == (Shown(all, maxChars) < all)
  {
    text, lines, truncated := AnnotateWith(HunkStart, SplitLines(patch), maxChars);
  }

  lemma {:induction false} RenderedStep(hunk: Matcher, rows: seq<string>, i: nat)
    requires i < |rows|
    ensures var step := Render(hunk, LineAfter(hunk, rows[..i]), rows[i]);
      && LineAfter(hunk, rows[..i + 1]) == step.0
      && (step.1.None? ==> Rendered(hunk, rows[..i + 1]) == Rendered(hunk, rows[..i]))
      && (step.1.Some? ==>
            && Rendered(hunk, rows[..i + 1]) == Rendered(hunk, rows[..i]) + [step.1.value]
            && Rendered(hunk, rows[..i]) + [step.1.value] <= Rendered(hunk, rows))
  {
    assert rows[..i + 1] == rows[..i] + [rows[i]];
    RenderedSnoc(hunk, rows[..i], rows[i]);
    RenderedGrows(hunk, rows, i + 1);
  }

  lemma {:induction false} ShownSnoc(shown: seq<Out>, out: Out)
    ensures Texts(shown + [out]) == Texts(shown) + [out.text]
    ensures Chars(shown + [out]) == Chars(shown) + |out.text| + 1
    ensures Numbers(shown + [out]) == Numbers(shown) + if out.number.Some? then {out.number.value} else {}
  {
    var all := shown + [out];
    assert all[..|shown|] == shown && all[|shown|] == out;
    forall i | 0 <= i < |shown| && shown[i].number.Some? ensures shown[i].number.value in Numbers(all) {
      assert all[i] == shown[i];
    }
  }

  // --- The budget ------------------------------------------------------------------------------

  lemma {:induction false} JoinedLength(outs: seq<Out>)
    ensures outs != [] ==> |Joined(Texts(outs))| + 1 == Chars(outs)
  {
    if |outs| > 1 {
      var front := outs[..|outs| - 1];
      JoinedLength(front);
      assert Texts(outs)[..|outs| - 1] == Texts(front);
    } else if |outs| == 1 {
      assert outs[..0] == [];
    }
  }

  /** The text is the rows joined by newlines, so it cuts back into them. */
  lemma {:induction false} JoinedIsUnsplit(texts: seq<string>)
    ensures Joined(texts) == Unsplit(texts)
  {
    if |texts| > 1 {
      var front, last := texts[..|texts| - 1], texts[|texts| - 1];
      JoinedIsUnsplit(front);
      assert texts == front + [last];
      UnsplitSnoc(front, last);
    }
  }

  lemma {:induction false} UnsplitSnoc(rows: seq<string>, last: string)
    requires rows != []
    ensures Unsplit(rows + [last]) == Unsplit(rows) + "\n" + last
  {
    var more := rows + [last];
    if |rows| == 1 {
      assert more[1..] == [last] && Unsplit([last]) == last;
    } else {
      assert more[1..] == rows[1..] + [last];
      UnsplitSnoc(rows[1..], last);
    }
  }

  /** What is shown reads back row by row, if no row holds another line end and the last is not
      empty. */
  lemma {:induction false} TextReadsBack(shown: seq<Out>)
    requires forall o :: o in shown ==> Clean(o.text)
    requires shown != [] ==> shown[|shown| - 1].text != ""
    ensures SplitLines(Joined(Texts(shown))) == Texts(shown)
  {
    JoinedIsUnsplit(Texts(shown));
    assert forall i :: 0 <= i < |shown| ==> Texts(shown)[i] == shown[i].text && shown[i] in shown;
    RowsComeBackExactly(Texts(shown));
  }

  /** The text never exceeds the budget. */
  lemma {:induction false} TextFits(shown: seq<Out>, outs: seq<Out>, maxChars: int)
    requires Shows(shown, outs, maxChars)
    ensures |Joined(Texts(shown))| <= if maxChars > 0 then maxChars else 0
  {
    JoinedLength(shown);
  }

  lemma {:induction false} CharsGrow(outs: seq<Out>, k: nat)
    requires k <= |outs|
    ensures Chars(outs[..k]) <= Chars(outs)
    ensures k < |outs| ==> Chars(outs[..k]) + |outs[k].text| + 1 <= Chars(outs)
  {
    if k < |outs| {
      var front := outs[..|outs| - 1];
      if k < |front| {
        CharsGrow(front, k);
        assert front[..k] == outs[..k];
      }
    } else {
      assert outs[..k] == outs;
    }
  }

  /** A smaller budget shows a prefix of the rows, and so a subset of the lines. */
  lemma {:induction false} SmallerBudgetShowsLess(outs: seq<Out>, small: seq<Out>, big: seq<Out>, smallMax: int,
      bigMax: int)
    requires smallMax <= bigMax && Shows(small, outs, smallMax) && Shows(big, outs, bigMax)
    ensures small <= big && Numbers(small) <= Numbers(big)
  {
    if |small| > |big| {
      assert small[..|big|] == big && small[|big|] == outs[|big|];
      CharsGrow(small, |big|);
    }
    assert small <= big;
    PrefixNumbers(small, big);
  }

  // --- The true numbers ---------------------------------------------------------------------------

  /** A row of a hunk body. `Bare` is an unchanged empty line whose leading space was lost. */
  datatype HunkRow =
    | Added(line: string) | Context(line: string) | Bare | Removed(line: string) | NoNewline(note: string)

  /** A hunk: its header row, the new-side line it starts at, and its body. */
  datatype Hunk = Hunk(header: string, start: nat, body: seq<HunkRow>)

  predicate NewSide(r: HunkRow) { r.Added? || r.Context? || r.Bare? }

  function LineOf(r: HunkRow): string
    requires NewSide(r)
  {
    if r.Bare? then "" else r.line
  }

  function Raw(r: HunkRow): string {
    match r
    case Added(line) => "+" + line
    case Context(line) => " " + line
    case Bare => ""
    case Removed(line) => "-" + line
    case NoNewline(note) => "\\" + note
  }

  function RawBody(body: seq<HunkRow>): seq<string> {
    seq(|body|, i requires 0 <= i < |body| => Raw(body[i]))
  }

  function RawHunks(hunks: seq<Hunk>): seq<string> {
    if hunks == [] then []
    else
      var h := hunks[|hunks| - 1];
      RawHunks(hunks[..|hunks| - 1]) + [h.header] + RawBody(h.body)
  }

  /** The new-side lines of a body, in order. */
  function NewLines(body: seq<HunkRow>): seq<string> {
    if body == [] then []
    else
      var r := body[|body| - 1];
      NewLines(body[..|body| - 1]) + (if NewSide(r) then [LineOf(r)] else [])
  }

  /** The hunk shows the new file from line `start` on. */
  ghost predicate Describes(h: Hunk, newFile: seq<string>) {
    h.start >= 1 && NewLines(h.body) <= newFile[Min(h.start - 1, |newFile|)..]
  }

  function Min(a: int, b: int): int { if a < b then a else b }

  ghost predicate WellFormed(hunk: Matcher, h: Hunk) { hunk(h.header) == Some(h.start) }

  /** How many spaces the text starts with. */
  function Spaces(s: string): (r: nat)
    ensures r <= |s|
  {
    if s != "" && s[0] == ' ' then Spaces(s[1..]) + 1 else 0
  }

  /** The number a text starts with behind its spaces, and what stands behind the number. */
  function PrintedNumber(text: string): Option<nat> {
    var rest := text[Spaces(text)..];
    if Digits(rest) == 0 then None else Some(ParseDecimal(rest[..Digits(rest)]))
  }

  function BehindNumber(text: string): string {
    var rest := text[Spaces(text)..];
    rest[Digits(rest)..]
  }

  /** The number ends in the fifth column, or needs more columns and starts in the first. */
  predicate Aligned(text: string) {
    var spaces, digits := Spaces(text), Digits(text[Spaces(text)..]);
    spaces + digits == 5 || (spaces == 0 && digits > 5)
  }

  lemma {:induction false} SpacesThen(spaces: string, rest: string)
    requires (forall i :: 0 <= i < |spaces| ==> spaces[i] == ' ') && rest != "" && rest[0] != ' '
    ensures Spaces(spaces + rest) == |spaces|
  {
    if spaces == "" {
      assert spaces + rest == rest;
    } else {
      assert (spaces + rest)[1..] == spaces[1..] + rest;
      SpacesThen(spaces[1..], rest);
    }
  }

  /** A padded number reads back, and the text behind it is what was put there. */
  lemma {:induction false} PadReadsBack(n: nat, rest: string)
    requires rest == "" || !IsDigit(rest[0])
    ensures var text := Pad5(n) + rest;
      PrintedNumber(text) == Some(n) && BehindNumber(text) == rest && Aligned(text)
  {
    var d := Decimal(n);
    var spaces := seq(if |d| < 5 then 5 - |d| else 0, _ => ' ');
    var text := Pad5(n) + rest;
    assert text == spaces + (d + rest) && (d + rest)[0] == d[0] && IsDigit(d[0]);
    SpacesThen(spaces, d + rest);
    DigitsThen(d, rest);
    assert text[|spaces|..] == d + rest && (d + rest)[..|d|] == d && (d + rest)[|d|..] == rest;
    DecimalParsesBack(n);
  }

  /** If the row carries a number, that number is printed at its start, right-aligned in five columns,
      and behind it, after a space and a marker, stands the text of that line of the new file. */
  ghost predicate Truthful(out: Out, newFile: seq<string>) {
    out.number.Some? ==>
      var n := out.number.value;
      && 1 <= n <= |newFile| && PrintedNumber(out.text) == Some(n) && Aligned(out.text)
      && (BehindNumber(out.text) == " +" + newFile[n - 1] || BehindNumber(out.text) == "  " + newFile[n - 1])
  }

  lemma {:induction false} RowText(padded: string, marker: string, line: string)
    ensures padded + " " + marker + line == padded + (" " + marker + line)
    ensures marker == "+" ==> " " + marker + line == " +" + line
    ensures marker == " " ==> " " + marker + line == "  " + line
  {
  }

  lemma {:induction false} NumberedIsTruthful(n: nat, marker: string, text: string, newFile: seq<string>)
    requires 1 <= n <= |newFile| && (marker == "+" || marker == " ")
    requires text == Pad5(n) + " " + marker + newFile[n - 1]
    ensures Truthful(Out(text, Some(n)), newFile)
  {
    var behind := " " + marker + newFile[n - 1];
    RowText(Pad5(n), marker, newFile[n - 1]);
    BehindIsTruthful(n, behind, text, newFile);
  }

  lemma {:induction false} BehindIsTruthful(n: nat, behind: string, text: string, newFile: seq<string>)
    requires 1 <= n <= |newFile| && text == Pad5(n) + behind && behind != "" && behind[0] == ' '
    requires behind == " +" + newFile[n - 1] || behind == "  " + newFile[n - 1]
    ensures Truthful(Out(text, Some(n)), newFile)
  {
    PadReadsBack(n, behind);
  }

  lemma {:induction false} RenderBodyRow(hunk: Matcher, current: nat, r: HunkRow)
    requires MatchesOnlyAt(hunk) && current >= 1
    ensures Render(hunk, current, Raw(r)) ==
      match r
      case Added(line) => (current + 1, Some(Out(Pad5(current) + " " + "+" + line, Some(current))))
      case Context(line) => (current + 1, Some(Out(Pad5(current) + " " + " " + line, Some(current))))
      case Bare => (current + 1, Some(Out(Pad5(current) + " " + " " + "", Some(current))))
      case Removed(line) => (current, Some(Out("      " + ("-" + line), None)))
      case NoNewline(note) => (current, None)
  {
    if r.Added? || r.Context? { assert Raw(r)[1..] == r.line; }
  }

  /** What a row of a hunk's body renders to, when a new-side row holds the current line. */
  lemma {:induction false} RowIsTruthful(hunk: Matcher, current: nat, r: HunkRow, newFile: seq<string>)
    requires MatchesOnlyAt(hunk) && current >= 1
    requires NewSide(r) ==> current <= |newFile| && newFile[current - 1] == LineOf(r)
    ensures var step := Render(hunk, current, Raw(r));
      && (step.1.Some? ==> Truthful(step.1.value, newFile))
      && (NewSide(r) ==> step.0 == current + 1 && step.1.Some? && step.1.value.number == Some(current))
      && (!NewSide(r) ==> step.0 == current && (step.1.Some? ==> step.1.value.number == None))
  {
    RenderBodyRow(hunk, current, r);
    if NewSide(r) {
      NumberedIsTruthful(current, if r.Added? then "+" else " ", Render(hunk, current, Raw(r)).1.value.text, newFile);
    }
  }

  /** The rows of a patch up to the first `k` rows of a hunk's body. */
  function RowsInto(before: seq<string>, h: Hunk, k: nat): seq<string>
    requires k <= |h.body|
  {
    before + [h.header] + RawBody(h.body[..k])
  }

  lemma {:induction false} RowsIntoStep(before: seq<string>, h: Hunk, k: nat)
    requires k < |h.body|
    ensures RowsInto(before, h, k + 1) == RowsInto(before, h, k) + [Raw(h.body[k])]
  {
    assert RawBody(h.body[..k + 1]) == RawBody(h.body[..k]) + [Raw(h.body[k])];
  }

  lemma {:induction false} RowsIntoNone(before: seq<string>, h: Hunk)
    ensures RowsInto(before, h, 0) == before + [h.header]
  {
    assert RawBody(h.body[..0]) == [];
  }

  /** The line a hunk has reached after `k` rows of its body. */
  function Reached(h: Hunk, k: nat): nat
    requires k <= |h.body|
  {
    h.start + |NewLines(h.body[..k])|
  }

  lemma {:induction false} NewLinesGrow(body: seq<HunkRow>, k: nat)
    requires k <= |body|
    ensures NewLines(body[..k]) <= NewLines(body)
  {
    if k < |body| {
      NewLinesGrow(body[..|body| - 1], k);
      assert body[..|body| - 1][..k] == body[..k];
    } else {
      assert body[..k] == body;
    }
  }

  lemma {:induction false} ReachedStep(h: Hunk, k: nat, newFile: seq<string>)
    requires Describes(h, newFile) && k < |h.body|
    ensures Reached(h, k + 1) == Reached(h, k) + if NewSide(h.body[k]) then 1 else 0
    ensures NewSide(h.body[k]) ==>
      Reached(h, k) <= |newFile| && newFile[Reached(h, k) - 1] == LineOf(h.body[k])
  {
    assert h.body[..k + 1][..k] == h.body[..k];
    NewLinesGrow(h.body, k + 1);
    if NewSide(h.body[k]) {
      assert NewLines(h.body)[|NewLines(h.body[..k])|] == LineOf(h.body[k]);
    }
  }

  /** Rows rendered after `before`: the numbers [lo, hi) are the new ones, and every row is true. */
  ghost predicate Follows(outs: seq<Out>, before: seq<Out>, lo: nat, hi: nat, newFile: seq<string>) {
    && before <= outs
    && (forall n: nat :: n in Numbers(outs) <==> n in Numbers(before) || lo <= n < hi)
    && forall i :: |before| <= i < |outs| ==> Truthful(outs[i], newFile)
  }

  lemma {:induction false} FollowsStep(outs: seq<Out>, out: Out, before: seq<Out>, lo: nat, hi: nat,
      newFile: seq<string>)
    requires Follows(outs, before, lo, hi, newFile) && lo <= hi && Truthful(out, newFile)
    ensures out.number.None? ==> Follows(outs + [out], before, lo, hi, newFile)
    ensures out.number == Some(hi) ==> Follows(outs + [out], before, lo, hi + 1, newFile)
  {
    ShownSnoc(outs, out);
  }

  /** After some earlier rows, a hunk header and `k` rows of its body: the line reached, the
      numbers given out, and the truth of every row. */
  ghost predicate InHunk(hunk: Matcher, before: seq<string>, h: Hunk, k: nat, newFile: seq<string>)
    requires k <= |h.body|
  {
    && LineAfter(hunk, RowsInto(before, h, k)) == Reached(h, k)
    && Follows(Rendered(hunk, RowsInto(before, h, k)), Rendered(hunk, before), h.start, Reached(h, k), newFile)
  }

  lemma {:induction false} HeaderOpensHunk(hunk: Matcher, before: seq<string>, h: Hunk, newFile: seq<string>)
    requires WellFormed(hunk, h)
    ensures InHunk(hunk, before, h, 0, newFile)
  {
    RowsIntoNone(before, h);
    RenderedSnoc(hunk, before, h.header);
    FollowsHeader(Rendered(hunk, before), Out(h.header, None), h.start, newFile);
    assert h.body[..0] == [];
  }

  lemma {:induction false} FollowsHeader(before: seq<Out>, out: Out, lo: nat, newFile: seq<string>)
    requires out.number.None?
    ensures Follows(before + [out], before, lo, lo, newFile)
  {
    ShownSnoc(before, out);
  }

  lemma {:induction false} NextBodyRow(hunk: Matcher, before: seq<string>, h: Hunk, k: nat, newFile: seq<string>)
    requires MatchesOnlyAt(hunk) && Describes(h, newFile) && k < |h.body|
    requires InHunk(hunk, before, h, k, newFile)
    ensures InHunk(hunk, before, h, k + 1, newFile)
  {
    RowsIntoStep(before, h, k);
    ReachedStep(h, k, newFile);
    AppendRow(hunk, RowsInto(before, h, k), Rendered(hunk, before), h.body[k], h.start, Reached(h, k), newFile);
  }

  lemma {:induction false} AppendRow(hunk: Matcher, rows: seq<string>, before: seq<Out>, r: HunkRow, lo: nat,
      current: nat, newFile: seq<string>)
    requires MatchesOnlyAt(hunk) && LineAfter(hunk, rows) == current && 1 <= lo <= current
    requires Follows(Rendered(hunk, rows), before, lo, current, newFile)
    requires NewSide(r) ==> current <= |newFile| && newFile[current - 1] == LineOf(r)
    ensures var next := current + if NewSide(r) then 1 else 0;
      && LineAfter(hunk, rows + [Raw(r)]) == next
      && Follows(Rendered(hunk, rows + [Raw(r)]), before, lo, next, newFile)
  {
    RenderedSnoc(hunk, rows, Raw(r));
    assert Rendered(hunk, rows) + [] == Rendered(hunk, rows);
    RowIsTruthful(hunk, current, r, newFile);
    var out := Render(hunk, current, Raw(r)).1;
    if out.Some? { FollowsStep(Rendered(hunk, rows), out.value, before, lo, current, newFile); }
  }

  lemma {:induction false} HunkIsTruthful(hunk: Matcher, before: seq<string>, h: Hunk, k: nat, newFile: seq<string>)
    requires MatchesOnlyAt(hunk) && WellFormed(hunk, h) && Describes(h, newFile) && k <= |h.body|
    ensures InHunk(hunk, before, h, k, newFile)
  {
    if k == 0 {
      HeaderOpensHunk(hunk, before, h, newFile);
    } else {
      HunkIsTruthful(hunk, before, h, k - 1, newFile);
      NextBodyRow(hunk, before, h, k - 1, newFile);
    }
  }

  /** A line lies in the new-side range of one of the hunks. */
  ghost predicate InSomeHunk(hunks: seq<Hunk>, n: nat) {
    exists i :: 0 <= i < |hunks| && hunks[i].start <= n < hunks[i].start + |NewLines(hunks[i].body)|
  }

  /** Over a whole patch of hunks that start at line 1 or later: every printed number is the true
      line of the new file, and without a budget the lines are exactly the hunks' ranges. */
  lemma {:induction false} PatchIsTruthful(hunk: Matcher, hunks: seq<Hunk>, newFile: seq<string>)
    requires MatchesOnlyAt(hunk)
    requires forall i :: 0 <= i < |hunks| ==> WellFormed(hunk, hunks[i]) && Describes(hunks[i], newFile)
    ensures forall o :: o in Rendered(hunk, RawHunks(hunks)) ==> Truthful(o, newFile)
    ensures forall n: nat :: n in Numbers(Rendered(hunk, RawHunks(hunks))) <==> InSomeHunk(hunks, n)
  {
    if hunks != [] {
      var front, h := hunks[..|hunks| - 1], hunks[|hunks| - 1];
      PatchIsTruthful(hunk, front, newFile);
      HunkIsTruthful(hunk, RawHunks(front), h, |h.body|, newFile);
      assert h.body[..|h.body|] == h.body;
      assert RawHunks(hunks) == RowsInto(RawHunks(front), h, |h.body|);
      forall n: nat ensures InSomeHunk(hunks, n) <==>
        InSomeHunk(front, n) || h.start <= n < h.start + |NewLines(h.body)|
      {
        SomeHunkSnoc(hunks, n);
      }
    }
  }

  lemma {:induction false} SomeHunkSnoc(hunks: seq<Hunk>, n: nat)
    requires hunks != []
    ensures var front, h := hunks[..|hunks| - 1], hunks[|hunks| - 1];
      InSomeHunk(hunks, n) <==> InSomeHunk(front, n) || h.start <= n < h.start + |NewLines(h.body)|
  {
    var front := hunks[..|hunks| - 1];
    assert forall i :: 0 <= i < |front| ==> front[i] == hunks[i];
  }

  /** What is shown under any budget is truthful and inside the hunks too. */
  lemma {:induction false} ShownIsTruthful(hunk: Matcher, hunks: seq<Hunk>, newFile: seq<string>, shown: seq<Out>,
      maxChars: int)
    requires MatchesOnlyAt(hunk)
    requires forall i :: 0 <= i < |hunks| ==> WellFormed(hunk, hunks[i]) && Describes(hunks[i], newFile)
    requires Shows(shown, Rendered(hunk, RawHunks(hunks)), maxChars)
    ensures forall o :: o in shown ==> Truthful(o, newFile)
    ensures forall n: nat :: n in Numbers(shown) ==> InSomeHunk(hunks, n)
  {
    PatchIsTruthful(hunk, hunks, newFile);
    PrefixNumbers(shown, Rendered(hunk, RawHunks(hunks)));
  }

  /** What `annotate` shows of the text of any hunks that hold no other line end and end in a row
      that is not empty: only true numbers, all of them lines of the hunks, and all those lines when
      nothing is cut. */
  lemma {:induction false} AnnotatedPatchIsTruthful(hunks: seq<Hunk>, newFile: seq<string>, maxChars: int)
    requires forall i :: 0 <= i < |hunks| ==> WellFormed(HunkStart, hunks[i]) && Describes(hunks[i], newFile)
    requires var rows := RawHunks(hunks);
      (forall row :: row in rows ==> Clean(row)) && (rows == [] || rows[|rows| - 1] != "")
    ensures var all := Rendered(HunkStart, SplitLines(Unsplit(RawHunks(hunks))));
      && (forall o :: o in Shown(all, maxChars) ==> Truthful(o, newFile))
      && (forall n: nat :: n in Numbers(Shown(all, maxChars)) ==> InSomeHunk(hunks, n))
      && (Shown(all, maxChars) == all ==> forall n: nat :: n in Numbers(all) <==> InSomeHunk(hunks, n))
  {
    RowsComeBackExactly(RawHunks(hunks));
    HunkStartMatchesOnlyAt();
    var all := Rendered(HunkStart, RawHunks(hunks));
    ShownShows(all, maxChars);
    ShownIsTruthful(HunkStart, hunks, newFile, Shown(all, maxChars), maxChars);
    PatchIsTruthful(HunkStart, hunks, newFile);
  }

  lemma {:induction false} PrefixNumbers(shown: seq<Out>, outs: seq<Out>)
    requires shown <= outs
    ensures Numbers(shown) <= Numbers(outs) && forall o :: o in shown ==> o in outs
  {
    forall n | n in Numbers(shown) ensures n in Numbers(outs) {
      var k :| 0 <= k < |shown| && shown[k].number == Some(n);
      assert outs[k] == shown[k];
    }
  }

  /** A hunk that starts at line 0, as in a deleted file, shows its header and nothing else. */
  lemma {:induction false} ZeroStartHidesBody(hunk: Matcher, before: seq<string>, h: Hunk, k: nat)
    requires MatchesOnlyAt(hunk) && WellFormed(hunk, h) && h.start == 0 && k <= |h.body|
    ensures LineAfter(hunk, RowsInto(before, h, k)) == 0
    ensures Rendered(hunk, RowsInto(before, h, k)) == Rendered(hunk, before) + [Out(h.header, None)]
  {
    if k == 0 {
      RowsIntoNone(before, h);
      RenderedSnoc(hunk, before, h.header);
    } else {
      ZeroStartHidesBody(hunk, before, h, k - 1);
      RowsIntoStep(before, h, k - 1);
      ZeroRowIsHidden(hunk, RowsInto(before, h, k - 1), h.body[k - 1]);
    }
  }

  lemma {:induction false} ZeroRowIsHidden(hunk: Matcher, rows: seq<string>, r: HunkRow)
    requires MatchesOnlyAt(hunk) && LineAfter(hunk, rows) == 0
    ensures LineAfter(hunk, rows + [Raw(r)]) == 0 && Rendered(hunk, rows + [Raw(r)]) == Rendered(hunk, rows)
  {
    RenderedSnoc(hunk, rows, Raw(r));
    assert Rendered(hunk, rows) + [] == Rendered(hunk, rows);
  }

  // --- Another line end inside a row ------------------------------------------------------------

  lemma {:induction false} TornText(x: string, end: char, b: string, y: string)
    ensures (x + [end] + b) + "\n" + y == x + [end] + (b + "\n" + y)
  {
  }

  lemma {:induction false} TornRowSplits(header: string, x: string, end: char, b: string, y: string)
    requires Clean(header) && Clean(x) && Clean(b) && Clean(y) && y != "" && EndsLine(end) && end != '\r'
    ensures SplitLines(header + "\n" + ((x + [end] + b) + "\n" + y)) == [header] + ([x] + ([b] + [y]))
  {
    SplitFirst(header, (x + [end] + b) + "\n" + y);
    TornText(x, end, b, y);
    SplitAt(x, end, b + "\n" + y);
    SplitFirst(b, y);
    OneRowSplits(y);
  }

  lemma {:induction false} UnsplitThree(p: string, q: string, r: string)
    ensures Unsplit([p, q, r]) == p + "\n" + (q + "\n" + r)
  {
    assert [p, q, r][1..] == [q, r] && [q, r][1..] == [r];
    assert Unsplit([q, r]) == q + "\n" + Unsplit([r]);
  }

  /** No header, no removed line and no note. */
  predicate Plain(row: string) { row == "" || row[0] !in {'-', '\\', '@'} }

  lemma {:induction false} PlainRowRenders(hunk: Matcher, rows: seq<string>, row: string)
    requires MatchesOnlyAt(hunk) && LineAfter(hunk, rows) >= 1 && Plain(row)
    ensures LineAfter(hunk, rows + [row]) == LineAfter(hunk, rows) + 1
    ensures var n, marker := LineAfter(hunk, rows), if StartsWith(row, '+') then "+" else " ";
      Rendered(hunk, rows + [row]) ==
        Rendered(hunk, rows) + [Out(Pad5(n) + " " + marker + Rest(row), Some(n))]
  {
    RenderedSnoc(hunk, rows, row);
  }

  /** A header and three such rows: the last is numbered two past the first. */
  lemma {:induction false} ThirdRowRenders(hunk: Matcher, header: string, x: string, b: string, y: string)
    requires MatchesOnlyAt(hunk) && hunk(header).Some? && hunk(header).value >= 1
    requires Plain(x) && Plain(b) && Plain(y)
    ensures var n, marker := hunk(header).value + 2, if StartsWith(y, '+') then "+" else " ";
            var outs := Rendered(hunk, [header] + ([x] + ([b] + [y])));
      outs != [] && outs[|outs| - 1] == Out(Pad5(n) + " " + marker + Rest(y), Some(n))
  {
    var none: seq<string> := [];
    var one := none + [header];
    RenderedSnoc(hunk, none, header);
    PlainRowRenders(hunk, one, x);
    PlainRowRenders(hunk, one + [x], b);
    PlainRowRenders(hunk, one + [x] + [b], y);
    assert one + [x] + [b] + [y] == [header] + ([x] + ([b] + [y]));
  }

  /** An added line that holds another line end is counted twice, so the number printed in front of
      the next line is not that line's: it lies past the end of the file. */
  lemma {:induction false} OtherLineEndShiftsNumbers(hunk: Matcher, h: Hunk, newFile: seq<string>, a: string,
      end: char, b: string, c: string)
    requires MatchesOnlyAt(hunk) && EndsLine(end) && end != '\r'
    requires Clean(h.header) && Clean(a) && Clean(b) && Clean(c) && Plain(b)
    requires h.body == [Added(a + [end] + b), Added(c)] && WellFormed(hunk, h)
    requires Describes(h, newFile) && |newFile| == h.start + 1
    ensures var outs := Rendered(hunk, SplitLines(Unsplit(RawHunks([h]))));
      && newFile[h.start] == c && outs != []
      && outs[|outs| - 1] == Out(Pad5(h.start + 2) + " " + "+" + c, Some(h.start + 2))
      && !Truthful(outs[|outs| - 1], newFile)
  {
    var x, y := "+" + a, "+" + c;
    TornHunkRows(h, a, end, b, c);
    UnsplitThree(h.header, x + [end] + b, y);
    TornRowSplits(h.header, x, end, b, y);
    ThirdRowRenders(hunk, h.header, x, b, y);
    assert Rest(y) == c;
    SecondNewLine(h, newFile, a + [end] + b, c);
  }

  lemma {:induction false} SecondNewLine(h: Hunk, newFile: seq<string>, first: string, second: string)
    requires h.body == [Added(first), Added(second)] && Describes(h, newFile) && |newFile| == h.start + 1
    ensures newFile[h.start] == second
  {
    TwoNewLines(h.body, first, second);
    assert NewLines(h.body)[1] == newFile[h.start - 1..][1];
  }

  lemma {:induction false} TornHunkRows(h: Hunk, a: string, end: char, b: string, c: string)
    requires h.body == [Added(a + [end] + b), Added(c)]
    ensures RawHunks([h]) == [h.header, "+" + a + [end] + b, "+" + c]
  {
    assert [h][..0] == [] && "+" + (a + [end] + b) == "+" + a + [end] + b;
    assert RawBody(h.body) == ["+" + (a + [end] + b), "+" + c];
  }

  lemma {:induction false} TwoNewLines(body: seq<HunkRow>, x: string, y: string)
    requires body == [Added(x), Added(y)]
    ensures NewLines(body) == [x, y]
  {
    assert body[..1] == [Added(x)] && body[..1][..0] == [];
    assert NewLines(body[..1]) == [] + [x];
  }
}
