/** Choosing which of the model's findings are posted: `select_findings` of the pull-request
    reviewer. */
module Findings {
  import opened Options
  import opened Sorting

  datatype Category = Bug | Style
  datatype Severity = High | Medium | Low

  /** What the model proposes, per file reference. */
  datatype Finding = Finding(line: int, category: Category, severity: Severity, comment: string,
                             suggestion: Option<string>)
  datatype FileReview = FileReview(ref: string, findings: seq<Finding>)

  /** A file under review; `lines` are the diff lines a comment may target. */
  datatype ReviewFile = ReviewFile(ref: string, name: string, lines: set<int>)

  datatype Reviewed = Reviewed(path: string, line: int, category: Category, severity: Severity,
                               comment: string, suggestion: Option<string>)

  // --- Ranking ------------------------------------------------------------------

  function CategoryOrder(c: Category): int { if c.Bug? then 0 else 1 }

  function SeverityOrder(s: Severity): int {
    match s case High => 0 case Medium => 1 case Low => 2
  }

  /** `a` ranks strictly before `b`: bugs first, then by severity. */
  predicate Outranks(a: Reviewed, b: Reviewed) {
    CategoryOrder(a.category) < CategoryOrder(b.category)
    || (a.category == b.category && SeverityOrder(a.severity) < SeverityOrder(b.severity))
  }

  predicate SameRank(a: Reviewed, b: Reviewed) { a.category == b.category && a.severity == b.severity }

  /** Strings in lexicographic order of their characters. */
  predicate TextBefore(a: string, b: string) {
    b != "" && (a == "" || a[0] < b[0] || (a[0] == b[0] && TextBefore(a[1..], b[1..])))
  }

  /** The order of the result: rank, then path, then line. */
  predicate Before(a: Reviewed, b: Reviewed) {
    Outranks(a, b)
    || (SameRank(a, b) && (TextBefore(a.path, b.path) || (a.path == b.path && a.line < b.line)))
  }

  lemma {:induction false} TextOrder(a: string, b: string)
    ensures !(TextBefore(a, b) && TextBefore(b, a))
    ensures TextBefore(a, b) || TextBefore(b, a) || a == b
    ensures !TextBefore(a, a)
  {
    if a != "" {
      TextOrder(a[1..], a[1..]);
      if b != "" {
        TextOrder(a[1..], b[1..]);
        if a[0] == b[0] && a[1..] == b[1..] { assert a == [a[0]] + a[1..] == b; }
      }
    }
  }

  lemma {:induction false} TextTransitive(a: string, b: string, c: string)
    requires TextBefore(a, b) && TextBefore(b, c)
    ensures TextBefore(a, c)
  {
    if a != "" && a[0] == b[0] == c[0] { TextTransitive(a[1..], b[1..], c[1..]); }
  }

  lemma {:induction false} BeforeIsTransitive(a: Reviewed, b: Reviewed, c: Reviewed)
    ensures Before(a, b) && Before(b, c) ==> Before(a, c)
    ensures !Before(a, b) && !Before(b, c) ==> !Before(a, c)
  {
    TextOrder(a.path, b.path);
    TextOrder(b.path, c.path);
    TextOrder(a.path, c.path);
    if TextBefore(a.path, b.path) && TextBefore(b.path, c.path) { TextTransitive(a.path, b.path, c.path); }
    if TextBefore(c.path, b.path) && TextBefore(b.path, a.path) { TextTransitive(c.path, b.path, a.path); }
  }

  lemma {:induction false} Orders()
    ensures StrictWeak(Outranks) && StrictWeak(Before)
  {
    forall a ensures !Before(a, a) { TextOrder(a.path, a.path); }
    forall a, b, c ensures Before(a, b) && Before(b, c) ==> Before(a, c) { BeforeIsTransitive(a, b, c); }
    forall a, b, c ensures !Before(a, b) && !Before(b, c) ==> !Before(a, c) { BeforeIsTransitive(a, b, c); }
  }

  // --- What the ranking means ---------------------------------------------------------

  /** A bug if the other is one; in the same category, high if the other is high, and not low if the
      other is medium. */
  predicate AtLeastAsImportant(x: Reviewed, y: Reviewed) {
    && (y.category.Bug? ==> x.category.Bug?)
    && (x.category == y.category ==>
          (y.severity.High? ==> x.severity.High?) && (y.severity.Medium? ==> !x.severity.Low?))
  }

  lemma {:induction false} RankMeans(x: Reviewed, y: Reviewed)
    ensures !Outranks(y, x) <==> AtLeastAsImportant(x, y)
  {
  }

  /** Dictionary order: at the first difference the smaller character, or the end of the text. */
  ghost predicate FirstDiffersAt(a: string, b: string, k: int) {
    0 <= k <= |a| && k < |b| && a[..k] == b[..k] && (k == |a| || a[k] < b[k])
  }

  ghost predicate Lexicographic(a: string, b: string) { exists k :: FirstDiffersAt(a, b, k) }

  lemma {:induction false} TextBeforeMeans(a: string, b: string)
    ensures TextBefore(a, b) <==> Lexicographic(a, b)
  {
    if a == "" || b == "" || a[0] != b[0] {
      if TextBefore(a, b) { assert FirstDiffersAt(a, b, 0); }
      if Lexicographic(a, b) {
        var k :| FirstDiffersAt(a, b, k);
        if k > 0 { HeadsAgree(a, b, k); }
      }
    } else {
      TextBeforeMeans(a[1..], b[1..]);
      if Lexicographic(a[1..], b[1..]) {
        var k :| FirstDiffersAt(a[1..], b[1..], k);
        LongerDiffers(a, b, k);
      }
      if Lexicographic(a, b) {
        var k :| FirstDiffersAt(a, b, k);
        ShorterDiffers(a, b, k);
      }
    }
  }

  lemma {:induction false} HeadsAgree(a: string, b: string, k: int)
    requires k > 0 && FirstDiffersAt(a, b, k)
    ensures a[0] == b[0]
  {
    assert a[..k][0] == b[..k][0];
  }

  lemma {:induction false} LongerDiffers(a: string, b: string, k: int)
    requires a != "" && b != "" && a[0] == b[0] && FirstDiffersAt(a[1..], b[1..], k)
    ensures FirstDiffersAt(a, b, k + 1)
  {
    assert a[..k + 1] == [a[0]] + a[1..][..k] && b[..k + 1] == [b[0]] + b[1..][..k];
  }

  lemma {:induction false} ShorterDiffers(a: string, b: string, k: int)
    requires a != "" && b != "" && a[0] == b[0] && FirstDiffersAt(a, b, k)
    ensures FirstDiffersAt(a[1..], b[1..], k - 1)
  {
    assert k > 0;
    assert a[1..][..k - 1] == a[..k][1..] && b[1..][..k - 1] == b[..k][1..];
  }

  /** Bugs before style, then high before medium before low, then by path and line. */
  ghost predicate Precedes(x: Reviewed, y: Reviewed) {
    || (x.category.Bug? && y.category.Style?)
    || (x.category == y.category && x.severity.High? && !y.severity.High?)
    || (x.category == y.category && x.severity.Medium? && y.severity.Low?)
    || (x.category == y.category && x.severity == y.severity
        && (Lexicographic(x.path, y.path) || (x.path == y.path && x.line < y.line)))
  }

  lemma {:induction false} BeforeMeans(x: Reviewed, y: Reviewed)
    ensures Before(x, y) <==> Precedes(x, y)
  {
    TextBeforeMeans(x.path, y.path);
  }

  // --- Selecting ------------------------------------------------------------------

  predicate IsSpace(c: char) { c == ' ' || '\t' <= c <= '\r' }

  function StripLeft(s: string): string {
    if s != "" && IsSpace(s[0]) then StripLeft(s[1..]) else s
  }

  function StripRight(s: string): string {
    if s != "" && IsSpace(s[|s| - 1]) then StripRight(s[..|s| - 1]) else s
  }

  function Strip(s: string): string { StripRight(StripLeft(s)) }

  /** A stretch of the text with nothing but white space around it and none at its ends. */
  ghost predicate TrimmedAt(s: string, r: string, i: int, j: int) {
    && 0 <= i <= j <= |s| && r == s[i..j] && AllSpace(s[..i]) && AllSpace(s[j..])
    && (r != "" ==> !WhiteSpace(r[0]) && !WhiteSpace(r[|r| - 1]))
  }

  ghost predicate Trimmed(s: string, r: string) { exists i, j :: TrimmedAt(s, r, i, j) }

  predicate WhiteSpace(c: char) { c in {' ', '\t', '\n', '\U{b}', '\U{c}', '\r'} }

  predicate AllSpace(s: string) { forall i :: 0 <= i < |s| ==> WhiteSpace(s[i]) }

  lemma {:induction false} AllSpaceAppend(a: string, b: string)
    ensures AllSpace(a + b) <==> AllSpace(a) && AllSpace(b)
  {
    assert forall i :: 0 <= i < |a| ==> (a + b)[i] == a[i];
    assert forall i :: 0 <= i < |b| ==> (a + b)[|a| + i] == b[i];
  }

  lemma {:induction false} StripLeftTrims(s: string) returns (i: nat)
    ensures i <= |s| && StripLeft(s) == s[i..] && AllSpace(s[..i])
    ensures StripLeft(s) != "" ==> !IsSpace(StripLeft(s)[0])
  {
    i := 0;
    if s != "" && IsSpace(s[0]) {
      i := StripLeftTrims(s[1..]);
      assert s[1..][i..] == s[i + 1..] && s[..i + 1] == [s[0]] + s[1..][..i];
      OneSpace(s[0]);
      AllSpaceAppend([s[0]], s[1..][..i]);
      i := i + 1;
    }
  }

  lemma {:induction false} StripRightTrims(s: string) returns (j: nat)
    ensures j <= |s| && StripRight(s) == s[..j] && AllSpace(s[j..])
    ensures StripRight(s) != "" ==> !IsSpace(StripRight(s)[|StripRight(s)| - 1])
  {
    j := |s|;
    if s != "" && IsSpace(s[|s| - 1]) {
      var front, last := s[..|s| - 1], s[|s| - 1];
      j := StripRightTrims(front);
      assert front[..j] == s[..j] && s[j..] == front[j..] + [last];
      OneSpace(last);
      AllSpaceAppend(front[j..], [last]);
    }
  }

  lemma {:induction false} StripTrims(s: string)
    ensures Trimmed(s, Strip(s))
  {
    var i := StripLeftTrims(s);
    var left := StripLeft(s);
    var j := StripRightTrims(left);
    assert left[..j] == s[i..i + j] && left[j..] == s[i + j..];
    var r := left[..j];
    if r != "" {
      assert r[0] == left[0];
      OneSpace(r[0]);
      OneSpace(r[|r| - 1]);
    }
    assert TrimmedAt(s, Strip(s), i, i + j);
  }

  lemma {:induction false} OneSpace(c: char)
    ensures IsSpace(c) <==> WhiteSpace(c)
    ensures AllSpace([c]) <==> IsSpace(c)
  {
    assert [c][0] == c;
  }

  /** The files by reference; a repeated reference means the last file. */
  function ByRef(files: seq<ReviewFile>): map<string, ReviewFile> {
    if files == [] then map[]
    else ByRef(files[..|files| - 1])[files[|files| - 1].ref := files[|files| - 1]]
  }

  lemma {:induction false} ByRefIsLast(files: seq<ReviewFile>, ref: string) returns (i: int)
    ensures -1 <= i < |files| && (ref in ByRef(files) <==> i >= 0)
    ensures ref in ByRef(files) ==> ByRef(files)[ref] == files[i] && files[i].ref == ref
    ensures forall j :: i < j < |files| ==> files[j].ref != ref
  {
    i := -1;
    if files != [] {
      var front, last := files[..|files| - 1], files[|files| - 1];
      if last.ref == ref { i := |files| - 1; } else { i := ByRefIsLast(front, ref); }
      assert forall j :: 0 <= j < |front| ==> files[j] == front[j];
    }
  }

  /** The finding, if it points at a shown line of a reviewed file and says something. */
  function Vetted(byRef: map<string, ReviewFile>, ref: string, f: Finding): Option<Reviewed> {
    var comment := Strip(f.comment);
    if ref !in byRef || f.line !in byRef[ref].lines || comment == "" then None
    else
      var suggestion := if f.suggestion.Some? then Strip(f.suggestion.value) else "";
      Some(Reviewed(byRef[ref].name, f.line, f.category, f.severity, comment,
                    if suggestion == "" then None else Some(suggestion)))
  }

  /** All proposals in order, each with the reference it came under. */
  function Proposals(reviews: seq<FileReview>): seq<(string, Finding)> {
    if reviews == [] then []
    else
      var r := reviews[|reviews| - 1];
      Proposals(reviews[..|reviews| - 1]) + Tagged(r.ref, r.findings)
  }

  function Tagged(ref: string, findings: seq<Finding>): seq<(string, Finding)> {
    seq(|findings|, i requires 0 <= i < |findings| => (ref, findings[i]))
  }

  function VettedOf(byRef: map<string, ReviewFile>, proposals: seq<(string, Finding)>): seq<Reviewed> {
    if proposals == [] then []
    else
      var (ref, f) := proposals[|proposals| - 1];
      var v := Vetted(byRef, ref, f);
      VettedOf(byRef, proposals[..|proposals| - 1]) + (if v.Some? then [v.value] else [])
  }

  type Key = (string, int)
  function KeyOf(r: Reviewed): Key { (r.path, r.line) }

  function Keys(s: seq<Reviewed>): set<Key> { set i | 0 <= i < |s| :: KeyOf(s[i]) }

  /** The first finding of every line. */
  function FirstPerLine(s: seq<Reviewed>): seq<Reviewed> {
    if s == [] then []
    else
      var front, last := FirstPerLine(s[..|s| - 1]), s[|s| - 1];
      if KeyOf(last) in Keys(front) then front else front + [last]
  }

  /** A Python slice `s[:limit]`. */
  function Upto<T>(s: seq<T>, limit: int): seq<T> {
    if limit >= 0 then s[..if limit <= |s| then limit else |s|]
    else s[..if |s| + limit >= 0 then |s| + limit else 0]
  }

  function Candidates(files: seq<ReviewFile>, reviews: seq<FileReview>): seq<Reviewed> {
    VettedOf(ByRef(files), Proposals(reviews))
  }

  function RankedLines(files: seq<ReviewFile>, reviews: seq<FileReview>): seq<Reviewed> {
    SortBy(FirstPerLine(SortBy(Candidates(files, reviews), Outranks)), Before)
  }

  /** The proposals met so far, split into those that stand and the number of the others. */
  ghost predicate Sifted(byRef: map<string, ReviewFile>, met: seq<(string, Finding)>, candidates: seq<Reviewed>,
      dropped: nat) {
    candidates == VettedOf(byRef, met) && dropped + |candidates| == |met|
  }

  lemma {:induction false} SiftNext(byRef: map<string, ReviewFile>, met: seq<(string, Finding)>, ref: string,
      f: Finding,
      candidates: seq<Reviewed>, dropped: nat)
    requires Sifted(byRef, met, candidates, dropped)
    ensures var v := Vetted(byRef, ref, f);
      if v.None? then Sifted(byRef, met + [(ref, f)], candidates, dropped + 1)
      else Sifted(byRef, met + [(ref, f)], candidates + [v.value], dropped)
  {
    assert (met + [(ref, f)])[..|met|] == met;
  }

  lemma {:induction false} TaggedSnoc(start: seq<(string, Finding)>, ref: string, findings: seq<Finding>, j: nat)
    requires j < |findings|
    ensures start + Tagged(ref, findings[..j + 1]) == (start + Tagged(ref, findings[..j])) + [(ref, findings[j])]
  {
  }

  /** The first loop: the findings that stand, and how many do not. */
  method Vet(files: seq<ReviewFile>, reviews: seq<FileReview>) returns (candidates: seq<Reviewed>, dropped: nat)
    ensures candidates == Candidates(files, reviews) && dropped + |candidates| == |Proposals(reviews)|
  {
    var byRef := ByRef(files);
    candidates, dropped := [], 0;
    for i := 0 to |reviews|
      invariant Sifted(byRef, Proposals(reviews[..i]), candidates, dropped)
    {
      candidates, dropped := VetReview(byRef, reviews[i], candidates, dropped, Proposals(reviews[..i]));
      assert reviews[..i + 1][..i] == reviews[..i];
    }
    assert reviews[..|reviews|] == reviews;
  }

  method VetReview(byRef: map<string, ReviewFile>, review: FileReview, candidates0: seq<Reviewed>, dropped0: nat,
      ghost met: seq<(string, Finding)>)
    returns (candidates: seq<Reviewed>, dropped: nat)
    requires Sifted(byRef, met, candidates0, dropped0)
    ensures Sifted(byRef, met + Tagged(review.ref, review.findings), candidates, dropped)
  {
    candidates, dropped := candidates0, dropped0;
    assert met + Tagged(review.ref, review.findings[..0]) == met;
    for j := 0 to |review.findings|
      invariant Sifted(byRef, met + Tagged(review.ref, review.findings[..j]), candidates, dropped)
    {
      var v := Vetted(byRef, review.ref, review.findings[j]);
      SiftNext(byRef, met + Tagged(review.ref, review.findings[..j]), review.ref, review.findings[j],
        candidates, dropped);
      TaggedSnoc(met, review.ref, review.findings, j);
      if v.None? { dropped := dropped + 1; } else { candidates := candidates + [v.value]; }
    }
    assert review.findings[..|review.findings|] == review.findings;
  }

  /** The second loop: the first finding of each line, and how many others there are. */
  method KeepFirst(sorted: seq<Reviewed>) returns (best: seq<Reviewed>, repeats: nat)
    ensures best == FirstPerLine(sorted) && repeats + |best| == |sorted|
  {
    best, repeats := [], 0;
    for i := 0 to |sorted|
      invariant best == FirstPerLine(sorted[..i]) && repeats + |best| == i
    {
      assert sorted[..i + 1][..i] == sorted[..i];
      if KeyOf(sorted[i]) in Keys(best) { repeats := repeats + 1; } else { best := best + [sorted[i]]; }
    }
    assert sorted[..|sorted|] == sorted;
  }

  method SelectFindings(files: seq<ReviewFile>, reviews: seq<FileReview>, limit: int)
    returns (kept: seq<Reviewed>, dropped: int)
    ensures kept == Upto(RankedLines(files, reviews), limit)
    ensures dropped == |Proposals(reviews)| - |RankedLines(files, reviews)|
                       + (if |RankedLines(files, reviews)| > limit then |RankedLines(files, reviews)| - limit else 0)
    ensures |kept| + dropped == |Proposals(reviews)| <==> limit >= 0
  {
    var candidates, unfit := Vet(files, reviews);
    var best, repeats := KeepFirst(SortBy(candidates, Outranks));
    var ranked := SortBy(best, Before);
    kept := Upto(ranked, limit);
    dropped := unfit + repeats + (if |ranked| - limit > 0 then |ranked| - limit else 0);
  }

  // --- What the selection guarantees ---------------------------------------------------

  lemma {:induction false} KeysSnoc(s: seq<Reviewed>, x: Reviewed)
    ensures Keys(s + [x]) == Keys(s) + {KeyOf(x)}
  {
    var t := s + [x];
    assert t[|s|] == x;
    forall k | 0 <= k < |s| ensures KeyOf(s[k]) in Keys(t) { assert t[k] == s[k]; }
  }

  lemma {:induction false} KeyInKeys(s: seq<Reviewed>, x: Reviewed)
    ensures x in s ==> KeyOf(x) in Keys(s)
  {
    if x in s {
      var k :| 0 <= k < |s| && s[k] == x;
    }
  }

  ghost predicate DistinctLines(s: seq<Reviewed>) {
    forall i, j :: 0 <= i < j < |s| ==> KeyOf(s[i]) != KeyOf(s[j])
  }

  lemma {:induction false} FirstPerLineKeys(s: seq<Reviewed>)
    ensures DistinctLines(FirstPerLine(s)) && Keys(FirstPerLine(s)) == Keys(s)
  {
    if s != [] {
      var front, last := s[..|s| - 1], s[|s| - 1];
      FirstPerLineKeys(front);
      assert s == front + [last];
      KeysSnoc(front, last);
      var f := FirstPerLine(front);
      KeysSnoc(f, last);
      assert forall k :: 0 <= k < |f| ==> KeyOf(f[k]) in Keys(f);
    }
  }

  /** `x` is in the list and at least as important as everything on its line. */
  ghost predicate BestOfLine(s: seq<Reviewed>, x: Reviewed) {
    x in s && forall y :: y in s && y.path == x.path && y.line == x.line ==> AtLeastAsImportant(x, y)
  }

  lemma {:induction false} FirstPerLineIsBest(s: seq<Reviewed>, x: Reviewed)
    requires Sorted(s, Outranks) && x in FirstPerLine(s)
    ensures BestOfLine(s, x)
  {
    var front, last := s[..|s| - 1], s[|s| - 1];
    assert s == front + [last];
    FirstPerLineKeys(front);
    RankMeans(x, x);
    if x in FirstPerLine(front) {
      FirstPerLineIsBest(front, x);
      var i :| 0 <= i < |front| && front[i] == x;
      assert s[i] == x && !Outranks(last, x);
      RankMeans(x, last);
    } else {
      assert x == last;
      forall y ensures y in front ==> KeyOf(y) in Keys(front) { KeyInKeys(front, y); }
    }
  }

  /** Of the findings a selective predicate ties to `x`, the kept one comes first. */
  lemma {:induction false} FirstPerLineIsFirst(s: seq<Reviewed>, x: Reviewed, tie: Reviewed -> bool)
    requires x in FirstPerLine(s) && tie(x) && forall y :: tie(y) ==> KeyOf(y) == KeyOf(x)
    ensures Filter(s, tie) != [] && Filter(s, tie)[0] == x
  {
    var front, last := s[..|s| - 1], s[|s| - 1];
    assert s == front + [last];
    FilterAppend(front, [last], tie);
    if x in FirstPerLine(front) {
      FirstPerLineIsFirst(front, x, tie);
    } else {
      FirstPerLineKeys(front);
      forall y ensures y in front ==> KeyOf(y) in Keys(front) { KeyInKeys(front, y); }
      FilterNone(front, tie);
      assert Filter([last], tie) == [last];
    }
  }

  lemma {:induction false} SortedKeys(s: seq<Reviewed>, lt: (Reviewed, Reviewed) -> bool)
    ensures Keys(SortBy(s, lt)) == Keys(s)
  {
    var r := SortBy(s, lt);
    forall k | k in Keys(s) ensures k in Keys(r) {
      var i :| 0 <= i < |s| && KeyOf(s[i]) == k;
      SortByMembers(s, lt, s[i]);
    }
    forall k | k in Keys(r) ensures k in Keys(s) {
      var i :| 0 <= i < |r| && KeyOf(r[i]) == k;
      SortByMembers(s, lt, r[i]);
    }
  }

  lemma {:induction false} DistinctCount(s: seq<Reviewed>)
    ensures |Keys(s)| <= |s| && (DistinctLines(s) <==> |Keys(s)| == |s|)
  {
    if s != [] {
      var front, last := s[..|s| - 1], s[|s| - 1];
      DistinctCount(front);
      assert s == front + [last];
      KeysSnoc(front, last);
      if KeyOf(last) in Keys(front) { assert Keys(s) == Keys(front); }
    }
  }

  /** Bugs first, then by severity, path and line. */
  ghost predicate InOrder(s: seq<Reviewed>) { forall i, j :: 0 <= i < j < |s| ==> Precedes(s[i], s[j]) }

  lemma {:induction false} SortedIsInOrder(s: seq<Reviewed>)
    requires Sorted(s, Before) && DistinctLines(s)
    ensures InOrder(s)
  {
    forall i, j | 0 <= i < j < |s| ensures Precedes(s[i], s[j]) {
      assert !Before(s[j], s[i]) && KeyOf(s[i]) != KeyOf(s[j]);
      TextOrder(s[i].path, s[j].path);
      BeforeMeans(s[i], s[j]);
    }
  }

  /** The ranked list: sorted, one finding per line, every candidate line present, each the best
      of its line and the first proposed among equals. */
  lemma {:induction false} RankedLinesAreBest(files: seq<ReviewFile>, reviews: seq<FileReview>)
    ensures var cands, ranked := Candidates(files, reviews), RankedLines(files, reviews);
      && Sorted(ranked, Before) && InOrder(ranked) && DistinctLines(ranked) && Keys(ranked) == Keys(cands)
    ensures forall x :: x in RankedLines(files, reviews) ==> BestOfLine(Candidates(files, reviews), x)
  {
    var cands := Candidates(files, reviews);
    var sorted := SortBy(cands, Outranks);
    var best := FirstPerLine(sorted);
    Orders();
    SortBySorted(cands, Outranks);
    SortBySorted(best, Before);
    FirstPerLineKeys(sorted);
    SortedKeys(cands, Outranks);
    SortedKeys(best, Before);
    DistinctCount(best);
    DistinctCount(SortBy(best, Before));
    SortedIsInOrder(SortBy(best, Before));
    forall x | x in SortBy(best, Before) ensures BestOfLine(cands, x) {
      SortByMembers(best, Before, x);
      FirstPerLineIsBest(sorted, x);
      SortByMembers(cands, Outranks, x);
      forall y | y in cands ensures y in sorted { SortByMembers(cands, Outranks, y); }
    }
  }

  /** Findings on the same line and with the same rank as `x`. */
  function TiedWith(x: Reviewed): Reviewed -> bool {
    (y: Reviewed) => KeyOf(y) == KeyOf(x) && SameRank(x, y)
  }

  lemma {:induction false} TiesGoToTheFirst(files: seq<ReviewFile>, reviews: seq<FileReview>, x: Reviewed)
    requires x in RankedLines(files, reviews)
    ensures var ties := Filter(Candidates(files, reviews), TiedWith(x)); ties != [] && ties[0] == x
  {
    var cands := Candidates(files, reviews);
    var sorted := SortBy(cands, Outranks);
    SortByMembers(FirstPerLine(sorted), Before, x);
    FirstPerLineIsFirst(sorted, x, TiedWith(x));
    SortByStable(cands, Outranks, TiedWith(x));
  }

  /** The posted findings are sorted and distinct by line; each is the best of its line; no line
      left out by the limit holds anything that outranks a posted one; and the finding that would
      have been posted for it comes behind all posted ones by rank, path and line. */
  ghost predicate PostsBest(cands: seq<Reviewed>, ranked: seq<Reviewed>, kept: seq<Reviewed>) {
    && InOrder(kept) && DistinctLines(kept)
    && (forall x :: x in kept ==> BestOfLine(cands, x))
    && (forall x, y :: x in kept && y in cands && KeyOf(y) !in Keys(kept) ==> AtLeastAsImportant(x, y))
    && (forall x, y :: x in kept && y in ranked && KeyOf(y) !in Keys(kept) ==> Precedes(x, y))
  }

  lemma {:induction false} PrefixPostsBest(cands: seq<Reviewed>, ranked: seq<Reviewed>, kept: seq<Reviewed>)
    requires Sorted(ranked, Before) && DistinctLines(ranked) && Keys(ranked) == Keys(cands) && kept <= ranked
    requires forall x :: x in ranked ==> BestOfLine(cands, x)
    ensures PostsBest(cands, ranked, kept)
  {
    SortedIsInOrder(ranked);
    forall x, y | x in kept && y in cands && KeyOf(y) !in Keys(kept) ensures AtLeastAsImportant(x, y) {
      CutIsWorse(cands, ranked, kept, x, y);
    }
    forall x, y | x in kept && y in ranked && KeyOf(y) !in Keys(kept) ensures Precedes(x, y) {
      CutIsBehind(ranked, kept, x, y);
    }
  }

  lemma {:induction false} SelectionIsBest(files: seq<ReviewFile>, reviews: seq<FileReview>, limit: int)
    ensures PostsBest(Candidates(files, reviews), RankedLines(files, reviews), Upto(RankedLines(files, reviews), limit))
  {
    RankedLinesAreBest(files, reviews);
    var ranked := RankedLines(files, reviews);
    PrefixPostsBest(Candidates(files, reviews), ranked, Upto(ranked, limit));
  }

  /** In the final order, path and line included, everything kept comes before everything cut. */
  lemma {:induction false} CutIsBehind(ranked: seq<Reviewed>, kept: seq<Reviewed>, x: Reviewed, y: Reviewed)
    requires kept <= ranked && Sorted(ranked, Before) && x in kept && y in ranked && KeyOf(y) !in Keys(kept)
    ensures Precedes(x, y)
  {
    BeforeMeans(x, y);
    assert forall k :: 0 <= k < |kept| ==> kept[k] == ranked[k] && KeyOf(kept[k]) in Keys(kept);
    var i :| 0 <= i < |kept| && kept[i] == x;
    var j :| 0 <= j < |ranked| && ranked[j] == y;
    assert !Before(ranked[j], ranked[i]) && KeyOf(x) != KeyOf(y);
    TextOrder(x.path, y.path);
  }

  lemma {:induction false} CutIsWorse(cands: seq<Reviewed>, ranked: seq<Reviewed>, kept: seq<Reviewed>, x: Reviewed,
      y: Reviewed)
    requires kept <= ranked && Sorted(ranked, Before) && Keys(ranked) == Keys(cands)
    requires forall z :: z in ranked ==> BestOfLine(cands, z)
    requires x in kept && y in cands && KeyOf(y) !in Keys(kept)
    ensures AtLeastAsImportant(x, y)
  {
    var m :| 0 <= m < |cands| && cands[m] == y;
    assert KeyOf(y) in Keys(cands);
    var j :| 0 <= j < |ranked| && KeyOf(ranked[j]) == KeyOf(y);
    assert forall k :: 0 <= k < |kept| ==> kept[k] == ranked[k] && KeyOf(kept[k]) in Keys(kept);
    var i :| 0 <= i < |kept| && kept[i] == x;
    assert !Before(ranked[j], ranked[i]);
    assert BestOfLine(cands, ranked[j]);
    RankMeans(ranked[j], y);
    RankMeans(x, y);
  }

  /** A candidate is a proposal of a reviewed file, on a line its diff shows, with the comment
      stripped and not blank, and its suggestion stripped, or none if nothing is left of it. */
  lemma {:induction false} VettedIsReal(byRef: map<string, ReviewFile>, proposals: seq<(string, Finding)>, r: Reviewed)
    returns (ref: string, f: Finding)
    requires r in VettedOf(byRef, proposals)
    ensures (ref, f) in proposals && ref in byRef && r.path == byRef[ref].name
    ensures r.line == f.line && f.line in byRef[ref].lines && r.comment == Strip(f.comment) != ""
    ensures r.category == f.category && r.severity == f.severity
    ensures r.suggestion.Some? <==> f.suggestion.Some? && Strip(f.suggestion.value) != ""
    ensures r.suggestion.Some? ==> r.suggestion.value == Strip(f.suggestion.value)
  {
    var front := proposals[..|proposals| - 1];
    if r in VettedOf(byRef, front) {
      ref, f := VettedIsReal(byRef, front, r);
      assert proposals == front + [proposals[|proposals| - 1]];
    } else {
      ref, f := proposals[|proposals| - 1].0, proposals[|proposals| - 1].1;
    }
  }

  /** A proposal that points at a shown line and says something is never dropped unvetted. */
  lemma {:induction false} VettingMissesNothing(byRef: map<string, ReviewFile>, proposals: seq<(string, Finding)>,
      ref: string, f: Finding)
    requires (ref, f) in proposals && ref in byRef && f.line in byRef[ref].lines && Strip(f.comment) != ""
    ensures (byRef[ref].name, f.line) in Keys(VettedOf(byRef, proposals))
  {
    var front, last := proposals[..|proposals| - 1], proposals[|proposals| - 1];
    assert proposals == front + [last];
    if last == (ref, f) {
      KeysSnoc(VettedOf(byRef, front), Vetted(byRef, ref, f).value);
    } else {
      VettingMissesNothing(byRef, front, ref, f);
      var v := Vetted(byRef, last.0, last.1);
      if v.Some? { KeysSnoc(VettedOf(byRef, front), v.value); }
      assert VettedOf(byRef, front) + [] == VettedOf(byRef, front);
    }
  }
}
