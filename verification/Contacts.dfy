/** Who a campaign calls: reading contact rows from a sheet and the eligibility rules. */
module Contacts {
  import opened Options

  // --- Text --------------------------------------------------------------------------------------

  /** What the Unicode tables say: the first letter of a character's category, and white space. */
  datatype Unicode = Unicode(category: char -> char, space: char -> bool)

  function StripLeft(u: Unicode, s: string): string {
    if s != "" && u.space(s[0]) then StripLeft(u, s[1..]) else s
  }

  function StripRight(u: Unicode, s: string): string {
    if s != "" && u.space(s[|s| - 1]) then StripRight(u, s[..|s| - 1]) else s
  }

  function Strip(u: Unicode, s: string): string { StripRight(u, StripLeft(u, s)) }

  /** Runs of white space become one space, and none is left at either end. */
  function Collapse(u: Unicode, s: string): string {
    if s == "" then ""
    else
      var front, c := Collapse(u, s[..|s| - 1]), s[|s| - 1];
      if u.space(c) then front
      else if front != "" && |s| >= 2 && u.space(s[|s| - 2]) then front + " " + [c]
      else front + [c]
  }

  /** The characters that are not white space, in order. */
  function Marks(u: Unicode, s: string): string {
    if s == "" then ""
    else Marks(u, s[..|s| - 1]) + (if u.space(s[|s| - 1]) then "" else [s[|s| - 1]])
  }

  /** Single spaces inside, none at the ends. */
  ghost predicate Tidy(u: Unicode, s: string) {
    && (s != "" ==> !u.space(s[0]) && !u.space(s[|s| - 1]))
    && (forall i :: 0 <= i < |s| && u.space(s[i]) ==> s[i] == ' ')
    && (forall i, j :: 0 <= i < j < |s| && j == i + 1 ==> !u.space(s[i]) || !u.space(s[j]))
  }

  lemma {:induction false} MarksSnoc(u: Unicode, s: string, c: char)
    ensures Marks(u, s + [c]) == Marks(u, s) + (if u.space(c) then "" else [c])
  {
    assert (s + [c])[..|s|] == s;
  }

  lemma {:induction false} TidyStep(u: Unicode, s: string, c: char)
    requires u.space(' ') && Tidy(u, s) && !u.space(c)
    ensures Tidy(u, s + [c]) && (s != "" ==> Tidy(u, s + " " + [c]))
  {
  }

  lemma {:induction false} CollapseKeepsMarks(u: Unicode, s: string)
    requires u.space(' ')
    ensures Marks(u, Collapse(u, s)) == Marks(u, s)
  {
    if s != "" {
      var front, c := s[..|s| - 1], s[|s| - 1];
      CollapseKeepsMarks(u, front);
      var tidy := Collapse(u, front);
      MarksSnoc(u, tidy, c);
      MarksSnoc(u, tidy, ' ');
      MarksSnoc(u, tidy + " ", c);
      assert Marks(u, tidy) + "" == Marks(u, tidy);
    }
  }

  /** A collapsed name is tidy and keeps every other character in order. */
  lemma {:induction false} CollapseIsTidy(u: Unicode, s: string)
    requires u.space(' ')
    ensures Tidy(u, Collapse(u, s)) && Marks(u, Collapse(u, s)) == Marks(u, s)
  {
    CollapseKeepsMarks(u, s);
    if s != "" {
      var front, c := s[..|s| - 1], s[|s| - 1];
      CollapseIsTidy(u, front);
      if !u.space(c) { TidyStep(u, Collapse(u, front), c); }
    }
  }

  /** The words of a text: its longest stretches without white space. */
  function Words(u: Unicode, s: string): seq<string> {
    if s == "" then []
    else
      var front, c := s[..|s| - 1], s[|s| - 1];
      var words := Words(u, front);
      if u.space(c) then words
      else if front == "" || u.space(front[|front| - 1]) || words == [] then words + [[c]]
      else words[..|words| - 1] + [words[|words| - 1] + [c]]
  }

  /** The words with one space between them. */
  function Spaced(words: seq<string>): string {
    if words == [] then "" else if |words| == 1 then words[0]
    else Spaced(words[..|words| - 1]) + " " + words[|words| - 1]
  }

  lemma {:induction false} SpacedMore(words: seq<string>, c: char)
    ensures Spaced(words + [[c]]) == if words == [] then [c] else Spaced(words) + " " + [c]
    ensures words != [] ==>
      Spaced(words[..|words| - 1] + [words[|words| - 1] + [c]]) == Spaced(words) + [c]
  {
    assert (words + [[c]])[..|words|] == words;
    if words != [] {
      var front, last := words[..|words| - 1], words[|words| - 1];
      assert (front + [last + [c]])[..|front|] == front;
    }
  }

  lemma {:induction false} WordsAreThere(u: Unicode, s: string)
    ensures (Words(u, s) == []) == (Collapse(u, s) == "")
    ensures s != "" && !u.space(s[|s| - 1]) ==> Words(u, s) != []
  {
    if s != "" { WordsAreThere(u, s[..|s| - 1]); }
  }

  /** Collapsing is joining the words by single spaces. */
  lemma {:induction false} CollapseSpacesWords(u: Unicode, s: string)
    ensures Collapse(u, s) == Spaced(Words(u, s))
  {
    if s != "" {
      var front, c := s[..|s| - 1], s[|s| - 1];
      CollapseSpacesWords(u, front);
      WordsAreThere(u, front);
      SpacedMore(Words(u, front), c);
    }
  }

  /** ASCII lower case. */
  function Lower(s: string): string {
    seq(|s|, i requires 0 <= i < |s| => if 'A' <= s[i] <= 'Z' then s[i] + ('a' - 'A') else s[i])
  }

  predicate IsDigit(c: char) { '0' <= c <= '9' }

  /** `+`, a digit from 1, and 7 to 14 more. */
  predicate IsNumber(p: string) {
    && 9 <= |p| <= 16 && p[0] == '+' && '1' <= p[1] <= '9'
    && forall i :: 2 <= i < |p| ==> IsDigit(p[i])
  }

  /** One final line break is let through. */
  predicate IsE164(phone: string) {
    IsNumber(if phone != "" && phone[|phone| - 1] == '\n' then phone[..|phone| - 1] else phone)
  }

  const MAX_NAME := 40
  const NAME_PUNCTUATION := {' ', '\'', '\U{2019}', '-', '.'}

  predicate PlainName(u: Unicode, name: string) {
    && 1 <= |name| <= MAX_NAME && u.category(name[0]) == 'L'
    && name == Strip(u, name)
    && (forall i :: 0 <= i < |name| ==>
          u.category(name[i]) == 'L' || u.category(name[i]) == 'M' || name[i] in NAME_PUNCTUATION)
    && (forall i :: 0 < i < |name| ==>
          name[i - 1] !in NAME_PUNCTUATION || name[i] !in NAME_PUNCTUATION || name[i - 1..i + 1] == ". ")
    && (forall i :: 0 < i < |name| && name[i] == '.' ==>
          i == |name| - 1 || i == 1 || name[i - 2] in NAME_PUNCTUATION)
  }

  // --- Rows -----------------------------------------------------------------------------------------

  datatype ContactRow = ContactRow(row: int, name: string, phone: string, consent: string, status: string)

  function Cell(u: Unicode, cells: seq<string>, i: nat): string {
    if i < |cells| then Strip(u, cells[i]) else ""
  }

  function RowAt(u: Unicode, values: seq<seq<string>>, start: int, i: nat): ContactRow
    requires i < |values|
  {
    var c := values[i];
    ContactRow(start + i, Collapse(u, Cell(u, c, 0)), Cell(u, c, 1), Cell(u, c, 2), Cell(u, c, 3))
  }

  /** The columns of a sheet row: name, phone, consent, status, each without white space around it and
      empty when it is missing. */
  lemma {:induction false} ColumnsAreFields(u: Unicode, values: seq<seq<string>>, start: int, i: nat)
    requires i < |values| && u.space(' ')
    ensures var c, cells := RowAt(u, values, start, i), values[i];
      && c.row == start + i
      && Tidy(u, c.name) && Marks(u, c.name) == (if |cells| > 0 then Marks(u, cells[0]) else "")
      && (if |cells| > 1 then Trimmed(u, cells[1], c.phone) else c.phone == "")
      && (if |cells| > 2 then Trimmed(u, cells[2], c.consent) else c.consent == "")
      && (if |cells| > 3 then Trimmed(u, cells[3], c.status) else c.status == "")
  {
    var cells := values[i];
    CollapseIsTidy(u, Cell(u, cells, 0));
    forall k | 0 <= k < |cells| ensures Trimmed(u, cells[k], Strip(u, cells[k])) { StripTrims(u, cells[k]); }
    if |cells| > 0 { TrimmedKeepsMarks(u, cells[0], Strip(u, cells[0])); }
  }

  /** A stretch of the text with nothing but white space around it and none at its ends. */
  ghost predicate TrimmedAt(u: Unicode, s: string, r: string, i: int, j: int) {
    && 0 <= i <= j <= |s| && r == s[i..j]
    && (forall k :: 0 <= k < i || j <= k < |s| ==> u.space(s[k]))
    && (r != "" ==> !u.space(r[0]) && !u.space(r[|r| - 1]))
  }

  ghost predicate Trimmed(u: Unicode, s: string, r: string) { exists i, j :: TrimmedAt(u, s, r, i, j) }

  lemma {:induction false} StripLeftTrims(u: Unicode, s: string) returns (i: nat)
    ensures i <= |s| && StripLeft(u, s) == s[i..] && forall k :: 0 <= k < i ==> u.space(s[k])
    ensures StripLeft(u, s) != "" ==> !u.space(StripLeft(u, s)[0])
  {
    i := 0;
    if s != "" && u.space(s[0]) {
      i := StripLeftTrims(u, s[1..]);
      assert s[1..][i..] == s[i + 1..];
      assert forall k :: 0 < k < i + 1 ==> s[k] == s[1..][k - 1];
      i := i + 1;
    }
  }

  lemma {:induction false} StripRightTrims(u: Unicode, s: string) returns (j: nat)
    ensures j <= |s| && StripRight(u, s) == s[..j] && forall k :: j <= k < |s| ==> u.space(s[k])
    ensures StripRight(u, s) != "" ==> !u.space(StripRight(u, s)[|StripRight(u, s)| - 1])
  {
    j := |s|;
    if s != "" && u.space(s[|s| - 1]) {
      var front := s[..|s| - 1];
      j := StripRightTrims(u, front);
      assert front[..j] == s[..j];
      assert forall k :: j <= k < |front| ==> s[k] == front[k];
    }
  }

  lemma {:induction false} StripTrims(u: Unicode, s: string)
    ensures Trimmed(u, s, Strip(u, s))
  {
    var i := StripLeftTrims(u, s);
    var left := StripLeft(u, s);
    var j := StripRightTrims(u, left);
    assert left[..j] == s[i..i + j];
    assert forall k :: i + j <= k < |s| ==> s[k] == left[k - i];
    assert j > 0 ==> left[..j][0] == left[0];
    assert TrimmedAt(u, s, Strip(u, s), i, i + j);
  }

  lemma {:induction false} MarksAppend(u: Unicode, a: string, b: string)
    ensures Marks(u, a + b) == Marks(u, a) + Marks(u, b)
  {
    if b == "" {
      assert a + b == a;
    } else {
      var front, c := b[..|b| - 1], b[|b| - 1];
      assert b == front + [c] && a + b == (a + front) + [c];
      MarksAppend(u, a, front);
      MarksSnoc(u, a + front, c);
      MarksSnoc(u, front, c);
    }
  }

  lemma {:induction false} SpaceHasNoMarks(u: Unicode, s: string)
    requires forall k :: 0 <= k < |s| ==> u.space(s[k])
    ensures Marks(u, s) == ""
  {
    if s != "" { SpaceHasNoMarks(u, s[..|s| - 1]); }
  }

  lemma {:induction false} TrimmedKeepsMarks(u: Unicode, s: string, r: string)
    requires Trimmed(u, s, r)
    ensures Marks(u, r) == Marks(u, s)
  {
    var i, j :| TrimmedAt(u, s, r, i, j);
    assert s == s[..i] + (r + s[j..]);
    SpaceHasNoMarks(u, s[..i]);
    SpaceHasNoMarks(u, s[j..]);
    MarksAppend(u, s[..i], r + s[j..]);
    MarksAppend(u, r, s[j..]);
  }

  predicate Blank(c: ContactRow) { c.name == "" && c.phone == "" && c.consent == "" && c.status == "" }

  /** The sheet's rows, blank ones too. */
  function AllRows(u: Unicode, values: seq<seq<string>>, start: int): seq<ContactRow> {
    seq(|values|, i requires 0 <= i < |values| => RowAt(u, values, start, i))
  }

  function NonBlank(rows: seq<ContactRow>): seq<ContactRow> {
    if rows == [] then []
    else
      var c := rows[|rows| - 1];
      NonBlank(rows[..|rows| - 1]) + (if Blank(c) then [] else [c])
  }

  ghost predicate Numbered(rows: seq<ContactRow>, start: int) {
    forall i :: 0 <= i < |rows| ==> rows[i].row == start + i
  }

  lemma {:induction false} NonBlankMembers(rows: seq<ContactRow>, c: ContactRow)
    ensures c in NonBlank(rows) <==> c in rows && !Blank(c)
  {
    if rows != [] {
      NonBlankMembers(rows[..|rows| - 1], c);
      assert rows == rows[..|rows| - 1] + [rows[|rows| - 1]];
    }
  }

  ghost predicate Increasing(rows: seq<ContactRow>) {
    forall i, j :: 0 <= i < j < |rows| ==> rows[i].row < rows[j].row
  }

  lemma {:induction false} NonBlankKeepsOrder(rows: seq<ContactRow>)
    requires Increasing(rows)
    ensures Increasing(NonBlank(rows))
  {
    if rows != [] {
      var front, c := rows[..|rows| - 1], rows[|rows| - 1];
      NonBlankKeepsOrder(front);
      var before := NonBlank(front);
      forall i | 0 <= i < |before| ensures before[i].row < c.row {
        NonBlankMembers(front, before[i]);
        var k :| 0 <= k < |front| && front[k] == before[i];
        assert rows[k] == front[k];
      }
    }
  }

  /** The contacts are the rows that are not blank, in order and under their own numbers. */
  lemma {:induction false} ContactsKeepRows(rows: seq<ContactRow>, start: int)
    requires Numbered(rows, start)
    ensures forall c :: c in NonBlank(rows) <==>
      c in rows && (c.name != "" || c.phone != "" || c.consent != "" || c.status != "")
    ensures Increasing(NonBlank(rows))
  {
    forall c ensures c in NonBlank(rows) <==> c in rows && !Blank(c) { NonBlankMembers(rows, c); }
    NonBlankKeepsOrder(rows);
  }

  method ReadRows(u: Unicode, values: seq<seq<string>>, start: int) returns (contacts: seq<ContactRow>)
    ensures contacts == NonBlank(AllRows(u, values, start)) && Numbered(AllRows(u, values, start), start)
  {
    contacts := [];
    ghost var rows := AllRows(u, values, start);
    for k := 0 to |values|
      invariant contacts == NonBlank(rows[..k])
    {
      var c := RowAt(u, values, start, k);
      assert rows[..k + 1][..k] == rows[..k] && rows[..k + 1][k] == c;
      if !Blank(c) { contacts := contacts + [c]; }
    }
    assert rows[..|values|] == rows;
  }

  // --- Rules ----------------------------------------------------------------------------------------

  datatype Reason = Consent | InvalidNumber | InvalidName | Status | UnrecognizedStatus | Duplicate | OverCap

  const CONSENT_YES := {"yes", "true", "consented"}
  const DONE_STATUSES := {"done", "called", "skip", "dnc", "do-not-call"}
  const READY_STATUSES := {"", "ready", "pending"}

  /** What is wrong with the row itself. */
  function RowFault(u: Unicode, c: ContactRow): Option<Reason> {
    if Lower(c.consent) !in CONSENT_YES then Some(Consent)
    else if !IsE164(c.phone) then Some(InvalidNumber)
    else if !PlainName(u, c.name) then Some(InvalidName)
    else if Lower(c.status) in DONE_STATUSES then Some(Status)
    else if Lower(c.status) !in READY_STATUSES then Some(UnrecognizedStatus)
    else None
  }

  type Rule = ContactRow -> Option<Reason>

  function SkipReason(fault: Rule, c: ContactRow, seen: set<string>, eligibleCount: nat,
      maxCalls: int): Option<Reason> {
    if fault(c).Some? then fault(c)
    else if c.phone in seen then Some(Duplicate)
    else if eligibleCount >= maxCalls then Some(OverCap)
    else None
  }

  datatype Skipped = Skipped(row: int, name: string, reason: Reason)

  // --- The plan, said declaratively -------------------------------------------------------------------

  function Phones(cs: seq<ContactRow>): set<string> { set c | c in cs :: c.phone }

  function ValidOnly(fault: Rule, cs: seq<ContactRow>): seq<ContactRow> {
    if cs == [] then []
    else
      var c := cs[|cs| - 1];
      ValidOnly(fault, cs[..|cs| - 1]) + (if fault(c).None? then [c] else [])
  }

  function FirstOfEachPhone(cs: seq<ContactRow>): seq<ContactRow> {
    if cs == [] then []
    else
      var front, c := cs[..|cs| - 1], cs[|cs| - 1];
      FirstOfEachPhone(front) + (if c.phone in Phones(front) then [] else [c])
  }

  function Take(cs: seq<ContactRow>, n: int): seq<ContactRow> {
    if n <= 0 then [] else if n < |cs| then cs[..n] else cs
  }

  /** The callable contacts: the valid ones, the first of each phone. */
  function Callable(fault: Rule, cs: seq<ContactRow>): seq<ContactRow> { FirstOfEachPhone(ValidOnly(fault, cs)) }

  /** The plan: the first `maxCalls` of them. */
  function Called(fault: Rule, cs: seq<ContactRow>, maxCalls: int): seq<ContactRow> {
    Take(Callable(fault, cs), maxCalls)
  }

  ghost predicate Earlier(fault: Rule, cs: seq<ContactRow>, k: nat, phone: string)
    requires k <= |cs|
  {
    exists j :: 0 <= j < k && fault(cs[j]).None? && cs[j].phone == phone
  }

  /** Why contact `k` is not called: a fault of its own, a phone that is called for an earlier
      row, or a phone that is not called at all. */
  ghost function Verdict(fault: Rule, cs: seq<ContactRow>, maxCalls: int, k: nat): Option<Reason>
    requires k < |cs|
  {
    if fault(cs[k]).Some? then fault(cs[k])
    else if cs[k].phone !in Phones(Called(fault, cs, maxCalls)) then Some(OverCap)
    else if Earlier(fault, cs, k, cs[k].phone) then Some(Duplicate)
    else None
  }

  /** The contacts among the first `k` with no verdict against them. */
  ghost function Kept(fault: Rule, cs: seq<ContactRow>, maxCalls: int, k: nat): seq<ContactRow>
    requires k <= |cs|
  {
    if k == 0 then []
    else Kept(fault, cs, maxCalls, k - 1) + (if Verdict(fault, cs, maxCalls, k - 1).None? then [cs[k - 1]] else [])
  }

  /** The others among the first `k`, each with its verdict. */
  ghost function Turned(fault: Rule, cs: seq<ContactRow>, maxCalls: int, k: nat): seq<Skipped>
    requires k <= |cs|
  {
    if k == 0 then []
    else
      var c, v := cs[k - 1], Verdict(fault, cs, maxCalls, k - 1);
      Turned(fault, cs, maxCalls, k - 1) + (if v.Some? then [Skipped(c.row, c.name, v.value)] else [])
  }

  // --- The greedy pass meets it --------------------------------------------------------------------------

  lemma {:induction false} PhonesSnoc(cs: seq<ContactRow>, c: ContactRow)
    ensures Phones(cs + [c]) == Phones(cs) + {c.phone}
  {
    assert forall x :: x in cs + [c] <==> x in cs || x == c;
  }

  lemma {:induction false} FirstsHaveAllPhones(cs: seq<ContactRow>)
    ensures Phones(FirstOfEachPhone(cs)) == Phones(cs)
  {
    if cs != [] {
      var front, c := cs[..|cs| - 1], cs[|cs| - 1];
      FirstsHaveAllPhones(front);
      assert cs == front + [c];
      PhonesSnoc(front, c);
      PhonesSnoc(FirstOfEachPhone(front), c);
      assert FirstOfEachPhone(front) + [] == FirstOfEachPhone(front);
    }
  }

  lemma {:induction false} ValidPhones(fault: Rule, cs: seq<ContactRow>, phone: string)
    ensures phone in Phones(ValidOnly(fault, cs)) <==> Earlier(fault, cs, |cs|, phone)
  {
    if cs != [] {
      var front, c := cs[..|cs| - 1], cs[|cs| - 1];
      ValidPhones(fault, front, phone);
      PhonesSnoc(ValidOnly(fault, front), c);
      assert ValidOnly(fault, front) + [] == ValidOnly(fault, front);
      if Earlier(fault, front, |front|, phone) {
        var j :| 0 <= j < |front| && fault(front[j]).None? && front[j].phone == phone;
        assert cs[j] == front[j];
      }
    }
  }

  lemma {:induction false} CallableSnoc(fault: Rule, cs: seq<ContactRow>, c: ContactRow)
    ensures Callable(fault, cs + [c]) == Callable(fault, cs) +
      (if fault(c).Some? || c.phone in Phones(Callable(fault, cs)) then [] else [c])
  {
    assert (cs + [c])[..|cs|] == cs;
    var valid := ValidOnly(fault, cs);
    FirstsHaveAllPhones(valid);
    if fault(c).None? {
      assert (valid + [c])[..|valid|] == valid;
    } else {
      assert valid + [] == valid;
    }
  }

  lemma {:induction false} CallableGrows(fault: Rule, cs: seq<ContactRow>, k: nat)
    requires k <= |cs|
    ensures Callable(fault, cs[..k]) <= Callable(fault, cs)
  {
    if k == |cs| {
      assert cs[..k] == cs;
    } else {
      var front := cs[..|cs| - 1];
      CallableGrows(fault, front, k);
      assert front[..k] == cs[..k] && cs == front + [cs[|cs| - 1]];
      CallableSnoc(fault, front, cs[|cs| - 1]);
    }
  }

  lemma {:induction false} TakePrefix(a: seq<ContactRow>, b: seq<ContactRow>, n: int)
    requires a <= b
    ensures Take(a, n) <= Take(b, n) && Phones(Take(a, n)) <= Phones(Take(b, n))
    ensures |Take(a, n)| >= n ==> Take(a, n) == Take(b, n)
    ensures |Take(a, n)| < n ==> Take(a, n) == a
  {
    assert forall c :: c in Take(a, n) ==> c in Take(b, n);
  }

  /** One more contact joins the plan exactly when the greedy pass finds no reason against it. */
  lemma {:induction false} CalledSnoc(fault: Rule, cs: seq<ContactRow>, c: ContactRow, maxCalls: int)
    ensures var eligible := Called(fault, cs, maxCalls);
      Called(fault, cs + [c], maxCalls) == eligible +
        (if SkipReason(fault, c, Phones(eligible), |eligible|, maxCalls).None? then [c] else [])
  {
    var now := Callable(fault, cs);
    CallableSnoc(fault, cs, c);
    TakePrefix(now, Callable(fault, cs + [c]), maxCalls);
    assert Take(now, maxCalls) + [] == Take(now, maxCalls);
  }

  /** Whether a phone is in the plan is settled when its first contact is met. */
  lemma {:induction false} PlanSettles(now: seq<ContactRow>, all: seq<ContactRow>, c: ContactRow, n: int)
    requires now <= all && (c.phone in Phones(now) || now + [c] <= all)
    ensures c.phone in Phones(Take(now, n)) ==> c.phone in Phones(now) && c.phone in Phones(Take(all, n))
    ensures c.phone !in Phones(Take(now, n)) && |Take(now, n)| >= n ==> c.phone !in Phones(Take(all, n))
    ensures c.phone !in Phones(Take(now, n)) && |Take(now, n)| < n ==>
      c.phone !in Phones(now) && c.phone in Phones(Take(all, n))
  {
    TakePrefix(now, all, n);
    if c.phone !in Phones(now) && |now| < n {
      assert Take(all, n)[|now|] == c;
    }
  }

  lemma {:induction false} CallableAhead(fault: Rule, cs: seq<ContactRow>, k: nat)
    requires k < |cs| && fault(cs[k]).None?
    ensures var now, all := Callable(fault, cs[..k]), Callable(fault, cs);
      && now <= all && (cs[k].phone in Phones(now) || now + [cs[k]] <= all)
      && (cs[k].phone in Phones(now) <==> Earlier(fault, cs, k, cs[k].phone))
  {
    CallableGrows(fault, cs, k);
    CallableGrows(fault, cs, k + 1);
    assert cs[..k + 1] == cs[..k] + [cs[k]];
    CallableSnoc(fault, cs[..k], cs[k]);
    FirstsHaveAllPhones(ValidOnly(fault, cs[..k]));
    ValidPhones(fault, cs[..k], cs[k].phone);
    assert Earlier(fault, cs[..k], k, cs[k].phone) <==> Earlier(fault, cs, k, cs[k].phone);
  }

  /** What the greedy pass decides about contact `k` is the declarative verdict. */
  lemma {:induction false} GreedyDecides(fault: Rule, cs: seq<ContactRow>, maxCalls: int, k: nat)
    requires k < |cs|
    ensures var eligible := Called(fault, cs[..k], maxCalls);
      SkipReason(fault, cs[k], Phones(eligible), |eligible|, maxCalls) == Verdict(fault, cs, maxCalls, k)
  {
    if fault(cs[k]).None? {
      CallableAhead(fault, cs, k);
      PlanSettles(Callable(fault, cs[..k]), Callable(fault, cs), cs[k], maxCalls);
    }
  }

  /** The pass after `k` contacts. */
  ghost predicate PassedOver(fault: Rule, cs: seq<ContactRow>, maxCalls: int, k: nat,
      eligible: seq<ContactRow>, seen: set<string>, skipped: seq<Skipped>)
    requires k <= |cs|
  {
    && eligible == Called(fault, cs[..k], maxCalls) == Kept(fault, cs, maxCalls, k)
    && seen == Phones(eligible)
    && skipped == Turned(fault, cs, maxCalls, k)
  }

  lemma {:induction false} GreedyStep(fault: Rule, cs: seq<ContactRow>, maxCalls: int, k: nat,
      eligible: seq<ContactRow>, seen: set<string>, skipped: seq<Skipped>)
    requires k < |cs| && PassedOver(fault, cs, maxCalls, k, eligible, seen, skipped)
    ensures var c, reason := cs[k], SkipReason(fault, cs[k], seen, |eligible|, maxCalls);
      if reason.None? then PassedOver(fault, cs, maxCalls, k + 1, eligible + [c], seen + {c.phone}, skipped)
      else PassedOver(fault, cs, maxCalls, k + 1, eligible, seen, skipped + [Skipped(c.row, c.name, reason.value)])
  {
    GreedyDecides(fault, cs, maxCalls, k);
    assert cs[..k + 1] == cs[..k] + [cs[k]];
    CalledSnoc(fault, cs[..k], cs[k], maxCalls);
    PhonesSnoc(eligible, cs[k]);
  }

  /** `classify`: one greedy pass over the contacts. */
  method ClassifyWith(fault: Rule, contacts: seq<ContactRow>, maxCalls: int)
    returns (eligible: seq<ContactRow>, skipped: seq<Skipped>)
    ensures eligible == Called(fault, contacts, maxCalls)
    ensures eligible == Kept(fault, contacts, maxCalls, |contacts|)
    ensures skipped == Turned(fault, contacts, maxCalls, |contacts|)
  {
    eligible, skipped := [], [];
    var seen: set<string> := {};
    for k := 0 to |contacts|
      invariant PassedOver(fault, contacts, maxCalls, k, eligible, seen, skipped)
    {
      var c := contacts[k];
      GreedyStep(fault, contacts, maxCalls, k, eligible, seen, skipped);
      var reason := SkipReason(fault, c, seen, |eligible|, maxCalls);
      if reason.None? {
        eligible := eligible + [c];
        seen := seen + {c.phone};
      } else {
        skipped := skipped + [Skipped(c.row, c.name, reason.value)];
      }
    }
    assert contacts[..|contacts|] == contacts;
  }

  method Classify(u: Unicode, contacts: seq<ContactRow>, maxCalls: int)
    returns (eligible: seq<ContactRow>, skipped: seq<Skipped>)
    ensures var fault := c => RowFault(u, c);
      && eligible == Called(fault, contacts, maxCalls) == Kept(fault, contacts, maxCalls, |contacts|)
      && skipped == Turned(fault, contacts, maxCalls, |contacts|)
  {
    eligible, skipped := ClassifyWith(c => RowFault(u, c), contacts, maxCalls);
  }

  // --- What the plan means ---------------------------------------------------------------------------------

  /** Contact `k`, once it is passed, sits in one of the two lists behind those passed before it:
      as it is if there is nothing against it, with the reason if there is. */
  ghost predicate Placed(fault: Rule, cs: seq<ContactRow>, maxCalls: int, k: nat,
      eligible: seq<ContactRow>, skipped: seq<Skipped>)
    requires k < |cs|
  {
    var c, v := cs[k], Verdict(fault, cs, maxCalls, k);
    var i, j := |Kept(fault, cs, maxCalls, k)|, |Turned(fault, cs, maxCalls, k)|;
    && i + j == k
    && (v.None? ==> i < |eligible| && eligible[i] == c)
    && (v.Some? ==> j < |skipped| && skipped[j] == Skipped(c.row, c.name, v.value))
  }

  lemma {:induction false} ListsGrow(fault: Rule, cs: seq<ContactRow>, maxCalls: int, k: nat, n: nat)
    requires k <= n <= |cs|
    ensures Kept(fault, cs, maxCalls, k) <= Kept(fault, cs, maxCalls, n)
    ensures Turned(fault, cs, maxCalls, k) <= Turned(fault, cs, maxCalls, n)
    decreases n - k
  {
    if k < n { ListsGrow(fault, cs, maxCalls, k, n - 1); }
  }

  lemma {:induction false} ListsCount(fault: Rule, cs: seq<ContactRow>, maxCalls: int, k: nat)
    requires k <= |cs|
    ensures |Kept(fault, cs, maxCalls, k)| + |Turned(fault, cs, maxCalls, k)| == k
  {
    if k > 0 { ListsCount(fault, cs, maxCalls, k - 1); }
  }

  /** Every contact is called or skipped, each in its own place, and nothing else is listed. */
  lemma {:induction false} PlanPartitions(fault: Rule, cs: seq<ContactRow>, maxCalls: int)
    ensures var eligible, skipped := Kept(fault, cs, maxCalls, |cs|), Turned(fault, cs, maxCalls, |cs|);
      && |eligible| + |skipped| == |cs|
      && forall k :: 0 <= k < |cs| ==> Placed(fault, cs, maxCalls, k, eligible, skipped)
  {
    ListsCount(fault, cs, maxCalls, |cs|);
    var eligible, skipped := Kept(fault, cs, maxCalls, |cs|), Turned(fault, cs, maxCalls, |cs|);
    forall k | 0 <= k < |cs| ensures Placed(fault, cs, maxCalls, k, eligible, skipped) {
      ListsCount(fault, cs, maxCalls, k);
      ListsGrow(fault, cs, maxCalls, k + 1, |cs|);
    }
  }

  ghost predicate OnePhoneEach(cs: seq<ContactRow>) {
    forall i, j :: 0 <= i < j < |cs| ==> cs[i].phone != cs[j].phone
  }

  lemma {:induction false} FirstsArePhonewise(cs: seq<ContactRow>)
    ensures OnePhoneEach(FirstOfEachPhone(cs))
  {
    if cs != [] {
      var front, c := cs[..|cs| - 1], cs[|cs| - 1];
      FirstsArePhonewise(front);
      FirstsHaveAllPhones(front);
      var firsts := FirstOfEachPhone(front);
      if c.phone !in Phones(front) {
        forall i | 0 <= i < |firsts| ensures firsts[i].phone != c.phone { assert firsts[i] in firsts; }
      }
    }
  }

  lemma {:induction false} ValidAreValid(fault: Rule, cs: seq<ContactRow>)
    ensures forall c :: c in ValidOnly(fault, cs) ==> fault(c).None?
  {
    if cs != [] { ValidAreValid(fault, cs[..|cs| - 1]); }
  }

  lemma {:induction false} FirstsAreMembers(cs: seq<ContactRow>)
    ensures forall c :: c in FirstOfEachPhone(cs) ==> c in cs
  {
    if cs != [] { FirstsAreMembers(cs[..|cs| - 1]); }
  }

  /** Nobody is called twice, nobody with a fault, and never more than the cap. */
  lemma {:induction false} CallsAreSafe(fault: Rule, cs: seq<ContactRow>, maxCalls: int)
    ensures var called := Called(fault, cs, maxCalls);
      && OnePhoneEach(called)
      && (forall c :: c in called ==> fault(c).None?)
      && |called| <= if maxCalls > 0 then maxCalls else 0
  {
    FirstsArePhonewise(ValidOnly(fault, cs));
    FirstsAreMembers(ValidOnly(fault, cs));
    ValidAreValid(fault, cs);
  }

  /** The cap turns a contact away only when the plan is full. */
  lemma {:induction false} OverCapMeansFull(fault: Rule, cs: seq<ContactRow>, maxCalls: int, k: nat)
    requires k < |cs| && fault(cs[k]) != Some(OverCap)
    requires Verdict(fault, cs, maxCalls, k) == Some(OverCap)
    ensures |Called(fault, cs, maxCalls)| == if maxCalls > 0 then maxCalls else 0
  {
    ValidPhones(fault, cs, cs[k].phone);
    FirstsHaveAllPhones(ValidOnly(fault, cs));
    assert cs[k].phone in Phones(Callable(fault, cs));
  }

  lemma {:induction false} ValidAreContacts(fault: Rule, cs: seq<ContactRow>)
    ensures forall c :: c in ValidOnly(fault, cs) ==> c in cs
  {
    if cs != [] { ValidAreContacts(fault, cs[..|cs| - 1]); }
  }

  /** The text in ASCII lower case, character by character. */
  ghost predicate LowerCaseOf(text: string, lower: string) {
    |lower| == |text| && forall i :: 0 <= i < |text| ==>
      lower[i] == if 'A' <= text[i] <= 'Z' then (text[i] as int + 32) as char else text[i]
  }

  lemma {:induction false} LowerIsLowerCase(text: string, lower: string)
    ensures LowerCaseOf(text, lower) <==> lower == Lower(text)
  {
  }

  /** In any spelling of case the text is one of the words. */
  ghost predicate Says(text: string, words: set<string>) { exists w :: w in words && LowerCaseOf(text, w) }

  lemma {:induction false} SaysIsLower(text: string, words: set<string>)
    ensures Says(text, words) <==> Lower(text) in words
  {
    LowerIsLowerCase(text, Lower(text));
    if Says(text, words) {
      var w :| w in words && LowerCaseOf(text, w);
      LowerIsLowerCase(text, w);
    }
  }

  /** An international number: 8 to 15 digits behind a plus, the first of them not 0. */
  ghost predicate International(number: string) {
    && |number| >= 1 && number[0] == '+' && 8 <= |number| - 1 <= 15 && number[1] != '0'
    && forall i :: 1 <= i < |number| ==> number[i] in "0123456789"
  }

  lemma {:induction false} DigitsAreDigits(c: char)
    ensures IsDigit(c) <==> c in "0123456789"
  {
    var digits := "0123456789";
    if IsDigit(c) { assert digits[c as int - '0' as int] == c; }
  }

  /** The pattern accepts an international number, and one with a line break behind it. */
  lemma {:induction false} IsE164Means(phone: string)
    ensures IsE164(phone) <==>
      International(phone) || (phone != "" && phone[|phone| - 1] == '\n' && International(phone[..|phone| - 1]))
  {
    if phone != "" && phone[|phone| - 1] == '\n' {
      PatternMeans(phone[..|phone| - 1]);
      BreakIsNoDigit(phone);
    } else {
      PatternMeans(phone);
    }
  }

  lemma {:induction false} BreakIsNoDigit(phone: string)
    requires phone != "" && phone[|phone| - 1] == '\n'
    ensures !International(phone)
  {
    DigitsAreDigits('\n');
  }

  lemma {:induction false} PatternMeans(p: string)
    ensures International(p) <==> IsNumber(p)
  {
    forall c ensures IsDigit(c) <==> c in "0123456789" { DigitsAreDigits(c); }
    if IsNumber(p) { assert IsDigit(p[1]); }
    if International(p) { assert IsDigit(p[1]); }
  }

  /** Consent says yes, true or consented. */
  ghost predicate Consents(c: ContactRow) { Says(c.consent, {"yes", "true", "consented"}) }

  ghost predicate Dialable(c: ContactRow) {
    var p := c.phone;
    International(p) || (p != "" && p[|p| - 1] == '\n' && International(p[..|p| - 1]))
  }

  ghost predicate AlreadyDone(c: ContactRow) { Says(c.status, {"done", "called", "skip", "dnc", "do-not-call"}) }

  ghost predicate Ready(c: ContactRow) { Says(c.status, {"", "ready", "pending"}) }

  /** What may be called: consent given, a full international number, a plain name, a ready status. */
  ghost predicate MayBeCalled(u: Unicode, c: ContactRow) {
    Consents(c) && Dialable(c) && PlainName(u, c.name) && Ready(c)
  }

  /** A row is turned away for the first of these that is wrong with it, under that reason. */
  lemma {:induction false} ReasonsMean(u: Unicode, c: ContactRow)
    ensures RowFault(u, c) == Some(Consent) <==> !Consents(c)
    ensures RowFault(u, c) == Some(InvalidNumber) <==> Consents(c) && !Dialable(c)
    ensures RowFault(u, c) == Some(InvalidName) <==> Consents(c) && Dialable(c) && !PlainName(u, c.name)
    ensures RowFault(u, c) == Some(Status) <==>
      Consents(c) && Dialable(c) && PlainName(u, c.name) && AlreadyDone(c)
    ensures RowFault(u, c) == Some(UnrecognizedStatus) <==>
      Consents(c) && Dialable(c) && PlainName(u, c.name) && !AlreadyDone(c) && !Ready(c)
  {
    SaysIsLower(c.consent, CONSENT_YES);
    SaysIsLower(c.status, DONE_STATUSES);
    SaysIsLower(c.status, READY_STATUSES);
    IsE164Means(c.phone);
  }

  lemma {:induction false} NobodyIsForgotten(fault: Rule, cs: seq<ContactRow>, maxCalls: int)
    ensures var called := Called(fault, cs, maxCalls);
      && (forall c :: c in called ==> c in cs && fault(c).None?)
      && (forall c :: c in cs && fault(c).None? ==> c.phone in Phones(called) || |called| >= maxCalls)
  {
    CallsAreSafe(fault, cs, maxCalls);
    FirstsAreMembers(ValidOnly(fault, cs));
    ValidAreContacts(fault, cs);
    var called := Called(fault, cs, maxCalls);
    forall c | c in cs && fault(c).None? ensures c.phone in Phones(called) || |called| >= maxCalls {
      ValidIsCallable(fault, cs, c);
    }
  }

  lemma {:induction false} ValidIsCallable(fault: Rule, cs: seq<ContactRow>, c: ContactRow)
    requires c in cs && fault(c).None?
    ensures c.phone in Phones(Callable(fault, cs))
  {
    var k :| 0 <= k < |cs| && cs[k] == c;
    ValidPhones(fault, cs, c.phone);
    FirstsHaveAllPhones(ValidOnly(fault, cs));
  }

  lemma {:induction false} ReadyIsNotDone(c: ContactRow)
    ensures !(Ready(c) && AlreadyDone(c))
  {
    SaysIsLower(c.status, READY_STATUSES);
    SaysIsLower(c.status, DONE_STATUSES);
    assert DONE_STATUSES !! READY_STATUSES;
  }

  lemma {:induction false} FaultIsOfRow(u: Unicode, c: ContactRow)
    ensures RowFault(u, c) != Some(Duplicate) && RowFault(u, c) != Some(OverCap)
  {
  }

  lemma {:induction false} FaultlessMayBeCalled(u: Unicode, c: ContactRow)
    ensures RowFault(u, c).None? <==> MayBeCalled(u, c)
  {
    ReasonsMean(u, c);
    ReadyIsNotDone(c);
    FaultIsOfRow(u, c);
  }

  /** Only contacts of the list that may be called are called; and one that may be called is left
      out only if its phone is called for another row or the plan is full. */
  lemma {:induction false} ExactlyThoseAreCalled(u: Unicode, cs: seq<ContactRow>, maxCalls: int, fault: Rule)
    requires forall c :: fault(c) == RowFault(u, c)
    ensures var called := Called(fault, cs, maxCalls);
      && (forall c :: c in called ==> c in cs && MayBeCalled(u, c))
      && (forall c :: c in cs && MayBeCalled(u, c) ==> c.phone in Phones(called) || |called| >= maxCalls)
  {
    NobodyIsForgotten(fault, cs, maxCalls);
    forall c ensures fault(c).None? <==> MayBeCalled(u, c) { FaultlessMayBeCalled(u, c); }
  }

  // --- The documented names -----------------------------------------------------------------------------

  /** What holds of the Unicode tables: letters and marks are neither separators nor white space,
      and of the separators only the space is white space. */
  ghost predicate Sane(u: Unicode) {
    && u.space(' ')
    && (forall c :: u.category(c) == 'L' || u.category(c) == 'M' ==> c !in NAME_PUNCTUATION && !u.space(c))
    && (forall c :: c in NAME_PUNCTUATION && c != ' ' ==> !u.space(c))
  }

  predicate Letter(u: Unicode, c: char) { u.category(c) == 'L' }

  predicate Combining(u: Unicode, c: char) { u.category(c) == 'M' }

  predicate Separator(c: char) { c in NAME_PUNCTUATION }

  /** One letter with its combining marks, from `j` up to `i`, at the start or behind a separator. */
  ghost predicate InitialAt(u: Unicode, name: string, j: int, i: int)
    requires 0 < i < |name|
  {
    && 0 <= j < i && Letter(u, name[j]) && (j == 0 || Separator(name[j - 1]))
    && forall k :: j < k < i ==> Combining(u, name[k])
  }

  /** A period ends the name or follows a one-letter initial. */
  ghost predicate PeriodAllowed(u: Unicode, name: string, i: int)
    requires 0 < i < |name|
  {
    i == |name| - 1 || exists j :: InitialAt(u, name, j, i)
  }

  /** A combining mark that stands behind no letter. */
  ghost predicate StrayMark(u: Unicode, name: string) {
    exists i :: 0 < i < |name| && Combining(u, name[i]) && Separator(name[i - 1])
  }

  /** An initial inside the name whose letter carries a combining mark. */
  ghost predicate MarkedInitial(u: Unicode, name: string) {
    exists i :: 0 < i < |name| - 1 && name[i] == '.' && Combining(u, name[i - 1])
  }

  /** The rule as it is documented: up to 40 characters from a first letter on; letters with their
      combining marks and separators only; no separator at the end but a period, none repeated but a
      period and a space; periods at the end or behind initials. */
  ghost predicate DocumentedName(u: Unicode, name: string) {
    && 1 <= |name| <= 40 && Letter(u, name[0])
    && (forall i :: 0 <= i < |name| ==> Letter(u, name[i]) || Combining(u, name[i]) || Separator(name[i]))
    && !StrayMark(u, name)
    && (Separator(name[|name| - 1]) ==> name[|name| - 1] == '.')
    && (forall i :: 0 < i < |name| ==>
          !Separator(name[i - 1]) || !Separator(name[i]) || name[i - 1..i + 1] == ". ")
    && (forall i :: 0 < i < |name| && name[i] == '.' ==> PeriodAllowed(u, name, i))
  }

  predicate EndsInHyphenOrApostrophe(name: string) {
    name != "" && name[|name| - 1] in {'-', '\'', '\U{2019}'}
  }

  lemma {:induction false} StripKeepsEnds(u: Unicode, name: string)
    requires name != "" && !u.space(name[0])
    ensures name == Strip(u, name) <==> !u.space(name[|name| - 1])
  {
    if u.space(name[|name| - 1]) { StripRightShrinks(u, name[..|name| - 1]); }
  }

  lemma {:induction false} StripRightShrinks(u: Unicode, s: string)
    ensures |StripRight(u, s)| <= |s|
  {
    if s != "" { StripRightShrinks(u, s[..|s| - 1]); }
  }

  /** What stands before a period inside an accepted name. */
  lemma {:induction false} BeforeAcceptedPeriod(u: Unicode, name: string, i: int)
    requires Sane(u) && PlainName(u, name) && 0 < i < |name| - 1 && name[i] == '.'
    ensures Letter(u, name[i - 1]) || Combining(u, name[i - 1])
    ensures i == 1 || Separator(name[i - 2])
  {
    assert name[i - 1..i + 1][1] == '.';
  }

  lemma {:induction false} AcceptedPeriodAllowed(u: Unicode, name: string, i: int)
    requires Sane(u) && PlainName(u, name) && !StrayMark(u, name) && 0 < i < |name| - 1 && name[i] == '.'
    ensures PeriodAllowed(u, name, i) && !Combining(u, name[i - 1])
  {
    BeforeAcceptedPeriod(u, name, i);
    assert InitialAt(u, name, i - 1, i);
  }

  /** What stands before a period inside a documented name, if it is no marked initial. */
  lemma {:induction false} BeforeDocumentedPeriod(u: Unicode, name: string, i: int)
    requires DocumentedName(u, name) && 0 < i < |name| - 1 && name[i] == '.' && !Combining(u, name[i - 1])
    ensures i == 1 || Separator(name[i - 2])
  {
    var j :| InitialAt(u, name, j, i);
    assert j == i - 1;
  }

  lemma {:induction false} DocumentedIsAccepted(u: Unicode, name: string)
    requires Sane(u) && DocumentedName(u, name) && !MarkedInitial(u, name)
    ensures PlainName(u, name) && !EndsInHyphenOrApostrophe(name)
  {
    StripKeepsEnds(u, name);
    forall i | 0 < i < |name| - 1 && name[i] == '.' ensures i == 1 || Separator(name[i - 2]) {
      BeforeDocumentedPeriod(u, name, i);
    }
  }

  lemma {:induction false} AcceptedIsDocumented(u: Unicode, name: string)
    requires Sane(u) && PlainName(u, name) && !EndsInHyphenOrApostrophe(name) && !StrayMark(u, name)
    ensures DocumentedName(u, name) && !MarkedInitial(u, name)
  {
    StripKeepsEnds(u, name);
    forall i | 0 < i < |name| - 1 && name[i] == '.' ensures PeriodAllowed(u, name, i) && !Combining(u, name[i - 1]) {
      AcceptedPeriodAllowed(u, name, i);
    }
  }

  /** An accepted name is documented unless it ends in a hyphen or an apostrophe or has a mark behind
      a separator; a documented name is accepted unless an initial inside it carries a mark. */
  lemma {:induction false} DocumentedExactly(u: Unicode, name: string)
    requires Sane(u)
    ensures PlainName(u, name) ==>
      (DocumentedName(u, name) <==> !EndsInHyphenOrApostrophe(name) && !StrayMark(u, name))
    ensures DocumentedName(u, name) ==> (PlainName(u, name) <==> !MarkedInitial(u, name))
  {
    if PlainName(u, name) && !EndsInHyphenOrApostrophe(name) && !StrayMark(u, name) { AcceptedIsDocumented(u, name); }
    if DocumentedName(u, name) && !MarkedInitial(u, name) { DocumentedIsAccepted(u, name); }
  }

  /** A name that the documentation rules out and the code accepts. */
  lemma {:induction false} TrailingHyphenIsAccepted(u: Unicode)
    requires Sane(u) && u.category('A') == 'L' && u.category('n') == 'L'
    ensures PlainName(u, "Ann-") && !DocumentedName(u, "Ann-")
  {
    var name := "Ann-";
    assert name[|name| - 1] == '-' && !u.space('-');
    StripKeepsEnds(u, name);
    DocumentedExactly(u, name);
  }

  /** A name that the documentation allows and the code rejects: an initial written as a letter and a
      combining mark. */
  lemma {:induction false} MarkedInitialIsRejected(u: Unicode, letter: char, mark: char, next: char)
    requires Sane(u) && Letter(u, letter) && Combining(u, mark) && Letter(u, next)
    ensures DocumentedName(u, [letter, mark, '.', ' ', next]) && !PlainName(u, [letter, mark, '.', ' ', next])
  {
    var name := [letter, mark, '.', ' ', next];
    assert InitialAt(u, name, 0, 2);
    assert name[2..4] == ". ";
    assert name[2] == '.' && Combining(u, name[1]);
    DocumentedExactly(u, name);
  }
}
