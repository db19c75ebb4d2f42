/** Filling the prompt budget round-robin across documents: `select_for_prompt`. */
module PromptFill {
  import opened Sorting
  import opened Retrieval

  const PER_PASSAGE_CHARS: nat := 900

  function Cost(p: Passage): nat { if |p.text| <= PER_PASSAGE_CHARS then |p.text| else PER_PASSAGE_CHARS }

  function TotalCost(ps: seq<Passage>): nat {
    if ps == [] then 0 else TotalCost(ps[..|ps| - 1]) + Cost(ps[|ps| - 1])
  }

  /** What the prompt shows of a passage: the first 900 characters of its text. */
  function Excerpt(p: Passage): string { if |p.text| > 900 then p.text[..900] else p.text }

  /** Everything the prompt shows of some passages. */
  function ShownText(ps: seq<Passage>): string {
    if ps == [] then "" else ShownText(ps[..|ps| - 1]) + Excerpt(ps[|ps| - 1])
  }

  lemma {:induction false} CostIsShown(ps: seq<Passage>)
    ensures TotalCost(ps) == |ShownText(ps)|
  {
    if ps != [] { CostIsShown(ps[..|ps| - 1]); }
  }

  function Of(document: string): Passage -> bool { (p: Passage) => p.document == document }

  // --- The round-robin order ---------------------------------------------------------

  function Heads(queues: seq<seq<Passage>>): seq<Passage> {
    if queues == [] then [] else (if queues[0] == [] then [] else [queues[0][0]]) + Heads(queues[1..])
  }

  function Tails(queues: seq<seq<Passage>>): (r: seq<seq<Passage>>)
    ensures |r| == |queues|
    ensures forall i :: 0 <= i < |queues| ==> r[i] == if queues[i] == [] then [] else queues[i][1..]
  {
    seq(|queues|, i requires 0 <= i < |queues| => if queues[i] == [] then [] else queues[i][1..])
  }

  function Waiting(queues: seq<seq<Passage>>): nat {
    if queues == [] then 0 else |queues[0]| + Waiting(queues[1..])
  }

  predicate AnyLeft(queues: seq<seq<Passage>>) {
    exists i :: 0 <= i < |queues| && queues[i] != []
  }

  lemma {:induction false} TailsShrink(queues: seq<seq<Passage>>)
    ensures Waiting(Tails(queues)) <= Waiting(queues)
    ensures AnyLeft(queues) ==> Waiting(Tails(queues)) < Waiting(queues)
  {
    if queues != [] {
      assert Tails(queues)[1..] == Tails(queues[1..]);
      TailsShrink(queues[1..]);
      if AnyLeft(queues) && queues[0] == [] {
        var i :| 0 <= i < |queues| && queues[i] != [];
        assert queues[1..][i - 1] != [];
      }
    }
  }

  /** One from every queue that still has one, then again, until all are empty. */
  function RoundRobin(queues: seq<seq<Passage>>): seq<Passage>
    decreases Waiting(queues)
  {
    if !AnyLeft(queues) then []
    else
      TailsShrink(queues);
      Heads(queues) + RoundRobin(Tails(queues))
  }

  /** What is still to come when a round has reached queue `i`. */
  function RestOfRound(queues: seq<seq<Passage>>, i: nat): seq<Passage>
    requires i <= |queues|
  {
    Heads(queues[i..]) + RoundRobin(queues[..i] + Tails(queues[i..]))
  }

  lemma {:induction false} RoundStarts(queues: seq<seq<Passage>>)
    requires AnyLeft(queues)
    ensures RestOfRound(queues, 0) == RoundRobin(queues)
  {
    assert queues[0..] == queues && queues[..0] + Tails(queues) == Tails(queues);
  }

  lemma {:induction false} RoundEnds(queues: seq<seq<Passage>>)
    ensures RestOfRound(queues, |queues|) == RoundRobin(queues)
  {
    assert queues[|queues|..] == [] && queues[..|queues|] + Tails([]) == queues;
  }

  lemma {:induction false} RoundSkips(queues: seq<seq<Passage>>, i: nat)
    requires i < |queues| && queues[i] == []
    ensures RestOfRound(queues, i) == RestOfRound(queues, i + 1)
  {
    var rest := queues[i + 1..];
    assert queues[i..][0] == queues[i] && queues[i..][1..] == rest;
    assert Heads(queues[i..]) == [] + Heads(rest);
    LaterRoundsSkip(queues, i);
  }

  lemma {:induction false} RoundTakes(queues: seq<seq<Passage>>, i: nat)
    requires i < |queues| && queues[i] != []
    ensures RestOfRound(queues, i) == [queues[i][0]] + RestOfRound(queues[i := queues[i][1..]], i + 1)
  {
    var rest, next, head := queues[i + 1..], queues[i := queues[i][1..]], [queues[i][0]];
    assert queues[i..][0] == queues[i] && queues[i..][1..] == rest;
    assert next[i + 1..] == rest;
    LaterRounds(queues, i);
    Regroup(head, Heads(rest), RoundRobin(next[..i + 1] + Tails(rest)));
  }

  lemma {:induction false} LaterRoundsSkip(queues: seq<seq<Passage>>, i: nat)
    requires i < |queues| && queues[i] == []
    ensures queues[..i] + Tails(queues[i..]) == queues[..i + 1] + Tails(queues[i + 1..])
  {
  }

  lemma {:induction false} LaterRounds(queues: seq<seq<Passage>>, i: nat)
    requires i < |queues| && queues[i] != []
    ensures queues[..i] + Tails(queues[i..]) == queues[i := queues[i][1..]][..i + 1] + Tails(queues[i + 1..])
  {
  }

  lemma {:induction false} Regroup(a: seq<Passage>, b: seq<Passage>, c: seq<Passage>)
    ensures (a + b) + c == a + (b + c)
  {
  }

  // --- Whose turn it is -----------------------------------------------------------------------

  /** How many passages the queues give in their first `k` rounds. */
  function GivenIn(queues: seq<seq<Passage>>, k: nat): nat {
    if queues == [] then 0 else (if |queues[0]| < k then |queues[0]| else k) + GivenIn(queues[1..], k)
  }

  /** How many of the queues have more than `k` passages. */
  function LongerThan(queues: seq<seq<Passage>>, k: nat): nat {
    if queues == [] then 0 else (if |queues[0]| > k then 1 else 0) + LongerThan(queues[1..], k)
  }

  lemma {:induction false} FirstRoundGiven(queues: seq<seq<Passage>>, k: nat)
    requires k > 0
    ensures |Heads(queues)| + GivenIn(Tails(queues), k - 1) == GivenIn(queues, k)
  {
    if queues != [] {
      assert Tails(queues)[1..] == Tails(queues[1..]);
      FirstRoundGiven(queues[1..], k);
    }
  }

  lemma {:induction false} TailsLonger(queues: seq<seq<Passage>>, k: nat)
    requires k > 0
    ensures LongerThan(Tails(queues), k - 1) == LongerThan(queues, k)
  {
    if queues != [] {
      assert Tails(queues)[1..] == Tails(queues[1..]);
      TailsLonger(queues[1..], k);
    }
  }

  lemma {:induction false} HeadAt(queues: seq<seq<Passage>>, i: nat)
    requires i < |queues| && queues[i] != []
    ensures LongerThan(queues[..i], 0) < |Heads(queues)|
    ensures Heads(queues)[LongerThan(queues[..i], 0)] == queues[i][0]
  {
    if i > 0 {
      HeadAt(queues[1..], i - 1);
      assert queues[..i][1..] == queues[1..][..i - 1];
    }
  }

  lemma {:induction false} NothingGivenYet(queues: seq<seq<Passage>>)
    ensures GivenIn(queues, 0) == 0
  {
    if queues != [] { NothingGivenYet(queues[1..]); }
  }

  /** How many passages come before the `k`-th of queue `i`: everything that all queues give in the
      rounds before, and the `k`-th passages of the queues before it. */
  function Turn(queues: seq<seq<Passage>>, i: nat, k: nat): nat
    requires i <= |queues|
  {
    GivenIn(queues, k) + LongerThan(queues[..i], k)
  }

  ghost predicate ServedAt(queues: seq<seq<Passage>>, i: nat, k: nat)
    requires i < |queues| && k < |queues[i]|
  {
    Turn(queues, i, k) < |RoundRobin(queues)| && RoundRobin(queues)[Turn(queues, i, k)] == queues[i][k]
  }

  lemma {:induction false} FirstTurn(queues: seq<seq<Passage>>, i: nat, k: nat)
    requires i < |queues| && k < |queues[i]| && k == 0
    ensures ServedAt(queues, i, k)
  {
    FirstRoundFirst(queues, i);
    NothingGivenYet(queues);
    HeadAt(queues, i);
  }

  lemma {:induction false} TurnInTails(queues: seq<seq<Passage>>, i: nat, k: nat)
    requires i < |queues| && k > 0
    ensures Turn(queues, i, k) == |Heads(queues)| + Turn(Tails(queues), i, k - 1)
  {
    FirstRoundGiven(queues, k);
    TailsLonger(queues[..i], k);
    assert Tails(queues)[..i] == Tails(queues[..i]);
  }

  lemma {:induction false} LaterTurn(queues: seq<seq<Passage>>, tails: seq<seq<Passage>>, i: nat, k: nat)
    requires i < |queues| == |tails| && 0 < k < |queues[i]| && tails == Tails(queues)
    requires |tails[i]| == |queues[i]| - 1 && ServedAt(tails, i, k - 1)
    ensures ServedAt(queues, i, k)
  {
    FirstRoundFirst(queues, i);
    TurnInTails(queues, i, k);
    InSecond(Heads(queues), RoundRobin(Tails(queues)), Turn(Tails(queues), i, k - 1));
  }

  lemma {:induction false} TurnServes(queues: seq<seq<Passage>>, i: nat, k: nat)
    requires i < |queues| && k < |queues[i]|
    ensures ServedAt(queues, i, k)
    decreases k
  {
    if k == 0 {
      FirstTurn(queues, i, k);
    } else {
      var tails := Tails(queues);
      assert |tails[i]| == |queues[i]| - 1;
      TurnServes(tails, i, k - 1);
      LaterTurn(queues, tails, i, k);
    }
  }

  /** Every passage is served exactly at its turn. */
  lemma {:induction false} TurnIsExact(queues: seq<seq<Passage>>, i: nat, k: nat)
    requires i < |queues| && k < |queues[i]|
    ensures Turn(queues, i, k) < |RoundRobin(queues)| && RoundRobin(queues)[Turn(queues, i, k)] == queues[i][k]
  {
    TurnServes(queues, i, k);
  }

  lemma {:induction false} FirstRoundFirst(queues: seq<seq<Passage>>, i: nat)
    requires i < |queues| && queues[i] != []
    ensures RoundRobin(queues) == Heads(queues) + RoundRobin(Tails(queues))
  {
    assert AnyLeft(queues);
  }

  lemma {:induction false} InSecond(a: seq<Passage>, b: seq<Passage>, k: nat)
    requires k < |b|
    ensures |a| + k < |a + b| && (a + b)[|a| + k] == b[k]
  {
  }

  // --- Grouping ---------------------------------------------------------------------------

  /** Passages by document, documents in order of their first passage, best first in each. */
  ghost predicate Grouped(ranked: seq<Passage>, docs: seq<string>, groups: seq<seq<Passage>>) {
    && |docs| == |groups|
    && (forall i, j :: 0 <= i < j < |docs| ==> docs[i] != docs[j])
    && (forall i :: 0 <= i < |docs| ==> groups[i] != [] && groups[i] == Filter(ranked, Of(docs[i])))
    && (forall p :: p in ranked ==> p.document in docs)
  }

  predicate HeadHigher(a: seq<Passage>, b: seq<Passage>) { a != [] && b != [] && Higher(a[0], b[0]) }

  function IndexIn(docs: seq<string>, d: string): (r: nat)
    ensures r <= |docs| && (r < |docs| ==> docs[r] == d)
    ensures r == |docs| ==> d !in docs
  {
    if docs == [] || docs[0] == d then 0 else IndexIn(docs[1..], d) + 1
  }

  lemma {:induction false} FilterSnoc(done: seq<Passage>, p: Passage, d: string)
    ensures Filter(done + [p], Of(d)) == if p.document == d then Filter(done, Of(d)) + [p] else Filter(done, Of(d))
  {
    FilterAppend(done, [p], Of(d));
    assert Filter([p], Of(d)) == if p.document == d then [p] else [];
  }

  lemma {:induction false} GroupMore(done: seq<Passage>, p: Passage, docs: seq<string>, groups: seq<seq<Passage>>,
      i: nat)
    requires Grouped(done, docs, groups) && i < |docs| && docs[i] == p.document
    ensures Grouped(done + [p], docs, groups[i := groups[i] + [p]])
  {
    forall j | 0 <= j < |docs| ensures Filter(done + [p], Of(docs[j])) == groups[i := groups[i] + [p]][j] {
      FilterSnoc(done, p, docs[j]);
    }
  }

  lemma {:induction false} GroupNew(done: seq<Passage>, p: Passage, docs: seq<string>, groups: seq<seq<Passage>>)
    requires Grouped(done, docs, groups) && p.document !in docs
    ensures Grouped(done + [p], docs + [p.document], groups + [[p]])
  {
    var more, wider := docs + [p.document], groups + [[p]];
    forall j | 0 <= j < |more| ensures Filter(done + [p], Of(more[j])) == wider[j] {
      FilterSnoc(done, p, more[j]);
      if j == |docs| { FilterNone(done, Of(p.document)); } else { assert docs[j] in docs; }
    }
    forall q | q in done + [p] ensures q.document in more {
      if q in done { assert q.document in docs; } else { assert more[|docs|] == p.document; }
    }
  }

  /** The passages by document, in the order in which the documents are met. */
  method GroupByDocument(ranked: seq<Passage>) returns (groups: seq<seq<Passage>>, names: seq<string>)
    requires Sorted(ranked, Higher)
    ensures Grouped(ranked, names, groups) && Sorted(groups, HeadHigher)
  {
    names, groups := [], [];
    for k := 0 to |ranked|
      invariant GroupedUpTo(ranked, k, names, groups)
    {
      groups, names := AddToGroups(ranked, k, names, groups);
    }
    assert ranked[..|ranked|] == ranked;
  }

  /** The first `k` passages are grouped, and the groups met in order of their best passage. */
  ghost predicate GroupedUpTo(ranked: seq<Passage>, k: nat, names: seq<string>, groups: seq<seq<Passage>>)
    requires k <= |ranked|
  {
    Grouped(ranked[..k], names, groups) && Sorted(groups, HeadHigher)
  }

  method AddToGroups(ranked: seq<Passage>, k: nat, names0: seq<string>, groups0: seq<seq<Passage>>)
    returns (groups: seq<seq<Passage>>, names: seq<string>)
    requires k < |ranked| && Sorted(ranked, Higher) && GroupedUpTo(ranked, k, names0, groups0)
    ensures GroupedUpTo(ranked, k + 1, names, groups)
  {
    var p := ranked[k];
    names, groups := names0, groups0;
    HeadsStaySorted(ranked, k, names, groups);
    assert ranked[..k + 1] == ranked[..k] + [p];
    var i := IndexIn(names, p.document);
    if i < |names| {
      GroupMore(ranked[..k], p, names, groups, i);
      groups := groups[i := groups[i] + [p]];
    } else {
      GroupNew(ranked[..k], p, names, groups);
      names, groups := names + [p.document], groups + [[p]];
    }
  }

  /** The queues of `select_for_prompt`: sorting the groups by their best passage leaves them
      as they are, because they were met in that order. */
  method MakeQueues(passages: seq<Passage>) returns (queues: seq<seq<Passage>>, ghost docs: seq<string>)
    ensures Grouped(SortBy(passages, Higher), docs, queues)
    ensures forall i, j :: 0 <= i < j < |queues| ==>
      queues[i] != [] && queues[j] != [] && queues[i][0].score >= queues[j][0].score
  {
    HigherIsOrder();
    SortBySorted(passages, Higher);
    var ranked := SortBy(passages, Higher);
    var groups, names := GroupByDocument(ranked);
    SortedIsFixed(groups, HeadHigher);
    queues, docs := SortBy(groups, HeadHigher), names;
    BestQueueFirst(ranked, docs, queues);
  }

  lemma {:induction false} BestQueueFirst(ranked: seq<Passage>, docs: seq<string>, queues: seq<seq<Passage>>)
    requires Grouped(ranked, docs, queues) && Sorted(queues, HeadHigher)
    ensures forall i, j :: 0 <= i < j < |queues| ==>
      queues[i] != [] && queues[j] != [] && queues[i][0].score >= queues[j][0].score
  {
    forall i, j | 0 <= i < j < |queues| ensures queues[i][0].score >= queues[j][0].score {
      assert !HeadHigher(queues[j], queues[i]);
    }
  }

  lemma {:induction false} HeadsStaySorted(ranked: seq<Passage>, k: nat, docs: seq<string>, groups: seq<seq<Passage>>)
    requires k < |ranked| && Sorted(ranked, Higher)
    requires Grouped(ranked[..k], docs, groups) && Sorted(groups, HeadHigher)
    ensures var i := IndexIn(docs, ranked[k].document);
      if i < |docs| then Sorted(groups[i := groups[i] + [ranked[k]]], HeadHigher)
      else Sorted(groups + [[ranked[k]]], HeadHigher)
  {
    var p := ranked[k];
    forall i | 0 <= i < |groups| ensures !Higher(p, groups[i][0]) {
      FilterMembers(ranked[..k], Of(docs[i]), groups[i][0]);
      var j :| 0 <= j < k && ranked[j] == groups[i][0];
    }
  }

  // --- Filling --------------------------------------------------------------------------------

  lemma {:induction false} TotalCostSnoc(ps: seq<Passage>, p: Passage)
    ensures TotalCost(ps + [p]) == TotalCost(ps) + Cost(p)
  {
    assert (ps + [p])[..|ps|] == ps;
  }

  /** `chosen` is the longest affordable prefix of `order`; the first passage is always taken. */
  ghost predicate Fills(chosen: seq<Passage>, order: seq<Passage>, maxChars: int) {
    && chosen <= order
    && (|chosen| >= 2 ==> TotalCost(chosen) <= maxChars)
    && (|chosen| < |order| ==> chosen != [] && TotalCost(chosen) + Cost(order[|chosen|]) > maxChars)
  }

  /** The state of the filling loop: what is chosen and what is still to come make up `order`. */
  ghost predicate Filling(chosen: seq<Passage>, rest: seq<Passage>, order: seq<Passage>, used: int, maxChars: int) {
    chosen + rest == order && used == TotalCost(chosen) && (|chosen| >= 2 ==> used <= maxChars)
  }

  lemma {:induction false} FillNext(chosen: seq<Passage>, p: Passage, rest: seq<Passage>, order: seq<Passage>,
      used: int, maxChars: int)
    requires Filling(chosen, [p] + rest, order, used, maxChars)
    ensures if chosen != [] && used + Cost(p) > maxChars then Fills(chosen, order, maxChars)
            else Filling(chosen + [p], rest, order, used + Cost(p), maxChars)
  {
    Regroup(chosen, [p], rest);
    TotalCostSnoc(chosen, p);
    assert order[|chosen|] == p;
  }

  /** The first `i` queues have given up their head. */
  ghost predicate MidRound(start: seq<seq<Passage>>, queues: seq<seq<Passage>>, i: nat) {
    |queues| == |start|
    && forall j :: 0 <= j < |start| ==> queues[j] == if j < i then Tails(start)[j] else start[j]
  }

  /** A round over `start` that has reached queue `i`. */
  ghost predicate InRound(start: seq<seq<Passage>>, queues: seq<seq<Passage>>, i: nat,
                          chosen: seq<Passage>, order: seq<Passage>, used: int, maxChars: int) {
    i <= |start| && MidRound(start, queues, i)
    && Filling(chosen, RestOfRound(queues, i), order, used, maxChars)
  }

  lemma {:induction false} StepOver(start: seq<seq<Passage>>, queues: seq<seq<Passage>>, i: nat,
                 chosen: seq<Passage>, order: seq<Passage>, used: int, maxChars: int)
    requires InRound(start, queues, i, chosen, order, used, maxChars) && i < |start| && queues[i] == []
    ensures InRound(start, queues, i + 1, chosen, order, used, maxChars)
  {
    RoundSkips(queues, i);
  }

  lemma {:induction false} StepTake(start: seq<seq<Passage>>, queues: seq<seq<Passage>>, i: nat,
                 chosen: seq<Passage>, order: seq<Passage>, used: int, maxChars: int)
    requires InRound(start, queues, i, chosen, order, used, maxChars) && i < |start| && queues[i] != []
    ensures var p := queues[i][0];
      if chosen != [] && used + Cost(p) > maxChars then Fills(chosen, order, maxChars)
      else InRound(start, queues[i := queues[i][1..]], i + 1, chosen + [p], order, used + Cost(p), maxChars)
  {
    RoundTakes(queues, i);
    FillNext(chosen, queues[i][0], RestOfRound(queues[i := queues[i][1..]], i + 1), order, used, maxChars);
  }

  lemma {:induction false} RoundBegins(start: seq<seq<Passage>>, chosen: seq<Passage>, order: seq<Passage>,
      used: int, maxChars: int)
    requires AnyLeft(start) && Filling(chosen, RoundRobin(start), order, used, maxChars)
    ensures InRound(start, start, 0, chosen, order, used, maxChars)
  {
    RoundStarts(start);
  }

  lemma {:induction false} RoundCloses(start: seq<seq<Passage>>, queues: seq<seq<Passage>>, chosen: seq<Passage>,
      order: seq<Passage>, used: int, maxChars: int)
    requires InRound(start, queues, |start|, chosen, order, used, maxChars)
    ensures queues == Tails(start) && Filling(chosen, RoundRobin(queues), order, used, maxChars)
  {
    assert queues == Tails(start);
    RoundEnds(queues);
  }

  /** One queue's turn: its next passage, if it has one and it fits. */
  method OneTurn(start: seq<seq<Passage>>, waiting: seq<seq<Passage>>, i: nat, picked: seq<Passage>, spent: int,
      maxChars: int, ghost order: seq<Passage>)
    returns (queues: seq<seq<Passage>>, chosen: seq<Passage>, used: int, full: bool)
    requires i < |start| == |waiting| && InRound(start, waiting, i, picked, order, spent, maxChars)
    ensures full ==> Fills(chosen, order, maxChars)
    ensures !full ==> |queues| == |start| && InRound(start, queues, i + 1, chosen, order, used, maxChars)
  {
    queues, chosen, used, full := waiting, picked, spent, false;
    if queues[i] == [] {
      StepOver(start, queues, i, chosen, order, used, maxChars);
      return;
    }
    StepTake(start, queues, i, chosen, order, used, maxChars);
    var passage := queues[i][0];
    queues := queues[i := queues[i][1..]];
    if chosen != [] && used + Cost(passage) > maxChars {
      full := true;
      return;
    }
    chosen := chosen + [passage];
    used := used + Cost(passage);
  }

  /** One turn of the outer loop: a passage from every queue that has one, while they fit. */
  method OneRound(start: seq<seq<Passage>>, picked: seq<Passage>, spent: int, maxChars: int, ghost order: seq<Passage>)
    returns (queues: seq<seq<Passage>>, chosen: seq<Passage>, used: int, full: bool)
    requires AnyLeft(start) && Filling(picked, RoundRobin(start), order, spent, maxChars)
    ensures full ==> Fills(chosen, order, maxChars)
    ensures !full ==> queues == Tails(start) && Filling(chosen, RoundRobin(queues), order, used, maxChars)
  {
    RoundBegins(start, picked, order, spent, maxChars);
    queues, chosen, used, full := AllTurns(start, picked, spent, maxChars, order);
    if !full { RoundCloses(start, queues, chosen, order, used, maxChars); }
  }

  /** Every queue's turn, until the prompt is full. */
  method AllTurns(start: seq<seq<Passage>>, picked: seq<Passage>, spent: int, maxChars: int, ghost order: seq<Passage>)
    returns (queues: seq<seq<Passage>>, chosen: seq<Passage>, used: int, full: bool)
    requires InRound(start, start, 0, picked, order, spent, maxChars)
    ensures full ==> Fills(chosen, order, maxChars)
    ensures !full ==> InRound(start, queues, |start|, chosen, order, used, maxChars)
  {
    queues, chosen, used, full := start, picked, spent, false;
    for i := 0 to |start|
      invariant |queues| == |start| && !full
      invariant InRound(start, queues, i, chosen, order, used, maxChars)
    {
      queues, chosen, used, full := OneTurn(start, queues, i, chosen, used, maxChars, order);
      if full { return; }
    }
  }

  /** The ranked passages, grouped by document, are served round-robin as far as the budget goes. */
  ghost predicate FilledBy(chosen: seq<Passage>, ranked: seq<Passage>, maxChars: int, docs: seq<string>,
      groups: seq<seq<Passage>>) {
    Grouped(ranked, docs, groups) && Sorted(groups, HeadHigher) && Fills(chosen, RoundRobin(groups), maxChars)
  }

  ghost predicate Filled(chosen: seq<Passage>, ranked: seq<Passage>, maxChars: int) {
    exists docs, groups :: FilledBy(chosen, ranked, maxChars, docs, groups)
  }

  /** Serving the queues until they are empty or the budget is used up. */
  method Serve(groups: seq<seq<Passage>>, maxChars: int) returns (chosen: seq<Passage>)
    ensures Fills(chosen, RoundRobin(groups), maxChars)
  {
    var queues := groups;
    chosen := [];
    var used := 0;
    ghost var order := RoundRobin(groups);
    assert [] + order == order;
    while AnyLeft(queues)
      invariant Filling(chosen, RoundRobin(queues), order, used, maxChars)
      decreases Waiting(queues)
    {
      TailsShrink(queues);
      var full;
      queues, chosen, used, full := OneRound(queues, chosen, used, maxChars, order);
      if full { return; }
    }
    assert chosen + [] == chosen;
  }

  method SelectForPrompt(passages: seq<Passage>, maxChars: int) returns (chosen: seq<Passage>)
    ensures Filled(chosen, SortBy(passages, Higher), maxChars)
  {
    var queues, docs := MakeQueues(passages);
    chosen := Serve(queues, maxChars);
    assert FilledBy(chosen, SortBy(passages, Higher), maxChars, docs, queues);
  }

  // --- Fairness ---------------------------------------------------------------------------------

  /** Queue `i` holds passages of document `docs[i]` only, and no two queues share a document. */
  ghost predicate Labelled(docs: seq<string>, queues: seq<seq<Passage>>) {
    && |docs| == |queues|
    && (forall i, j :: 0 <= i < j < |docs| ==> docs[i] != docs[j])
    && (forall i, k :: 0 <= i < |queues| && 0 <= k < |queues[i]| ==> queues[i][k].document == docs[i])
  }

  function First(queue: seq<Passage>): seq<Passage> { if queue == [] then [] else [queue[0]] }

  lemma {:induction false} HeadsOfOthers(docs: seq<string>, queues: seq<seq<Passage>>, d: string)
    requires Labelled(docs, queues) && d !in docs
    ensures Filter(Heads(queues), Of(d)) == []
  {
    if queues != [] {
      FilterAppend(First(queues[0]), Heads(queues[1..]), Of(d));
      HeadsOfOthers(docs[1..], queues[1..], d);
      assert docs[0] in docs;
    }
  }

  lemma {:induction false} HeadsOfOne(docs: seq<string>, queues: seq<seq<Passage>>, i: nat)
    requires Labelled(docs, queues) && i < |docs|
    ensures Filter(Heads(queues), Of(docs[i])) == First(queues[i])
  {
    var d := docs[i];
    FilterAppend(First(queues[0]), Heads(queues[1..]), Of(d));
    if i == 0 {
      HeadsOfOthers(docs[1..], queues[1..], d);
    } else {
      HeadsOfOne(docs[1..], queues[1..], i - 1);
    }
  }

  lemma {:induction false} FilterPrefix(s: seq<Passage>, n: nat, keep: Passage -> bool)
    requires n <= |s|
    ensures Filter(s[..n], keep) <= Filter(s, keep)
  {
    assert s == s[..n] + s[n..];
    FilterAppend(s[..n], s[n..], keep);
  }

  lemma {:induction false} FilterOfPrefix(a: seq<Passage>, b: seq<Passage>, n: nat, keep: Passage -> bool)
    requires n <= |a + b|
    ensures n < |a| ==> Filter((a + b)[..n], keep) <= Filter(a, keep)
    ensures n >= |a| ==> Filter((a + b)[..n], keep) == Filter(a, keep) + Filter(b[..n - |a|], keep)
  {
    if n < |a| {
      assert (a + b)[..n] == a[..n];
      FilterPrefix(a, n, keep);
    } else {
      assert (a + b)[..n] == a + b[..n - |a|];
      FilterAppend(a, b[..n - |a|], keep);
    }
  }

  /** What queue `i` has contributed to the first `n` of the order. */
  ghost function Share(docs: seq<string>, queues: seq<seq<Passage>>, n: nat, i: nat): seq<Passage>
    requires n <= |RoundRobin(queues)| && i < |docs|
  {
    Filter(RoundRobin(queues)[..n], Of(docs[i]))
  }

  lemma {:induction false} TailsLabelled(docs: seq<string>, queues: seq<seq<Passage>>)
    requires Labelled(docs, queues)
    ensures Labelled(docs, Tails(queues))
  {
  }

  /** Within the first round a share is the head or nothing; later rounds add to the head. */
  lemma {:induction false} ShareOfRound(docs: seq<string>, queues: seq<seq<Passage>>, n: nat, i: nat)
    requires Labelled(docs, queues) && i < |docs| && n <= |RoundRobin(queues)| && AnyLeft(queues)
    ensures |RoundRobin(queues)| == |Heads(queues)| + |RoundRobin(Tails(queues))|
    ensures n < |Heads(queues)| ==> Share(docs, queues, n, i) <= First(queues[i])
    ensures n >= |Heads(queues)| ==>
      Share(docs, queues, n, i) == First(queues[i]) + Share(docs, Tails(queues), n - |Heads(queues)|, i)
  {
    HeadsOfOne(docs, queues, i);
    FilterOfPrefix(Heads(queues), RoundRobin(Tails(queues)), n, Of(docs[i]));
  }

  lemma {:induction false} FirstThenTail(queues: seq<seq<Passage>>, i: nat, share: seq<Passage>)
    requires i < |queues|
    ensures |Tails(queues)| == |queues| && First(queues[i]) <= queues[i]
    ensures share <= Tails(queues)[i] ==> First(queues[i]) + share <= queues[i]
    ensures share == Tails(queues)[i] ==> First(queues[i]) + share == queues[i]
  {
  }

  /** Every share is a prefix of its queue. */
  lemma {:induction false} ShareIsPrefix(docs: seq<string>, queues: seq<seq<Passage>>, n: nat, i: nat)
    requires Labelled(docs, queues) && i < |docs| && n <= |RoundRobin(queues)|
    ensures Share(docs, queues, n, i) <= queues[i]
    ensures n == |RoundRobin(queues)| ==> Share(docs, queues, n, i) == queues[i]
    decreases Waiting(queues)
  {
    if AnyLeft(queues) {
      ShareOfRound(docs, queues, n, i);
      if n >= |Heads(queues)| {
        var later := n - |Heads(queues)|;
        TailsShrink(queues);
        TailsLabelled(docs, queues);
        ShareIsPrefix(docs, Tails(queues), later, i);
        FirstThenTail(queues, i, Share(docs, Tails(queues), later, i));
      } else {
        FirstThenTail(queues, i, []);
      }
    }
  }

  /** A lead survives a round in which the other queue had a turn. */
  lemma {:induction false} LaterGap(docs: seq<string>, queues: seq<seq<Passage>>, n: nat, i: nat, j: nat)
    requires Labelled(docs, queues) && AnyLeft(queues) && i < |docs| && j < |docs|
    requires |Heads(queues)| <= n <= |RoundRobin(queues)| && queues[j] != []
    requires |Share(docs, queues, n, i)| >= |Share(docs, queues, n, j)| + 2
    ensures var later := n - |Heads(queues)|;
      |Share(docs, Tails(queues), later, i)| >= |Share(docs, Tails(queues), later, j)| + 2
  {
    ShareOfRound(docs, queues, n, i);
    ShareOfRound(docs, queues, n, j);
    assert |First(queues[i])| <= 1;
  }

  /** Nobody gets two ahead of a queue that still has passages. */
  lemma {:induction false} SharesAreFair(docs: seq<string>, queues: seq<seq<Passage>>, n: nat, i: nat, j: nat)
    requires Labelled(docs, queues) && i < |docs| && j < |docs| && n <= |RoundRobin(queues)|
    requires |Share(docs, queues, n, i)| >= |Share(docs, queues, n, j)| + 2
    ensures Share(docs, queues, n, j) == queues[j]
    decreases Waiting(queues)
  {
    ShareIsPrefix(docs, queues, n, j);
    if AnyLeft(queues) {
      ShareOfRound(docs, queues, n, i);
      ShareOfRound(docs, queues, n, j);
      if n >= |Heads(queues)| && queues[j] != [] {
        var later := n - |Heads(queues)|;
        LaterGap(docs, queues, n, i, j);
        TailsShrink(queues);
        TailsLabelled(docs, queues);
        SharesAreFair(docs, Tails(queues), later, i, j);
        FirstThenTail(queues, j, Share(docs, Tails(queues), later, j));
      }
    }
  }

  /** For two documents with ranked passages: each gives a best-first prefix, and if one is two
      ahead the other has given everything. */
  ghost predicate FairTo(chosen: seq<Passage>, ranked: seq<Passage>, d: string, e: string) {
    && Filter(chosen, Of(d)) <= Filter(ranked, Of(d))
    && (|Filter(chosen, Of(d))| >= |Filter(chosen, Of(e))| + 2 ==> Filter(chosen, Of(e)) == Filter(ranked, Of(e)))
  }

  lemma {:induction false} FilledIsFair(chosen: seq<Passage>, ranked: seq<Passage>, maxChars: int,
      docs: seq<string>, groups: seq<seq<Passage>>, i: nat, j: nat)
    requires FilledBy(chosen, ranked, maxChars, docs, groups) && i < |docs| && j < |docs|
    ensures FairTo(chosen, ranked, docs[i], docs[j])
  {
    GroupedIsLabelled(ranked, docs, groups);
    var n := |chosen|;
    assert RoundRobin(groups)[..n] == chosen;
    ShareIsPrefix(docs, groups, n, i);
    if |Filter(chosen, Of(docs[i]))| >= |Filter(chosen, Of(docs[j]))| + 2 { SharesAreFair(docs, groups, n, i, j); }
  }

  lemma {:induction false} HeadsAreMembers(queues: seq<seq<Passage>>, p: Passage)
    requires p in Heads(queues)
    ensures exists i :: 0 <= i < |queues| && p in queues[i]
  {
    if p in First(queues[0]) {
      assert p in queues[0];
    } else {
      HeadsAreMembers(queues[1..], p);
      var i :| 0 <= i < |queues[1..]| && p in queues[1..][i];
      assert p in queues[i + 1];
    }
  }

  lemma {:induction false} ServedAreMembers(queues: seq<seq<Passage>>, p: Passage)
    requires p in RoundRobin(queues)
    ensures exists i :: 0 <= i < |queues| && p in queues[i]
    decreases Waiting(queues)
  {
    if p in Heads(queues) {
      HeadsAreMembers(queues, p);
    } else {
      TailsShrink(queues);
      ServedAreMembers(Tails(queues), p);
      var i :| 0 <= i < |Tails(queues)| && p in Tails(queues)[i];
      assert p in queues[i];
    }
  }

  lemma {:induction false} BehindPrefix(given: seq<Passage>, all: seq<Passage>, j: nat)
    requires given <= all && j < |all| && all[j] !in given
    ensures j >= |given|
  {
  }

  /** What a document gives scores no worse than what it keeps back. */
  lemma {:induction false} GivesItsBest(chosen: seq<Passage>, ranked: seq<Passage>, p: Passage, q: Passage)
    requires Sorted(ranked, Higher) && p in chosen && q in ranked && q !in chosen && q.document == p.document
    requires Filter(chosen, Of(p.document)) <= Filter(ranked, Of(p.document))
    ensures q.score <= p.score
  {
    var given, all := Filter(chosen, Of(p.document)), Filter(ranked, Of(p.document));
    FilterMembers(chosen, Of(p.document), p);
    FilterMembers(chosen, Of(p.document), q);
    FilterMembers(ranked, Of(p.document), q);
    var i :| 0 <= i < |given| && given[i] == p;
    var j :| 0 <= j < |all| && all[j] == q;
    BehindPrefix(given, all, j);
    FilterSorted(ranked, Higher, Of(p.document));
    assert !Higher(all[j], all[i]);
  }

  /** The prompt holds given passages only and shows no more than the budget once it holds two; each
      document gives its best passages, and none gets two ahead of another that has any left. */
  lemma {:induction false} PromptIsFair(passages: seq<Passage>, maxChars: int, chosen: seq<Passage>)
    requires Filled(chosen, SortBy(passages, Higher), maxChars)
    ensures forall p :: p in chosen ==> p in passages
    ensures |chosen| >= 2 ==> |ShownText(chosen)| <= maxChars
    ensures forall p, q :: p in passages && q in passages ==>
      FairTo(chosen, SortBy(passages, Higher), p.document, q.document)
    ensures forall p, q :: p in chosen && q in passages && q !in chosen && q.document == p.document ==>
      q.score <= p.score
  {
    CostIsShown(chosen);
    var ranked := SortBy(passages, Higher);
    var docs, groups :| FilledBy(chosen, ranked, maxChars, docs, groups);
    forall p | p in chosen ensures p in passages {
      ServedAreMembers(groups, p);
      var i :| 0 <= i < |groups| && p in groups[i];
      FilterMembers(ranked, Of(docs[i]), p);
      SortByMembers(passages, Higher, p);
    }
    forall p, q | p in passages && q in passages ensures FairTo(chosen, ranked, p.document, q.document) {
      SortByMembers(passages, Higher, p);
      SortByMembers(passages, Higher, q);
      var i :| 0 <= i < |docs| && docs[i] == p.document;
      var j :| 0 <= j < |docs| && docs[j] == q.document;
      FilledIsFair(chosen, ranked, maxChars, docs, groups, i, j);
    }
    HigherIsOrder();
    SortBySorted(passages, Higher);
    forall p, q | p in chosen && q in passages && q !in chosen && q.document == p.document
      ensures q.score <= p.score
    {
      SortByMembers(passages, Higher, q);
      assert FairTo(chosen, ranked, p.document, q.document);
      GivesItsBest(chosen, ranked, p, q);
    }
  }

  lemma {:induction false} GroupedIsLabelled(ranked: seq<Passage>, docs: seq<string>, groups: seq<seq<Passage>>)
    requires Grouped(ranked, docs, groups)
    ensures Labelled(docs, groups)
  {
    forall i, k | 0 <= i < |groups| && 0 <= k < |groups[i]| ensures groups[i][k].document == docs[i] {
      FilterMembers(ranked, Of(docs[i]), groups[i][k]);
    }
  }
}
