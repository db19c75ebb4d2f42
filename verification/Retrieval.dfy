/** Passages gathered over several rounds of searching, capped after each round. */
module Retrieval {
  import opened Sorting

  datatype Passage = Passage(citation: string, document: string, score: real, text: string)

  predicate Higher(a: Passage, b: Passage) { a.score > b.score }

  lemma {:induction false} HigherIsOrder()
    ensures StrictWeak(Higher)
  {
  }

  // --- The passage dictionary ------------------------------------------------------
  // A dictionary keeps its keys in insertion order: here, a list with distinct citations.

  ghost predicate Distinct(ps: seq<Passage>) {
    forall i, j :: 0 <= i < j < |ps| ==> ps[i].citation != ps[j].citation
  }

  /** The position of a citation, or the length of the list. */
  function Position(ps: seq<Passage>, citation: string): (r: nat)
    ensures r <= |ps| && (r < |ps| ==> ps[r].citation == citation)
    ensures forall i :: 0 <= i < r ==> ps[i].citation != citation
  {
    if ps == [] || ps[0].citation == citation then 0
    else Position(ps[1..], citation) + 1
  }

  function Put(ps: seq<Passage>, p: Passage): seq<Passage> {
    var i := Position(ps, p.citation);
    if i < |ps| then ps[i := p] else ps + [p]
  }

  function Added(ps: seq<Passage>, p: Passage, minRelevance: real): seq<Passage> {
    var i := Position(ps, p.citation);
    if p.score < minRelevance || (i < |ps| && p.score <= ps[i].score) then ps else Put(ps, p)
  }

  function CitationsOf(ps: seq<Passage>): seq<string> {
    seq(|ps|, i requires 0 <= i < |ps| => ps[i].citation)
  }

  /** A listed citation keeps its place; a new one goes to the end. */
  lemma {:induction false} AddedKeepsPlaces(ps: seq<Passage>, p: Passage, minRelevance: real)
    ensures var before, after := CitationsOf(ps), CitationsOf(Added(ps, p, minRelevance));
      after == before || (p.citation !in before && after == before + [p.citation])
  {
    var i := Position(ps, p.citation);
    if i == |ps| {
      assert forall k :: 0 <= k < |ps| ==> CitationsOf(ps)[k] != p.citation;
      assert CitationsOf(ps + [p]) == CitationsOf(ps) + [p.citation];
    } else {
      assert CitationsOf(ps[i := p]) == CitationsOf(ps);
    }
  }

  function AddedAll(ps: seq<Passage>, found: seq<Passage>, minRelevance: real): seq<Passage> {
    if found == [] then ps
    else Added(AddedAll(ps, found[..|found| - 1], minRelevance), found[|found| - 1], minRelevance)
  }

  function Capped(ps: seq<Passage>, limit: nat): seq<Passage> {
    var best := SortBy(ps, Higher);
    best[..if limit <= |best| then limit else |best|]
  }

  function WithScore(score: real): Passage -> bool { (p: Passage) => p.score == score }

  lemma {:induction false} BestFirst(ps: seq<Passage>, i: nat, j: nat)
    requires i < j < |ps|
    ensures SortBy(ps, Higher)[i].score >= SortBy(ps, Higher)[j].score
  {
    HigherIsOrder();
    SortBySorted(ps, Higher);
    assert !Higher(SortBy(ps, Higher)[j], SortBy(ps, Higher)[i]);
  }

  lemma {:induction false} CappedIsStable(ps: seq<Passage>, limit: nat, score: real)
    ensures Filter(Capped(ps, limit), WithScore(score)) <= Filter(ps, WithScore(score))
  {
    SortByStable(ps, Higher, WithScore(score));
    PrefixFilters(Capped(ps, limit), SortBy(ps, Higher), WithScore(score));
  }

  lemma {:induction false} PrefixFilters(front: seq<Passage>, all: seq<Passage>, keep: Passage -> bool)
    requires front <= all
    ensures Filter(front, keep) <= Filter(all, keep)
  {
    assert all == front + all[|front|..];
    FilterAppend(front, all[|front|..], keep);
  }

  /** What is kept stands best first, and passages of equal score in the order they were listed. */
  lemma {:induction false} CappedIsOrdered(ps: seq<Passage>, limit: nat)
    ensures var kept := Capped(ps, limit);
      && |kept| == (if limit < |ps| then limit else |ps|)
      && (forall i, j :: 0 <= i < j < |kept| ==> kept[i].score >= kept[j].score)
      && (forall score :: Filter(kept, WithScore(score)) <= Filter(ps, WithScore(score)))
  {
    var best, kept := SortBy(ps, Higher), Capped(ps, limit);
    forall i, j | 0 <= i < j < |kept| ensures kept[i].score >= kept[j].score {
      assert kept[i] == best[i] && kept[j] == best[j];
      BestFirst(ps, i, j);
    }
    forall score ensures Filter(Capped(ps, limit), WithScore(score)) <= Filter(ps, WithScore(score)) {
      CappedIsStable(ps, limit, score);
    }
  }

  // --- What is retained ---------------------------------------------------------------

  /** `p` is a best-scored sighting of its citation among everything found. */
  ghost predicate IsBest(all: seq<Passage>, p: Passage) {
    p in all && forall q :: q in all && q.citation == p.citation ==> q.score <= p.score
  }

  ghost predicate Lists(ps: seq<Passage>, citation: string) {
    exists i :: 0 <= i < |ps| && ps[i].citation == citation
  }

  /** The retained passages are a top `limit` of everything found so far: each carries its true
      best score, and a citation left out was never seen with a better score than any of them. */
  ghost predicate TopOf(ps: seq<Passage>, all: seq<Passage>, minRelevance: real, limit: nat) {
    && Distinct(ps) && |ps| <= limit
    && (forall p :: p in ps ==> IsBest(all, p) && p.score >= minRelevance)
    && (forall q :: q in all && q.score >= minRelevance && !Lists(ps, q.citation) ==>
          |ps| == limit && forall p :: p in ps ==> q.score <= p.score)
  }

  /** Another citation that scores at least as well as `q`. */
  function Rival(q: Passage): Passage -> bool {
    (p: Passage) => p.citation != q.citation && p.score >= q.score
  }

  /** `q` is accounted for: listed with at least its score, or crowded out by `limit` rivals. */
  ghost predicate Settled(ps: seq<Passage>, q: Passage, limit: nat) {
    || (exists i :: 0 <= i < |ps| && ps[i].citation == q.citation && ps[i].score >= q.score)
    || |Filter(ps, Rival(q))| >= limit
  }

  /** What adding keeps between two caps. */
  ghost predicate Gathered(ps: seq<Passage>, all: seq<Passage>, minRelevance: real, limit: nat) {
    && Distinct(ps)
    && (forall p :: p in ps ==> p in all && p.score >= minRelevance)
    && (forall q :: q in all && q.score >= minRelevance ==> Settled(ps, q, limit))
  }

  // --- Counting ---------------------------------------------------------------------

  lemma {:induction false} FilterCountUpdate<T>(s: seq<T>, i: nat, x: T, keep: T -> bool)
    requires i < |s| && (keep(s[i]) ==> keep(x))
    ensures |Filter(s[i := x], keep)| >= |Filter(s, keep)|
  {
    var t := s[i := x];
    if i == 0 {
      assert t[1..] == s[1..];
    } else {
      assert t[1..] == s[1..][i - 1 := x];
      FilterCountUpdate(s[1..], i - 1, x, keep);
    }
  }

  lemma {:induction false} FilterCountInsert<T>(x: T, s: seq<T>, lt: (T, T) -> bool, keep: T -> bool)
    ensures |Filter(Insert(x, s, lt), keep)| == (if keep(x) then 1 else 0) + |Filter(s, keep)|
  {
    var r := Insert(x, s, lt);
    if s == [] || !lt(s[0], x) {
      assert r[1..] == s;
    } else {
      assert r[1..] == Insert(x, s[1..], lt);
      FilterCountInsert(x, s[1..], lt, keep);
    }
  }

  lemma {:induction false} FilterCountSort<T>(s: seq<T>, lt: (T, T) -> bool, keep: T -> bool)
    ensures |Filter(SortBy(s, lt), keep)| == |Filter(s, keep)|
  {
    if s != [] {
      FilterCountSort(s[1..], lt, keep);
      FilterCountInsert(s[0], SortBy(s[1..], lt), lt, keep);
    }
  }

  lemma {:induction false} FilterAtMost<T>(s: seq<T>, keep: T -> bool)
    ensures |Filter(s, keep)| <= |s|
    ensures (forall x :: x in s ==> keep(x)) ==> |Filter(s, keep)| == |s|
  {
    if s != [] {
      FilterAtMost(s[1..], keep);
      assert s[0] in s;
    }
  }

  // --- Adding ----------------------------------------------------------------------------

  lemma {:induction false} AddKeepsGathered(ps: seq<Passage>, all: seq<Passage>, p: Passage, minRelevance: real,
      limit: nat)
    requires Gathered(ps, all, minRelevance, limit)
    ensures Gathered(Added(ps, p, minRelevance), all + [p], minRelevance, limit)
  {
    var next := Added(ps, p, minRelevance);
    var at := Position(ps, p.citation);
    forall q | q in all + [p] && q.score >= minRelevance ensures Settled(next, q, limit) {
      if q in all {
        SettledStays(ps, p, minRelevance, q, limit);
      } else if next != ps {
        assert next[at] == p;
      }
    }
  }

  lemma {:induction false} SettledStays(ps: seq<Passage>, p: Passage, minRelevance: real, q: Passage, limit: nat)
    requires Settled(ps, q, limit)
    ensures Settled(Added(ps, p, minRelevance), q, limit)
  {
    var next := Added(ps, p, minRelevance);
    var at := Position(ps, p.citation);
    if next != ps {
      if i :| 0 <= i < |ps| && ps[i].citation == q.citation && ps[i].score >= q.score {
        assert next[i].citation == q.citation && next[i].score >= q.score;
      } else if at < |ps| {
        FilterCountUpdate(ps, at, p, Rival(q));
      } else {
        FilterAppend(ps, [p], Rival(q));
      }
    }
  }

  lemma {:induction false} AddAllKeepsGathered(ps: seq<Passage>, all: seq<Passage>, found: seq<Passage>,
      minRelevance: real, limit: nat)
    requires Gathered(ps, all, minRelevance, limit)
    ensures Gathered(AddedAll(ps, found, minRelevance), all + found, minRelevance, limit)
  {
    if found == [] {
      assert all + found == all;
    } else {
      var front, last := found[..|found| - 1], found[|found| - 1];
      AddAllKeepsGathered(ps, all, front, minRelevance, limit);
      AddKeepsGathered(AddedAll(ps, front, minRelevance), all + front, last, minRelevance, limit);
      assert (all + front) + [last] == all + found;
    }
  }

  // --- Capping -----------------------------------------------------------------------------

  /** In a sorted list, what beats the element at `at` fits in front of it. */
  lemma {:induction false} RivalsComeFirst(s: seq<Passage>, at: nat, q: Passage)
    requires Sorted(s, Higher) && at < |s| && s[at].score < q.score
    ensures |Filter(s, Rival(q))| <= at
  {
    assert s == s[..at] + s[at..];
    FilterAppend(s[..at], s[at..], Rival(q));
    forall x | x in s[at..] ensures !Rival(q)(x) {
      var j :| 0 <= j < |s[at..]| && s[at..][j] == x;
      assert s[at + j] == x && (j == 0 || !Higher(s[at + j], s[at]));
    }
    FilterNone(s[at..], Rival(q));
    FilterAtMost(s[..at], Rival(q));
  }

  lemma {:induction false} SortKeepsDistinct(ps: seq<Passage>)
    requires Distinct(ps)
    ensures Distinct(SortBy(ps, Higher))
  {
    var s := SortBy(ps, Higher);
    forall i, j | 0 <= i < j < |s| ensures s[i].citation != s[j].citation {
      if s[i].citation == s[j].citation { TwiceInSorted(ps, s, i, j); }
    }
  }

  /** Two places with one citation in a permutation of `ps` mean two such places in `ps`. */
  lemma {:induction false} FilterTwice<T>(s: seq<T>, keep: T -> bool, i: nat, j: nat)
    requires i < j < |s| && keep(s[i]) && keep(s[j])
    ensures |Filter(s, keep)| >= 2
  {
    assert s == s[..j] + s[j..];
    FilterAppend(s[..j], s[j..], keep);
    FilterSome(s[..j], keep, i);
    FilterSome(s[j..], keep, 0);
  }

  lemma {:induction false} TwiceInSorted(ps: seq<Passage>, s: seq<Passage>, i: nat, j: nat)
    requires i < j < |s| && s[i].citation == s[j].citation && s == SortBy(ps, Higher)
    ensures !Distinct(ps)
  {
    var keep := (p: Passage) => p.citation == s[i].citation;
    FilterCountSort(ps, Higher, keep);
    FilterTwice(s, keep, i, j);
    if Distinct(ps) { FilterOnce(ps, keep); }
  }

  lemma {:induction false} FilterSome<T>(s: seq<T>, keep: T -> bool, i: nat)
    requires i < |s| && keep(s[i])
    ensures |Filter(s, keep)| >= 1
  {
    if i > 0 { FilterSome(s[1..], keep, i - 1); }
  }

  lemma {:induction false} FilterOnce(ps: seq<Passage>, keep: Passage -> bool)
    requires Distinct(ps) && forall p, q :: keep(p) && keep(q) ==> p.citation == q.citation
    ensures |Filter(ps, keep)| <= 1
  {
    if ps != [] {
      if keep(ps[0]) {
        forall x | x in ps[1..] ensures !keep(x) {
          var k :| 0 <= k < |ps[1..]| && ps[1..][k] == x;
          assert ps[k + 1] == x;
        }
        FilterNone(ps[1..], keep);
      } else {
        FilterOnce(ps[1..], keep);
      }
    }
  }

  lemma {:induction false} CapMakesTop(ps: seq<Passage>, all: seq<Passage>, minRelevance: real, limit: nat)
    requires Gathered(ps, all, minRelevance, limit)
    ensures TopOf(Capped(ps, limit), all, minRelevance, limit)
  {
    var s := SortBy(ps, Higher);
    var kept := Capped(ps, limit);
    HigherIsOrder();
    SortBySorted(ps, Higher);
    SortKeepsDistinct(ps);
    forall x ensures x in s <==> x in ps { SortByMembers(ps, Higher, x); }
    forall p | p in kept ensures IsBest(all, p) && p.score >= minRelevance {
      KeptIsBest(ps, all, minRelevance, limit, p);
    }
    forall q | q in all && q.score >= minRelevance && !Lists(kept, q.citation)
      ensures |kept| == limit && forall p :: p in kept ==> q.score <= p.score
    {
      LeftOutIsWorse(ps, all, minRelevance, limit, q);
    }
  }

  lemma {:induction false} KeptIsBest(ps: seq<Passage>, all: seq<Passage>, minRelevance: real, limit: nat, p: Passage)
    requires Gathered(ps, all, minRelevance, limit) && p in Capped(ps, limit)
    requires Sorted(SortBy(ps, Higher), Higher)
    ensures IsBest(all, p) && p.score >= minRelevance
  {
    var s := SortBy(ps, Higher);
    var at :| 0 <= at < |Capped(ps, limit)| && Capped(ps, limit)[at] == p;
    assert s[at] == p;
    SortByMembers(ps, Higher, p);
    forall q | q in all && q.citation == p.citation ensures q.score <= p.score {
      if q.score > p.score {
        assert Settled(ps, q, limit);
        var mine :| 0 <= mine < |ps| && ps[mine] == p;
        assert |Filter(ps, Rival(q))| >= limit;
        FilterCountSort(ps, Higher, Rival(q));
        RivalsComeFirst(s, at, q);
      }
    }
  }

  lemma {:induction false} CutAbove(s: seq<Passage>, n: nat, j: nat, q: Passage)
    requires Sorted(s, Higher) && n <= j < |s| && q.score <= s[j].score
    ensures forall k :: 0 <= k < n ==> q.score <= s[k].score
  {
    assert forall k :: 0 <= k < n ==> !Higher(s[j], s[k]);
  }

  lemma {:induction false} CrowdedOut(s: seq<Passage>, n: nat, limit: nat, q: Passage)
    requires Sorted(s, Higher) && |Filter(s, Rival(q))| >= limit && n == if limit <= |s| then limit else |s|
    ensures n == limit && forall k :: 0 <= k < n ==> q.score <= s[k].score
  {
    FilterAtMost(s, Rival(q));
    forall k | 0 <= k < n ensures q.score <= s[k].score {
      if s[k].score < q.score { RivalsComeFirst(s, k, q); }
    }
  }

  /** The first listed position past the cut that holds the citation. */
  lemma {:induction false} PastTheCut(ps: seq<Passage>, n: nat, i: nat) returns (j: nat)
    requires i < |ps| && n <= |ps| && !Lists(SortBy(ps, Higher)[..n], ps[i].citation)
    ensures n <= j < |ps| && SortBy(ps, Higher)[j] == ps[i]
  {
    var s := SortBy(ps, Higher);
    SortByMembers(ps, Higher, ps[i]);
    assert forall k :: 0 <= k < n ==> s[k] == s[..n][k] && s[k].citation != ps[i].citation;
    j :| 0 <= j < |s| && s[j] == ps[i];
  }

  lemma {:induction false} LeftOutIsWorse(ps: seq<Passage>, all: seq<Passage>, minRelevance: real, limit: nat,
      q: Passage)
    requires Gathered(ps, all, minRelevance, limit) && q in all && q.score >= minRelevance
    requires Sorted(SortBy(ps, Higher), Higher) && !Lists(Capped(ps, limit), q.citation)
    ensures |Capped(ps, limit)| == limit && forall p :: p in Capped(ps, limit) ==> q.score <= p.score
  {
    var s := SortBy(ps, Higher);
    var n := if limit <= |s| then limit else |s|;
    assert Settled(ps, q, limit);
    if i :| 0 <= i < |ps| && ps[i].citation == q.citation && ps[i].score >= q.score {
      var j := PastTheCut(ps, n, i);
      CutAbove(s, n, j, q);
    } else {
      FilterCountSort(ps, Higher, Rival(q));
      CrowdedOut(s, n, limit, q);
    }
  }

  lemma {:induction false} TopIsGathered(ps: seq<Passage>, all: seq<Passage>, minRelevance: real, limit: nat)
    requires TopOf(ps, all, minRelevance, limit)
    ensures Gathered(ps, all, minRelevance, limit)
  {
    forall q | q in all && q.score >= minRelevance ensures Settled(ps, q, limit) {
      if i :| 0 <= i < |ps| && ps[i].citation == q.citation {
        assert IsBest(all, ps[i]);
      } else {
        FilterAtMost(ps, Rival(q));
      }
    }
  }

  // --- Rounds ------------------------------------------------------------------------------

  function AfterRounds(rounds: seq<seq<Passage>>, minRelevance: real, limit: nat): seq<Passage> {
    if rounds == [] then []
    else
      var before := AfterRounds(rounds[..|rounds| - 1], minRelevance, limit);
      Capped(AddedAll(before, rounds[|rounds| - 1], minRelevance), limit)
  }

  function Flat(rounds: seq<seq<Passage>>): seq<Passage> {
    if rounds == [] then [] else Flat(rounds[..|rounds| - 1]) + rounds[|rounds| - 1]
  }

  /** Capping after every round loses nothing: the result is a top `limit` of all rounds. */
  lemma {:induction false} EarlyCappingIsSafe(rounds: seq<seq<Passage>>, minRelevance: real, limit: nat)
    ensures TopOf(AfterRounds(rounds, minRelevance, limit), Flat(rounds), minRelevance, limit)
  {
    if rounds != [] {
      var front, last := rounds[..|rounds| - 1], rounds[|rounds| - 1];
      var before := AfterRounds(front, minRelevance, limit);
      EarlyCappingIsSafe(front, minRelevance, limit);
      TopIsGathered(before, Flat(front), minRelevance, limit);
      AddAllKeepsGathered(before, Flat(front), last, minRelevance, limit);
      CapMakesTop(AddedAll(before, last, minRelevance), Flat(front) + last, minRelevance, limit);
    }
  }

  // --- The object ----------------------------------------------------------------------------

  /** A dictionary filled from a list. */
  function FromList(ps: seq<Passage>): seq<Passage> {
    if ps == [] then [] else Put(FromList(ps[..|ps| - 1]), ps[|ps| - 1])
  }

  lemma {:induction false} FromDistinctList(ps: seq<Passage>)
    requires Distinct(ps)
    ensures FromList(ps) == ps
  {
    if ps != [] {
      var front := ps[..|ps| - 1];
      FromDistinctList(front);
      assert ps == front + [ps[|ps| - 1]];
    }
  }

  lemma {:induction false} AddedAllSplit(ps: seq<Passage>, a: seq<Passage>, b: seq<Passage>, minRelevance: real)
    ensures AddedAll(ps, a + b, minRelevance) == AddedAll(AddedAll(ps, a, minRelevance), b, minRelevance)
  {
    if b == [] {
      assert a + b == a;
    } else {
      var front := b[..|b| - 1];
      assert (a + b)[..|a + b| - 1] == a + front;
      AddedAllSplit(ps, a, front, minRelevance);
    }
  }

  /** The queries that are run: not blank, not run before in any spelling of case, while the
      budget lasts. */
  function Chosen(queries: seq<string>, ran: set<string>, room: int, lower: string -> string): seq<string>
    decreases |queries|
  {
    if queries == [] then []
    else
      var q := queries[0];
      if q != "" && lower(q) !in ran && room > 0
      then [q] + Chosen(queries[1..], ran + {lower(q)}, room - 1, lower)
      else Chosen(queries[1..], ran, room, lower)
  }

  function Lowered(queries: seq<string>, lower: string -> string): set<string> {
    set q | q in queries :: lower(q)
  }

  /** Everything the queries found, in order. */
  function Found(search: string -> seq<Passage>, queries: seq<string>): seq<Passage> {
    if queries == [] then [] else Found(search, queries[..|queries| - 1]) + search(queries[|queries| - 1])
  }

  function Citations(ps: seq<Passage>): set<string> { set p | p in ps :: p.citation }

  class Retrieved {
    var passages: seq<Passage>
    var queries: seq<string>
    var seen: set<string>

    constructor ()
      ensures passages == [] && queries == [] && seen == {}
    {
      passages, queries, seen := [], [], {};
    }

    method Add(found: seq<Passage>, minRelevance: real)
      modifies this`passages, this`seen
      ensures passages == AddedAll(old(passages), found, minRelevance)
      ensures seen == old(seen) + Citations(found)
    {
      for i := 0 to |found|
        invariant passages == AddedAll(old(passages), found[..i], minRelevance)
        invariant seen == old(seen) + Citations(found[..i])
      {
        var passage := found[i];
        assert found[..i + 1][..i] == found[..i] && found[..i + 1] == found[..i] + [passage];
        seen := seen + {passage.citation};
        if passage.score < minRelevance { continue; }
        var at := Position(passages, passage.citation);
        if at == |passages| || passage.score > passages[at].score { passages := Put(passages, passage); }
      }
      assert found[..|found|] == found;
    }

    method Cap(limit: nat)
      requires Distinct(passages)
      modifies this`passages
      ensures passages == Capped(old(passages), limit)
    {
      var best := SortBy(passages, Higher);
      best := best[..if limit <= |best| then limit else |best|];
      SortKeepsDistinct(passages);
      FromDistinctList(best);
      passages := FromList(best);
    }

    /** The first loop of a round: which of the wanted queries to run. */
    method Choose(wanted: seq<string>, lower: string -> string, maxQueries: nat) returns (run: seq<string>)
      ensures run == Chosen(wanted, Lowered(queries, lower), maxQueries - |queries|, lower)
    {
      var ran := Lowered(queries, lower);
      ghost var before := ran;
      run := [];
      assert wanted[0..] == wanted;
      for i := 0 to |wanted|
        invariant Chosen(wanted, before, maxQueries - |queries|, lower)
                  == run + Chosen(wanted[i..], ran, maxQueries - |queries| - |run|, lower)
      {
        var query := wanted[i];
        assert wanted[i..][0] == query && wanted[i..][1..] == wanted[i + 1..];
        if query != "" && lower(query) !in ran && |queries| + |run| < maxQueries {
          ghost var rest := Chosen(wanted[i + 1..], ran + {lower(query)}, maxQueries - |queries| - |run| - 1, lower);
          assert run + ([query] + rest) == (run + [query]) + rest;
          ran := ran + {lower(query)};
          run := run + [query];
        }
      }
    }

    /** One round: choose the new queries, search them, merge in order, cap. */
    method RunQueries(wanted: seq<string>, lower: string -> string, search: string -> seq<Passage>,
                      maxQueries: nat, minRelevance: real, maxPassages: nat)
      requires Distinct(passages)
      modifies this
      ensures var run := Chosen(wanted, Lowered(old(queries), lower), maxQueries - |old(queries)|, lower);
        && queries == old(queries) + run
        && passages == Capped(AddedAll(old(passages), Found(search, run), minRelevance), maxPassages)
        && seen == old(seen) + Citations(Found(search, run))
    {
      var run := Choose(wanted, lower, maxQueries);
      ghost var start := Round(old(passages), old(queries), old(seen), run, minRelevance);
      assert run[..0] == [];
      for i := 0 to |run|
        invariant Searched(start, search, i, passages, queries, seen)
      {
        SearchedNext(start, search, i, passages, queries, seen);
        queries := queries + [run[i]];
        Add(search(run[i]), minRelevance);
      }
      assert run[..|run|] == run;
      Cap(maxPassages);
    }
  }

  /** A round begins: what is held, and the queries to run. */
  datatype Round = Round(passages: seq<Passage>, queries: seq<string>, seen: set<string>, run: seq<string>,
                         minRelevance: real)

  /** The first `i` queries have been searched. */
  ghost predicate Searched(r: Round, search: string -> seq<Passage>, i: nat,
      passages: seq<Passage>, queries: seq<string>, seen: set<string>)
  {
    && i <= |r.run| && queries == r.queries + r.run[..i]
    && passages == AddedAll(r.passages, Found(search, r.run[..i]), r.minRelevance)
    && Distinct(passages)
    && seen == r.seen + Citations(Found(search, r.run[..i]))
  }

  lemma {:induction false} SearchedNext(r: Round, search: string -> seq<Passage>, i: nat,
      passages: seq<Passage>, queries: seq<string>, seen: set<string>)
    requires i < |r.run| && Searched(r, search, i, passages, queries, seen)
    ensures var found := search(r.run[i]);
      Searched(r, search, i + 1, AddedAll(passages, found, r.minRelevance), queries + [r.run[i]],
               seen + Citations(found))
  {
    NextFound(r.passages, search, r.run, i, r.minRelevance);
    AddedAllDistinct(passages, search(r.run[i]), r.minRelevance);
    assert r.run[..i + 1] == r.run[..i] + [r.run[i]];
    FoundSnoc(search, r.run, i);
    CitationsAppend(Found(search, r.run[..i]), search(r.run[i]));
  }

  lemma {:induction false} FoundSnoc(search: string -> seq<Passage>, run: seq<string>, i: nat)
    requires i < |run|
    ensures Found(search, run[..i + 1]) == Found(search, run[..i]) + search(run[i])
  {
    assert run[..i + 1][..i] == run[..i];
  }

  lemma {:induction false} CitationsAppend(a: seq<Passage>, b: seq<Passage>)
    ensures Citations(a + b) == Citations(a) + Citations(b)
  {
    assert forall p :: p in a + b <==> p in a || p in b;
  }

  lemma {:induction false} NextFound(ps: seq<Passage>, search: string -> seq<Passage>, run: seq<string>, i: nat,
      minRelevance: real)
    requires i < |run|
    ensures AddedAll(ps, Found(search, run[..i + 1]), minRelevance)
            == AddedAll(AddedAll(ps, Found(search, run[..i]), minRelevance), search(run[i]), minRelevance)
  {
    assert run[..i + 1][..i] == run[..i];
    AddedAllSplit(ps, Found(search, run[..i]), search(run[i]), minRelevance);
  }

  lemma {:induction false} AddedAllDistinct(ps: seq<Passage>, found: seq<Passage>, minRelevance: real)
    requires Distinct(ps)
    ensures Distinct(AddedAll(ps, found, minRelevance))
  {
    if found != [] { AddedAllDistinct(ps, found[..|found| - 1], minRelevance); }
  }

  lemma {:induction false} LoweredCons(q: string, rest: seq<string>, lower: string -> string)
    ensures Lowered([q] + rest, lower) == {lower(q)} + Lowered(rest, lower)
  {
    var all := [q] + rest;
    assert all[0] == q;
    forall x | x in rest ensures x in all {
      var k :| 0 <= k < |rest| && rest[k] == x;
      assert all[k + 1] == x;
    }
  }

  lemma {:induction false} ChosenFits(queries: seq<string>, ran: set<string>, room: int, lower: string -> string)
    ensures var run := Chosen(queries, ran, room, lower);
      |run| <= (if room > 0 then room else 0) && "" !in run
    decreases |queries|
  {
    if queries != [] {
      var q, rest := queries[0], queries[1..];
      if q != "" && lower(q) !in ran && room > 0 {
        ChosenFits(rest, ran + {lower(q)}, room - 1, lower);
      } else {
        ChosenFits(rest, ran, room, lower);
      }
    }
  }

  lemma {:induction false} ChosenIsNew(queries: seq<string>, ran: set<string>, room: int, lower: string -> string)
    ensures var run := Chosen(queries, ran, room, lower);
      Lowered(run, lower) !! ran && |Lowered(run, lower)| == |run|
    decreases |queries|
  {
    if queries != [] {
      var q, rest := queries[0], queries[1..];
      if q != "" && lower(q) !in ran && room > 0 {
        ChosenIsNew(rest, ran + {lower(q)}, room - 1, lower);
        LoweredCons(q, Chosen(rest, ran + {lower(q)}, room - 1, lower), lower);
      } else {
        ChosenIsNew(rest, ran, room, lower);
      }
    }
  }

  /** The budget is never exceeded and no query is repeated in another case. */
  lemma {:induction false} ChosenWithinBudget(queries: seq<string>, ran: set<string>, room: int,
      lower: string -> string)
    ensures var run := Chosen(queries, ran, room, lower);
      && |run| <= (if room > 0 then room else 0)
      && Lowered(run, lower) !! ran && |Lowered(run, lower)| == |run| && "" !in run
  {
    ChosenFits(queries, ran, room, lower);
    ChosenIsNew(queries, ran, room, lower);
  }

  /** A wanted query is passed over only if it is blank, was run, or the budget is used up. */
  lemma {:induction false} ChosenMissesNothing(queries: seq<string>, ran: set<string>, room: int,
      lower: string -> string, q: string)
    requires q in queries
    ensures var run := Chosen(queries, ran, room, lower);
      q == "" || lower(q) in ran || lower(q) in Lowered(run, lower) || |run| >= room
    decreases |queries|
  {
    var head, rest := queries[0], queries[1..];
    if head != "" && lower(head) !in ran && room > 0 {
      LoweredCons(head, Chosen(rest, ran + {lower(head)}, room - 1, lower), lower);
      if q in rest { ChosenMissesNothing(rest, ran + {lower(head)}, room - 1, lower, q); }
    } else if q in rest {
      ChosenMissesNothing(rest, ran, room, lower, q);
    }
  }

  /** The queries at `at` are those run, in order, each the first spelling of its text. */
  ghost predicate PickedAt(queries: seq<string>, run: seq<string>, at: seq<nat>, lower: string -> string) {
    && |at| == |run|
    && (forall k :: 0 <= k < |at| ==> at[k] < |queries| && queries[at[k]] == run[k])
    && (forall j, k :: 0 <= j < k < |at| ==> at[j] < at[k])
    && (forall k, j :: 0 <= k < |at| && 0 <= j < at[k] && queries[j] != "" ==> lower(queries[j]) != lower(run[k]))
  }

  lemma {:induction false} PickedLater(queries: seq<string>, run: seq<string>, at: seq<nat>, lower: string -> string)
    returns (later: seq<nat>)
    requires queries != [] && PickedAt(queries[1..], run, at, lower)
    requires queries[0] == "" || lower(queries[0]) !in Lowered(run, lower)
    ensures PickedAt(queries, run, later, lower) && forall k :: 0 <= k < |later| ==> later[k] > 0
  {
    later := seq(|at|, k requires 0 <= k < |at| => at[k] + 1);
    forall k, j | 0 <= k < |later| && 0 <= j < later[k] && queries[j] != ""
      ensures lower(queries[j]) != lower(run[k])
    {
      if j == 0 { assert run[k] in run; } else { assert queries[1..][j - 1] == queries[j]; }
    }
  }

  lemma {:induction false} PickedFirst(queries: seq<string>, run: seq<string>, at: seq<nat>, lower: string -> string)
    requires queries != [] && PickedAt(queries, run, at, lower) && forall k :: 0 <= k < |at| ==> at[k] > 0
    ensures PickedAt(queries, [queries[0]] + run, [0] + at, lower)
  {
  }

  lemma {:induction false} NothingLowered(run: seq<string>, lower: string -> string)
    requires run == []
    ensures Lowered(run, lower) == {}
  {
  }

  /** The queries run are among those wanted, in their order, and of two spellings the first. */
  lemma {:induction false} ChosenInOrder(queries: seq<string>, ran: set<string>, room: int, lower: string -> string)
    returns (at: seq<nat>)
    ensures PickedAt(queries, Chosen(queries, ran, room, lower), at, lower)
    decreases |queries|
  {
    at := [];
    if queries != [] {
      var q, rest := queries[0], queries[1..];
      var taken := q != "" && lower(q) !in ran && room > 0;
      var nextRan, nextRoom := if taken then ran + {lower(q)} else ran, if taken then room - 1 else room;
      var run := Chosen(rest, nextRan, nextRoom, lower);
      at := ChosenInOrder(rest, nextRan, nextRoom, lower);
      HeadIsNew(q, rest, ran, room, nextRan, nextRoom, lower);
      at := PickedLater(queries, run, at, lower);
      if taken {
        PickedFirst(queries, run, at, lower);
        at := [0] + at;
      }
    }
  }

  lemma {:induction false} HeadIsNew(q: string, rest: seq<string>, ran: set<string>, room: int, nextRan: set<string>,
      nextRoom: int, lower: string -> string)
    requires if q != "" && lower(q) !in ran && room > 0 then nextRan == ran + {lower(q)}
             else nextRan == ran && nextRoom == room
    ensures q == "" || lower(q) !in Lowered(Chosen(rest, nextRan, nextRoom, lower), lower)
  {
    ChosenIsNew(rest, nextRan, nextRoom, lower);
    ChosenFits(rest, nextRan, nextRoom, lower);
    if room <= 0 && nextRoom == room { NothingLowered(Chosen(rest, nextRan, nextRoom, lower), lower); }
  }
}
