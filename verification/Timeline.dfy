/** The cached run timeline: loading it page by page, merging live items into it, and
    what holds of it while any number of subscriptions come and go. */
module Timeline {
  import opened Options
  import opened RunLog
  import opened Sorting
  import opened StreamClient
  import opened StreamProtocol

  // --- Merging ----------------------------------------------------------------

  predicate BySequence(a: Event, b: Event) { a.sequence < b.sequence }

  /** The incoming events whose number is new, each number once. */
  function Unlisted(seen: set<nat>, incoming: seq<Event>): seq<Event>
    decreases |incoming|
  {
    if incoming == [] then []
    else if incoming[0].sequence in seen then Unlisted(seen, incoming[1..])
    else [incoming[0]] + Unlisted(seen + {incoming[0].sequence}, incoming[1..])
  }

  function Listed(existing: Option<seq<Event>>): seq<Event> {
    if existing.Some? then existing.value else []
  }

  ghost function Merged(existing: Option<seq<Event>>, incoming: seq<Event>): seq<Event> {
    var list := Listed(existing);
    var added := Unlisted(Numbers(list), incoming);
    if added == [] then list else SortBy(list + added, BySequence)
  }

  method MergeEvents(existing: Option<seq<Event>>, incoming: seq<Event>) returns (r: seq<Event>)
    ensures r == Merged(existing, incoming)
  {
    var base := Listed(existing);
    var list := base;
    var seen := set e | e in list :: e.sequence;
    assert seen == Numbers(base);
    ghost var added, all := [], Unlisted(seen, incoming);
    var changed := false;
    var i := 0;
    assert incoming[0..] == incoming;
    while i < |incoming|
      invariant 0 <= i <= |incoming|
      invariant list == base + added && changed == (added != [])
      invariant added + Unlisted(seen, incoming[i..]) == all
    {
      var event := incoming[i];
      UnlistedStep(seen, incoming, i, added);
      if event.sequence !in seen {
        seen := seen + {event.sequence};
        list, added := list + [event], added + [event];
        changed := true;
      }
      i := i + 1;
    }
    assert incoming[i..] == [] && added == all;
    if !changed { return base; }
    return SortBy(list, BySequence);
  }

  lemma {:induction false} UnlistedStep(seen: set<nat>, incoming: seq<Event>, i: nat, added: seq<Event>)
    requires i < |incoming|
    ensures added + Unlisted(seen, incoming[i..]) ==
      if incoming[i].sequence in seen then added + Unlisted(seen, incoming[i + 1..])
      else (added + [incoming[i]]) + Unlisted(seen + {incoming[i].sequence}, incoming[i + 1..])
  {
    assert incoming[i..][0] == incoming[i] && incoming[i..][1..] == incoming[i + 1..];
  }

  ghost predicate StrictlySorted(s: seq<Event>) {
    forall i, j :: 0 <= i < j < |s| ==> s[i].sequence < s[j].sequence
  }

  ghost predicate Distinct(s: seq<Event>) {
    forall i, j :: 0 <= i < j < |s| ==> s[i].sequence != s[j].sequence
  }

  lemma {:induction false} UnlistedNumbers(seen: set<nat>, incoming: seq<Event>)
    ensures var f := Unlisted(seen, incoming);
      Numbers(f) !! seen && seen + Numbers(f) == seen + Numbers(incoming)
    decreases |incoming|
  {
    if incoming != [] {
      var e, rest := incoming[0], incoming[1..];
      assert incoming == [e] + rest;
      NumbersCons(e, rest);
      if e.sequence in seen {
        UnlistedNumbers(seen, rest);
      } else {
        UnlistedNumbers(seen + {e.sequence}, rest);
        NumbersCons(e, Unlisted(seen + {e.sequence}, rest));
      }
    }
  }

  lemma {:induction false} DistinctCons(e: Event, s: seq<Event>)
    requires Distinct(s) && e.sequence !in Numbers(s)
    ensures Distinct([e] + s)
  {
    assert forall k :: 0 <= k < |s| ==> s[k].sequence in Numbers(s);
  }

  lemma {:induction false} UnlistedIsNew(seen: set<nat>, incoming: seq<Event>)
    ensures var f := Unlisted(seen, incoming);
      Distinct(f) && Numbers(f) !! seen && seen + Numbers(f) == seen + Numbers(incoming)
    decreases |incoming|
  {
    UnlistedNumbers(seen, incoming);
    if incoming != [] {
      var e, rest := incoming[0], incoming[1..];
      if e.sequence in seen {
        UnlistedIsNew(seen, rest);
      } else {
        UnlistedIsNew(seen + {e.sequence}, rest);
        DistinctCons(e, Unlisted(seen + {e.sequence}, rest));
      }
    }
  }

  lemma {:induction false} UnlistedIsIncoming(seen: set<nat>, incoming: seq<Event>, e: Event)
    ensures e in Unlisted(seen, incoming) ==> e in incoming
    decreases |incoming|
  {
    if incoming != [] {
      var head := incoming[0];
      UnlistedIsIncoming(seen, incoming[1..], e);
      UnlistedIsIncoming(seen + {head.sequence}, incoming[1..], e);
    }
  }

  lemma {:induction false} NumbersCons(e: Event, s: seq<Event>)
    ensures Numbers([e] + s) == {e.sequence} + Numbers(s)
  {
    var t := [e] + s;
    assert t[0] == e;
    forall k | 0 <= k < |s| ensures s[k].sequence in Numbers(t) { assert t[k + 1] == s[k]; }
  }

  lemma {:induction false} NumbersAppend(a: seq<Event>, b: seq<Event>)
    ensures Numbers(a + b) == Numbers(a) + Numbers(b)
  {
    var t := a + b;
    forall k | 0 <= k < |a| ensures a[k].sequence in Numbers(t) { assert t[k] == a[k]; }
    forall k | 0 <= k < |b| ensures b[k].sequence in Numbers(t) { assert t[|a| + k] == b[k]; }
  }

  lemma {:induction false} SequenceOrder()
    ensures StrictWeak(BySequence)
  {
  }

  lemma {:induction false} SortKeepsNumbers(s: seq<Event>)
    ensures Numbers(SortBy(s, BySequence)) == Numbers(s)
  {
    var r := SortBy(s, BySequence);
    forall m | m in Numbers(s) ensures m in Numbers(r) {
      var k :| 0 <= k < |s| && s[k].sequence == m;
      SortByMembers(s, BySequence, s[k]);
    }
    forall m | m in Numbers(r) ensures m in Numbers(s) {
      var k :| 0 <= k < |r| && r[k].sequence == m;
      SortByMembers(s, BySequence, r[k]);
    }
  }

  lemma {:induction false} DistinctCount(s: seq<Event>)
    ensures Distinct(s) <==> |Numbers(s)| == |s|
    ensures |Numbers(s)| <= |s|
  {
    if s != [] {
      var front, last := s[..|s| - 1], s[|s| - 1];
      DistinctCount(front);
      assert s == front + [last];
      NumbersExtend(front, last);
      if last.sequence in Numbers(front) {
        assert Numbers(s) == Numbers(front);
      }
    }
  }

  lemma {:induction false} SortOfDistinct(s: seq<Event>)
    requires Distinct(s)
    ensures StrictlySorted(SortBy(s, BySequence))
  {
    var r := SortBy(s, BySequence);
    SortKeepsNumbers(s);
    DistinctCount(s);
    DistinctCount(r);
    SequenceOrder();
    SortBySorted(s, BySequence);
  }

  lemma {:induction false} DistinctAppend(a: seq<Event>, b: seq<Event>)
    requires Distinct(a) && Distinct(b) && Numbers(a) !! Numbers(b)
    ensures Distinct(a + b)
  {
    assert forall k :: 0 <= k < |a| ==> a[k].sequence in Numbers(a);
    assert forall k :: 0 <= k < |b| ==> b[k].sequence in Numbers(b);
  }

  /** For a strictly sorted timeline the merge is again strictly sorted, holds exactly the union
      of the numbers, keeps every listed event, and adds only incoming ones. */
  lemma {:induction false} MergedIsSortedUnion(existing: Option<seq<Event>>, incoming: seq<Event>)
    requires StrictlySorted(Listed(existing))
    ensures var r := Merged(existing, incoming);
      && StrictlySorted(r)
      && Numbers(r) == Numbers(Listed(existing)) + Numbers(incoming)
    ensures forall e :: e in Listed(existing) ==> e in Merged(existing, incoming)
    ensures forall e :: e in Merged(existing, incoming) ==> e in Listed(existing) || e in incoming
  {
    var list := Listed(existing);
    var added := Unlisted(Numbers(list), incoming);
    UnlistedIsNew(Numbers(list), incoming);
    if added == [] {
      assert Numbers(added) == {};
    } else {
      NumbersAppend(list, added);
      DistinctAppend(list, added);
      SortOfDistinct(list + added);
      SortKeepsNumbers(list + added);
      forall e ensures e in SortBy(list + added, BySequence) <==> e in list || e in added {
        SortByMembers(list + added, BySequence, e);
      }
      forall e | e in added ensures e in incoming { UnlistedIsIncoming(Numbers(list), incoming, e); }
    }
  }

  lemma {:induction false} MergedWith(list: seq<Event>, incoming: seq<Event>, added: seq<Event>)
    requires Unlisted(Numbers(list), incoming) == added
    ensures Merged(Some(list), incoming) == if added == [] then list else SortBy(list + added, BySequence)
  {
  }

  lemma {:induction false} PrefixIsSorted(log: seq<Event>, n: nat)
    requires WellNumbered(log) && n <= |log|
    ensures SortBy(log[..n], BySequence) == log[..n]
  {
    SortedIsFixed(log[..n], BySequence);
  }

  /** Merging the next stretch of the log into a log prefix gives the longer prefix. */
  lemma {:induction false} MergedExtendsPrefix(log: seq<Event>, n: nat, lo: nat, hi: nat)
    requires WellNumbered(log) && n <= |log| && lo <= n && lo <= hi <= |log|
    ensures Merged(Some(log[..n]), log[lo..hi]) == log[..if hi <= n then n else hi]
  {
    UnlistedOfSlice(log, n, lo, hi);
    MergedWith(log[..n], log[lo..hi], log[Min(n, hi)..hi]);
    if n < hi {
      assert log[..n] + log[n..hi] == log[..hi];
      PrefixIsSorted(log, hi);
    }
  }

  lemma {:induction false} NumbersOfSlice(log: seq<Event>, lo: nat, hi: nat)
    requires WellNumbered(log) && lo <= hi <= |log|
    ensures forall m :: m in Numbers(log[lo..hi]) <==> lo < m <= hi
  {
    forall m | lo < m <= hi ensures m in Numbers(log[lo..hi]) {
      assert log[lo..hi][m - 1 - lo].sequence == m;
    }
  }

  lemma {:induction false} UnlistedOfSlice(log: seq<Event>, n: nat, lo: nat, hi: nat)
    requires WellNumbered(log) && lo <= n <= |log| && lo <= hi <= |log|
    ensures Unlisted(Numbers(log[..n]), log[lo..hi]) == log[Min(n, hi)..hi]
    decreases hi - lo
  {
    var slice := log[lo..hi];
    assert log[0..n] == log[..n];
    NumbersOfSlice(log, 0, n);
    if lo == n {
      UnlistedPast(log, Numbers(log[..n]), lo, hi);
    } else if slice != [] {
      assert slice[0].sequence == lo + 1 && slice[1..] == log[lo + 1..hi];
      UnlistedOfSlice(log, n, lo + 1, hi);
    }
  }

  lemma {:induction false} UnlistedPast(log: seq<Event>, seen: set<nat>, lo: nat, hi: nat)
    requires WellNumbered(log) && lo <= hi <= |log| && forall m :: m in seen ==> m <= lo
    ensures Unlisted(seen, log[lo..hi]) == log[lo..hi]
    decreases hi - lo
  {
    var slice := log[lo..hi];
    if slice != [] {
      assert slice[0].sequence == lo + 1 && slice[1..] == log[lo + 1..hi];
      UnlistedPast(log, seen + {lo + 1}, lo + 1, hi);
      assert [log[lo]] + log[lo + 1..hi] == slice;
    }
  }

  /** A sorted list that holds a number but not a smaller one is no log prefix. */
  lemma {:induction false} MissingIsNoPrefix(log: seq<Event>, r: seq<Event>, missing: nat, held: nat)
    requires WellNumbered(log) && 0 < missing < held && missing !in Numbers(r) && held in Numbers(r)
    ensures !(r <= log)
  {
    assert missing - 1 < |r| ==> r[missing - 1].sequence in Numbers(r);
  }

  /** One live item keeps a log prefix a log prefix exactly when it does not skip past its end. */
  lemma {:induction false} MergeKeepsPrefixExactly(log: seq<Event>, n: nat, m: nat)
    requires WellNumbered(log) && n <= |log| && m < |log|
    ensures Merged(Some(log[..n]), [log[m]]) <= log <==> m <= n
  {
    assert log[m..m + 1] == [log[m]];
    if m <= n {
      MergedExtendsPrefix(log, n, m, m + 1);
    } else {
      MergedIsSortedUnion(Some(log[..n]), [log[m]]);
      NumbersOfSlice(log, 0, n);
      NumbersOfSlice(log, m, m + 1);
      assert log[0..n] == log[..n];
      MissingIsNoPrefix(log, Merged(Some(log[..n]), [log[m]]), n + 1, m + 1);
    }
  }

  // --- Loading ------------------------------------------------------------------

  const PAGES: nat := 20
  const PAGE_SIZE: nat := 500

  /** The page behind a prefix of the log makes a longer prefix, and a short page makes all of it. */
  lemma {:induction false} PageExtends(log: seq<Event>, out: seq<Event>, after: nat)
    requires WellNumbered(log) && out <= log && |out| == after
    ensures var batch := History(log, after, PAGE_SIZE);
      && |batch| <= PAGE_SIZE && out + batch <= log && (|batch| < PAGE_SIZE ==> out + batch == log)
      && (|batch| > 0 ==> batch[|batch| - 1].sequence == after + |batch|)
  {
    HistoryIsSlice(log, after, PAGE_SIZE);
    var end := Min(after + PAGE_SIZE, |log|);
    assert out + log[after..end] == log[..end];
  }

  /** `logs[p]` is the server's log when page `p` is answered; it only grows. */
  method LoadHistory(logs: seq<seq<Event>>) returns (out: seq<Event>, ghost last: nat)
    requires |logs| == PAGES
    requires forall p :: 0 <= p < PAGES ==> WellNumbered(logs[p])
    requires forall p, q :: 0 <= p <= q < PAGES ==> logs[p] <= logs[q]
    ensures last < PAGES && out <= logs[last]
    ensures |out| < 10_000 ==> out == logs[last]
    ensures last * 500 <= |out| <= (last + 1) * 500 <= 10_000
  {
    out := [];
    var after := 0;
    last := 0;
    var page := 0;
    while page < PAGES
      invariant 0 <= page <= PAGES && last < PAGES
      invariant page > 0 ==> last == page - 1 && out <= logs[last]
      invariant |out| == after == page * PAGE_SIZE
      invariant page == 0 ==> out == []
    {
      var batch := History(logs[page], after, PAGE_SIZE);
      PageExtends(logs[page], out, after);
      last := page;
      out := out + batch;
      if |batch| < PAGE_SIZE { break; }
      after := if |batch| > 0 then batch[|batch| - 1].sequence else after;
      page := page + 1;
    }
  }

  // --- Any number of subscriptions over one cache ---------------------------------

  /** `cache` is missing until the first history load lands. */
  datatype World = World(srv: Server, subs: seq<Sub>, cache: Option<seq<Event>>)

  /** `HistoryLands(n)` is a finished (re)load whose answer was the first `n` events; it replaces
      the cached list. `Join` opens a subscription at the cached cursor. */
  datatype WorldStep =
    | ServerMoves(server: ServerStep)
    | SubMoves(i: nat, sub: SubStep)
    | Join
    | HistoryLands(n: nat)

  /** Every item is merged on its own, in the order it is handed over. */
  ghost function MergedEach(cache: Option<seq<Event>>, items: seq<Event>): Option<seq<Event>>
    decreases |items|
  {
    if items == [] then cache else MergedEach(Some(Merged(cache, [items[0]])), items[1..])
  }

  ghost function StepWorld(cfg: Config, w: World, step: WorldStep): World {
    match step
    case ServerMoves(s) => w.(srv := StepServer(w.srv, s))
    case SubMoves(i, s) =>
      if i >= |w.subs| then w
      else
        var before := w.subs[i];
        var now := StepSub(cfg, w.srv, before, s);
        var n := |before.client.delivered|;
        var items := if n <= |now.client.delivered| then now.client.delivered[n..] else [];
        w.(subs := w.subs[i := now], cache := MergedEach(w.cache, items))
    case Join =>
      if w.cache.None? then w
      else w.(subs := w.subs + [Subscribe(LastSequence(w.cache.value))])
    case HistoryLands(n) =>
      if n > |w.srv.log| then w else w.(cache := Some(w.srv.log[..n]))
  }

  /** The subscription can still hand over items. */
  ghost predicate Active(sub: Sub) { !sub.client.closed || sub.client.loop.Awaiting? }

  ghost predicate CacheIsPrefix(w: World) { w.cache.Some? ==> w.cache.value <= w.srv.log }

  /** Every subscription keeps its invariant and the timeline is a log prefix. */
  ghost predicate WorldOk(cfg: Config, w: World) {
    && WellNumbered(w.srv.log)
    && (forall i :: 0 <= i < |w.subs| ==> SubOk(cfg, w.srv.log, w.subs[i]))
    && (w.cache.None? ==> w.subs == [])
    && CacheIsPrefix(w)
  }

  /** The step makes subscription `i` hand over items. */
  ghost predicate HandsOver(cfg: Config, w: World, i: nat, step: SubStep) {
    i < |w.subs| && StepSub(cfg, w.srv, w.subs[i], step).client.cursor > w.subs[i].client.cursor
  }

  /** A subscription that hands over items stands within the timeline when it does. */
  ghost predicate HandOverFits(cfg: Config, w: World, step: WorldStep) {
    step.SubMoves? && HandsOver(cfg, w, step.i, step.sub) ==>
      w.cache.Some? && w.subs[step.i].client.cursor <= |w.cache.value|
  }

  /** One step hands over the next stretch of the log; a subscription that is done hands over
      nothing. */
  lemma {:induction false} StepDeliversNext(cfg: Config, srv: Server, sub: Sub, step: SubStep)
    requires WellNumbered(srv.log) && SubOk(cfg, srv.log, sub) && !Gappy(cfg, srv.log, 0)
    ensures var now := StepSub(cfg, srv, sub, step);
      && sub.client.cursor <= now.client.cursor <= |srv.log|
      && sub.client.delivered <= now.client.delivered
      && now.client.delivered[|sub.client.delivered|..] == srv.log[sub.client.cursor..now.client.cursor]
      && (Active(now) ==> Active(sub))
      && (!Active(sub) ==> now.client.cursor == sub.client.cursor)
  {
    var now := StepSub(cfg, srv, sub, step);
    StepOk(cfg, srv, sub, step);
    OkIsContiguous(cfg, srv.log, sub);
    OkIsContiguous(cfg, srv.log, now);
    StepMonotone(cfg, srv, sub, step);
    SlicesGrow(srv.log, sub.start, sub.client.cursor, now.client.cursor);
  }

  lemma {:induction false} SlicesGrow(log: seq<Event>, a: nat, b: nat, c: nat)
    requires a <= b <= c <= |log|
    ensures log[a..b] <= log[a..c] && log[a..c][|log[a..b]|..] == log[b..c]
  {
  }

  lemma {:induction false} StepMonotone(cfg: Config, srv: Server, sub: Sub, step: SubStep)
    requires WellNumbered(srv.log) && SubOk(cfg, srv.log, sub)
    ensures var now := StepSub(cfg, srv, sub, step);
      && now.start == sub.start && sub.client.cursor <= now.client.cursor
      && (Active(now) ==> Active(sub))
      && (!Active(sub) ==> now.client.cursor == sub.client.cursor)
  {
    if step.PollArrives? && sub.answer.Some? {
      DeliverAllFrame(cfg, sub.client.(loop := Idle), sub.answer.value.items);
    }
  }

  lemma {:induction false} MergedEachExtends(log: seq<Event>, n: nat, lo: nat, hi: nat)
    requires WellNumbered(log) && n <= |log| && lo <= n && lo <= hi <= |log|
    ensures MergedEach(Some(log[..n]), log[lo..hi]) == Some(log[..if hi <= n then n else hi])
    decreases hi - lo
  {
    var items := log[lo..hi];
    if items != [] {
      assert log[lo..lo + 1] == [items[0]];
      MergedExtendsPrefix(log, n, lo, lo + 1);
      assert items[1..] == log[lo + 1..hi];
      MergedEachExtends(log, if lo + 1 <= n then n else lo + 1, lo + 1, hi);
    }
  }

  lemma {:induction false} MergedEachNumbers(cache: seq<Event>, items: seq<Event>)
    requires StrictlySorted(cache)
    ensures var r := MergedEach(Some(cache), items);
      r.Some? && StrictlySorted(r.value) && Numbers(r.value) == Numbers(cache) + Numbers(items)
    decreases |items|
  {
    if items == [] {
      assert Numbers(items) == {};
    } else {
      assert items == [items[0]] + items[1..];
      NumbersAppend([items[0]], items[1..]);
      MergedIsSortedUnion(Some(cache), [items[0]]);
      MergedEachNumbers(Merged(Some(cache), [items[0]]), items[1..]);
    }
  }

  /** Merging a stretch of the log into a prefix of it, item by item. */
  lemma {:induction false} StretchMergesExactly(log: seq<Event>, n: nat, lo: nat, hi: nat)
    requires WellNumbered(log) && n <= |log| && lo < hi <= |log|
    ensures var r := MergedEach(Some(log[..n]), log[lo..hi]); r.Some? && (r.value <= log <==> lo <= n)
  {
    if lo <= n {
      MergedEachExtends(log, n, lo, hi);
    } else {
      MergedEachNumbers(log[..n], log[lo..hi]);
      NumbersOfSlice(log, 0, n);
      NumbersOfSlice(log, lo, hi);
      assert log[0..n] == log[..n];
      MissingIsNoPrefix(log, MergedEach(Some(log[..n]), log[lo..hi]).value, n + 1, lo + 1);
    }
  }

  /** A reload of `n` events that lands just before a subscription hands over items keeps the
      timeline a log prefix if and only if it reaches that subscription's cursor. */
  lemma {:induction false} ReloadMustCoverExactly(cfg: Config, w: World, n: nat, i: nat, step: SubStep)
    requires WorldOk(cfg, w) && !Gappy(cfg, w.srv.log, 0) && n <= |w.srv.log| && i < |w.subs|
    requires StepSub(cfg, w.srv, w.subs[i], step).client.cursor > w.subs[i].client.cursor
    ensures var r := StepWorld(cfg, StepWorld(cfg, w, HistoryLands(n)), SubMoves(i, step)).cache;
      r.Some? && (r.value <= w.srv.log <==> w.subs[i].client.cursor <= n)
  {
    var sub := w.subs[i];
    StepDeliversNext(cfg, w.srv, sub, step);
    StretchMergesExactly(w.srv.log, n, sub.client.cursor, StepSub(cfg, w.srv, sub, step).client.cursor);
  }

  lemma {:induction false} SubMovesExactly(cfg: Config, w: World, i: nat, step: SubStep)
    requires WorldOk(cfg, w) && !Gappy(cfg, w.srv.log, 0) && i < |w.subs|
    ensures var w' := StepWorld(cfg, w, SubMoves(i, step));
      && (CacheIsPrefix(w') <==> HandOverFits(cfg, w, SubMoves(i, step)))
      && (CacheIsPrefix(w') ==> WorldOk(cfg, w'))
  {
    var sub, n := w.subs[i], |w.cache.value|;
    var now := StepSub(cfg, w.srv, sub, step);
    assert w.cache.value == w.srv.log[..n];
    StepOk(cfg, w.srv, sub, step);
    StepDeliversNext(cfg, w.srv, sub, step);
    if HandsOver(cfg, w, i, step) {
      StretchMergesExactly(w.srv.log, n, sub.client.cursor, now.client.cursor);
    }
  }

  lemma {:induction false} JoinOk(cfg: Config, w: World)
    requires WorldOk(cfg, w)
    ensures WorldOk(cfg, StepWorld(cfg, w, Join))
  {
    if w.cache.Some? { SubscribeOk(cfg, w.srv.log, |w.cache.value|); }
  }

  /** A subscription that joins starts where the timeline ends: behind its last event, with nothing
      handed over and one source open. */
  lemma {:induction false} JoinStartsAtTheEnd(cfg: Config, w: World)
    requires WorldOk(cfg, w) && w.cache.Some?
    ensures var w', n := StepWorld(cfg, w, Join), |w.cache.value|;
      && |w'.subs| == |w.subs| + 1 && w'.subs[..|w.subs|] == w.subs
      && w'.srv == w.srv && w'.cache == w.cache
      && (var sub := w'.subs[|w.subs|];
          && sub.start == n && sub.client.cursor == n && sub.client.delivered == []
          && sub.es == Some(Source(n, None, None)))
  {
    assert w.cache.value == w.srv.log[..|w.cache.value|];
  }

  lemma {:induction false} ServerMovesOk(cfg: Config, w: World, s: ServerStep)
    requires WorldOk(cfg, w)
    ensures WorldOk(cfg, StepWorld(cfg, w, ServerMoves(s)))
    ensures w.srv.log <= StepServer(w.srv, s).log
  {
    var log := StepServer(w.srv, s).log;
    assert WellNumbered(log) && w.srv.log <= log;
    forall i | 0 <= i < |w.subs| ensures SubOk(cfg, log, w.subs[i]) {
      GrowthKeepsOk(cfg, w.srv.log, log, w.subs[i]);
    }
  }

  /** A step keeps the timeline a log prefix exactly when what it hands over fits. */
  lemma {:induction false} WorldStepExactly(cfg: Config, w: World, step: WorldStep)
    requires WorldOk(cfg, w) && !Gappy(cfg, w.srv.log, 0)
    ensures CacheIsPrefix(StepWorld(cfg, w, step)) <==> HandOverFits(cfg, w, step)
    ensures CacheIsPrefix(StepWorld(cfg, w, step)) ==> WorldOk(cfg, StepWorld(cfg, w, step))
  {
    match step
    case ServerMoves(s) => ServerMovesOk(cfg, w, s);
    case SubMoves(i, s) => if i < |w.subs| { SubMovesExactly(cfg, w, i, s); }
    case Join => JoinOk(cfg, w);
    case HistoryLands(n) =>
  }

  ghost function WorldAfter(cfg: Config, w: World, steps: seq<WorldStep>): World {
    if steps == [] then w
    else StepWorld(cfg, WorldAfter(cfg, w, steps[..|steps| - 1]), steps[|steps| - 1])
  }

  /** Every hand-over of the run fits when it happens. */
  ghost predicate HandOversFit(cfg: Config, w: World, steps: seq<WorldStep>) {
    forall k :: 0 <= k < |steps| ==> HandOverFits(cfg, WorldAfter(cfg, w, steps[..k]), steps[k])
  }

  /** The timeline is a log prefix before the run and after each of its steps. */
  ghost predicate AlwaysPrefix(cfg: Config, w: World, steps: seq<WorldStep>) {
    forall k :: 0 <= k <= |steps| ==> CacheIsPrefix(WorldAfter(cfg, w, steps[..k]))
  }

  lemma {:induction false} LogGrows(w: World, step: WorldStep, cfg: Config)
    ensures w.srv.log <= StepWorld(cfg, w, step).srv.log
  {
  }

  lemma {:induction false} HandOversFitSnoc(cfg: Config, w: World, front: seq<WorldStep>, last: WorldStep)
    ensures HandOversFit(cfg, w, front + [last]) <==>
      HandOversFit(cfg, w, front) && HandOverFits(cfg, WorldAfter(cfg, w, front), last)
  {
    var steps := front + [last];
    assert forall k :: 0 <= k <= |front| ==> steps[..k] == front[..k];
    assert front[..|front|] == front && steps[|front|] == last;
    assert forall k :: 0 <= k < |front| ==> steps[k] == front[k];
  }

  lemma {:induction false} AlwaysPrefixSnoc(cfg: Config, w: World, front: seq<WorldStep>, last: WorldStep)
    ensures AlwaysPrefix(cfg, w, front + [last]) <==>
      AlwaysPrefix(cfg, w, front) && CacheIsPrefix(WorldAfter(cfg, w, front + [last]))
  {
    var steps := front + [last];
    assert forall k :: 0 <= k <= |front| ==> steps[..k] == front[..k];
    assert steps[..|steps|] == steps;
  }

  /** Unless the log hides an unheard event before a heard one, a run keeps the timeline a log prefix
      throughout if and only if every hand-over starts within the timeline as it then is. */
  lemma {:induction false} WorldRunOk(cfg: Config, w: World, steps: seq<WorldStep>)
    requires WorldOk(cfg, w) && !Gappy(cfg, WorldAfter(cfg, w, steps).srv.log, 0)
    ensures AlwaysPrefix(cfg, w, steps) <==> HandOversFit(cfg, w, steps)
    ensures HandOversFit(cfg, w, steps) ==> WorldOk(cfg, WorldAfter(cfg, w, steps))
  {
    if steps == [] {
      assert steps[..0] == [];
    } else {
      var front, last := steps[..|steps| - 1], steps[|steps| - 1];
      assert steps == front + [last];
      var before := WorldAfter(cfg, w, front);
      LogGrows(before, last, cfg);
      WorldRunOk(cfg, w, front);
      HandOversFitSnoc(cfg, w, front, last);
      AlwaysPrefixSnoc(cfg, w, front, last);
      if HandOversFit(cfg, w, front) { WorldStepExactly(cfg, before, last); }
    }
  }

  /** The same from nothing; such a timeline is strictly sorted, gap-free and duplicate-free. */
  lemma {:induction false} TimelineIsLogPrefix(cfg: Config, srv: Server, steps: seq<WorldStep>)
    requires WellNumbered(srv.log)
    requires !Gappy(cfg, WorldAfter(cfg, World(srv, [], None), steps).srv.log, 0)
    ensures var start := World(srv, [], None);
            var w := WorldAfter(cfg, start, steps);
      && (AlwaysPrefix(cfg, start, steps) <==> HandOversFit(cfg, start, steps))
      && (HandOversFit(cfg, start, steps) && w.cache.Some? ==>
            && w.cache.value <= w.srv.log && StrictlySorted(w.cache.value)
            && forall k :: 0 <= k < |w.cache.value| ==> w.cache.value[k].sequence == k + 1)
  {
    WorldRunOk(cfg, World(srv, [], None), steps);
  }

  // --- Reloads that reach every cursor -------------------------------------------------

  /** No active subscription has run ahead of the timeline. */
  ghost predicate Reached(w: World) {
    w.cache.Some? ==>
      forall i :: 0 <= i < |w.subs| && Active(w.subs[i]) ==> w.subs[i].client.cursor <= |w.cache.value|
  }

  /** A reload that lands reaches at least as far as every active subscription. */
  ghost predicate ReloadCovers(w: World, step: WorldStep) {
    step.HistoryLands? ==>
      forall i :: 0 <= i < |w.subs| && Active(w.subs[i]) ==> w.subs[i].client.cursor <= step.n
  }

  /** Each reload of the run reaches every subscription active when it lands. */
  ghost predicate ReloadsCover(cfg: Config, w: World, steps: seq<WorldStep>) {
    forall k :: 0 <= k < |steps| ==> ReloadCovers(WorldAfter(cfg, w, steps[..k]), steps[k])
  }

  lemma {:induction false} ReachedMoves(cfg: Config, w: World, i: nat, step: SubStep)
    requires WorldOk(cfg, w) && !Gappy(cfg, w.srv.log, 0) && Reached(w) && i < |w.subs|
    ensures HandOverFits(cfg, w, SubMoves(i, step)) && Reached(StepWorld(cfg, w, SubMoves(i, step)))
  {
    var sub, n := w.subs[i], |w.cache.value|;
    assert w.cache.value == w.srv.log[..n];
    StepDeliversNext(cfg, w.srv, sub, step);
    if HandsOver(cfg, w, i, step) {
      MergedEachExtends(w.srv.log, n, sub.client.cursor, StepSub(cfg, w.srv, sub, step).client.cursor);
    }
  }

  lemma {:induction false} ReachedStep(cfg: Config, w: World, step: WorldStep)
    requires WorldOk(cfg, w) && !Gappy(cfg, w.srv.log, 0) && Reached(w) && ReloadCovers(w, step)
    ensures HandOverFits(cfg, w, step) && Reached(StepWorld(cfg, w, step))
  {
    if step.SubMoves? && step.i < |w.subs| { ReachedMoves(cfg, w, step.i, step.sub); }
  }

  /** If every reload reaches the cursors of the active subscriptions, every hand-over fits. */
  lemma {:induction false} CoveringReloadsFit(cfg: Config, w: World, steps: seq<WorldStep>)
    requires WorldOk(cfg, w) && Reached(w) && ReloadsCover(cfg, w, steps)
    requires !Gappy(cfg, WorldAfter(cfg, w, steps).srv.log, 0)
    ensures HandOversFit(cfg, w, steps) && Reached(WorldAfter(cfg, w, steps))
  {
    if steps != [] {
      var front, last := steps[..|steps| - 1], steps[|steps| - 1];
      assert steps == front + [last];
      var before := WorldAfter(cfg, w, front);
      assert forall k :: 0 <= k < |front| ==> front[..k] == steps[..k];
      LogGrows(before, last, cfg);
      CoveringReloadsFit(cfg, w, front);
      WorldRunOk(cfg, w, front);
      ReachedStep(cfg, before, last);
      HandOversFitSnoc(cfg, w, front, last);
    }
  }

  // --- Both conditions are exact -------------------------------------------------------

  lemma {:induction false} WorldAfterSnoc(cfg: Config, w: World, steps: seq<WorldStep>, step: WorldStep)
    ensures WorldAfter(cfg, w, steps + [step]) == StepWorld(cfg, WorldAfter(cfg, w, steps), step)
  {
    assert (steps + [step])[..|steps|] == steps;
  }

  /** One subscription streams at `n` over the cache. */
  ghost predicate Alone(cfg: Config, srv: Server, w: World, n: nat, cache: seq<Event>) {
    w.srv == srv && |w.subs| == 1 && Streaming(cfg, srv, w.subs[0], n) && w.cache == Some(cache)
  }

  /** The next message, if it is heard, is merged into the cache. */
  lemma {:induction false} ReceiveMerges(cfg: Config, srv: Server, w: World, n: nat, cache: seq<Event>)
    requires WellNumbered(srv.log) && n < |srv.log| && !cfg.isEnd(srv.log[n]) && Alone(cfg, srv, w, n, cache)
    ensures var r := MergedEach(Some(cache), HeardOf(cfg, [srv.log[n]]));
      r.Some? && Alone(cfg, srv, StepWorld(cfg, w, SubMoves(0, Receive)), n + 1, r.value)
  {
    var sub, items := w.subs[0], HeardOf(cfg, [srv.log[n]]);
    HearOne(cfg, srv, sub, n);
    var now := StepSub(cfg, srv, sub, Receive);
    assert now.client.delivered[|sub.client.delivered|..] == items;
    MergedEachIsThere(cache, items);
  }

  lemma {:induction false} MergedEachIsThere(cache: seq<Event>, items: seq<Event>)
    ensures MergedEach(Some(cache), items).Some?
    decreases |items|
  {
    if items != [] { MergedEachIsThere(Merged(Some(cache), [items[0]]), items[1..]); }
  }

  /** An empty cache, one subscription, and its connection. */
  const OPENING: seq<WorldStep> := [HistoryLands(0), Join, SubMoves(0, Accept)]

  lemma {:induction false} OpeningStreams(cfg: Config, srv: Server)
    requires WellNumbered(srv.log)
    ensures Alone(cfg, srv, WorldAfter(cfg, World(srv, [], None), OPENING), 0, [])
  {
    var start := World(srv, [], None);
    var first, second: seq<WorldStep> := [HistoryLands(0)], [HistoryLands(0)] + [Join];
    WorldAfterSnoc(cfg, start, [], HistoryLands(0));
    WorldAfterSnoc(cfg, start, first, Join);
    assert WorldAfter(cfg, start, second) == World(srv, [Subscribe(0)], Some([]));
    assert OPENING == second + [SubMoves(0, Accept)];
    WorldAfterSnoc(cfg, start, second, SubMoves(0, Accept));
    ConnectStreams(cfg, srv, 0);
  }

  /** Load nothing, subscribe, connect, and receive `n` messages. */
  function PlainWorldRun(n: nat): seq<WorldStep> {
    if n == 0 then OPENING else PlainWorldRun(n - 1) + [SubMoves(0, Receive)]
  }

  /** The plain run leaves exactly the heard events in the cache. */
  lemma {:induction false} PlainWorldHears(cfg: Config, srv: Server, n: nat) returns (cache: seq<Event>)
    requires WellNumbered(srv.log) && n <= |srv.log|
    requires forall k :: 0 <= k < |srv.log| ==> !cfg.isEnd(srv.log[k])
    ensures Alone(cfg, srv, WorldAfter(cfg, World(srv, [], None), PlainWorldRun(n)), n, cache)
    ensures StrictlySorted(cache) && Numbers(cache) == Numbers(HeardOf(cfg, srv.log[..n]))
  {
    var start := World(srv, [], None);
    if n == 0 {
      OpeningStreams(cfg, srv);
      cache := [];
    } else {
      var before := PlainWorldHears(cfg, srv, n - 1);
      WorldAfterSnoc(cfg, start, PlainWorldRun(n - 1), SubMoves(0, Receive));
      ReceiveMerges(cfg, srv, WorldAfter(cfg, start, PlainWorldRun(n - 1)), n - 1, before);
      cache := MergedEach(Some(before), HeardOf(cfg, [srv.log[n - 1]])).value;
      NextHeardNumbers(cfg, srv.log, n, before);
    }
  }

  lemma {:induction false} NextHeardNumbers(cfg: Config, log: seq<Event>, n: nat, before: seq<Event>)
    requires 0 < n <= |log| && StrictlySorted(before) && Numbers(before) == Numbers(HeardOf(cfg, log[..n - 1]))
    ensures var r := MergedEach(Some(before), HeardOf(cfg, [log[n - 1]]));
      r.Some? && StrictlySorted(r.value) && Numbers(r.value) == Numbers(HeardOf(cfg, log[..n]))
  {
    MergedEachNumbers(before, HeardOf(cfg, [log[n - 1]]));
    assert log[0..n] == log[..n] && log[0..n - 1] == log[..n - 1];
    HeardOfSnoc(cfg, log, 0, n - 1);
    NumbersAppend(HeardOf(cfg, log[..n - 1]), HeardOf(cfg, [log[n - 1]]));
  }

  lemma {:induction false} NumberOfHeard(cfg: Config, log: seq<Event>, n: nat)
    requires WellNumbered(log) && n < |log|
    ensures n + 1 in Numbers(HeardOf(cfg, log)) <==> Heard(cfg, log[n])
  {
    var heard := HeardOf(cfg, log);
    HeardOfMembers(cfg, log, log[n]);
    forall k | 0 <= k < |heard| && heard[k].sequence == n + 1 ensures heard[k] == log[n] {
      HeardOfMembers(cfg, log, heard[k]);
      assert heard[k] in log;
    }
  }

  /** No reload after the first, no closing: the plain run covers. */
  lemma {:induction false} PlainWorldCovers(cfg: Config, srv: Server, n: nat)
    requires WellNumbered(srv.log)
    ensures ReloadsCover(cfg, World(srv, [], None), PlainWorldRun(n))
  {
    var start, steps := World(srv, [], None), PlainWorldRun(n);
    PlainWorldReloads(n);
    assert WorldAfter(cfg, start, steps[..0]) == start;
  }

  lemma {:induction false} PlainWorldReloads(n: nat)
    ensures forall k :: 0 < k < |PlainWorldRun(n)| ==> !PlainWorldRun(n)[k].HistoryLands?
  {
    if n > 0 { PlainWorldReloads(n - 1); }
  }

  /** On a gappy log the plain run ends in a cache that is no log prefix. */
  lemma {:induction false} GappyTimelineHasHole(cfg: Config, srv: Server)
    requires WellNumbered(srv.log) && Gappy(cfg, srv.log, 0)
    requires forall k :: 0 <= k < |srv.log| ==> !cfg.isEnd(srv.log[k])
    ensures var w := WorldAfter(cfg, World(srv, [], None), PlainWorldRun(|srv.log|));
      w.srv == srv && w.cache.Some? && !(w.cache.value <= srv.log)
  {
    var cache := PlainWorldHears(cfg, srv, |srv.log|);
    assert srv.log[..|srv.log|] == srv.log;
    AloneHas(cfg, srv, WorldAfter(cfg, World(srv, [], None), PlainWorldRun(|srv.log|)), |srv.log|, cache);
    HeardIsNoPrefix(cfg, srv.log, cache);
  }

  lemma {:induction false} AloneHas(cfg: Config, srv: Server, w: World, n: nat, cache: seq<Event>)
    requires Alone(cfg, srv, w, n, cache)
    ensures w.srv == srv && w.cache == Some(cache)
  {
  }

  lemma {:induction false} HeardIsNoPrefix(cfg: Config, log: seq<Event>, cache: seq<Event>)
    requires WellNumbered(log) && Gappy(cfg, log, 0) && Numbers(cache) == Numbers(HeardOf(cfg, log))
    ensures !(cache <= log)
  {
    var n, m :| 0 <= n < m < |log| && !Heard(cfg, log[n]) && Heard(cfg, log[m]);
    NumberOfHeard(cfg, log, n);
    NumberOfHeard(cfg, log, m);
    MissingIsNoPrefix(log, cache, n + 1, m + 1);
  }

  /** If the run leaves the log as it was, the cache is a prefix of it. */
  ghost predicate KeepsPrefix(cfg: Config, srv: Server, steps: seq<WorldStep>) {
    var w := WorldAfter(cfg, World(srv, [], None), steps);
    w.srv.log == srv.log && w.cache.Some? ==> w.cache.value <= srv.log
  }

  /** For a given log, all runs whose reloads cover keep the timeline a log prefix if and only if
      no unheard event precedes a heard one. */
  lemma {:induction false} TimelineExactlyWhenNotGappy(cfg: Config, srv: Server)
    requires WellNumbered(srv.log)
    requires forall k :: 0 <= k < |srv.log| ==> !cfg.isEnd(srv.log[k])
    ensures (forall steps | ReloadsCover(cfg, World(srv, [], None), steps) :: KeepsPrefix(cfg, srv, steps))
            <==> !Gappy(cfg, srv.log, 0)
  {
    if Gappy(cfg, srv.log, 0) {
      GappyTimelineHasHole(cfg, srv);
      PlainWorldCovers(cfg, srv, |srv.log|);
      assert !KeepsPrefix(cfg, srv, PlainWorldRun(|srv.log|));
    } else {
      forall steps | ReloadsCover(cfg, World(srv, [], None), steps) ensures KeepsPrefix(cfg, srv, steps) {
        CoveringRunKeepsPrefix(cfg, srv, steps);
      }
    }
  }

  lemma {:induction false} CoveringRunKeepsPrefix(cfg: Config, srv: Server, steps: seq<WorldStep>)
    requires WellNumbered(srv.log) && !Gappy(cfg, srv.log, 0) && ReloadsCover(cfg, World(srv, [], None), steps)
    ensures KeepsPrefix(cfg, srv, steps)
  {
    var start := World(srv, [], None);
    if WorldAfter(cfg, start, steps).srv.log == srv.log {
      CoveringReloadsFit(cfg, start, steps);
      WorldRunOk(cfg, start, steps);
    }
  }

  lemma {:induction false} WorldAfterTwo(cfg: Config, w: World, steps: seq<WorldStep>, a: WorldStep, b: WorldStep)
    ensures WorldAfter(cfg, w, steps + [a] + [b]) == StepWorld(cfg, StepWorld(cfg, WorldAfter(cfg, w, steps), a), b)
  {
    WorldAfterSnoc(cfg, w, steps, a);
    WorldAfterSnoc(cfg, w, steps + [a], b);
  }

  lemma {:induction false} ReloadThenReceive(cfg: Config, srv: Server, w: World, n: nat, m: nat, cache: seq<Event>)
    requires WellNumbered(srv.log) && n < |srv.log| && m <= |srv.log| && Alone(cfg, srv, w, n, cache)
    requires Heard(cfg, srv.log[n]) && !cfg.isEnd(srv.log[n])
    ensures var w' := StepWorld(cfg, StepWorld(cfg, w, HistoryLands(m)), SubMoves(0, Receive));
      w'.srv == srv && w'.cache.Some? && (w'.cache.value <= srv.log <==> n <= m)
  {
    ReceiveMerges(cfg, srv, StepWorld(cfg, w, HistoryLands(m)), n, srv.log[..m]);
    HeardAlone(cfg, srv.log, n);
    StretchMergesExactly(srv.log, m, n, n + 1);
  }

  /** The failing reload happens: after `n` live events a reload lands that was answered when the
      log held `m`, and the next live event leaves a hole exactly when the answer is the older one,
      although every reload before it covered. */
  lemma {:induction false} StaleReloadLeavesHole(cfg: Config, srv: Server, n: nat, m: nat)
    requires WellNumbered(srv.log) && n < |srv.log| && m <= |srv.log| && Heard(cfg, srv.log[n])
    requires forall k :: 0 <= k < |srv.log| ==> !cfg.isEnd(srv.log[k])
    ensures var start, before := World(srv, [], None), PlainWorldRun(n);
            var w := WorldAfter(cfg, start, before + [HistoryLands(m)] + [SubMoves(0, Receive)]);
      && ReloadsCover(cfg, start, before)
      && w.srv == srv && w.cache.Some? && (w.cache.value <= srv.log <==> n <= m)
  {
    var start, before := World(srv, [], None), PlainWorldRun(n);
    PlainWorldCovers(cfg, srv, n);
    var cache := PlainWorldHears(cfg, srv, n);
    WorldAfterTwo(cfg, start, before, HistoryLands(m), SubMoves(0, Receive));
    ReloadThenReceive(cfg, srv, WorldAfter(cfg, start, before), n, m, cache);
  }

  /** A reload that falls short does no harm if another one lands before the next item: the run fails
      to cover and still ends in a log prefix. */
  lemma {:induction false} LaterReloadHeals(cfg: Config, srv: Server, n: nat, m: nat, k: nat)
    requires WellNumbered(srv.log) && m < n <= k <= |srv.log| && n < |srv.log|
    requires forall j :: 0 <= j < |srv.log| ==> Heard(cfg, srv.log[j]) && !cfg.isEnd(srv.log[j])
    ensures var start, before := World(srv, [], None), PlainWorldRun(n);
            var steps := before + [HistoryLands(m)] + [HistoryLands(k)] + [SubMoves(0, Receive)];
      !ReloadsCover(cfg, start, steps) && CacheIsPrefix(WorldAfter(cfg, start, steps))
  {
    var start, before := World(srv, [], None), PlainWorldRun(n);
    var cache := PlainWorldHears(cfg, srv, n);
    var w := WorldAfter(cfg, start, before);
    ShortReload(cfg, srv, w, n, m, cache);
    FailsToCover(cfg, start, before, HistoryLands(m), [HistoryLands(k)] + [SubMoves(0, Receive)]);
    assert before + [HistoryLands(m)] + ([HistoryLands(k)] + [SubMoves(0, Receive)]) ==
      before + [HistoryLands(m)] + [HistoryLands(k)] + [SubMoves(0, Receive)];
    TwoReloads(cfg, start, before, m, k);
    ReloadThenReceive(cfg, srv, w, n, k, cache);
  }

  lemma {:induction false} FailsToCover(cfg: Config, w: World, before: seq<WorldStep>, reload: WorldStep,
      after: seq<WorldStep>)
    requires !ReloadCovers(WorldAfter(cfg, w, before), reload)
    ensures !ReloadsCover(cfg, w, before + [reload] + after)
  {
    var steps := before + [reload] + after;
    assert steps[..|before|] == before && steps[|before|] == reload;
  }

  /** Of two reloads in a row the later one counts. */
  lemma {:induction false} TwoReloads(cfg: Config, start: World, before: seq<WorldStep>, m: nat, k: nat)
    requires k <= |WorldAfter(cfg, start, before).srv.log|
    ensures var w := WorldAfter(cfg, start, before);
      WorldAfter(cfg, start, before + [HistoryLands(m)] + [HistoryLands(k)] + [SubMoves(0, Receive)])
        == StepWorld(cfg, StepWorld(cfg, w, HistoryLands(k)), SubMoves(0, Receive))
  {
    WorldAfterSnoc(cfg, start, before, HistoryLands(m));
    WorldAfterTwo(cfg, start, before + [HistoryLands(m)], HistoryLands(k), SubMoves(0, Receive));
  }

  lemma {:induction false} ShortReload(cfg: Config, srv: Server, w: World, n: nat, m: nat, cache: seq<Event>)
    requires m < n <= |srv.log| && Alone(cfg, srv, w, n, cache)
    requires forall j :: 0 <= j < |srv.log| ==> Heard(cfg, srv.log[j])
    ensures !ReloadCovers(w, HistoryLands(m))
  {
    var sub := w.subs[0];
    if sub.client.cursor < n { HeardIsNotSilent(cfg, srv.log, sub.client.cursor, n); }
    assert Active(sub);
  }

  lemma {:induction false} HeardIsNotSilent(cfg: Config, log: seq<Event>, lo: nat, hi: nat)
    requires lo < hi <= |log| && Heard(cfg, log[lo])
    ensures !Silent(cfg, log, lo, hi)
  {
  }

  lemma {:induction false} HeardAlone(cfg: Config, log: seq<Event>, n: nat)
    requires n < |log| && Heard(cfg, log[n])
    ensures HeardOf(cfg, [log[n]]) == log[n..n + 1]
  {
    var one := [log[n]];
    assert one[..0] == [] && log[n..n + 1] == one;
  }
}
