/** A stable sort by a strict weak order: the contract of the library sorts the programs call. */
module Sorting {

  ghost predicate StrictWeak<T(!new)>(lt: (T, T) -> bool) {
    && (forall x :: !lt(x, x))
    && (forall x, y, z :: lt(x, y) && lt(y, z) ==> lt(x, z))
    && (forall x, y, z :: !lt(x, y) && !lt(y, z) ==> !lt(x, z))
  }

  ghost predicate Sorted<T>(s: seq<T>, lt: (T, T) -> bool) {
    forall i, j :: 0 <= i < j < |s| ==> !lt(s[j], s[i])
  }

  /** Put `x` before the first element that is not strictly smaller. */
  function Insert<T>(x: T, s: seq<T>, lt: (T, T) -> bool): (r: seq<T>)
    ensures |r| == |s| + 1
    ensures multiset(r) == multiset{x} + multiset(s)
  {
    if s == [] || !lt(s[0], x) then [x] + s
    else
      assert s == [s[0]] + s[1..];
      [s[0]] + Insert(x, s[1..], lt)
  }

  function SortBy<T>(s: seq<T>, lt: (T, T) -> bool): (r: seq<T>)
    ensures |r| == |s|
    ensures multiset(r) == multiset(s)
  {
    if s == [] then []
    else
      assert s == [s[0]] + s[1..];
      Insert(s[0], SortBy(s[1..], lt), lt)
  }

  lemma {:induction false} InsertSorted<T(!new)>(x: T, s: seq<T>, lt: (T, T) -> bool)
    requires StrictWeak(lt) && Sorted(s, lt)
    ensures Sorted(Insert(x, s, lt), lt)
  {
    if s == [] || !lt(s[0], x) {
      forall j | 0 <= j < |s| ensures !lt(s[j], x) {
        assert !lt(s[j], s[0]);
      }
    } else {
      var rest := Insert(x, s[1..], lt);
      InsertSorted(x, s[1..], lt);
      forall j | 0 <= j < |rest| ensures !lt(rest[j], s[0]) {
        assert rest[j] in multiset(rest);
        if rest[j] != x { assert rest[j] in s[1..]; }
      }
    }
  }

  lemma {:induction false} SortBySorted<T(!new)>(s: seq<T>, lt: (T, T) -> bool)
    requires StrictWeak(lt)
    ensures Sorted(SortBy(s, lt), lt)
  {
    if s != [] {
      SortBySorted(s[1..], lt);
      InsertSorted(s[0], SortBy(s[1..], lt), lt);
    }
  }

  lemma {:induction false} SortByMembers<T>(s: seq<T>, lt: (T, T) -> bool, x: T)
    ensures x in SortBy(s, lt) <==> x in s
  {
    assert x in SortBy(s, lt) <==> x in multiset(SortBy(s, lt));
    assert x in s <==> x in multiset(s);
  }

  /** Sorting what is already in order changes nothing. */
  lemma {:induction false} SortedIsFixed<T>(s: seq<T>, lt: (T, T) -> bool)
    requires Sorted(s, lt)
    ensures SortBy(s, lt) == s
  {
    if s != [] {
      SortedIsFixed(s[1..], lt);
      if |s| > 1 { assert !lt(s[1], s[0]); }
    }
  }

  // --- Stability --------------------------------------------------------------

  function Filter<T>(s: seq<T>, keep: T -> bool): seq<T> {
    if s == [] then []
    else (if keep(s[0]) then [s[0]] else []) + Filter(s[1..], keep)
  }

  lemma {:induction false} FilterMembers<T>(s: seq<T>, keep: T -> bool, x: T)
    ensures x in Filter(s, keep) <==> x in s && keep(x)
  {
    if s != [] {
      FilterMembers(s[1..], keep, x);
      assert s == [s[0]] + s[1..];
    }
  }

  lemma {:induction false} FilterNone<T>(s: seq<T>, keep: T -> bool)
    requires forall x :: x in s ==> !keep(x)
    ensures Filter(s, keep) == []
  {
    if s != [] {
      assert s[0] in s;
      FilterNone(s[1..], keep);
    }
  }

  lemma {:induction false} FilterAppend<T>(a: seq<T>, b: seq<T>, keep: T -> bool)
    ensures Filter(a + b, keep) == Filter(a, keep) + Filter(b, keep)
  {
    if a == [] {
      assert a + b == b;
    } else {
      FilterAppend(a[1..], b, keep);
      assert (a + b)[1..] == a[1..] + b && (a + b)[0] == a[0];
      var head, x, y := if keep(a[0]) then [a[0]] else [], Filter(a[1..], keep), Filter(b, keep);
      assert head + (x + y) == (head + x) + y;
    }
  }

  /** No two elements that `keep` selects are told apart by the order. */
  ghost predicate Tied<T(!new)>(lt: (T, T) -> bool, keep: T -> bool) {
    forall x, y :: keep(x) && keep(y) ==> !lt(x, y)
  }

  lemma {:induction false} FilterCons<T>(x: T, s: seq<T>, keep: T -> bool)
    ensures Filter([x] + s, keep) == (if keep(x) then [x] + Filter(s, keep) else Filter(s, keep))
  {
    assert ([x] + s)[1..] == s;
  }

  lemma {:induction false} InsertStable<T(!new)>(x: T, s: seq<T>, lt: (T, T) -> bool, keep: T -> bool)
    requires Tied(lt, keep)
    ensures Filter(Insert(x, s, lt), keep) == if keep(x) then [x] + Filter(s, keep) else Filter(s, keep)
  {
    if s == [] || !lt(s[0], x) {
      FilterCons(x, s, keep);
    } else {
      var y, rest := s[0], s[1..];
      assert s == [y] + rest && !(keep(x) && keep(y));
      InsertStable(x, rest, lt, keep);
      FilterCons(y, rest, keep);
      FilterCons(y, Insert(x, rest, lt), keep);
    }
  }

  /** Tied elements keep their order. */
  lemma {:induction false} SortByStable<T(!new)>(s: seq<T>, lt: (T, T) -> bool, keep: T -> bool)
    requires Tied(lt, keep)
    ensures Filter(SortBy(s, lt), keep) == Filter(s, keep)
  {
    if s != [] {
      SortByStable(s[1..], lt, keep);
      InsertStable(s[0], SortBy(s[1..], lt), lt, keep);
    }
  }

  lemma {:induction false} FilterSorted<T>(s: seq<T>, lt: (T, T) -> bool, keep: T -> bool)
    requires Sorted(s, lt)
    ensures Sorted(Filter(s, keep), lt)
  {
    if s != [] {
      var rest := s[1..];
      FilterSorted(rest, lt, keep);
      var kept := Filter(rest, keep);
      forall j | 0 <= j < |kept| ensures !lt(kept[j], s[0]) {
        FilterMembers(rest, keep, kept[j]);
        var k :| 0 <= k < |rest| && rest[k] == kept[j];
        assert s[k + 1] == rest[k];
      }
    }
  }
}
