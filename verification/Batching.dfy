/** Packing the files of a review into prompts: `batches` of the pull-request reviewer. */
module Batching {

  /** A file to review: its reference, its name and the annotated diff text. */
  datatype Item = Item(ref: string, name: string, text: string)

  function Size(items: seq<Item>): nat {
    if items == [] then 0 else Size(items[..|items| - 1]) + |items[|items| - 1].text|
  }

  function Flat(packed: seq<seq<Item>>): seq<Item> {
    if packed == [] then [] else Flat(packed[..|packed| - 1]) + packed[|packed| - 1]
  }

  /** A batch within the limit, or an oversized file on its own. */
  predicate Allowed(batch: seq<Item>, maxChars: int) {
    batch != [] && (|batch| == 1 || Size(batch) <= maxChars)
  }

  /** An order-preserving split of the files into allowed batches. */
  ghost predicate Split(packed: seq<seq<Item>>, files: seq<Item>, maxChars: int) {
    Flat(packed) == files && forall k :: 0 <= k < |packed| ==> Allowed(packed[k], maxChars)
  }

  /** No split uses fewer batches, and none with as many has a shorter last batch. */
  ghost predicate Best(packed: seq<seq<Item>>, files: seq<Item>, maxChars: int) {
    forall other :: Split(other, files, maxChars) ==>
      && |packed| <= |other|
      && (|packed| == |other| && packed != [] ==> |packed[|packed| - 1]| <= |other[|other| - 1]|)
  }

  /** The state between two files: `done` files are packed as well as they can be, and `size`
      is the size of the last batch. */
  ghost predicate PackedSoFar(packed: seq<seq<Item>>, size: int, done: seq<Item>, maxChars: int) {
    && Split(packed, done, maxChars) && Best(packed, done, maxChars)
    && (packed != [] ==> size == Size(packed[|packed| - 1]))
  }

  /** The first `n` files are packed. */
  ghost predicate PackedUpTo(files: seq<Item>, n: nat, packed: seq<seq<Item>>, size: int, maxChars: int)
    requires n <= |files|
  {
    PackedSoFar(packed, size, files[..n], maxChars)
  }

  method Batches(files: seq<Item>, maxChars: int) returns (packed: seq<seq<Item>>)
    ensures Split(packed, files, maxChars) && Best(packed, files, maxChars)
  {
    var size := 0;
    packed := [];
    NothingIsPacked(files, maxChars);
    for i := 0 to |files|
      invariant PackedUpTo(files, i, packed, size, maxChars)
    {
      packed, size := AddNext(packed, size, files, i, maxChars);
    }
    assert files[..|files|] == files;
  }

  method AddNext(before: seq<seq<Item>>, size: int, files: seq<Item>, i: nat, maxChars: int)
    returns (packed: seq<seq<Item>>, newSize: int)
    requires i < |files| && PackedUpTo(files, i, before, size, maxChars)
    ensures PackedUpTo(files, i + 1, packed, newSize, maxChars)
  {
    packed, newSize := AddFile(before, size, files[i], maxChars, files[..i]);
    UpToNext(files, i, packed, newSize, maxChars);
  }

  lemma {:induction false} UpToNext(files: seq<Item>, i: nat, packed: seq<seq<Item>>, size: int, maxChars: int)
    requires i < |files| && PackedSoFar(packed, size, files[..i] + [files[i]], maxChars)
    ensures PackedUpTo(files, i + 1, packed, size, maxChars)
  {
    assert files[..i + 1] == files[..i] + [files[i]];
  }

  lemma {:induction false} NothingIsPacked(files: seq<Item>, maxChars: int)
    ensures PackedUpTo(files, 0, [], 0, maxChars)
  {
    EmptyIsBest(maxChars);
  }

  /** One turn of the packing loop. */
  method AddFile(before: seq<seq<Item>>, size: int, file: Item, maxChars: int, ghost done: seq<Item>)
    returns (packed: seq<seq<Item>>, newSize: int)
    requires PackedSoFar(before, size, done, maxChars)
    ensures PackedSoFar(packed, newSize, done + [file], maxChars)
  {
    packed, newSize := before, size;
    AddIsBest(before, done, file, maxChars);
    if packed == [] || newSize + |file.text| > maxChars {
      packed := packed + [[]];
      newSize := 0;
    }
    assert packed == Opened(before, file, maxChars);
    LastGrows(packed, file);
    packed := AppendToLast(packed, file);
    newSize := newSize + |file.text|;
  }

  function AppendToLast(packed: seq<seq<Item>>, file: Item): seq<seq<Item>>
    requires packed != []
  {
    packed[..|packed| - 1] + [packed[|packed| - 1] + [file]]
  }

  lemma {:induction false} LastGrows(packed: seq<seq<Item>>, file: Item)
    requires packed != []
    ensures var next := AppendToLast(packed, file);
      next != [] && Size(next[|next| - 1]) == Size(packed[|packed| - 1]) + |file.text|
  {
    SizeSnoc(packed[|packed| - 1], file);
  }

  /** The batches the file goes to the last of: a new one is wider if it does not fit. */
  function Opened(packed: seq<seq<Item>>, file: Item, maxChars: int): (r: seq<seq<Item>>)
    ensures r != []
  {
    if packed == [] || Size(packed[|packed| - 1]) + |file.text| > maxChars then packed + [[]] else packed
  }

  lemma {:induction false} AddIsBest(packed: seq<seq<Item>>, files: seq<Item>, file: Item, maxChars: int)
    requires Split(packed, files, maxChars) && Best(packed, files, maxChars)
    ensures var next := AppendToLast(Opened(packed, file, maxChars), file);
      Split(next, files + [file], maxChars) && Best(next, files + [file], maxChars)
  {
    if packed == [] || Size(packed[|packed| - 1]) + |file.text| > maxChars {
      var wider := packed + [[]];
      assert wider[..|wider| - 1] == packed && wider[|wider| - 1] + [file] == [file];
      OpenIsBest(packed, files, file, maxChars);
    } else {
      ExtendSplits(packed, files, file, maxChars);
      ExtendIsBest(packed, files, file, maxChars);
    }
  }

  lemma {:induction false} SizeSnoc(items: seq<Item>, file: Item)
    ensures Size(items + [file]) == Size(items) + |file.text|
  {
    assert (items + [file])[..|items|] == items;
  }

  lemma {:induction false} SnocInjective(a: seq<Item>, x: Item, b: seq<Item>, y: Item)
    requires a + [x] == b + [y]
    ensures a == b && x == y
  {
    assert |a| == |b| && (a + [x])[|a|] == x && (b + [y])[|b|] == y;
    assert (a + [x])[..|a|] == a && (b + [y])[..|b|] == b;
  }

  lemma {:induction false} EndsAgree(p: seq<Item>, x: seq<Item>, q: seq<Item>, y: seq<Item>)
    requires p + x == q + y && |x| <= |y|
    ensures y[|y| - |x|..] == x
  {
    assert (p + x)[|p|..] == x && (q + y)[|q| + (|y| - |x|)..] == y[|y| - |x|..];
  }

  lemma {:induction false} FlatSnoc(packed: seq<seq<Item>>, batch: seq<Item>)
    ensures Flat(packed + [batch]) == Flat(packed) + batch
  {
    assert (packed + [batch])[..|packed|] == packed;
  }

  lemma {:induction false} EmptyIsBest(maxChars: int)
    ensures Split([], [], maxChars) && Best([], [], maxChars)
  {
  }

  /** A split of the files and one more, without that one: the last batch loses its last file. */
  lemma {:induction false} Trimmed(other: seq<seq<Item>>, files: seq<Item>, file: Item, maxChars: int)
    returns (rest: seq<seq<Item>>)
    requires Split(other, files + [file], maxChars)
    ensures Split(rest, files, maxChars) && other != []
    ensures var last := other[|other| - 1];
      if |last| == 1 then rest == other[..|other| - 1]
      else |rest| == |other| && last == rest[|rest| - 1] + [file]
  {
    var front, last := other[..|other| - 1], other[|other| - 1];
    assert other == front + [last];
    FlatSnoc(front, last);
    assert Allowed(last, maxChars);
    var shorter := last[..|last| - 1];
    assert last == shorter + [last[|last| - 1]];
    assert (Flat(front) + shorter) + [last[|last| - 1]] == files + [file];
    SnocInjective(Flat(front) + shorter, last[|last| - 1], files, file);
    if |last| == 1 {
      rest := front;
    } else {
      rest := front + [shorter];
      FlatSnoc(front, shorter);
      SizeSnoc(shorter, file);
    }
  }

  /** The file fits: the last batch grows. */
  lemma {:induction false} ExtendSplits(packed: seq<seq<Item>>, files: seq<Item>, file: Item, maxChars: int)
    requires Split(packed, files, maxChars) && packed != []
    requires Size(packed[|packed| - 1]) + |file.text| <= maxChars
    ensures Split(AppendToLast(packed, file), files + [file], maxChars)
  {
    var front, last := packed[..|packed| - 1], packed[|packed| - 1];
    FlatSnoc(front, last + [file]);
    assert Flat(front) + (last + [file]) == (Flat(front) + last) + [file];
    SizeSnoc(last, file);
  }

  lemma {:induction false} ExtendIsBest(packed: seq<seq<Item>>, files: seq<Item>, file: Item, maxChars: int)
    requires Best(packed, files, maxChars) && packed != []
    ensures Best(AppendToLast(packed, file), files + [file], maxChars)
  {
    var next := AppendToLast(packed, file);
    forall other | Split(other, files + [file], maxChars)
      ensures |next| <= |other| && (|next| == |other| ==> |next[|next| - 1]| <= |other[|other| - 1]|)
    {
      var rest := Trimmed(other, files, file, maxChars);
    }
  }

  /** The file does not fit, or is the first: a new batch opens, as it must in any split. */
  lemma {:induction false} OpenIsBest(packed: seq<seq<Item>>, files: seq<Item>, file: Item, maxChars: int)
    requires Split(packed, files, maxChars) && Best(packed, files, maxChars)
    requires packed != [] ==> Size(packed[|packed| - 1]) + |file.text| > maxChars
    ensures var next := packed + [[file]];
      Split(next, files + [file], maxChars) && Best(next, files + [file], maxChars)
  {
    var next := packed + [[file]];
    FlatSnoc(packed, [file]);
    forall other | Split(other, files + [file], maxChars)
      ensures |next| <= |other| && (|next| == |other| ==> 1 <= |other[|other| - 1]|)
    {
      var rest := Trimmed(other, files, file, maxChars);
      var last := other[|other| - 1];
      assert Allowed(last, maxChars);
      if |last| > 1 && |rest| == |packed| {
        assert packed != [];
        SizeSnoc(rest[|rest| - 1], file);
        LongerEndIsBigger(packed, rest, files);
      }
    }
  }

  /** Two last batches of the same files: the longer one is at least as big. */
  lemma {:induction false} LongerEndIsBigger(a: seq<seq<Item>>, b: seq<seq<Item>>, files: seq<Item>)
    requires a != [] && b != [] && Flat(a) == files == Flat(b)
    requires |a[|a| - 1]| <= |b[|b| - 1]|
    ensures Size(a[|a| - 1]) <= Size(b[|b| - 1])
  {
    EndSizes(Flat(a[..|a| - 1]), a[|a| - 1], Flat(b[..|b| - 1]), b[|b| - 1]);
  }

  lemma {:induction false} EndSizes(p: seq<Item>, x: seq<Item>, q: seq<Item>, y: seq<Item>)
    requires p + x == q + y && |x| <= |y|
    ensures Size(x) <= Size(y)
  {
    EndsAgree(p, x, q, y);
    SizeOfEnd(y, |y| - |x|);
  }

  lemma {:induction false} SizeOfEnd(items: seq<Item>, k: nat)
    requires k <= |items|
    ensures Size(items[k..]) <= Size(items)
  {
    if k < |items| {
      var front := items[..|items| - 1];
      SizeOfEnd(front, k);
      assert items[k..] == front[k..] + [items[|items| - 1]];
      SizeSnoc(front[k..], items[|items| - 1]);
    }
  }
}
