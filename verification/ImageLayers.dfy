/** The setuid and setgid files of a container image: `privileged_files` replays the layers but
    keeps only those files. */
module ImageLayers {
  import opened Options

  // --- Paths as text -----------------------------------------------------------------------------

  /** One past the last `/`. */
  function SlashEnd(p: string): (r: nat)
    ensures r <= |p|
  {
    if p == "" || p[|p| - 1] == '/' then |p| else SlashEnd(p[..|p| - 1])
  }

  function StripSlashes(s: string): string {
    if s != "" && s[|s| - 1] == '/' then StripSlashes(s[..|s| - 1]) else s
  }

  /** `posixpath.split`: a head of slashes alone stays as it is. */
  function Head(p: string): string {
    var h := p[..SlashEnd(p)];
    if StripSlashes(h) == "" then h else StripSlashes(h)
  }

  function Tail(p: string): string { p[SlashEnd(p)..] }

  /** `posixpath.join`. */
  function Join(d: string, x: string): string {
    if "/" <= x then x
    else if d == "" || d[|d| - 1] == '/' then d + x
    else d + "/" + x
  }

  // --- Layer entries --------------------------------------------------------------------------------

  datatype Entry = Entry(path: string, file: bool, mode: nat)

  /** A regular file with the setuid bit 0o4000 or the setgid bit 0o2000. */
  predicate Privileged(e: Entry) { e.file && (e.mode / 1024) % 4 != 0 }

  predicate BitSet(mode: nat, bit: nat)
    requires bit > 0
  {
    mode / bit % 2 == 1
  }

  /** The tracked files are the regular ones with setuid, bit 0o4000, or setgid, bit 0o2000. */
  lemma {:induction false} PrivilegedIsSetuidOrSetgid(e: Entry)
    ensures Privileged(e) <==> e.file && (BitSet(e.mode, 4 * 8 * 8 * 8) || BitSet(e.mode, 2 * 8 * 8 * 8))
  {
    var high := e.mode / 1024;
    assert e.mode / 2048 == high / 2;
    assert high % 4 == 2 * (high / 2 % 2) + high % 2;
  }

  predicate IsOpaque(e: Entry) { Tail(e.path) == ".wh..wh..opq" }

  /** The entry puts a file or directory in place; it is no whiteout. */
  predicate Puts(e: Entry) { !(".wh." <= Tail(e.path)) }

  function HiddenPath(e: Entry): string
    requires !Puts(e)
  {
    Join(Head(e.path), Tail(e.path)[4..])
  }

  /** The entry is a whiteout that hides the path. */
  predicate Hides(e: Entry, p: string) {
    if IsOpaque(e) then StripSlashes(Head(e.path)) + "/" <= p
    else !Puts(e) && (p == HiddenPath(e) || HiddenPath(e) + "/" <= p)
  }

  lemma {:induction false} OpaqueIsNoFile(e: Entry)
    ensures IsOpaque(e) ==> !Puts(e)
  {
    if IsOpaque(e) { assert Tail(e.path)[..4] == ".wh."; }
  }

  type Layer = seq<Entry>
  type Files = map<string, Entry>
  type Modes = map<string, nat>

  // --- Replaying entry by entry ------------------------------------------------------------------------

  /** One entry over the whole file system. */
  function Replay(fs: Files, e: Entry): Files {
    if Puts(e) then fs[e.path := e] else map p | p in fs && !Hides(e, p) :: fs[p]
  }

  function ReplayLayer(fs: Files, layer: Layer): Files {
    if layer == [] then fs else Replay(ReplayLayer(fs, layer[..|layer| - 1]), layer[|layer| - 1])
  }

  function ReplayImage(layers: seq<Layer>): Files {
    if layers == [] then map[] else ReplayLayer(ReplayImage(layers[..|layers| - 1]), layers[|layers| - 1])
  }

  /** The setuid and setgid files with their modes. */
  function PrivilegedOf(fs: Files): Modes { map p | p in fs && Privileged(fs[p]) :: fs[p].mode }

  /** One entry over the tracked files only. */
  function Track(present: Modes, e: Entry): Modes {
    if Puts(e) then
      if Privileged(e) then present[e.path := e.mode] else present - {e.path}
    else map p | p in present && !Hides(e, p) :: present[p]
  }

  function TrackLayer(present: Modes, layer: Layer): Modes {
    if layer == [] then present else Track(TrackLayer(present, layer[..|layer| - 1]), layer[|layer| - 1])
  }

  lemma {:induction false} TrackingProjects(fs: Files, e: Entry)
    ensures Track(PrivilegedOf(fs), e) == PrivilegedOf(Replay(fs, e))
  {
  }

  /** Tracking a layer loses nothing: it is the projection of the full replay. */
  lemma {:induction false} LayerTrackingProjects(fs: Files, layer: Layer)
    ensures TrackLayer(PrivilegedOf(fs), layer) == PrivilegedOf(ReplayLayer(fs, layer))
  {
    if layer != [] {
      LayerTrackingProjects(fs, layer[..|layer| - 1]);
      TrackingProjects(ReplayLayer(fs, layer[..|layer| - 1]), layer[|layer| - 1]);
    }
  }

  /** Delete the hidden paths one by one. */
  method Drop(present: Modes, e: Entry) returns (r: Modes)
    ensures r == map p | p in present && !Hides(e, p) :: present[p]
  {
    r := present;
    var left := present.Keys;
    while left != {}
      invariant left <= present.Keys && r.Keys <= present.Keys
      invariant forall p :: p in r <==> p in present && (p in left || !Hides(e, p))
      invariant forall p :: p in r ==> r[p] == present[p]
      decreases left
    {
      var known :| known in left;
      left := left - {known};
      if Hides(e, known) { r := r - {known}; }
    }
  }

  method TrackEntries(present: Modes, layer: Layer) returns (r: Modes)
    ensures r == TrackLayer(present, layer)
  {
    r := present;
    for i := 0 to |layer|
      invariant r == TrackLayer(present, layer[..i])
    {
      var e := layer[i];
      assert layer[..i + 1][..i] == layer[..i] && layer[..i + 1][i] == e;
      OpaqueIsNoFile(e);
      if !Puts(e) {
        r := Drop(r, e);
        continue;
      }
      r := r - {e.path};
      if Privileged(e) { r := r[e.path := e.mode]; }
    }
    assert layer[..|layer|] == layer;
  }

  /** `privileged_files`: what it tracks is exactly the setuid and setgid files of the file system
      that replaying every entry of every layer builds. */
  method PrivilegedFiles(layers: seq<Layer>) returns (present: Modes)
    ensures present == PrivilegedOf(ReplayImage(layers))
  {
    present := map[];
    for i := 0 to |layers|
      invariant present == PrivilegedOf(ReplayImage(layers[..i]))
    {
      assert layers[..i + 1][..i] == layers[..i];
      LayerTrackingProjects(ReplayImage(layers[..i]), layers[i]);
      present := TrackEntries(present, layers[i]);
    }
    assert layers[..|layers|] == layers;
  }

  // --- Whiteouts apply to lower layers only --------------------------------------------------------------

  ghost predicate HiddenBy(layer: Layer, p: string) { exists j :: 0 <= j < |layer| && Hides(layer[j], p) }

  function PutAll(fs: Files, layer: Layer): Files {
    if layer == [] then fs
    else
      var e, below := layer[|layer| - 1], PutAll(fs, layer[..|layer| - 1]);
      if Puts(e) then below[e.path := e] else below
  }

  /** A layer as the OCI image specification applies it: its whiteouts hide what the lower layers
      hold, and then its own entries are put in place. */
  ghost function ApplyLayer(fs: Files, layer: Layer): Files {
    PutAll(map p | p in fs && !HiddenBy(layer, p) :: fs[p], layer)
  }

  ghost function ApplyImage(layers: seq<Layer>): Files {
    if layers == [] then map[] else ApplyLayer(ApplyImage(layers[..|layers| - 1]), layers[|layers| - 1])
  }

  function At(fs: Files, p: string): Option<Entry> { if p in fs then Some(fs[p]) else None }

  /** The layer's last word on a path. */
  ghost predicate LastPut(layer: Layer, i: int, p: string) {
    && 0 <= i < |layer| && Puts(layer[i]) && layer[i].path == p
    && forall k :: i < k < |layer| ==> !(Puts(layer[k]) && layer[k].path == p)
  }

  ghost predicate NeverPut(layer: Layer, p: string) {
    forall k :: 0 <= k < |layer| ==> !(Puts(layer[k]) && layer[k].path == p)
  }

  /** A whiteout after position `i` hides the path. */
  ghost predicate HiddenAfter(layer: Layer, i: int, p: string) {
    exists j :: i < j < |layer| && 0 <= j && Hides(layer[j], p)
  }

  lemma {:induction false} PutOrNot(layer: Layer, p: string) returns (i: int)
    ensures LastPut(layer, i, p) || (i == -1 && NeverPut(layer, p))
  {
    i := |layer| - 1;
    while i >= 0 && !(Puts(layer[i]) && layer[i].path == p)
      invariant -1 <= i < |layer|
      invariant forall k :: i < k < |layer| ==> !(Puts(layer[k]) && layer[k].path == p)
    {
      i := i - 1;
    }
  }

  lemma {:induction false} HiddenAfterSnoc(front: Layer, e: Entry, i: int, p: string)
    requires -1 <= i < |front|
    ensures HiddenAfter(front + [e], i, p) <==> HiddenAfter(front, i, p) || Hides(e, p)
  {
    var layer := front + [e];
    if HiddenAfter(front, i, p) {
      var j :| i < j < |front| && 0 <= j && Hides(front[j], p);
      assert layer[j] == front[j];
    }
    if Hides(e, p) { assert layer[|front|] == e; }
  }

  /** What replaying a layer leaves at a path that the layer last puts at `i`, or never (-1). */
  lemma {:induction false} ReplayedAt(fs: Files, layer: Layer, i: int, p: string)
    requires LastPut(layer, i, p) || (i == -1 && NeverPut(layer, p))
    ensures At(ReplayLayer(fs, layer), p) ==
      if HiddenAfter(layer, i, p) then None else if i == -1 then At(fs, p) else Some(layer[i])
  {
    if layer != [] {
      var front, e := layer[..|layer| - 1], layer[|layer| - 1];
      assert layer == front + [e];
      OpaqueIsNoFile(e);
      if i < |front| {
        ReplayedAt(fs, front, i, p);
        HiddenAfterSnoc(front, e, i, p);
      }
    }
  }

  lemma {:induction false} PutAllAt(fs: Files, layer: Layer, i: int, p: string)
    requires LastPut(layer, i, p) || (i == -1 && NeverPut(layer, p))
    ensures At(PutAll(fs, layer), p) == if i == -1 then At(fs, p) else Some(layer[i])
  {
    if layer != [] {
      var front, e := layer[..|layer| - 1], layer[|layer| - 1];
      assert layer == front + [e];
      if i < |front| { PutAllAt(fs, front, i, p); }
    }
  }

  lemma {:induction false} AppliedAt(fs: Files, layer: Layer, i: int, p: string)
    requires LastPut(layer, i, p) || (i == -1 && NeverPut(layer, p))
    ensures At(ApplyLayer(fs, layer), p) ==
      if i >= 0 then Some(layer[i]) else if HiddenBy(layer, p) then None else At(fs, p)
  {
    PutAllAt(map q | q in fs && !HiddenBy(layer, q) :: fs[q], layer, i, p);
  }

  /** The layer puts a privileged file at the path for good, and a later whiteout hides it. */
  ghost predicate ClashAt(layer: Layer, i: int, p: string) {
    LastPut(layer, i, p) && Privileged(layer[i]) && HiddenAfter(layer, i, p)
  }

  ghost predicate Clash(layer: Layer) { exists i, p :: ClashAt(layer, i, p) }

  function ModeAt(fs: Files, p: string): Option<nat> {
    if p in fs && Privileged(fs[p]) then Some(fs[p].mode) else None
  }

  lemma {:induction false} SameAt(fs: Files, layer: Layer, i: int, p: string)
    requires LastPut(layer, i, p) || (i == -1 && NeverPut(layer, p))
    ensures ModeAt(ReplayLayer(fs, layer), p) == ModeAt(ApplyLayer(fs, layer), p) <==> !ClashAt(layer, i, p)
  {
    ReplayedAt(fs, layer, i, p);
    AppliedAt(fs, layer, i, p);
    assert At(ReplayLayer(fs, layer), p).None? <==> p !in ReplayLayer(fs, layer);
    assert At(ApplyLayer(fs, layer), p).None? <==> p !in ApplyLayer(fs, layer);
  }

  lemma {:induction false} SameModesSamePrivileged(fs: Files, gs: Files)
    ensures PrivilegedOf(fs) == PrivilegedOf(gs) <==> forall p :: ModeAt(fs, p) == ModeAt(gs, p)
  {
    var a, b := PrivilegedOf(fs), PrivilegedOf(gs);
    forall p ensures p in a <==> ModeAt(fs, p).Some? {}
    forall p ensures p in b <==> ModeAt(gs, p).Some? {}
    if forall p :: ModeAt(fs, p) == ModeAt(gs, p) {
      forall p | p in a ensures p in b && a[p] == b[p] {
        assert ModeAt(fs, p) == Some(a[p]) && ModeAt(gs, p) == ModeAt(fs, p);
      }
      forall p | p in b ensures p in a { assert ModeAt(gs, p) == ModeAt(fs, p); }
    } else {
      var p :| ModeAt(fs, p) != ModeAt(gs, p);
      assert p in a && p in b ==> a[p] != b[p];
    }
  }

  /** The code agrees with the specification on a layer, over any lower layers, exactly when no
      privileged file the layer puts is hidden by a later whiteout of the same layer. */
  lemma {:induction false} LayerAgreesExactly(fs: Files, layer: Layer)
    ensures PrivilegedOf(ReplayLayer(fs, layer)) == PrivilegedOf(ApplyLayer(fs, layer)) <==> !Clash(layer)
  {
    SameModesSamePrivileged(ReplayLayer(fs, layer), ApplyLayer(fs, layer));
    if Clash(layer) {
      var i, p :| ClashAt(layer, i, p);
      SameAt(fs, layer, i, p);
    } else {
      forall p ensures ModeAt(ReplayLayer(fs, layer), p) == ModeAt(ApplyLayer(fs, layer), p) {
        var i := PutOrNot(layer, p);
        SameAt(fs, layer, i, p);
      }
    }
  }

  ghost predicate WhiteoutsFirst(layer: Layer) {
    forall i, j :: 0 <= i < j < |layer| && Puts(layer[i]) ==> Puts(layer[j])
  }

  lemma {:induction false} WhiteoutsFirstNeverClash(layer: Layer)
    requires WhiteoutsFirst(layer)
    ensures !Clash(layer)
  {
    forall i, p ensures !ClashAt(layer, i, p) {
      forall j | i < j < |layer| && 0 <= i && LastPut(layer, i, p) ensures !Hides(layer[j], p) {
        OpaqueIsNoFile(layer[j]);
      }
    }
  }

  // --- A whole image --------------------------------------------------------------------------------------

  /** The layer puts or hides the path. */
  ghost predicate Touches(layer: Layer, p: string) { !NeverPut(layer, p) || HiddenBy(layer, p) }

  /** The topmost layer that puts or hides the path. */
  ghost predicate TopTouch(layers: seq<Layer>, k: int, p: string) {
    0 <= k < |layers| && Touches(layers[k], p) && forall j :: k < j < |layers| ==> !Touches(layers[j], p)
  }

  /** That layer puts a privileged file there for good, and then hides it itself. */
  ghost predicate TopClash(layers: seq<Layer>, p: string) {
    exists k, i :: TopTouch(layers, k, p) && ClashAt(layers[k], i, p)
  }

  /** A layer that touches a path decides it, whatever lies below. */
  lemma {:induction false} TouchDecides(fs: Files, gs: Files, layer: Layer, i: int, p: string)
    requires (LastPut(layer, i, p) || (i == -1 && NeverPut(layer, p))) && Touches(layer, p)
    ensures ModeAt(ReplayLayer(fs, layer), p) == ModeAt(ApplyLayer(gs, layer), p) <==> !ClashAt(layer, i, p)
  {
    ReplayedAt(fs, layer, i, p);
    AppliedAt(gs, layer, i, p);
    assert At(ReplayLayer(fs, layer), p).None? <==> p !in ReplayLayer(fs, layer);
    assert At(ApplyLayer(gs, layer), p).None? <==> p !in ApplyLayer(gs, layer);
    if i == -1 && HiddenBy(layer, p) {
      var j :| 0 <= j < |layer| && Hides(layer[j], p);
      assert HiddenAfter(layer, -1, p);
    }
  }

  lemma {:induction false} UntouchedStays(fs: Files, gs: Files, layer: Layer, p: string)
    requires !Touches(layer, p)
    ensures ModeAt(ReplayLayer(fs, layer), p) == ModeAt(fs, p) && ModeAt(ApplyLayer(gs, layer), p) == ModeAt(gs, p)
  {
    ReplayedAt(fs, layer, -1, p);
    AppliedAt(gs, layer, -1, p);
    assert At(ReplayLayer(fs, layer), p) == At(fs, p) && At(ApplyLayer(gs, layer), p) == At(gs, p);
  }

  lemma {:induction false} OneLastPut(layer: Layer, i: int, j: int, p: string)
    requires LastPut(layer, i, p) && (LastPut(layer, j, p) || (j == -1 && NeverPut(layer, p)))
    ensures i == j
  {
  }

  /** With one more layer on top: it decides what it touches and leaves the rest. */
  lemma {:induction false} TopClashSnoc(front: seq<Layer>, top: Layer, i: int, p: string)
    requires LastPut(top, i, p) || (i == -1 && NeverPut(top, p))
    ensures Touches(top, p) ==> (TopClash(front + [top], p) <==> ClashAt(top, i, p))
    ensures !Touches(top, p) ==> (TopClash(front + [top], p) <==> TopClash(front, p))
  {
    var layers := front + [top];
    assert layers[|front|] == top && forall j :: 0 <= j < |front| ==> layers[j] == front[j];
    if Touches(top, p) {
      assert TopTouch(layers, |front|, p);
      if TopClash(layers, p) {
        var k, x :| TopTouch(layers, k, p) && ClashAt(layers[k], x, p);
        assert k == |front|;
        OneLastPut(top, x, i, p);
      }
    } else {
      forall k ensures TopTouch(layers, k, p) <==> TopTouch(front, k, p) {
      }
    }
  }

  lemma {:induction false} ImageAgreesAt(layers: seq<Layer>, p: string)
    ensures ModeAt(ReplayImage(layers), p) == ModeAt(ApplyImage(layers), p) <==> !TopClash(layers, p)
  {
    if layers != [] {
      var front, top := layers[..|layers| - 1], layers[|layers| - 1];
      assert layers == front + [top];
      ImageAgreesAt(front, p);
      var i := PutOrNot(top, p);
      TopClashSnoc(front, top, i, p);
      if Touches(top, p) {
        TouchDecides(ReplayImage(front), ApplyImage(front), top, i, p);
      } else {
        UntouchedStays(ReplayImage(front), ApplyImage(front), top, p);
      }
    }
  }

  /** The tracked files are those of the image the specification builds if and only if, for every
      path, the topmost layer that puts or hides it does not hide a privileged file it put there. */
  lemma {:induction false} ImageAgreesExactly(layers: seq<Layer>)
    ensures PrivilegedOf(ReplayImage(layers)) == PrivilegedOf(ApplyImage(layers)) <==>
      forall p :: !TopClash(layers, p)
  {
    SameModesSamePrivileged(ReplayImage(layers), ApplyImage(layers));
    forall p ensures ModeAt(ReplayImage(layers), p) == ModeAt(ApplyImage(layers), p) <==> !TopClash(layers, p) {
      ImageAgreesAt(layers, p);
    }
  }

  /** Layers that list their whiteouts first build the image the specification builds. */
  lemma {:induction false} WhiteoutsFirstImageAgrees(layers: seq<Layer>)
    requires forall l :: l in layers ==> WhiteoutsFirst(l)
    ensures PrivilegedOf(ReplayImage(layers)) == PrivilegedOf(ApplyImage(layers))
  {
    ImageAgreesExactly(layers);
    forall p ensures !TopClash(layers, p) {
      forall k, i | TopTouch(layers, k, p) ensures !ClashAt(layers[k], i, p) {
        assert layers[k] in layers;
        WhiteoutsFirstNeverClash(layers[k]);
      }
    }
  }

  /** A clash below does not show once a higher layer puts the path again. */
  lemma {:induction false} HigherLayerHealsClash(layers: seq<Layer>, over: Entry)
    requires Puts(over)
    ensures !TopClash(layers + [[over]], over.path)
  {
    var top := [over];
    assert LastPut(top, 0, over.path) && top[0] == over;
    OpaqueIsNoFile(over);
    TopClashSnoc(layers, top, 0, over.path);
  }

  // --- Text prefixes are directories ------------------------------------------------------------------------

  /** A component: not empty, no slash. */
  predicate IsName(n: string) { n != "" && '/' !in n }

  predicate AreNames(names: seq<string>) { forall i :: 0 <= i < |names| ==> IsName(names[i]) }

  /** An absolute path; the root is the empty text here. */
  function PathOf(names: seq<string>): string {
    if names == [] then "" else PathOf(names[..|names| - 1]) + "/" + names[|names| - 1]
  }

  lemma {:induction false} StripIsStable(s: string)
    requires s == "" || s[|s| - 1] != '/'
    ensures StripSlashes(s) == s && StripSlashes(s + "/") == s
  {
    assert (s + "/")[..|s|] == s;
  }

  lemma {:induction false} PathEndsInName(names: seq<string>)
    requires AreNames(names)
    ensures PathOf(names) == "" || PathOf(names)[|PathOf(names)| - 1] != '/'
    ensures PathOf(names) == "" <==> names == []
  {
    if names != [] {
      var n := names[|names| - 1];
      assert IsName(n) && n[|n| - 1] in n;
    }
  }

  lemma {:induction false} SlashEndAfter(head: string, name: string)
    requires '/' !in name
    ensures SlashEnd(head + "/" + name) == |head| + 1
  {
    var p := head + "/" + name;
    if name != "" {
      var shorter := name[..|name| - 1];
      assert p[..|p| - 1] == head + "/" + shorter;
      assert p[|p| - 1] == name[|name| - 1] && name[|name| - 1] in name;
      SlashEndAfter(head, shorter);
    } else {
      assert p[|p| - 1] == '/';
    }
  }

  /** Splitting the path of an entry gives its directory and its name. */
  lemma {:induction false} SplitPath(dir: seq<string>, name: string)
    requires AreNames(dir) && IsName(name)
    ensures Tail(PathOf(dir + [name])) == name
    ensures StripSlashes(Head(PathOf(dir + [name]))) == PathOf(dir)
    ensures Head(PathOf(dir + [name])) == if dir == [] then "/" else PathOf(dir)
  {
    assert (dir + [name])[..|dir|] == dir;
    var p := PathOf(dir + [name]);
    assert p == PathOf(dir) + "/" + name;
    SlashEndAfter(PathOf(dir), name);
    PathEndsInName(dir);
    StripIsStable(PathOf(dir));
    assert p[..SlashEnd(p)] == PathOf(dir) + "/";
  }

  lemma {:induction false} SamePathSameNames(a: seq<string>, b: seq<string>)
    requires AreNames(a) && AreNames(b) && PathOf(a) == PathOf(b)
    ensures a == b
  {
    PathEndsInName(a);
    PathEndsInName(b);
    if a != [] {
      var a1, b1 := a[..|a| - 1], b[..|b| - 1];
      var x, y := a[|a| - 1], b[|b| - 1];
      SlashEndAfter(PathOf(a1), x);
      SlashEndAfter(PathOf(b1), y);
      assert PathOf(a)[..|PathOf(a1)|] == PathOf(a1) && PathOf(b)[..|PathOf(b1)|] == PathOf(b1);
      assert PathOf(a)[|PathOf(a1)| + 1..] == x && PathOf(b)[|PathOf(b1)| + 1..] == y;
      SamePathSameNames(a1, b1);
      assert a == a1 + [x] && b == b1 + [y];
    }
  }

  lemma {:induction false} BelowStarts(dir: seq<string>, names: seq<string>)
    requires dir < names
    ensures PathOf(dir) + "/" <= PathOf(names)
  {
    var front := names[..|names| - 1];
    if |dir| < |front| {
      assert dir == front[..|dir|];
      BelowStarts(dir, front);
    } else {
      assert dir == front;
    }
  }

  lemma {:induction false} SlashBeforeName(d: string, f: string, n: string)
    requires d + "/" <= f + "/" + n && '/' !in n
    ensures d == f || d + "/" <= f
  {
    var p := f + "/" + n;
    assert p[|d|] == '/' && p[..|d|] == d && p[..|f|] == f;
    forall k | |f| < k < |p| ensures p[k] != '/' {
      assert p[k] == n[k - |f| - 1] && p[k] in n;
    }
    if |d| < |f| { assert f[..|d| + 1] == p[..|d| + 1] == d + "/"; }
  }

  lemma {:induction false} StartsBelow(dir: seq<string>, names: seq<string>)
    requires AreNames(dir) && AreNames(names) && PathOf(dir) + "/" <= PathOf(names)
    ensures dir < names
  {
    var front, n := names[..|names| - 1], names[|names| - 1];
    assert IsName(n);
    SlashBeforeName(PathOf(dir), PathOf(front), n);
    if PathOf(dir) == PathOf(front) { SamePathSameNames(dir, front); } else { StartsBelow(dir, front); }
  }

  /** A path starts with a directory and a slash exactly when it lies below that directory. */
  lemma {:induction false} BelowIsPrefix(dir: seq<string>, names: seq<string>)
    requires AreNames(dir) && AreNames(names)
    ensures PathOf(dir) + "/" <= PathOf(names) <==> dir < names
  {
    if dir < names { BelowStarts(dir, names); }
    if PathOf(dir) + "/" <= PathOf(names) { StartsBelow(dir, names); }
  }

  const OPAQUE_MARKER := ".wh..wh..opq"

  /** An opaque marker hides exactly what lies below its directory. */
  lemma {:induction false} OpaqueHidesBelow(dir: seq<string>, e: Entry, names: seq<string>)
    requires AreNames(dir) && AreNames(names) && e.path == PathOf(dir + [OPAQUE_MARKER])
    ensures Hides(e, PathOf(names)) <==> dir < names
  {
    SplitPath(dir, OPAQUE_MARKER);
    BelowIsPrefix(dir, names);
  }

  lemma {:induction false} WhiteoutHidesText(e: Entry, name: string, hidden: string, p: string)
    requires Tail(e.path) == ".wh." + name && name != ".wh..opq" && Join(Head(e.path), name) == hidden
    ensures !Puts(e) && (Hides(e, p) <==> p == hidden || hidden + "/" <= p)
  {
    var t := Tail(e.path);
    assert t[..4] == ".wh." && t[4..] == name;
    assert OPAQUE_MARKER[4..] == ".wh..opq";
  }

  lemma {:induction false} AtOrBelow(under: seq<string>, names: seq<string>)
    requires AreNames(under) && AreNames(names)
    ensures PathOf(names) == PathOf(under) || PathOf(under) + "/" <= PathOf(names) <==> under <= names
  {
    BelowIsPrefix(under, names);
    if under <= names && |under| == |names| { assert under == names; }
    if PathOf(names) == PathOf(under) { SamePathSameNames(names, under); }
  }

  lemma {:induction false} WhiteoutPath(dir: seq<string>, name: string, path: string)
    requires AreNames(dir) && IsName(name) && path == PathOf(dir + [".wh." + name])
    ensures Tail(path) == ".wh." + name && Join(Head(path), name) == PathOf(dir + [name])
  {
    SplitPath(dir, ".wh." + name);
    PathEndsInName(dir);
    assert (dir + [name])[..|dir|] == dir;
  }

  /** A whiteout hides exactly the path it names and what lies below that path. */
  lemma {:induction false} WhiteoutHidesBelow(dir: seq<string>, name: string, e: Entry, names: seq<string>)
    requires AreNames(dir) && IsName(name) && AreNames(names)
    requires name != ".wh..opq" && e.path == PathOf(dir + [".wh." + name])
    ensures Hides(e, PathOf(names)) <==> dir + [name] <= names
  {
    WhiteoutPath(dir, name, e.path);
    WhiteoutHidesText(e, name, PathOf(dir + [name]), PathOf(names));
    AtOrBelow(dir + [name], names);
  }

  lemma {:induction false} PutThenHiddenClashes(put: Entry, white: Entry)
    requires Puts(put) && Privileged(put) && !Puts(white) && Hides(white, put.path)
    ensures Clash([put, white])
    ensures PrivilegedOf(ReplayLayer(map[], [put, white])) != PrivilegedOf(ApplyLayer(map[], [put, white]))
  {
    var layer := [put, white];
    assert Hides(layer[1], put.path);
    assert ClashAt(layer, 0, put.path);
    LayerAgreesExactly(map[], layer);
  }

  /** A privileged file put in place and then whited out by its own layer, as `bin/su` followed by
      `bin/.wh.su`: the specification keeps it, the code drops it. */
  lemma {:induction false} LateWhiteoutDropsFile(dir: seq<string>, name: string, put: Entry, white: Entry)
    requires AreNames(dir) && IsName(name) && !(".wh." <= name)
    requires put.path == PathOf(dir + [name]) && Privileged(put)
    requires white.path == PathOf(dir + [".wh." + name])
    ensures PrivilegedOf(ReplayLayer(map[], [put, white])) != PrivilegedOf(ApplyLayer(map[], [put, white]))
  {
    SplitPath(dir, name);
    WhiteoutPath(dir, name, white.path);
    assert name != ".wh..opq" by { assert ".wh..opq"[..4] == ".wh."; }
    WhiteoutHidesText(white, name, put.path, put.path);
    PutThenHiddenClashes(put, white);
  }
}
