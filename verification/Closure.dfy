/** The packages a release ships: `closure` of the license inventory, a worklist over nodes that
    pair a package name with the extras asked of it. */
module Closure {
  import opened Options

  // --- Names -------------------------------------------------------------------------------

  predicate IsSeparator(c: char) { c == '-' || c == '_' || c == '.' }

  /** ASCII lower case. */
  function Lower(c: char): char {
    if 'A' <= c <= 'Z' then c + ('a' - 'A') else c
  }

  /** Every run of separators becomes one `-`, and letters become lower case. */
  function Normalize(name: string): string {
    if name == "" then ""
    else
      var front, c := name[..|name| - 1], name[|name| - 1];
      if !IsSeparator(c) then Normalize(front) + [Lower(c)]
      else if front != "" && IsSeparator(front[|front| - 1]) then Normalize(front)
      else Normalize(front) + "-"
  }

  /** Lower case, no `_` or `.`, no two `-` in a row. */
  ghost predicate Normal(name: string) {
    && (forall i :: 0 <= i < |name| ==> !('A' <= name[i] <= 'Z') && name[i] != '_' && name[i] != '.')
    && (forall i, j :: 0 <= i < j < |name| && j == i + 1 ==> name[i] != '-' || name[j] != '-')
  }

  lemma {:induction false} NormalizeEnds(name: string)
    ensures (Normalize(name) == "") == (name == "")
    ensures name != "" ==>
      (Normalize(name)[|Normalize(name)| - 1] == '-') == IsSeparator(name[|name| - 1])
    ensures Normal(Normalize(name))
  {
    if name != "" { NormalizeEnds(name[..|name| - 1]); }
  }

  lemma {:induction false} NormalIsFixed(name: string)
    requires Normal(name)
    ensures Normalize(name) == name
  {
    if name != "" {
      var front := name[..|name| - 1];
      NormalIsFixed(front);
      assert name == front + [name[|name| - 1]];
    }
  }

  /** A name has a normal form, and normal forms are their own. */
  lemma {:induction false} NormalizeIsIdempotent(name: string)
    ensures Normal(Normalize(name)) && Normalize(Normalize(name)) == Normalize(name)
  {
    NormalizeEnds(name);
    NormalIsFixed(Normalize(name));
  }

  /** Where the first run of separators ends. */
  function RunEnd(name: string): (r: nat)
    ensures r <= |name|
  {
    if name != "" && name[0] in {'-', '_', '.'} then RunEnd(name[1..]) + 1 else 0
  }

  /** The pattern substitution read from the left: each longest run of `-`, `_` and `.` gives one
      `-`, and every other character its ASCII lower case. */
  function Substituted(name: string): string
    decreases |name|
  {
    if name == "" then ""
    else if RunEnd(name) > 0 then "-" + Substituted(name[RunEnd(name)..])
    else [if 'A' <= name[0] <= 'Z' then (name[0] as int + 32) as char else name[0]] + Substituted(name[1..])
  }

  lemma {:induction false} SubstitutedInRun(name: string, c: char)
    requires name != "" && IsSeparator(name[|name| - 1]) && IsSeparator(c)
    ensures Substituted(name + [c]) == Substituted(name)
    decreases |name|
  {
    var longer := name + [c];
    RunEndSnoc(name, c);
    var k := RunEnd(name);
    if k == |name| {
      assert longer[k + 1..] == "" == name[k..];
    } else if k > 0 {
      assert longer[k..] == name[k..] + [c];
      SubstitutedInRun(name[k..], c);
    } else {
      assert longer[1..] == name[1..] + [c] && |name| > 1;
      SubstitutedInRun(name[1..], c);
    }
  }

  lemma {:induction false} RunEndSnoc(name: string, c: char)
    ensures RunEnd(name + [c]) == if RunEnd(name) == |name| && IsSeparator(c) then |name| + 1 else RunEnd(name)
    ensures RunEnd(name) < |name| ==> !IsSeparator(name[RunEnd(name)])
  {
    var longer := name + [c];
    if name == "" {
      assert longer[1..] == "" && longer == [c];
    } else {
      assert longer[1..] == name[1..] + [c];
      RunEndSnoc(name[1..], c);
    }
  }

  lemma {:induction false} FirstRun(name: string)
    requires RunEnd(name) > 0
    ensures Substituted(name) == "-" + Substituted(name[RunEnd(name)..])
  {
  }

  /** Where the first step of the substitution ends, and what it writes. */
  function StepEnd(name: string): (r: nat)
    requires name != ""
    ensures 0 < r <= |name|
  {
    if RunEnd(name) > 0 then RunEnd(name) else 1
  }

  lemma {:induction false} FirstStep(name: string, longer: string)
    requires name != "" && longer != "" && longer[0] == name[0] && StepEnd(longer) == StepEnd(name) <= |longer|
    ensures var head := if RunEnd(name) > 0 then "-" else [Lower(name[0])];
      && Substituted(name) == head + Substituted(name[StepEnd(name)..])
      && Substituted(longer) == head + Substituted(longer[StepEnd(name)..])
  {
    if RunEnd(name) > 0 {
      FirstRun(name);
      assert RunEnd(longer) > 0;
      FirstRun(longer);
    }
  }

  lemma {:induction false} Prepend(head: string, a: string, b: string)
    ensures head + (a + b) == (head + a) + b
  {
  }

  function Tail(c: char): string { if IsSeparator(c) then "-" else [Lower(c)] }

  lemma {:induction false} SubstitutedOne(c: char)
    ensures Substituted([c]) == Tail(c)
  {
    assert [c][1..] == "" && Substituted("") == "";
  }

  lemma {:induction false} SubstitutedSnoc(name: string, c: char)
    requires name == "" || !IsSeparator(name[|name| - 1]) || !IsSeparator(c)
    ensures Substituted(name + [c]) == Substituted(name) + Tail(c)
    decreases |name|
  {
    var longer := name + [c];
    if name == "" {
      assert longer == [c];
      SubstitutedOne(c);
    } else {
      RunEndSnoc(name, c);
      RunEndsInSeparator(name);
      var k := StepEnd(name);
      var rest := name[k..];
      assert longer[k..] == rest + [c] && (rest != "" ==> rest[|rest| - 1] == name[|name| - 1]);
      SubstitutedSnoc(rest, c);
      FirstStep(name, longer);
      Prepend(if RunEnd(name) > 0 then "-" else [Lower(name[0])], Substituted(rest), Tail(c));
    }
  }

  lemma {:induction false} RunEndsInSeparator(name: string)
    ensures RunEnd(name) > 0 ==> IsSeparator(name[RunEnd(name) - 1]) && IsSeparator(name[0])
  {
    if RunEnd(name) > 1 { RunEndsInSeparator(name[1..]); }
  }

  /** Normalising is the pattern substitution in lower case. */
  lemma {:induction false} NormalizeSubstitutes(name: string)
    ensures Normalize(name) == Substituted(name)
  {
    if name != "" {
      var front, c := name[..|name| - 1], name[|name| - 1];
      assert name == front + [c];
      NormalizeSubstitutes(front);
      if IsSeparator(c) && front != "" && IsSeparator(front[|front| - 1]) {
        SubstitutedInRun(front, c);
      } else {
        SubstitutedSnoc(front, c);
      }
    }
  }

  // --- The lock ------------------------------------------------------------------------------

  datatype Dep = Dep(name: string, extras: seq<string>, marker: Option<string>)

  datatype Package = Package(name: string, dependencies: seq<Dep>, optional: map<string, seq<Dep>>)

  /** A package name together with the extras asked of it. */
  datatype Node = Node(name: string, extras: seq<string>)

  /** The lock's packages by normal name; of two with one name the later wins. */
  function Packages(lock: seq<Package>): map<string, Package> {
    if lock == [] then map[]
    else
      var p := lock[|lock| - 1];
      Packages(lock[..|lock| - 1])[Normalize(p.name) := p]
  }

  ghost predicate LastAt(lock: seq<Package>, i: int, name: string) {
    && 0 <= i < |lock| && Normalize(lock[i].name) == name
    && forall j :: i < j < |lock| ==> Normalize(lock[j].name) != name
  }

  lemma {:induction false} PackagesAreLast(lock: seq<Package>, name: string) returns (i: int)
    ensures name in Packages(lock) ==> LastAt(lock, i, name) && Packages(lock)[name] == lock[i]
    ensures name !in Packages(lock) ==> forall p :: p in lock ==> Normalize(p.name) != name
  {
    i := -1;
    if lock != [] {
      var front, p := lock[..|lock| - 1], lock[|lock| - 1];
      assert lock == front + [p];
      if Normalize(p.name) == name {
        i := |lock| - 1;
      } else {
        i := PackagesAreLast(front, name);
      }
    }
  }

  /** No marker, or one that holds on a target platform. */
  predicate MarkerOk(holds: string -> bool, marker: Option<string>) {
    marker.None? || marker.value == "" || holds(marker.value)
  }

  function Target(dep: Dep): Node { Node(Normalize(dep.name), dep.extras) }

  // --- What is reachable ----------------------------------------------------------------------

  /** The package declares the dependency, itself or through one of the extras. */
  predicate Declares(p: Package, extras: seq<string>, dep: Dep) {
    dep in p.dependencies || exists e :: e in extras && e in p.optional && dep in p.optional[e]
  }

  datatype Graph = Graph(packages: map<string, Package>, roots: seq<string>, holds: string -> bool)

  /** The dependency has no marker, an empty one, or one that holds, and asks for the node: the
      normal form of its name and all its extras. */
  ghost predicate AsksFor(holds: string -> bool, dep: Dep, b: Node) {
    && (dep.marker == None || dep.marker == Some("") || (dep.marker.Some? && holds(dep.marker.value)))
    && b.name == Substituted(dep.name) && b.extras == dep.extras
  }

  ghost predicate Needs(g: Graph, a: Node, b: Node) {
    && a.name in g.packages
    && exists dep :: Declares(g.packages[a.name], a.extras, dep) && AsksFor(g.holds, dep, b)
  }

  lemma {:induction false} TargetIsAsked(holds: string -> bool, dep: Dep, b: Node)
    ensures AsksFor(holds, dep, b) <==> MarkerOk(holds, dep.marker) && Target(dep) == b
  {
    NormalizeSubstitutes(dep.name);
  }

  ghost predicate IsRoot(g: Graph, n: Node) {
    n.extras == [] && exists r :: r in g.roots && Substituted(r) == n.name
  }

  /** A chain of needs from a root. */
  ghost predicate Path(g: Graph, path: seq<Node>) {
    && path != [] && IsRoot(g, path[0])
    && forall i, j :: 0 <= i < j < |path| && j == i + 1 ==> Needs(g, path[i], path[j])
  }

  ghost predicate Reachable(g: Graph, n: Node) {
    exists path :: Path(g, path) && path[|path| - 1] == n
  }

  lemma {:induction false} RootIsReachable(g: Graph, n: Node)
    requires IsRoot(g, n)
    ensures Reachable(g, n)
  {
    assert Path(g, [n]) && [n][0] == n;
  }

  lemma {:induction false} NeededIsReachable(g: Graph, a: Node, b: Node)
    requires Reachable(g, a) && Needs(g, a, b)
    ensures Reachable(g, b)
  {
    var path :| Path(g, path) && path[|path| - 1] == a;
    var longer := path + [b];
    assert Path(g, longer) && longer[|longer| - 1] == b;
  }

  /** The nodes hold the roots and whatever their members need. */
  ghost predicate Closed(g: Graph, nodes: set<Node>) {
    && (forall n :: IsRoot(g, n) ==> n in nodes)
    && (forall a, b :: a in nodes && Needs(g, a, b) ==> b in nodes)
  }

  lemma {:induction false} ClosedHoldsPath(g: Graph, nodes: set<Node>, path: seq<Node>, k: nat)
    requires Closed(g, nodes) && Path(g, path) && k < |path|
    ensures path[k] in nodes
  {
    if k > 0 {
      ClosedHoldsPath(g, nodes, path, k - 1);
      assert Needs(g, path[k - 1], path[k]);
    }
  }

  lemma {:induction false} ClosedHoldsReachable(g: Graph, nodes: set<Node>)
    requires Closed(g, nodes)
    ensures forall n :: Reachable(g, n) ==> n in nodes
  {
    forall n | Reachable(g, n) ensures n in nodes {
      var path :| Path(g, path) && path[|path| - 1] == n;
      ClosedHoldsPath(g, nodes, path, |path| - 1);
    }
  }

  // --- Finitely many nodes -----------------------------------------------------------------------

  ghost function DepsOf(p: Package): set<Dep> {
    (set d | d in p.dependencies) + (set e, d | e in p.optional && d in p.optional[e] :: d)
  }

  /** Every node the worklist could ever hold. */
  ghost function Universe(g: Graph): set<Node> {
    (set r | r in g.roots :: Node(Normalize(r), []))
    + (set name, d | name in g.packages && d in DepsOf(g.packages[name]) :: Target(d))
  }

  lemma {:induction false} UniverseHolds(g: Graph)
    ensures forall n :: IsRoot(g, n) ==> n in Universe(g)
    ensures forall a, b :: Needs(g, a, b) ==> b in Universe(g)
  {
    forall n | IsRoot(g, n) ensures n in Universe(g) {
      var r :| r in g.roots && Substituted(r) == n.name;
      NormalizeSubstitutes(r);
      assert n == Node(Normalize(r), []);
    }
    forall a, b | Needs(g, a, b) ensures b in Universe(g) {
      var dep :| Declares(g.packages[a.name], a.extras, dep) && AsksFor(g.holds, dep, b);
      TargetIsAsked(g.holds, dep, b);
      assert dep in DepsOf(g.packages[a.name]);
    }
  }

  /** The reachable nodes: finitely many, and closed. */
  ghost function Reach(g: Graph): set<Node> { set n | n in Universe(g) && Reachable(g, n) }

  lemma {:induction false} ReachIsClosed(g: Graph)
    ensures Closed(g, Reach(g))
    ensures forall n :: n in Reach(g) <==> Reachable(g, n)
  {
    UniverseHolds(g);
    forall n | IsRoot(g, n) ensures n in Reach(g) { RootIsReachable(g, n); }
    forall a, b | a in Reach(g) && Needs(g, a, b) ensures b in Reach(g) { NeededIsReachable(g, a, b); }
    ClosedHoldsReachable(g, Reach(g));
  }

  // --- The worklist ---------------------------------------------------------------------------------

  function RootNodes(g: Graph): seq<Node> {
    seq(|g.roots|, i requires 0 <= i < |g.roots| => Node(Normalize(g.roots[i]), []))
  }

  lemma {:induction false} RootNodesAreRoots(g: Graph, n: Node)
    ensures n in RootNodes(g) <==> IsRoot(g, n)
  {
    forall i | 0 <= i < |g.roots| ensures Normalize(g.roots[i]) == Substituted(g.roots[i]) {
      NormalizeSubstitutes(g.roots[i]);
    }
    if IsRoot(g, n) {
      var i :| 0 <= i < |g.roots| && Substituted(g.roots[i]) == n.name;
      assert RootNodes(g)[i] == n;
    }
  }

  method DepsFor(p: Package, extras: seq<string>) returns (deps: seq<Dep>)
    ensures forall d :: d in deps <==> Declares(p, extras, d)
  {
    deps := p.dependencies;
    for i := 0 to |extras|
      invariant forall d :: d in deps <==> Declares(p, extras[..i], d)
    {
      assert extras[..i + 1] == extras[..i] + [extras[i]];
      if extras[i] in p.optional { deps := deps + p.optional[extras[i]]; }
    }
    assert extras[..|extras|] == extras;
  }

  /** One of the dependencies asks for the node. */
  ghost predicate Asked(holds: string -> bool, deps: seq<Dep>, n: Node) {
    exists d :: d in deps && AsksFor(holds, d, n)
  }

  lemma {:induction false} PushOne(holds: string -> bool, deps: seq<Dep>, dep: Dep)
    ensures forall n :: Asked(holds, deps + [dep], n) <==>
      Asked(holds, deps, n) || (MarkerOk(holds, dep.marker) && n == Target(dep))
  {
    var more := deps + [dep];
    forall n ensures
      Asked(holds, more, n) <==> Asked(holds, deps, n) || (MarkerOk(holds, dep.marker) && n == Target(dep))
    {
      TargetIsAsked(holds, dep, n);
      if Asked(holds, deps, n) {
        var d :| d in deps && AsksFor(holds, d, n);
        assert d in more;
      }
      assert dep in more;
    }
  }

  method Push(g: Graph, deps: seq<Dep>, stack0: seq<Node>) returns (stack: seq<Node>)
    ensures stack0 <= stack
    ensures forall n :: n in stack[|stack0|..] <==> Asked(g.holds, deps, n)
  {
    ghost var pushed: seq<Node> := [];
    stack := stack0;
    for i := 0 to |deps|
      invariant stack == stack0 + pushed
      invariant forall n :: n in pushed <==> Asked(g.holds, deps[..i], n)
    {
      assert deps[..i + 1] == deps[..i] + [deps[i]];
      PushOne(g.holds, deps[..i], deps[i]);
      if MarkerOk(g.holds, deps[i].marker) {
        stack := stack + [Target(deps[i])];
        pushed := pushed + [Target(deps[i])];
      }
    }
    assert deps[..|deps|] == deps && stack[|stack0|..] == pushed;
  }

  function Elements(s: seq<Node>): set<Node> { set n | n in s }

  /** Everything met stays within `reach`; the roots and what the visited nodes need, if not
      visited, wait on the stack. */
  ghost predicate Explored(g: Graph, reach: set<Node>, visited: set<Node>, waiting: set<Node>) {
    && visited + waiting <= reach
    && (forall n :: n in visited ==> n.name in g.packages)
    && (forall n :: IsRoot(g, n) ==> n in visited || n in waiting)
    && (forall a, b :: a in visited && Needs(g, a, b) ==> b in visited || b in waiting)
  }

  lemma {:induction false} StartsExplored(g: Graph, reach: set<Node>)
    requires Closed(g, reach)
    ensures Explored(g, reach, {}, Elements(RootNodes(g)))
  {
    forall n ensures n in Elements(RootNodes(g)) <==> IsRoot(g, n) { RootNodesAreRoots(g, n); }
  }

  lemma {:induction false} Visit(g: Graph, reach: set<Node>, visited: set<Node>, rest: set<Node>, n: Node,
      pushed: set<Node>)
    requires Closed(g, reach) && Explored(g, reach, visited, rest + {n}) && n.name in g.packages
    requires forall m :: m in pushed <==> Needs(g, n, m)
    ensures Explored(g, reach, visited + {n}, rest + pushed)
  {
  }

  lemma {:induction false} AskedIsNeeded(g: Graph, n: Node, deps: seq<Dep>, m: Node)
    requires n.name in g.packages && forall d :: d in deps <==> Declares(g.packages[n.name], n.extras, d)
    ensures Asked(g.holds, deps, m) <==> Needs(g, n, m)
  {
  }

  /** Visiting a node of the lock: what it needs goes on the stack. */
  method Expand(g: Graph, ghost reach: set<Node>, ghost visited: set<Node>, node: Node, rest: seq<Node>)
    returns (next: seq<Node>)
    requires Closed(g, reach) && Explored(g, reach, visited, Elements(rest) + {node})
    requires node.name in g.packages
    ensures Explored(g, reach, visited + {node}, Elements(next))
  {
    var deps := DepsFor(g.packages[node.name], node.extras);
    next := Push(g, deps, rest);
    ghost var pushed := next[|rest|..];
    forall m ensures m in Elements(pushed) <==> Needs(g, node, m) { AskedIsNeeded(g, node, deps, m); }
    Visit(g, reach, visited, Elements(rest), node, Elements(pushed));
    assert next == rest + pushed;
    assert Elements(next) == Elements(rest) + Elements(pushed);
  }

  lemma {:induction false} ExploredAll(g: Graph, reach: set<Node>, visited: set<Node>)
    requires Explored(g, reach, visited, {})
    ensures Closed(g, visited) && visited <= reach
  {
  }

  /** The loop: it visits a closed set of nodes within any closed set, or meets a node of that
      set whose name is not in the lock. */
  method Explore(g: Graph, ghost reach: set<Node>) returns (visited: set<Node>, missing: Option<Node>)
    requires Closed(g, reach)
    ensures missing.None? ==>
      Closed(g, visited) && visited <= reach && forall n :: n in visited ==> n.name in g.packages
    ensures missing.Some? ==> missing.value in reach && missing.value.name !in g.packages
  {
    visited, missing := {}, None;
    var stack := RootNodes(g);
    StartsExplored(g, reach);
    while stack != []
      invariant Explored(g, reach, visited, Elements(stack))
      decreases reach - visited, |stack|
    {
      var node, rest := stack[|stack| - 1], stack[..|stack| - 1];
      assert Elements(stack) == Elements(rest) + {node} by { assert stack == rest + [node]; }
      if node in visited {
        stack := rest;
      } else if node.name !in g.packages {
        return visited, Some(node);
      } else {
        stack := Expand(g, reach, visited, node, rest);
        visited := visited + {node};
      }
    }
    assert Elements(stack) == {};
    ExploredAll(g, reach, visited);
  }

  /** The names of everything reachable, or nothing when a reachable name is not in the lock. */
  ghost predicate IsClosure(g: Graph, r: Option<set<string>>) {
    && (r.None? <==> exists n :: Reachable(g, n) && n.name !in g.packages)
    && (r.Some? ==> forall name :: name in r.value <==> exists n :: Reachable(g, n) && n.name == name)
  }

  lemma {:induction false} VisitedIsClosure(g: Graph, visited: set<Node>)
    requires Closed(g, visited) && visited <= Reach(g) && forall n :: n in visited ==> n.name in g.packages
    ensures IsClosure(g, Some(set n | n in visited :: n.name))
  {
    ReachIsClosed(g);
    ClosedHoldsReachable(g, visited);
  }

  /** `closure`: it ends on every lock, cycles included, with exactly the reachable names. */
  method LockClosure(lock: seq<Package>, roots: seq<string>, holds: string -> bool) returns (r: Option<set<string>>)
    ensures IsClosure(Graph(Packages(lock), roots, holds), r)
  {
    var g := Graph(Packages(lock), roots, holds);
    ReachIsClosed(g);
    var visited, missing := Explore(g, Reach(g));
    if missing.Some? {
      r := None;
    } else {
      VisitedIsClosure(g, visited);
      r := Some(set n | n in visited :: n.name);
    }
  }

  /** What a reachable package is asked for through an extra is shipped: if an accepted dependency asks
      for extra `e`, every accepted dependency that `e` stands for has its name in the result. */
  lemma {:induction false} ExtrasAreShipped(g: Graph, r: Option<set<string>>, a: Node, dep: Dep, b: Node, e: string,
      d: Dep, c: Node)
    requires IsClosure(g, r) && r.Some? && Reachable(g, a)
    requires a.name in g.packages && Declares(g.packages[a.name], a.extras, dep) && AsksFor(g.holds, dep, b)
    requires e in dep.extras && b.name in g.packages && e in g.packages[b.name].optional
    requires d in g.packages[b.name].optional[e] && AsksFor(g.holds, d, c)
    ensures b.name in r.value && Substituted(d.name) in r.value
  {
    NeededIsReachable(g, a, b);
    assert Declares(g.packages[b.name], b.extras, d);
    NeededIsReachable(g, b, c);
  }
}
