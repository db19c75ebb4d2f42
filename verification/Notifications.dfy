/** Browser notifications for pending requests: `InputRequestNotifier`, one per tab, and any
    number of tabs that tell each other over a broadcast channel. */
module Notifications {
  import opened Options

  // --- One tab ---------------------------------------------------------------------------------

  /** What the browser answers while one request is looked at: whether notifications are wanted
      and allowed, whether the tab is in the background, and whether showing one succeeds. */
  datatype Answer = Answer(active: bool, background: bool, granted: bool)

  datatype Kind = Notified | Seen

  datatype Post = Post(kind: Kind, id: string)

  /** `seen` is absent until the first load; `linked` says whether a channel is attached. */
  datatype Tab = Tab(seen: Option<set<string>>, handled: set<string>, open: set<string>, linked: bool)

  /** A tab part way through an update: what it has shown and posted so far. */
  datatype Progress = Progress(tab: Tab, shown: seq<string>, posts: seq<Post>)

  const NEW_TAB := Tab(None, {}, {}, false)

  function Ids(pending: seq<string>): set<string> { set id | id in pending }

  function Said(tab: Tab, kind: Kind, id: string): seq<Post> {
    if tab.linked then [Post(kind, id)] else []
  }

  /** One pending request. */
  function Look(p: Progress, id: string, a: Answer): Progress
    requires p.tab.seen.Some?
  {
    if id in p.tab.seen.value then p
    else
      var tab := p.tab.(seen := Some(p.tab.seen.value + {id}));
      if id in tab.handled || !a.active then p.(tab := tab)
      else if !a.background then p.(tab := tab, posts := p.posts + Said(tab, Seen, id))
      else if !a.granted then p.(tab := tab)
      else Progress(tab.(open := tab.open + {id}), p.shown + [id], p.posts + Said(tab, Notified, id))
  }

  /** The first `k` pending requests. */
  function LookedAt(tab: Tab, pending: seq<string>, answers: seq<Answer>, k: nat): (p: Progress)
    requires tab.seen.Some? && k <= |pending| == |answers|
    ensures p.tab.seen.Some?
  {
    if k == 0 then Progress(tab, [], [])
    else Look(LookedAt(tab, pending, answers, k - 1), pending[k - 1], answers[k - 1])
  }

  /** `update`: close what is no longer pending, then either remember the first load or look at
      every request. */
  function Updated(tab: Tab, pending: seq<string>, answers: seq<Answer>): Progress
    requires |pending| == |answers|
  {
    var kept := tab.(open := tab.open * Ids(pending));
    if tab.seen.None? then Progress(kept.(seen := Some(Ids(pending))), [], [])
    else LookedAt(kept, pending, answers, |pending|)
  }

  class InputRequestNotifier {
    var seen: Option<set<string>>
    var handled: set<string>
    var open: set<string>
    var linked: bool

    ghost function Value(): Tab
      reads this
    {
      Tab(seen, handled, open, linked)
    }

    constructor ()
      ensures Value() == NEW_TAB
    {
      seen, handled, open, linked := None, {}, {}, false;
    }

    method SetChannel(on: bool)
      modifies this
      ensures Value() == old(Value()).(linked := on)
    {
      linked := on;
    }

    method CloseStale(ids: set<string>)
      modifies this
      ensures Value() == old(Value()).(open := old(open) * ids)
    {
      var left := open;
      while left != {}
        invariant Value() == old(Value()).(open := open) && left <= old(open)
        invariant forall id :: id in open <==> id in old(open) && (id in ids || id in left)
        decreases left
      {
        var id :| id in left;
        left := left - {id};
        if id !in ids { open := open - {id}; }
      }
      assert open == old(open) * ids;
    }

    method Update(pending: seq<string>, answers: seq<Answer>) returns (notified: seq<string>, posts: seq<Post>)
      requires |pending| == |answers|
      modifies this
      ensures var p := Updated(old(Value()), pending, answers);
        Value() == p.tab && notified == p.shown && posts == p.posts
    {
      var ids := Ids(pending);
      CloseStale(ids);
      notified, posts := [], [];
      if seen.None? {
        seen := Some(ids);
        return;
      }
      ghost var kept := Value();
      for i := 0 to |pending|
        invariant seen.Some? && Progress(Value(), notified, posts) == LookedAt(kept, pending, answers, i)
      {
        var id, a := pending[i], answers[i];
        if id in seen.value { continue; }
        seen := Some(seen.value + {id});
        if id in handled || !a.active { continue; }
        if !a.background {
          if linked { posts := posts + [Post(Seen, id)]; }
          continue;
        }
        if !a.granted { continue; }
        open := open + {id};
        if linked { posts := posts + [Post(Notified, id)]; }
        notified := notified + [id];
      }
    }

    method Receive(m: Post)
      modifies this
      ensures Value() == old(Value()).(handled := old(handled) + {m.id})
    {
      handled := handled + {m.id};
    }

    method Click(id: string)
      modifies this
      ensures Value() == old(Value()).(open := old(open) - {id})
    {
      open := open - {id};
    }

    method CloseAll()
      modifies this
      ensures Value() == old(Value()).(open := {})
    {
      open := {};
    }
  }

  // --- What one update shows -----------------------------------------------------------------------

  /** The first of the first `k` pending entries with this id is at `i`. */
  predicate FirstAt(pending: seq<string>, i: int, id: string) {
    0 <= i < |pending| && pending[i] == id && id !in pending[..i]
  }

  predicate Wants(a: Answer) { a.active && a.background && a.granted }

  predicate Watches(a: Answer) { a.active && !a.background }

  /** The request is new to the tab, untold by others, and its first entry met such answers. */
  ghost predicate Met(tab: Tab, pending: seq<string>, answers: seq<Answer>, k: nat, id: string, such: Answer -> bool)
    requires tab.seen.Some? && k <= |pending| == |answers|
  {
    && id !in tab.seen.value && id !in tab.handled
    && exists i :: 0 <= i < k && FirstAt(pending, i, id) && such(answers[i])
  }

  /** The request is to be shown. */
  ghost predicate Due(tab: Tab, pending: seq<string>, answers: seq<Answer>, k: nat, id: string)
    requires tab.seen.Some? && k <= |pending| == |answers|
  {
    Met(tab, pending, answers, k, id, Wants)
  }

  /** The owner is looking at the tab: the others are told, and nothing is shown. */
  ghost predicate Watched(tab: Tab, pending: seq<string>, answers: seq<Answer>, k: nat, id: string)
    requires tab.seen.Some? && k <= |pending| == |answers|
  {
    Met(tab, pending, answers, k, id, Watches)
  }

  ghost predicate Worth(tab: Tab, pending: seq<string>, answers: seq<Answer>, k: nat, m: Post)
    requires tab.seen.Some? && k <= |pending| == |answers|
  {
    if m.kind.Notified? then Due(tab, pending, answers, k, m.id) else Watched(tab, pending, answers, k, m.id)
  }

  /** What the tab tells the others: what it showed, and what its owner was looking at. */
  ghost predicate PostsRight(tab: Tab, pending: seq<string>, answers: seq<Answer>, k: nat, posts: seq<Post>)
    requires tab.seen.Some? && k <= |pending| == |answers|
  {
    forall m :: m in posts <==> tab.linked && Worth(tab, pending, answers, k, m)
  }

  ghost predicate Distinct(ids: seq<string>) {
    forall i, j :: 0 <= i < j < |ids| ==> ids[i] != ids[j]
  }

  /** Looking at `k` requests: what is seen, shown, open and left alone. */
  ghost predicate LooksRight(tab: Tab, pending: seq<string>, answers: seq<Answer>, k: nat, p: Progress)
    requires tab.seen.Some? && k <= |pending| == |answers| && p.tab.seen.Some?
  {
    && p.tab.seen.value == tab.seen.value + Ids(pending[..k])
    && p.tab.handled == tab.handled && p.tab.linked == tab.linked
    && p.tab.open == tab.open + Ids(p.shown)
    && Distinct(p.shown)
    && (forall id :: id in p.shown <==> Due(tab, pending, answers, k, id))
    && PostsRight(tab, pending, answers, k, p.posts)
  }

  lemma {:induction false} MetNext(tab: Tab, pending: seq<string>, answers: seq<Answer>, k: nat, id: string,
      such: Answer -> bool)
    requires tab.seen.Some? && 0 < k <= |pending| == |answers|
    ensures Met(tab, pending, answers, k, id, such) <==>
      || Met(tab, pending, answers, k - 1, id, such)
      || (id == pending[k - 1] && id !in tab.seen.value && id !in tab.handled
          && id !in pending[..k - 1] && such(answers[k - 1]))
  {
    if id == pending[k - 1] && id !in pending[..k - 1] {
      assert FirstAt(pending, k - 1, id);
    }
  }

  /** The request at `k - 1` is met there for the first time. */
  ghost predicate NewAt(tab: Tab, pending: seq<string>, k: nat)
    requires tab.seen.Some? && 0 < k <= |pending|
  {
    pending[k - 1] !in tab.seen.value && pending[k - 1] !in tab.handled && pending[k - 1] !in pending[..k - 1]
  }

  predicate WorthAt(id: string, a: Answer, m: Post) {
    m.id == id && if m.kind.Notified? then Wants(a) else Watches(a)
  }

  lemma {:induction false} PostsNext(tab: Tab, pending: seq<string>, answers: seq<Answer>, k: nat, posts: seq<Post>,
      now: seq<Post>)
    requires tab.seen.Some? && 0 < k <= |pending| == |answers|
    requires PostsRight(tab, pending, answers, k - 1, posts)
    requires forall m :: m in now <==>
      tab.linked && NewAt(tab, pending, k) && WorthAt(pending[k - 1], answers[k - 1], m)
    ensures PostsRight(tab, pending, answers, k, posts + now)
  {
    forall m ensures m in posts + now <==> tab.linked && Worth(tab, pending, answers, k, m) {
      MetNext(tab, pending, answers, k, m.id, Wants);
      MetNext(tab, pending, answers, k, m.id, Watches);
    }
  }

  lemma {:induction false} ShownNext(shown: seq<string>, id: string)
    requires Distinct(shown) && id !in shown
    ensures Distinct(shown + [id]) && Ids(shown + [id]) == Ids(shown) + {id}
  {
  }

  /** What looking at one request adds to the posts. */
  function PostsOf(p: Progress, id: string, a: Answer): seq<Post>
    requires p.tab.seen.Some?
  {
    if id in p.tab.seen.value || id in p.tab.handled || !a.active then []
    else if !a.background then Said(p.tab, Seen, id)
    else if a.granted then Said(p.tab, Notified, id) else []
  }

  lemma {:induction false} LookPosts(tab: Tab, pending: seq<string>, answers: seq<Answer>, k: nat, p: Progress)
    requires tab.seen.Some? && 0 < k <= |pending| == |answers| && p.tab.seen.Some?
    requires LooksRight(tab, pending, answers, k - 1, p)
    ensures PostsRight(tab, pending, answers, k, Look(p, pending[k - 1], answers[k - 1]).posts)
  {
    var id, a := pending[k - 1], answers[k - 1];
    assert id in p.tab.seen.value <==> id in tab.seen.value || id in pending[..k - 1];
    var now := PostsOf(p, id, a);
    PostsNext(tab, pending, answers, k, p.posts, now);
    assert p.posts + [] == p.posts;
    assert Look(p, id, a).posts == p.posts + now;
  }

  lemma {:induction false} LookKeepsRight(tab: Tab, pending: seq<string>, answers: seq<Answer>, k: nat, p: Progress)
    requires tab.seen.Some? && 0 < k <= |pending| == |answers| && p.tab.seen.Some?
    requires LooksRight(tab, pending, answers, k - 1, p)
    ensures LooksRight(tab, pending, answers, k, Look(p, pending[k - 1], answers[k - 1]))
  {
    LookPosts(tab, pending, answers, k, p);
    var id := pending[k - 1];
    assert pending[..k] == pending[..k - 1] + [id];
    forall x ensures Due(tab, pending, answers, k, x) <==>
      || Due(tab, pending, answers, k - 1, x)
      || (x == id && id !in p.tab.seen.value && id !in tab.handled && Wants(answers[k - 1]))
    {
      MetNext(tab, pending, answers, k, x, Wants);
    }
    if id !in p.tab.seen.value {
      assert id !in p.shown;
      ShownNext(p.shown, id);
    }
  }

  lemma {:induction false} LookingIsRight(tab: Tab, pending: seq<string>, answers: seq<Answer>, k: nat)
    requires tab.seen.Some? && k <= |pending| == |answers|
    ensures LooksRight(tab, pending, answers, k, LookedAt(tab, pending, answers, k))
  {
    if k == 0 {
      assert pending[..0] == [];
    } else {
      LookingIsRight(tab, pending, answers, k - 1);
      LookKeepsRight(tab, pending, answers, k, LookedAt(tab, pending, answers, k - 1));
    }
  }

  /** An update shows exactly the due requests, once each, and leaves open exactly what was open
      and is still pending, and what it showed. The first load shows nothing. */
  lemma {:induction false} UpdateShowsExactlyTheDue(tab: Tab, pending: seq<string>, answers: seq<Answer>)
    requires |pending| == |answers|
    ensures var p := Updated(tab, pending, answers);
      && Distinct(p.shown)
      && (forall id :: id in p.shown <==> tab.seen.Some? && Due(tab, pending, answers, |pending|, id))
      && p.tab.open == tab.open * Ids(pending) + Ids(p.shown)
      && p.tab.open <= Ids(pending)
      && p.tab.seen == Some((if tab.seen.Some? then tab.seen.value else {}) + Ids(pending))
      && p.tab.handled == tab.handled && p.tab.linked == tab.linked
      && (forall m :: m in p.posts <==> tab.linked && tab.seen.Some? && Worth(tab, pending, answers, |pending|, m))
  {
    var kept := tab.(open := tab.open * Ids(pending));
    assert pending[..|pending|] == pending;
    assert {} + Ids(pending) == Ids(pending);
    if tab.seen.Some? {
      LookingIsRight(kept, pending, answers, |pending|);
      forall id ensures Due(kept, pending, answers, |pending|, id) <==> Due(tab, pending, answers, |pending|, id) {
      }
      forall m ensures Worth(kept, pending, answers, |pending|, m) <==> Worth(tab, pending, answers, |pending|, m) {
      }
    }
  }

  // --- Many tabs -----------------------------------------------------------------------------------

  /** A tab in the world: the messages on their way to it, and for the record what it has shown
      and what was pending at its first load. */
  datatype Member = Member(tab: Tab, inbox: seq<Post>, shown: seq<string>, first: Option<set<string>>)

  type World = seq<Member>

  /** A tab opens, updates, receives one of its messages in any order, attaches or drops its
      channel, closes its notifications, or has one clicked. */
  datatype Step =
    | Join
    | Update(i: nat, pending: seq<string>, answers: seq<Answer>)
    | Receive(i: nat, k: nat)
    | Link(i: nat, on: bool)
    | Close(i: nat)
    | Click(i: nat, id: string)

  predicate Enabled(w: World, s: Step) {
    && (s.Join? || s.i < |w|)
    && (s.Update? ==> |s.pending| == |s.answers|)
    && (s.Receive? ==> s.k < |w[s.i].inbox|)
  }

  /** A post reaches every other tab whose channel is attached. */
  function Hears(m: Member, posts: seq<Post>): Member {
    if m.tab.linked then m.(inbox := m.inbox + posts) else m
  }

  function UpdatedMember(m: Member, pending: seq<string>, answers: seq<Answer>): Member
    requires |pending| == |answers|
  {
    var p := Updated(m.tab, pending, answers);
    Member(p.tab, m.inbox, m.shown + p.shown, if m.first.None? then Some(Ids(pending)) else m.first)
  }

  /** What the step does to the tab it is about. */
  function Acts(m: Member, s: Step): Member
    requires !s.Join? && (s.Update? ==> |s.pending| == |s.answers|) && (s.Receive? ==> s.k < |m.inbox|)
  {
    match s
    case Update(_, pending, answers) => UpdatedMember(m, pending, answers)
    case Receive(_, k) =>
      m.(tab := m.tab.(handled := m.tab.handled + {m.inbox[k].id}), inbox := m.inbox[..k] + m.inbox[k + 1..])
    case Link(_, on) => m.(tab := m.tab.(linked := on), inbox := [])
    case Close(_) => m.(tab := m.tab.(open := {}))
    case Click(_, id) => m.(tab := m.tab.(open := m.tab.open - {id}))
  }

  /** What the step posts. */
  function Posts(w: World, s: Step): seq<Post>
    requires Enabled(w, s)
  {
    if s.Update? then Updated(w[s.i].tab, s.pending, s.answers).posts else []
  }

  function Apply(w: World, s: Step): World
    requires Enabled(w, s)
  {
    if s.Join? then w + [Member(NEW_TAB, [], [], None)]
    else seq(|w|, j requires 0 <= j < |w| => if j == s.i then Acts(w[j], s) else Hears(w[j], Posts(w, s)))
  }

  ghost predicate Moves(run: seq<World>, steps: seq<Step>, k: nat)
    requires k < |steps| && |run| == |steps| + 1
  {
    Enabled(run[k], steps[k]) && run[k + 1] == Apply(run[k], steps[k])
  }

  /** A run from no tabs at all. */
  ghost predicate Run(run: seq<World>, steps: seq<Step>) {
    && |run| == |steps| + 1 && run[0] == []
    && forall k :: 0 <= k < |steps| ==> Moves(run, steps, k)
  }

  // --- Safety of every run ----------------------------------------------------------------------------

  /** No request is shown twice, none that was pending at the first load is shown, and only shown
      requests are open. */
  ghost predicate MemberOk(m: Member) {
    && (m.tab.seen.None? <==> m.first.None?)
    && (m.tab.seen.None? ==> m.shown == [])
    && (m.tab.seen.Some? ==>
          && m.first.value <= m.tab.seen.value
          && forall id :: id in m.shown ==> id in m.tab.seen.value && id !in m.first.value)
    && Distinct(m.shown)
    && m.tab.open <= Ids(m.shown)
  }

  ghost predicate WorldOk(w: World) { forall i :: 0 <= i < |w| ==> MemberOk(w[i]) }

  lemma {:induction false} DistinctAppend(a: seq<string>, b: seq<string>)
    requires Distinct(a) && Distinct(b) && forall id :: id in a ==> id !in b
    ensures Distinct(a + b) && Ids(a + b) == Ids(a) + Ids(b)
  {
    forall i, j | 0 <= i < j < |a + b| ensures (a + b)[i] != (a + b)[j] {
      if i < |a| <= j { assert (a + b)[i] in a && (a + b)[j] in b; }
    }
  }

  lemma {:induction false} UpdateKeepsOk(m: Member, pending: seq<string>, answers: seq<Answer>)
    requires MemberOk(m) && |pending| == |answers|
    ensures MemberOk(UpdatedMember(m, pending, answers))
  {
    UpdateShowsExactlyTheDue(m.tab, pending, answers);
    DistinctAppend(m.shown, Updated(m.tab, pending, answers).shown);
  }

  lemma {:induction false} StepKeepsOk(w: World, s: Step)
    requires WorldOk(w) && Enabled(w, s)
    ensures WorldOk(Apply(w, s))
  {
    if s.Update? { UpdateKeepsOk(w[s.i], s.pending, s.answers); }
  }

  /** Every state of every run: each tab has shown each request at most once, and never one that
      was pending when the tab first loaded. */
  lemma {:induction false} EveryRunIsOk(run: seq<World>, steps: seq<Step>, k: nat)
    requires Run(run, steps) && k < |run|
    ensures WorldOk(run[k])
  {
    if k > 0 {
      EveryRunIsOk(run, steps, k - 1);
      assert Moves(run, steps, k - 1);
      StepKeepsOk(run[k - 1], steps[k - 1]);
    }
  }

  // --- Two tabs, one request ----------------------------------------------------------------------------

  /** Tab `i` shows the request in step `k`. */
  ghost predicate ShowsIn(run: seq<World>, steps: seq<Step>, k: nat, i: nat, id: string)
    requires Run(run, steps) && k < |steps|
  {
    && steps[k].Update? && steps[k].i == i && i < |run[k]|
    && Moves(run, steps, k)
    && id in Updated(run[k][i].tab, steps[k].pending, steps[k].answers).shown
  }

  /** Tab `i` tells the others about the request in step `k`: it showed it, or met it in the
      foreground. */
  ghost predicate TellsIn(run: seq<World>, steps: seq<Step>, k: nat, i: nat, id: string)
    requires Run(run, steps) && k < |steps|
  {
    && steps[k].Update? && steps[k].i == i && i < |run[k]|
    && Moves(run, steps, k)
    && exists m :: m in Posts(run[k], steps[k]) && m.id == id
  }

  lemma {:induction false} ShowingTells(run: seq<World>, steps: seq<Step>, k: nat, i: nat, id: string)
    requires Run(run, steps) && k < |steps| && ShowsIn(run, steps, k, i, id) && run[k][i].tab.linked
    ensures TellsIn(run, steps, k, i, id)
  {
    UpdateShowsExactlyTheDue(run[k][i].tab, steps[k].pending, steps[k].answers);
    assert Post(Notified, id) in Posts(run[k], steps[k]);
  }

  /** A message about the request waits in the tab's inbox. */
  ghost predicate Waits(m: Member, id: string) { exists p :: p in m.inbox && p.id == id }

  /** The tab keeps its channel through the steps from `a` up to `b`. */
  ghost predicate KeepsChannel(run: seq<World>, steps: seq<Step>, a: nat, b: nat, j: nat)
    requires Run(run, steps) && a <= b <= |steps|
  {
    && j < |run[a]| && run[a][j].tab.linked
    && forall k :: a <= k < b ==> !(steps[k].Link? && steps[k].i == j)
  }

  lemma {:induction false} ReceiveOrWait(m: Member, k: nat, id: string)
    requires k < |m.inbox| && Waits(m, id)
    ensures var n := Acts(m, Receive(0, k)); Waits(n, id) || id in n.tab.handled
  {
    var p :| p in m.inbox && p.id == id;
    var rest := m.inbox[..k] + m.inbox[k + 1..];
    var x :| 0 <= x < |m.inbox| && m.inbox[x] == p;
    if x < k { assert rest[x] == p; } else if x > k { assert rest[x - 1] == p; }
  }

  /** One step neither loses a waiting message nor forgets a received one. */
  lemma {:induction false} MessageSurvives(w: World, s: Step, j: nat, id: string)
    requires Enabled(w, s) && j < |w| && (Waits(w[j], id) || id in w[j].tab.handled)
    requires w[j].tab.linked && !(s.Link? && s.i == j)
    ensures var n := Apply(w, s)[j]; n.tab.linked && (Waits(n, id) || id in n.tab.handled)
  {
    var n := Apply(w, s)[j];
    if !s.Join? && s.i == j {
      if s.Update? { UpdateShowsExactlyTheDue(w[j].tab, s.pending, s.answers); }
      if s.Receive? && Waits(w[j], id) { ReceiveOrWait(w[j], s.k, id); }
    } else if Waits(w[j], id) {
      var p :| p in w[j].inbox && p.id == id;
      assert p in n.inbox;
    }
  }

  lemma {:induction false} ToldIsHeard(run: seq<World>, steps: seq<Step>, a: nat, b: nat, i: nat, j: nat, id: string)
    requires Run(run, steps) && a < b <= |steps| && i != j
    requires TellsIn(run, steps, a, i, id) && KeepsChannel(run, steps, a, b, j)
    ensures j < |run[b]| && run[b][j].tab.linked
    ensures Waits(run[b][j], id) || id in run[b][j].tab.handled
  {
    assert Moves(run, steps, b - 1);
    if b == a + 1 {
      var m :| m in Posts(run[a], steps[a]) && m.id == id;
      assert m in run[b][j].inbox;
    } else {
      ToldIsHeard(run, steps, a, b - 1, i, j, id);
      MessageSurvives(run[b - 1], steps[b - 1], j, id);
    }
  }

  /** Two tabs show one request only while the first one's message is still on its way: had the
      other received it, it would have stayed silent. */
  lemma {:induction false} TwoTabsShowOnlyUnheard(run: seq<World>, steps: seq<Step>, a: nat, b: nat, i: nat, j: nat,
      id: string)
    requires Run(run, steps) && a < b < |steps| && i != j
    requires ShowsIn(run, steps, a, i, id) && ShowsIn(run, steps, b, j, id)
    requires run[a][i].tab.linked && KeepsChannel(run, steps, a, b, j)
    ensures Waits(run[b][j], id) && id !in run[b][j].tab.handled
  {
    ShowingTells(run, steps, a, i, id);
    ToldIsHeard(run, steps, a, b, i, j, id);
    UpdateShowsExactlyTheDue(run[b][j].tab, steps[b].pending, steps[b].answers);
  }

  lemma {:induction false} HandledStays(run: seq<World>, steps: seq<Step>, a: nat, b: nat, j: nat, id: string)
    requires Run(run, steps) && a <= b <= |steps| && j < |run[a]| && id in run[a][j].tab.handled
    ensures j < |run[b]| && id in run[b][j].tab.handled
  {
    if a < b {
      HandledStays(run, steps, a, b - 1, j, id);
      assert Moves(run, steps, b - 1);
      var s := steps[b - 1];
      if s.Update? && s.i == j { UpdateShowsExactlyTheDue(run[b - 1][j].tab, s.pending, s.answers); }
    }
  }

  /** A tab that has received a message about a request never shows it from then on. */
  lemma {:induction false} HeardStaysSilent(run: seq<World>, steps: seq<Step>, a: nat, b: nat, j: nat, id: string)
    requires Run(run, steps) && a <= b < |steps| && j < |run[a]| && id in run[a][j].tab.handled
    ensures !ShowsIn(run, steps, b, j, id)
  {
    HandledStays(run, steps, a, b, j, id);
    if ShowsIn(run, steps, b, j, id) {
      UpdateShowsExactlyTheDue(run[b][j].tab, steps[b].pending, steps[b].answers);
    }
  }

  /** After an update the open notifications are all still pending. */
  lemma {:induction false} OpenIsPending(run: seq<World>, steps: seq<Step>, k: nat)
    requires Run(run, steps) && k < |steps| && steps[k].Update?
    ensures steps[k].i < |run[k + 1]| && run[k + 1][steps[k].i].tab.open <= Ids(steps[k].pending)
  {
    assert Moves(run, steps, k);
    UpdateShowsExactlyTheDue(run[k][steps[k].i].tab, steps[k].pending, steps[k].answers);
  }
}
