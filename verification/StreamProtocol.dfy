/** One subscription against a growing server log, as a state machine whose steps interleave
    freely: accepted and refused connections, flushes, received messages, drops, polls and
    their answers, timers and `close()`. */
module StreamProtocol {
  import opened Options
  import opened RunLog
  import opened StreamClient

  const POLL_LIMIT: nat := 200

  /** A server connection: how far the server has written, what is still on the wire, and
      whether the server closed it behind an end marker. */
  datatype Connection = Connection(sent: nat, wire: seq<Message>, ended: bool)

  /** The browser's EventSource: the cursor in its URL, the id of the last message it
      dispatched, and its connection, if it is not between two. */
  datatype Source = Source(after: nat, lastId: Option<nat>, conn: Option<Connection>)

  /** A poll's answer on its way back, with the length of the log when it was computed. */
  datatype Answer = Answer(items: seq<Event>, at: nat)

  /** `complete` records the log length behind an end marker or behind the empty poll
      that ended the stream. */
  datatype Sub = Sub(start: nat, client: Client, es: Option<Source>,
                     answer: Option<Answer>, complete: Option<nat>)

  datatype Server = Server(log: seq<Event>, state: RunState)

  datatype SubStep =
    | Accept | Flush | Opened | Receive | Drop | Refuse
    | TimerFires | PollAnswered | PollArrives(idle: bool) | PollLost | CallClose

  /** The cursor a (re)connection is opened with: Last-Event-ID, else the URL's cursor. */
  function Resume(es: Source): nat {
    if es.lastId.Some? then es.lastId.value else es.after
  }

  /** The server starts where the EventSource resumes: it sends its last id as the header, if it has
      one, and the cursor of its URL as the query, and the server prefers the header. */
  lemma {:induction false} ResumeIsStartCursor(es: Source, printed: nat -> string, number: string -> Option<int>)
    requires forall n: nat :: number(printed(n)) == Some(n)
    ensures var header := if es.lastId.Some? then Some(printed(es.lastId.value)) else None;
      StartCursor(header, Some(printed(es.after)), number) == Resume(es)
  {
    assert number(printed(es.after)) == Some(es.after);
    if es.lastId.Some? { assert number(printed(es.lastId.value)) == Some(es.lastId.value); }
  }

  function Flushed(srv: Server, conn: Connection): Connection {
    if conn.ended then conn
    else Connection(if conn.sent < |srv.log| then |srv.log| else conn.sent,
                    conn.wire + FlushOutput(srv.log, srv.state, conn.sent),
                    IsTerminal(srv.state))
  }

  /** The EventSource object after a handler ran: dropped, replaced by a new one, or kept. */
  function Sync(before: Client, now: Client, es: Option<Source>): Option<Source> {
    if !now.source then None
    else if now.opens != before.opens then Some(Source(now.cursor, None, None))
    else es
  }

  function Subscribe(start: nat): Sub {
    Sub(start, Fresh(start), Some(Source(start, None, None)), None, None)
  }

  function Received(cfg: Config, sub: Sub): Sub
    requires sub.es.Some? && sub.es.value.conn.Some? && sub.es.value.conn.value.wire != []
  {
    var es := sub.es.value;
    var conn := es.conn.value;
    var rest := conn.(wire := conn.wire[1..]);
    match conn.wire[0]
    case End(at) =>
      var c := Finish(sub.client, Ended);
      sub.(client := c, es := Sync(sub.client, c, Some(es.(conn := Some(rest)))), complete := Some(at))
    case Item(e) =>
      // A named event without a listener is dropped, but its id still counts as seen.
      var c := if e.kind in cfg.eventTypes then Handle(cfg, sub.client, e) else sub.client;
      sub.(client := c, es := Sync(sub.client, c, Some(es.(lastId := Some(e.sequence), conn := Some(rest)))))
  }

  function WithClient(sub: Sub, c: Client): Sub {
    sub.(client := c, es := Sync(sub.client, c, sub.es))
  }

  /** One step of one subscription; a step that is not enabled changes nothing. */
  function StepSub(cfg: Config, srv: Server, sub: Sub, step: SubStep): Sub {
    match step
    case Accept =>
      if sub.es.Some? && sub.es.value.conn.None? then
        var conn := Flushed(srv, Connection(Resume(sub.es.value), [], false));
        sub.(es := Some(sub.es.value.(conn := Some(conn))))
      else sub
    case Flush =>
      if sub.es.Some? && sub.es.value.conn.Some? then
        sub.(es := Some(sub.es.value.(conn := Some(Flushed(srv, sub.es.value.conn.value)))))
      else sub
    case Opened =>
      if sub.es.Some? && sub.es.value.conn.Some? then sub.(client := OnOpen(sub.client)) else sub
    case Receive =>
      if sub.es.Some? && sub.es.value.conn.Some? && sub.es.value.conn.value.wire != []
      then Received(cfg, sub) else sub
    case Drop =>
      if sub.es.Some? then
        var c := OnError(cfg, sub.client, false);
        sub.(client := c, es := Sync(sub.client, c, Some(sub.es.value.(conn := None))))
      else sub
    case Refuse =>
      if sub.es.Some? && sub.es.value.conn.None? then WithClient(sub, OnError(cfg, sub.client, true)) else sub
    case TimerFires =>
      if sub.client.loop.Sleeping? then WithClient(sub, Tick(sub.client)) else sub
    case PollAnswered =>
      if sub.client.loop.Awaiting? && sub.answer.None?
      then sub.(answer := Some(Answer(History(srv.log, sub.client.loop.asked, POLL_LIMIT), |srv.log|)))
      else sub
    case PollArrives(idle) =>
      if sub.client.loop.Awaiting? && sub.answer.Some? then
        var a := sub.answer.value;
        var c := PollReturned(cfg, sub.client, a.items, idle);
        WithClient(sub.(answer := None), c).(complete :=
          if a.items == [] && idle && !sub.client.closed then Some(a.at) else sub.complete)
      else sub
    case PollLost =>
      if sub.client.loop.Awaiting? then WithClient(sub.(answer := None), PollFailed(cfg, sub.client)) else sub
    case CallClose => WithClient(sub, Finish(sub.client, Closed))
  }

  // --- What every step keeps -------------------------------------------------

  predicate Heard(cfg: Config, e: Event) { e.kind in cfg.eventTypes }

  /** The sequence numbers of some items. */
  ghost function Numbers(items: seq<Event>): set<nat> {
    set k | 0 <= k < |items| :: items[k].sequence
  }

  /** Every heard event numbered in (lo, hi] is among `numbers`. */
  ghost predicate Covered(cfg: Config, log: seq<Event>, numbers: set<nat>, lo: nat, hi: nat) {
    hi <= |log| && forall m :: lo < m <= hi && m !in numbers ==> !Heard(cfg, log[m - 1])
  }

  /** The stream passed over event number `m` for a heard one up to `hi`. */
  ghost predicate Overtaken(cfg: Config, log: seq<Event>, m: nat, hi: nat)
    requires 0 < m <= hi <= |log|
  {
    !Heard(cfg, log[m - 1]) && exists n :: m <= n < hi && Heard(cfg, log[n])
  }

  /** Every event numbered in (lo, hi] is among `numbers` or was overtaken. */
  ghost predicate Explained(cfg: Config, log: seq<Event>, numbers: set<nat>, lo: nat, hi: nat) {
    hi <= |log| && forall m :: lo < m <= hi ==> m in numbers || Overtaken(cfg, log, m, hi)
  }

  /** Nothing numbered in (lo, hi] is heard. */
  ghost predicate Silent(cfg: Config, log: seq<Event>, lo: nat, hi: nat) {
    lo <= hi <= |log| && forall n :: lo <= n < hi ==> !Heard(cfg, log[n])
  }

  /** Items are log events in order, all numbered in (start, cursor]. */
  ghost predicate Ordered(log: seq<Event>, delivered: seq<Event>, start: nat, cursor: nat) {
    && (forall k :: 0 <= k < |delivered| ==>
          && start < delivered[k].sequence <= cursor
          && delivered[k].sequence <= |log| && delivered[k] == log[delivered[k].sequence - 1])
    && (forall j, k :: 0 <= j < k < |delivered| ==> delivered[j].sequence < delivered[k].sequence)
  }

  /** The wire holds the next events in log order, then perhaps one end marker. */
  ghost predicate WireOk(log: seq<Event>, conn: Connection, next: nat) {
    var w := conn.wire;
    var n := if conn.ended then |w| - 1 else |w|;
    && n >= 0
    && conn.sent == next + n <= |log|
    && (forall k :: 0 <= k < n ==> w[k] == Item(log[next + k]))
    && (conn.ended ==> w[n] == End(conn.sent))
  }

  ghost predicate SourceOk(cfg: Config, log: seq<Event>, c: Client, es: Source) {
    && Silent(cfg, log, c.cursor, Resume(es))
    && (es.conn.Some? ==> WireOk(log, es.conn.value, Resume(es)))
  }

  /** An answered poll carries the next events after the cursor it was asked for. */
  ghost predicate AnswerOk(log: seq<Event>, cursor: nat, a: Answer) {
    && cursor <= a.at <= |log|
    && a.items == log[cursor..Min(cursor + POLL_LIMIT, a.at)]
  }

  function MaxPolls(cfg: Config): nat { if cfg.pollsBeforeRetry == 0 then 1 else cfg.pollsBeforeRetry }

  /** Control: exactly one of EventSource, timer and request is alive until the stream
      closes, and afterwards at most the request that was already out. */
  ghost predicate ControlOk(cfg: Config, sub: Sub) {
    var c := sub.client;
    && c.source == sub.es.Some?
    && (sub.answer.Some? ==> c.loop.Awaiting?)
    && (c.closed ==> !c.source && !c.loop.Sleeping? && (c.status == Ended || c.status == Closed))
    && (!c.closed ==> (c.source <==> c.loop.Idle?) && c.status != Ended && c.status != Closed)
    && (c.loop.Awaiting? ==> c.loop.asked == c.cursor)
    && (c.source && cfg.maxErrors > 0 ==> c.errors < cfg.maxErrors)
    && (!c.loop.Idle? ==> c.polls < MaxPolls(cfg))
    && c.opens >= 1
  }

  /** Polling is bounded: at most `pollsBeforeRetry` requests per EventSource opened. */
  ghost predicate PollsBounded(cfg: Config, c: Client) {
    var spare := if c.loop.Awaiting? then MaxPolls(cfg) - c.polls - 1
                 else if c.loop.Sleeping? then MaxPolls(cfg) - c.polls
                 else if c.source then MaxPolls(cfg) else 0;
    c.requests + spare <= c.opens * MaxPolls(cfg)
  }

  /** What has been delivered is exactly in step with the cursor. */
  ghost predicate Progress(cfg: Config, log: seq<Event>, start: nat, c: Client) {
    && c.seen == Numbers(c.delivered)
    && Ordered(log, c.delivered, start, c.cursor)
    && Explained(cfg, log, c.seen, start, c.cursor)
  }

  /** An item that means the end was delivered. */
  ghost predicate SawEnd(cfg: Config, delivered: seq<Event>) {
    exists k :: 0 <= k < |delivered| && cfg.isEnd(delivered[k])
  }

  ghost predicate SubOk(cfg: Config, log: seq<Event>, sub: Sub) {
    var c := sub.client;
    && sub.start <= c.cursor <= |log|
    && ControlOk(cfg, sub)
    && PollsBounded(cfg, c)
    && Progress(cfg, log, sub.start, c)
    && (sub.es.Some? ==> SourceOk(cfg, log, c, sub.es.value))
    && (sub.answer.Some? ==> AnswerOk(log, c.cursor, sub.answer.value))
    && (c.status == Ended ==> sub.complete.Some? || SawEnd(cfg, c.delivered))
    && (sub.complete.Some? ==> c.status == Ended && Covered(cfg, log, c.seen, sub.start, sub.complete.value))
  }

  lemma {:induction false} SubscribeOk(cfg: Config, log: seq<Event>, start: nat)
    requires start <= |log|
    ensures SubOk(cfg, log, Subscribe(start))
  {
  }

  /** A longer log takes nothing away. */
  lemma {:induction false} GrowthKeepsOk(cfg: Config, log: seq<Event>, longer: seq<Event>, sub: Sub)
    requires SubOk(cfg, log, sub) && log <= longer
    ensures SubOk(cfg, longer, sub)
  {
  }

  lemma {:induction false} ExplainedExtends(cfg: Config, log: seq<Event>, numbers: set<nat>, lo: nat, hi: nat, n: nat)
    requires lo <= hi <= n < |log|
    requires Explained(cfg, log, numbers, lo, hi)
    requires Silent(cfg, log, hi, n) && (hi == n || Heard(cfg, log[n]))
    ensures Explained(cfg, log, numbers + {n + 1}, lo, n + 1)
  {
    var more := numbers + {n + 1};
    forall m | lo < m <= n + 1 ensures m in more || Overtaken(cfg, log, m, n + 1) {
      if m <= hi && m !in numbers { assert Overtaken(cfg, log, m, hi); }
    }
  }

  lemma {:induction false} NumbersExtend(items: seq<Event>, e: Event)
    ensures Numbers(items + [e]) == Numbers(items) + {e.sequence}
  {
    var more := items + [e];
    forall k | 0 <= k < |items| ensures items[k].sequence in Numbers(more) {
      assert more[k] == items[k];
    }
    assert more[|items|] == e;
  }

  /** Delivering the event right behind a silent stretch. */
  lemma {:induction false} DeliverOk(cfg: Config, log: seq<Event>, start: nat, c: Client, n: nat)
    requires WellNumbered(log) && start <= c.cursor <= n < |log|
    requires Progress(cfg, log, start, c)
    requires Silent(cfg, log, c.cursor, n) && (c.cursor == n || Heard(cfg, log[n]))
    ensures var d := Deliver(cfg, c, log[n]).0;
      && d.cursor == n + 1 && d.delivered == c.delivered + [log[n]]
      && Progress(cfg, log, start, d)
  {
    var d := Deliver(cfg, c, log[n]).0;
    NumbersExtend(c.delivered, log[n]);
    ExplainedExtends(cfg, log, c.seen, start, c.cursor, n);
  }

  /** Writing the rest of the log behind what is already on the wire. */
  lemma {:induction false} WireExtends(log: seq<Event>, conn: Connection, next: nat, unsent: seq<Event>)
    requires WireOk(log, conn, next) && !conn.ended && unsent == log[conn.sent..]
    ensures WireOk(log, Connection(|log|, conn.wire + Items(unsent), false), next)
  {
    var n, more := |conn.wire|, conn.wire + Items(unsent);
    forall k | 0 <= k < |more| ensures more[k] == Item(log[next + k]) {
      if k < n { assert more[k] == conn.wire[k]; } else { assert more[k] == Item(unsent[k - n]); }
    }
  }

  lemma {:induction false} WireEnds(log: seq<Event>, conn: Connection, next: nat)
    requires WireOk(log, conn, next) && !conn.ended
    ensures WireOk(log, Connection(conn.sent, conn.wire + [End(conn.sent)], true), next)
  {
  }

  lemma {:induction false} FlushedOk(srv: Server, conn: Connection, next: nat)
    requires WellNumbered(srv.log) && WireOk(srv.log, conn, next)
    ensures WireOk(srv.log, Flushed(srv, conn), next)
  {
    if !conn.ended {
      UnsentIsSuffix(srv.log, conn.sent);
      var unsent := Unsent(srv.log, conn.sent);
      WireExtends(srv.log, conn, next, unsent);
      var more := conn.wire + Items(unsent);
      if IsTerminal(srv.state) {
        Regroup(conn.wire, Items(unsent), [End(|srv.log|)]);
        WireEnds(srv.log, Connection(|srv.log|, more, false), next);
      } else {
        assert Items(unsent) + [] == Items(unsent);
      }
    }
  }

  lemma {:induction false} AcceptFlushOk(cfg: Config, srv: Server, sub: Sub, step: SubStep)
    requires WellNumbered(srv.log) && SubOk(cfg, srv.log, sub)
    requires step.Accept? || step.Flush?
    ensures SubOk(cfg, srv.log, StepSub(cfg, srv, sub, step))
  {
    if sub.es.Some? {
      var es := sub.es.value;
      FlushedOk(srv, if es.conn.Some? then es.conn.value else Connection(Resume(es), [], false), Resume(es));
    }
  }

  /** Taking an event off the wire leaves the wire in order behind the new last id. */
  lemma {:induction false} WireRest(log: seq<Event>, conn: Connection, next: nat)
    requires WireOk(log, conn, next) && conn.wire != [] && conn.wire[0].Item?
    ensures next < |log| && conn.wire[0] == Item(log[next])
    ensures WireOk(log, conn.(wire := conn.wire[1..]), next + 1)
  {
  }

  lemma {:induction false} ReceiveOk(cfg: Config, srv: Server, sub: Sub)
    requires WellNumbered(srv.log) && SubOk(cfg, srv.log, sub)
    ensures SubOk(cfg, srv.log, StepSub(cfg, srv, sub, Receive))
  {
    if sub.es.Some? && sub.es.value.conn.Some? && sub.es.value.conn.value.wire != [] {
      var conn := sub.es.value.conn.value;
      if conn.wire[0].End? {
        assert conn.wire[0].at == Resume(sub.es.value);
      } else {
        ReceiveItemOk(cfg, srv, sub);
      }
    }
  }

  lemma {:induction false} ReceiveItemOk(cfg: Config, srv: Server, sub: Sub)
    requires WellNumbered(srv.log) && SubOk(cfg, srv.log, sub)
    requires sub.es.Some? && sub.es.value.conn.Some? && sub.es.value.conn.value.wire != []
    requires sub.es.value.conn.value.wire[0].Item?
    ensures SubOk(cfg, srv.log, Received(cfg, sub))
  {
    var es := sub.es.value;
    var n := Resume(es);
    WireRest(srv.log, es.conn.value, n);
    if Heard(cfg, srv.log[n]) {
      DeliverOk(cfg, srv.log, sub.start, sub.client.(errors := 0, status := Live), n);
    }
  }

  lemma {:induction false} DeliverAllOk(cfg: Config, log: seq<Event>, start: nat, c: Client, hi: nat)
    requires WellNumbered(log) && start <= c.cursor <= hi <= |log|
    requires Progress(cfg, log, start, c)
    ensures var d := DeliverAll(cfg, c, log[c.cursor..hi]); d.cursor <= hi && Progress(cfg, log, start, d)
    decreases hi - c.cursor
  {
    var items := log[c.cursor..hi];
    if items != [] {
      DeliverOk(cfg, log, start, c, c.cursor);
      var (d, more) := Deliver(cfg, c, items[0]);
      assert items[1..] == log[c.cursor + 1..hi];
      if more { DeliverAllOk(cfg, log, start, d, hi); }
    }
  }

  /** A batch changes only the items and the cursor, and may end the stream. */
  lemma {:induction false} DeliverAllFrame(cfg: Config, c: Client, items: seq<Event>)
    requires c.loop.Idle? && !c.source
    ensures var d := DeliverAll(cfg, c, items);
      && c.delivered <= d.delivered && c.cursor <= d.cursor && c.seen <= d.seen
      && d == c.(cursor := d.cursor, seen := d.seen, delivered := d.delivered,
                 closed := d.closed, status := d.status)
      && (d.closed == c.closed ==> d.status == c.status)
      && (d.closed != c.closed ==> d.closed && d.status == Ended && SawEnd(cfg, d.delivered))
    decreases |items|
  {
    if items != [] {
      var (d, more) := Deliver(cfg, c, items[0]);
      if more {
        DeliverAllFrame(cfg, d, items[1..]);
      } else if d.closed != c.closed {
        assert cfg.isEnd(d.delivered[|d.delivered| - 1]);
      }
    }
  }

  /** The client once a poll's items are handed over. */
  function Polled(cfg: Config, sub: Sub): Client
    requires sub.answer.Some?
  {
    DeliverAll(cfg, sub.client.(loop := Idle), sub.answer.value.items)
  }

  /** Only items and cursor have moved, within the answer, or an end item has ended the stream. */
  ghost predicate PolledOk(cfg: Config, log: seq<Event>, sub: Sub, d: Client) {
    var c := sub.client;
    && c.cursor <= d.cursor <= |log| && Progress(cfg, log, sub.start, d)
    && c.delivered <= d.delivered && c.seen <= d.seen
    && d == c.(loop := Idle, cursor := d.cursor, seen := d.seen, delivered := d.delivered,
               closed := d.closed, status := d.status)
    && (d.closed == c.closed ==> d.status == c.status)
    && (d.closed != c.closed ==> d.closed && d.status == Ended && SawEnd(cfg, d.delivered))
    && (sub.answer.Some? && sub.answer.value.items == [] ==> d == c.(loop := Idle))
  }

  lemma {:induction false} PollDelivers(cfg: Config, srv: Server, sub: Sub)
    requires WellNumbered(srv.log) && SubOk(cfg, srv.log, sub) && sub.client.loop.Awaiting? && sub.answer.Some?
    ensures PolledOk(cfg, srv.log, sub, Polled(cfg, sub))
  {
    var c, a := sub.client.(loop := Idle), sub.answer.value;
    DeliverAllOk(cfg, srv.log, sub.start, c, Min(c.cursor + POLL_LIMIT, a.at));
    DeliverAllFrame(cfg, c, a.items);
  }

  lemma {:induction false} PolledStepOk(cfg: Config, srv: Server, sub: Sub, idle: bool)
    requires WellNumbered(srv.log) && SubOk(cfg, srv.log, sub) && sub.client.loop.Awaiting? && sub.answer.Some?
    requires PolledOk(cfg, srv.log, sub, Polled(cfg, sub))
    ensures SubOk(cfg, srv.log, StepSub(cfg, srv, sub, PollArrives(idle)))
  {
  }

  lemma {:induction false} PollArrivesOk(cfg: Config, srv: Server, sub: Sub, idle: bool)
    requires WellNumbered(srv.log) && SubOk(cfg, srv.log, sub)
    ensures SubOk(cfg, srv.log, StepSub(cfg, srv, sub, PollArrives(idle)))
  {
    if sub.client.loop.Awaiting? && sub.answer.Some? {
      PollDelivers(cfg, srv, sub);
      PolledStepOk(cfg, srv, sub, idle);
    }
  }

  // --- What a poll hands over ---------------------------------------------------

  /** Of the events from `lo` to `hi`, `end` is behind the first end item, or behind them all. */
  ghost predicate StopsAt(cfg: Config, log: seq<Event>, lo: nat, hi: nat, end: nat) {
    && lo <= end <= hi <= |log|
    && (forall k :: lo <= k < end - 1 ==> !cfg.isEnd(log[k]))
    && (end < hi ==> lo < end && cfg.isEnd(log[end - 1]))
  }

  lemma {:induction false} DeliverStops(cfg: Config, log: seq<Event>, start: nat, c: Client, n: nat)
    requires WellNumbered(log) && start <= c.cursor == n < |log| && Progress(cfg, log, start, c)
    ensures Deliver(cfg, c, log[n]).1 <==> !cfg.isEnd(log[n])
  {
  }

  /** A batch from the log hands over all of it, up to and with the first end item. */
  lemma {:induction false} DeliverAllReaches(cfg: Config, log: seq<Event>, start: nat, c: Client, hi: nat, end: nat)
    requires WellNumbered(log) && start <= c.cursor && Progress(cfg, log, start, c)
    requires StopsAt(cfg, log, c.cursor, hi, end)
    ensures var d := DeliverAll(cfg, c, log[c.cursor..hi]);
      d.cursor == end && d.delivered == c.delivered + log[c.cursor..end]
    decreases hi - c.cursor
  {
    var n := c.cursor;
    if n == hi {
      assert log[n..hi] == [];
    } else {
      var d := Deliver(cfg, c, log[n]).0;
      DeliverOk(cfg, log, start, c, n);
      DeliverStops(cfg, log, start, c, n);
      SliceCons(log, n, hi);
      SliceCons(log, n, end);
      DeliverAllCons(cfg, c, log[n], log[n + 1..hi]);
      StopsLater(cfg, log, n, hi, end);
      if !cfg.isEnd(log[n]) {
        DeliverAllReaches(cfg, log, start, d, hi, end);
        Regrouped(c.delivered, log[n], log[n + 1..end]);
      } else {
        assert log[n + 1..end] == [];
      }
    }
  }

  lemma {:induction false} Regrouped(a: seq<Event>, e: Event, b: seq<Event>)
    ensures (a + [e]) + b == a + ([e] + b)
  {
  }

  lemma {:induction false} SliceCons(log: seq<Event>, lo: nat, hi: nat)
    requires lo < hi <= |log|
    ensures log[lo..hi] == [log[lo]] + log[lo + 1..hi]
  {
  }

  lemma {:induction false} DeliverAllCons(cfg: Config, c: Client, item: Event, rest: seq<Event>)
    ensures var (d, more) := Deliver(cfg, c, item);
      DeliverAll(cfg, c, [item] + rest) == if more then DeliverAll(cfg, d, rest) else d
  {
    assert ([item] + rest)[1..] == rest;
  }

  lemma {:induction false} StopsLater(cfg: Config, log: seq<Event>, lo: nat, hi: nat, end: nat)
    requires StopsAt(cfg, log, lo, hi, end) && lo < hi
    ensures lo < end && (if cfg.isEnd(log[lo]) then end == lo + 1 else StopsAt(cfg, log, lo + 1, hi, end))
  {
  }

  lemma {:induction false} PollKeepsItems(cfg: Config, srv: Server, sub: Sub, idle: bool)
    requires sub.client.loop.Awaiting? && sub.answer.Some?
    ensures var now, d := StepSub(cfg, srv, sub, PollArrives(idle)).client, Polled(cfg, sub);
      now.cursor == d.cursor && now.delivered == d.delivered
  {
  }

  /** An answer that arrives hands over the events behind the cursor, as many as the poll limit
      allows of those that were in the log when it was computed, up to and with the first end item. */
  lemma {:induction false} PollHandsOver(cfg: Config, srv: Server, sub: Sub, idle: bool, end: nat)
    requires WellNumbered(srv.log) && SubOk(cfg, srv.log, sub) && sub.client.loop.Awaiting? && sub.answer.Some?
    requires var cursor := sub.client.cursor;
      StopsAt(cfg, srv.log, cursor, Min(cursor + POLL_LIMIT, sub.answer.value.at), end)
    ensures var now, cursor := StepSub(cfg, srv, sub, PollArrives(idle)).client, sub.client.cursor;
      now.cursor == end && now.delivered == sub.client.delivered + srv.log[cursor..end]
  {
    var c := sub.client.(loop := Idle);
    DeliverAllReaches(cfg, srv.log, sub.start, c, Min(c.cursor + POLL_LIMIT, sub.answer.value.at), end);
    PollKeepsItems(cfg, srv, sub, idle);
  }

  /** A poll that is answered and arrives catches up with the log, at most 200 events at a time. */
  lemma {:induction false} PollCatchesUp(cfg: Config, srv: Server, sub: Sub, idle: bool)
    requires WellNumbered(srv.log) && SubOk(cfg, srv.log, sub) && sub.client.loop.Awaiting? && sub.answer.None?
    requires forall k :: sub.client.cursor <= k < |srv.log| ==> !cfg.isEnd(srv.log[k])
    ensures var answered := StepSub(cfg, srv, sub, PollAnswered);
            var now, cursor := StepSub(cfg, srv, answered, PollArrives(idle)).client, sub.client.cursor;
            var end := if cursor + 200 < |srv.log| then cursor + 200 else |srv.log|;
      now.cursor == end && now.delivered == sub.client.delivered + srv.log[cursor..end]
  {
    StepOk(cfg, srv, sub, PollAnswered);
    var cursor := sub.client.cursor;
    var end := if cursor + 200 < |srv.log| then cursor + 200 else |srv.log|;
    PollHandsOver(cfg, srv, StepSub(cfg, srv, sub, PollAnswered), idle, end);
  }

  lemma {:induction false} ErrorOk(cfg: Config, srv: Server, sub: Sub, step: SubStep)
    requires WellNumbered(srv.log) && SubOk(cfg, srv.log, sub)
    requires step.Drop? || step.Refuse? || step.TimerFires? || step.PollLost? || step.CallClose? || step.Opened?
    ensures SubOk(cfg, srv.log, StepSub(cfg, srv, sub, step))
  {
  }

  lemma {:induction false} StepOk(cfg: Config, srv: Server, sub: Sub, step: SubStep)
    requires WellNumbered(srv.log) && SubOk(cfg, srv.log, sub)
    ensures SubOk(cfg, srv.log, StepSub(cfg, srv, sub, step))
  {
    match step
    case Accept => AcceptFlushOk(cfg, srv, sub, step);
    case Flush => AcceptFlushOk(cfg, srv, sub, step);
    case Receive => ReceiveOk(cfg, srv, sub);
    case PollAnswered => 
      if sub.client.loop.Awaiting? { HistoryIsSlice(srv.log, sub.client.cursor, POLL_LIMIT); }
    case PollArrives(idle) => PollArrivesOk(cfg, srv, sub, idle);
    case _ => ErrorOk(cfg, srv, sub, step);
  }

  // --- Whole runs -------------------------------------------------------------

  datatype ServerStep = Append(kind: string, to: Option<RunState>, body: string)
                      | ChangeState(next: RunState, note: string)

  function StepServer(srv: Server, step: ServerStep): Server {
    match step
    case Append(kind, to, body) => srv.(log := Appended(srv.log, kind, to, body))
    case ChangeState(next, note) =>
      if srv.state == next then srv
      else Server(Appended(srv.log, STATE_CHANGED, Some(next), note), next)
  }

  datatype Step = OnServer(server: ServerStep) | OnSub(sub: SubStep)

  function Run(cfg: Config, srv: Server, sub: Sub, steps: seq<Step>): (Server, Sub)
    decreases |steps|
  {
    if steps == [] then (srv, sub)
    else match steps[0]
      case OnServer(s) => Run(cfg, StepServer(srv, s), sub, steps[1..])
      case OnSub(s) => Run(cfg, srv, StepSub(cfg, srv, sub, s), steps[1..])
  }

  lemma {:induction false} ServerGrows(srv: Server, step: ServerStep)
    requires WellNumbered(srv.log)
    ensures WellNumbered(StepServer(srv, step).log) && srv.log <= StepServer(srv, step).log
  {
  }

  /** Every interleaving of server and subscription steps keeps the whole invariant. */
  lemma {:induction false} RunOk(cfg: Config, srv: Server, sub: Sub, steps: seq<Step>)
    requires WellNumbered(srv.log) && SubOk(cfg, srv.log, sub)
    ensures var (srv', sub') := Run(cfg, srv, sub, steps);
      && srv.log <= srv'.log && WellNumbered(srv'.log)
      && SubOk(cfg, srv'.log, sub') && sub'.start == sub.start
    decreases |steps|
  {
    if steps != [] {
      match steps[0]
      case OnServer(s) =>
        var next := StepServer(srv, s);
        ServerGrows(srv, s);
        GrowthKeepsOk(cfg, srv.log, next.log, sub);
        RunOk(cfg, next, sub, steps[1..]);
      case OnSub(s) =>
        StepOk(cfg, srv, sub, s);
        RunOk(cfg, srv, StepSub(cfg, srv, sub, s), steps[1..]);
    }
  }

  /** Some event past `start` that no listener hears comes before one that is heard. */
  ghost predicate Gappy(cfg: Config, log: seq<Event>, start: nat) {
    exists n, m :: start <= n < m < |log| && !Heard(cfg, log[n]) && Heard(cfg, log[m])
  }

  /** The items are exactly the log events after `start`, up to the cursor. */
  ghost predicate Contiguous(log: seq<Event>, sub: Sub) {
    sub.start <= sub.client.cursor <= |log| && sub.client.delivered == log[sub.start..sub.client.cursor]
  }

  lemma {:induction false} FullEndsAtTop(log: seq<Event>, items: seq<Event>, start: nat, hi: nat)
    requires WellNumbered(log) && start < hi <= |log|
    requires Ordered(log, items, start, hi) && hi in Numbers(items)
    ensures items != [] && items[|items| - 1] == log[hi - 1]
    ensures Ordered(log, items[..|items| - 1], start, hi - 1)
  {
    var k :| 0 <= k < |items| && items[k].sequence == hi;
    assert items[k].sequence <= items[|items| - 1].sequence;
  }

  lemma {:induction false} FrontIsFull(front: seq<Event>, last: Event, start: nat, hi: nat)
    requires last.sequence == hi && forall m :: start < m <= hi ==> m in Numbers(front + [last])
    ensures forall m :: start < m <= hi - 1 ==> m in Numbers(front)
  {
    NumbersExtend(front, last);
    forall m | start < m <= hi - 1 ensures m in Numbers(front) { assert m in Numbers(front + [last]); }
  }

  lemma {:induction false} SnocIsSlice(log: seq<Event>, items: seq<Event>, start: nat, hi: nat)
    requires start < hi <= |log| && items != []
    requires items[..|items| - 1] == log[start..hi - 1] && items[|items| - 1] == log[hi - 1]
    ensures items == log[start..hi]
  {
    assert items == items[..|items| - 1] + [items[|items| - 1]];
  }

  lemma {:induction false} OrderedAndFullIsSlice(log: seq<Event>, items: seq<Event>, start: nat, hi: nat)
    requires WellNumbered(log) && start <= hi <= |log|
    requires Ordered(log, items, start, hi)
    requires forall m :: start < m <= hi ==> m in Numbers(items)
    ensures items == log[start..hi]
    decreases hi
  {
    if items == [] {
      assert hi !in Numbers(items);
    } else {
      assert start < items[|items| - 1].sequence <= hi;
      FullEndsAtTop(log, items, start, hi);
      var front, last := items[..|items| - 1], items[|items| - 1];
      assert items == front + [last];
      FrontIsFull(front, last, start, hi);
      OrderedAndFullIsSlice(log, front, start, hi - 1);
      SnocIsSlice(log, items, start, hi);
    }
  }

  lemma {:induction false} OkIsContiguous(cfg: Config, log: seq<Event>, sub: Sub)
    requires WellNumbered(log) && SubOk(cfg, log, sub) && !Gappy(cfg, log, sub.start)
    ensures Contiguous(log, sub)
  {
    OrderedAndFullIsSlice(log, sub.client.delivered, sub.start, sub.client.cursor);
  }

  /** Main result: whatever happens, a subscription's items are a contiguous run of the log
      right after its initial cursor, unless the log hides an unheard event before a heard one. */
  lemma {:induction false} EveryRunIsContiguous(cfg: Config, srv: Server, start: nat, steps: seq<Step>)
    requires WellNumbered(srv.log) && start <= |srv.log|
    ensures var (srv', sub) := Run(cfg, srv, Subscribe(start), steps);
      !Gappy(cfg, srv'.log, start) ==> Contiguous(srv'.log, sub)
  {
    SubscribeOk(cfg, srv.log, start);
    RunOk(cfg, srv, Subscribe(start), steps);
    var (srv', sub) := Run(cfg, srv, Subscribe(start), steps);
    if !Gappy(cfg, srv'.log, start) { OkIsContiguous(cfg, srv'.log, sub); }
  }

  /** The event types that the run-event contract allows; the client listens to all of them. */
  const RUN_EVENT_TYPES: set<string> := {
    "run.state_changed", "run.log", "run.progress", "run.metric", "run.artifact", "run.input_requested",
    "run.input_answered", "run.input_closed", "run.result", "run.error"
  }

  ghost predicate InContract(log: seq<Event>) { forall k :: 0 <= k < |log| ==> log[k].kind in RUN_EVENT_TYPES }

  /** The server's own state changes are of a type of the contract, so a log stays within it as long as
      what is appended does. */
  lemma {:induction false} ServerStaysInContract(srv: Server, step: ServerStep)
    requires InContract(srv.log) && (step.Append? ==> step.kind in RUN_EVENT_TYPES)
    ensures InContract(StepServer(srv, step).log)
    ensures step.ChangeState? && step.next != srv.state ==>
      var log := StepServer(srv, step).log;
      |log| == |srv.log| + 1 && log[|srv.log|].kind == "run.state_changed" && log[|srv.log|].to == Some(step.next)
  {
  }

  /** A log of listened types hides nothing. */
  lemma {:induction false} ListenedIsNotGappy(cfg: Config, log: seq<Event>, start: nat)
    requires RUN_EVENT_TYPES <= cfg.eventTypes && InContract(log)
    ensures !Gappy(cfg, log, start)
  {
    assert forall k :: 0 <= k < |log| ==> Heard(cfg, log[k]);
  }

  /** For a client that listens to the types of the contract, every run over a log of those types is
      contiguous. */
  lemma {:induction false} ContractRunIsContiguous(cfg: Config, srv: Server, start: nat, steps: seq<Step>)
    requires WellNumbered(srv.log) && start <= |srv.log| && RUN_EVENT_TYPES <= cfg.eventTypes
    ensures var (srv', sub) := Run(cfg, srv, Subscribe(start), steps);
      InContract(srv'.log) ==> Contiguous(srv'.log, sub)
  {
    var (srv', sub) := Run(cfg, srv, Subscribe(start), steps);
    EveryRunIsContiguous(cfg, srv, start, steps);
    if InContract(srv'.log) { ListenedIsNotGappy(cfg, srv'.log, start); }
  }

  /** A stream that ended, and not on an end item, has delivered every heard event that was in
      the log when the end marker was written or the last, empty poll was answered. */
  lemma {:induction false} EndedMeansComplete(cfg: Config, srv: Server, start: nat, steps: seq<Step>)
    requires WellNumbered(srv.log) && start <= |srv.log|
    ensures var (srv', sub) := Run(cfg, srv, Subscribe(start), steps);
      sub.client.status == Ended && !SawEnd(cfg, sub.client.delivered) ==>
        && sub.complete.Some? && sub.complete.value <= |srv'.log|
        && (forall n :: start <= n < sub.complete.value && Heard(cfg, srv'.log[n])
              ==> srv'.log[n] in sub.client.delivered)
  {
    SubscribeOk(cfg, srv.log, start);
    RunOk(cfg, srv, Subscribe(start), steps);
    var (srv', sub) := Run(cfg, srv, Subscribe(start), steps);
    if sub.client.status == Ended && !SawEnd(cfg, sub.client.delivered) {
      forall n | start <= n < sub.complete.value && Heard(cfg, srv'.log[n])
        ensures srv'.log[n] in sub.client.delivered
      {
        assert n + 1 in sub.client.seen;
      }
    }
  }

  /** Polling is bounded over every run: no more requests than the retry budget of each
      EventSource opened so far. */
  lemma {:induction false} PollingIsBounded(cfg: Config, srv: Server, start: nat, steps: seq<Step>)
    requires WellNumbered(srv.log) && start <= |srv.log|
    ensures var c := Run(cfg, srv, Subscribe(start), steps).1.client; c.requests <= c.opens * MaxPolls(cfg)
  {
    SubscribeOk(cfg, srv.log, start);
    RunOk(cfg, srv, Subscribe(start), steps);
  }

  /** Once finished, nothing new is started and the status is final. Items can still come from
      a request that was already out, and from nothing else. */
  ghost predicate StillQuiet(before: Client, now: Client) {
    && now.closed && !now.source && now.status == before.status
    && now.opens == before.opens && now.requests == before.requests && now.timers == before.timers
    && before.delivered <= now.delivered
    && (now.loop == before.loop || now.loop.Idle?)
    && (now.loop == before.loop || before.loop.Idle? ==> now.delivered == before.delivered)
  }

  lemma {:induction false} FinishedStaysQuiet(cfg: Config, srv: Server, sub: Sub, steps: seq<Step>)
    requires WellNumbered(srv.log) && SubOk(cfg, srv.log, sub) && sub.client.closed
    ensures StillQuiet(sub.client, Run(cfg, srv, sub, steps).1.client)
    decreases |steps|
  {
    if steps != [] {
      match steps[0]
      case OnServer(s) =>
        var next := StepServer(srv, s);
        GrowthKeepsOk(cfg, srv.log, next.log, sub);
        FinishedStaysQuiet(cfg, next, sub, steps[1..]);
      case OnSub(s) =>
        StepOk(cfg, srv, sub, s);
        var sub' := StepSub(cfg, srv, sub, s);
        QuietStep(cfg, srv, sub, s);
        FinishedStaysQuiet(cfg, srv, sub', steps[1..]);
    }
  }

  lemma {:induction false} QuietStep(cfg: Config, srv: Server, sub: Sub, step: SubStep)
    requires WellNumbered(srv.log) && SubOk(cfg, srv.log, sub) && sub.client.closed
    ensures StillQuiet(sub.client, StepSub(cfg, srv, sub, step).client)
  {
    if step.PollArrives? && sub.answer.Some? {
      DeliverAllFrame(cfg, sub.client.(loop := Idle), sub.answer.value.items);
    }
  }

  // --- Giving up on the stream -----------------------------------------------------

  function RunSub(cfg: Config, srv: Server, sub: Sub, steps: seq<SubStep>): Sub {
    if steps == [] then sub
    else StepSub(cfg, srv, RunSub(cfg, srv, sub, steps[..|steps| - 1]), steps[|steps| - 1])
  }

  function Drops(n: nat): seq<SubStep> { seq(n, _ => Drop) }

  /** The source is held, and `n` errors have been counted. */
  ghost predicate Enduring(sub: Sub, n: nat) {
    !sub.client.closed && sub.client.source && sub.es.Some? && sub.client.errors == n
  }

  lemma {:induction false} DropsEndured(cfg: Config, srv: Server, sub: Sub, n: nat)
    requires Enduring(sub, 0) && (n == 0 || n < cfg.maxErrors)
    ensures Enduring(RunSub(cfg, srv, sub, Drops(n)), n)
    ensures var now := RunSub(cfg, srv, sub, Drops(n)).client;
      && now.requests == sub.client.requests && now.cursor == sub.client.cursor
      && (n > 0 ==> now.status == Reconnecting)
  {
    if n > 0 {
      DropsEndured(cfg, srv, sub, n - 1);
      assert Drops(n)[..n - 1] == Drops(n - 1);
    }
  }

  /** From a clean start the source survives every drop before the `maxErrors`-th in a row; that one
      gives it up and asks for the events behind the cursor. */
  lemma {:induction false} FallsBackExactly(cfg: Config, srv: Server, sub: Sub, n: nat)
    requires Enduring(sub, 0) && n <= if cfg.maxErrors == 0 then 1 else cfg.maxErrors
    ensures var now := RunSub(cfg, srv, sub, Drops(n)).client;
      if n < cfg.maxErrors || n == 0 then
        now.source && now.requests == sub.client.requests && (n > 0 ==> now.status == Reconnecting)
      else
        && !now.source && now.loop == Awaiting(sub.client.cursor) && now.requests == sub.client.requests + 1
        && now.status == Polling
  {
    if n < cfg.maxErrors || n == 0 {
      DropsEndured(cfg, srv, sub, n);
    } else {
      DropsEndured(cfg, srv, sub, n - 1);
      assert Drops(n)[..n - 1] == Drops(n - 1);
    }
  }

  /** An opened connection and a message that is heard both start the count anew. */
  lemma {:induction false} ContactStartsOver(cfg: Config, srv: Server, sub: Sub, n: nat)
    requires Enduring(sub, n) && sub.es.value.conn.Some?
    ensures var now := StepSub(cfg, srv, sub, Opened); Enduring(now, 0) && now.client.status == Live
    ensures var wire, now := sub.es.value.conn.value.wire, StepSub(cfg, srv, sub, Receive);
      wire != [] && wire[0].Item? && Heard(cfg, wire[0].event) && !cfg.isEnd(wire[0].event) ==>
        Enduring(now, 0) && now.client.status == Live
  {
  }

  /** A source that the server refuses is given up at once. */
  lemma {:induction false} RefusalFallsBack(cfg: Config, srv: Server, sub: Sub, n: nat)
    requires Enduring(sub, n) && sub.es.value.conn.None?
    ensures var now := StepSub(cfg, srv, sub, Refuse).client;
      && !now.source && now.loop == Awaiting(sub.client.cursor) && now.requests == sub.client.requests + 1
      && now.status == Polling
  {
  }

  /** Closing gives up the source and the timer under the status `closed`, once. */
  lemma {:induction false} ClosingCloses(cfg: Config, srv: Server, sub: Sub)
    ensures var now := StepSub(cfg, srv, sub, CallClose).client;
      if sub.client.closed then now == sub.client
      else now.closed && now.status == Closed && !now.source && !now.loop.Sleeping?
           && now.delivered == sub.client.delivered && now.cursor == sub.client.cursor
  {
  }

  /** `n` polls that are lost, each followed by the timer. */
  function LostPolls(n: nat): seq<SubStep> {
    if n == 0 then [] else LostPolls(n - 1) + [PollLost] + [TimerFires]
  }

  /** A poll is out, the `n`-th behind the first since the source was given up. */
  ghost predicate PollOut(sub: Sub, n: nat, opens: nat) {
    var c := sub.client;
    !c.closed && !c.source && c.loop.Awaiting? && c.polls == n && c.opens == opens
  }

  lemma {:induction false} RunSubTwo(cfg: Config, srv: Server, sub: Sub, steps: seq<SubStep>, a: SubStep, b: SubStep)
    ensures RunSub(cfg, srv, sub, steps + [a] + [b]) ==
      StepSub(cfg, srv, StepSub(cfg, srv, RunSub(cfg, srv, sub, steps), a), b)
  {
    assert (steps + [a] + [b])[..|steps| + 1] == steps + [a] && (steps + [a])[..|steps|] == steps;
  }

  lemma {:induction false} LostPollsGoOn(cfg: Config, srv: Server, sub: Sub, n: nat)
    requires PollOut(sub, 0, sub.client.opens) && (n == 0 || n < cfg.pollsBeforeRetry)
    ensures PollOut(RunSub(cfg, srv, sub, LostPolls(n)), n, sub.client.opens)
  {
    if n > 0 {
      LostPollsGoOn(cfg, srv, sub, n - 1);
      RunSubTwo(cfg, srv, sub, LostPolls(n - 1), PollLost, TimerFires);
    }
  }

  /** Of the polls after a source is given up, the `pollsBeforeRetry`-th is the last: behind it a new
      source is opened, and behind each earlier one a timer is set. */
  lemma {:induction false} RetriesExactly(cfg: Config, srv: Server, sub: Sub, n: nat)
    requires PollOut(sub, 0, sub.client.opens) && n < MaxPolls(cfg)
    ensures var before := RunSub(cfg, srv, sub, LostPolls(n));
            var now := StepSub(cfg, srv, before, PollLost).client;
      if n + 1 < cfg.pollsBeforeRetry then
        && !now.source && now.loop == Sleeping && now.opens == sub.client.opens
        && now.timers == before.client.timers + 1
      else
        now.source && now.loop == Idle && now.opens == sub.client.opens + 1 && now.status == Reconnecting
  {
    LostPollsGoOn(cfg, srv, sub, n);
  }

  // --- What a reconnect gets ----------------------------------------------------------

  /** The rest of the log behind `next`, and the end marker of a run that is over. */
  ghost predicate CarriesRest(srv: Server, conn: Connection, next: nat) {
    && next <= |srv.log| && conn.sent == |srv.log|
    && conn.wire == Items(srv.log[next..]) + (if conn.ended then [End(|srv.log|)] else [])
  }

  lemma {:induction false} WireIsRest(srv: Server, conn: Connection, next: nat)
    requires WireOk(srv.log, conn, next) && conn.sent == |srv.log|
    ensures CarriesRest(srv, conn, next)
  {
    var items := Items(srv.log[next..]);
    assert conn.wire[..|items|] == items;
  }

  /** What a flush leaves on the wire: everything behind the last event that was dispatched. */
  lemma {:induction false} FlushWritesTheRest(cfg: Config, srv: Server, sub: Sub)
    requires WellNumbered(srv.log) && SubOk(cfg, srv.log, sub) && sub.es.Some? && sub.es.value.conn.Some?
    requires !sub.es.value.conn.value.ended
    ensures var now := StepSub(cfg, srv, sub, Flush);
      && now.client == sub.client && now.es.Some? && now.es.value.conn.Some?
      && CarriesRest(srv, now.es.value.conn.value, Resume(sub.es.value))
  {
    var es := sub.es.value;
    FlushedOk(srv, es.conn.value, Resume(es));
    WireIsRest(srv, Flushed(srv, es.conn.value), Resume(es));
  }

  /** A drop loses what was on the wire, and the reconnect brings it again: the wire then carries
      everything behind the last event that was dispatched, and nothing else. */
  lemma {:induction false} ReconnectBringsTheRest(cfg: Config, srv: Server, sub: Sub, n: nat)
    requires WellNumbered(srv.log) && SubOk(cfg, srv.log, sub) && Enduring(sub, n) && n + 1 < cfg.maxErrors
    ensures var dropped := StepSub(cfg, srv, sub, Drop);
            var now := StepSub(cfg, srv, dropped, Accept);
      && dropped.es == Some(sub.es.value.(conn := None))
      && now.es.Some? && now.es.value.conn.Some? && now.client.delivered == sub.client.delivered
      && CarriesRest(srv, now.es.value.conn.value, Resume(sub.es.value))
  {
    var next := Resume(sub.es.value);
    var conn := Connection(next, [], false);
    FlushedOk(srv, conn, next);
    WireIsRest(srv, Flushed(srv, conn), next);
  }

  // --- The condition is exact ---------------------------------------------------

  function HeardOf(cfg: Config, events: seq<Event>): seq<Event> {
    if events == [] then []
    else HeardOf(cfg, events[..|events| - 1])
         + (if Heard(cfg, events[|events| - 1]) then [events[|events| - 1]] else [])
  }

  /** Connect once, then receive `n` messages. */
  function PlainRun(n: nat): seq<SubStep> {
    if n == 0 then [Accept] else PlainRun(n - 1) + [Receive]
  }

  /** Connected, everything up to the end of the log written, `n` events dispatched. */
  ghost predicate Streaming(cfg: Config, srv: Server, sub: Sub, n: nat) {
    && SubOk(cfg, srv.log, sub) && !sub.client.closed
    && sub.es.Some? && sub.es.value.conn.Some?
    && Resume(sub.es.value) == n && sub.es.value.conn.value.sent == |srv.log|
    && (sub.es.value.conn.value.ended <==> IsTerminal(srv.state))
  }

  lemma {:induction false} HearOne(cfg: Config, srv: Server, sub: Sub, n: nat)
    requires WellNumbered(srv.log) && n < |srv.log| && !cfg.isEnd(srv.log[n])
    requires Streaming(cfg, srv, sub, n)
    ensures var sub' := StepSub(cfg, srv, sub, Receive);
      && Streaming(cfg, srv, sub', n + 1) && sub'.start == sub.start
      && sub'.client.delivered == sub.client.delivered + HeardOf(cfg, [srv.log[n]])
  {
    StepOk(cfg, srv, sub, Receive);
    WireRest(srv.log, sub.es.value.conn.value, n);
    assert HeardOf(cfg, [srv.log[n]]) == if Heard(cfg, srv.log[n]) then [srv.log[n]] else [];
    if Heard(cfg, srv.log[n]) {
      DeliverOk(cfg, srv.log, sub.start, sub.client.(errors := 0, status := Live), n);
    }
  }

  lemma {:induction false} ConnectStreams(cfg: Config, srv: Server, start: nat)
    requires WellNumbered(srv.log) && start <= |srv.log|
    ensures Streaming(cfg, srv, StepSub(cfg, srv, Subscribe(start), Accept), start)
  {
    SubscribeOk(cfg, srv.log, start);
    StepOk(cfg, srv, Subscribe(start), Accept);
  }

  /** The subscription streams, has dispatched everything up to `at`, and has handed over `heard`. */
  ghost predicate HasHeard(cfg: Config, srv: Server, start: nat, at: nat, sub: Sub, heard: seq<Event>) {
    Streaming(cfg, srv, sub, at) && sub.start == start && sub.client.delivered == heard
  }

  /** Where the plain run ends. */
  function PlainSub(cfg: Config, srv: Server, start: nat, n: nat): Sub {
    if n == 0 then StepSub(cfg, srv, Subscribe(start), Accept)
    else StepSub(cfg, srv, PlainSub(cfg, srv, start, n - 1), Receive)
  }

  /** One acceptance, then receives only. */
  ghost predicate IsPlain(steps: seq<SubStep>) {
    steps != [] && steps[0].Accept? && forall k :: 0 < k < |steps| ==> steps[k].Receive?
  }

  lemma {:induction false} PlainRunIsPlain(n: nat)
    ensures |PlainRun(n)| == n + 1 && IsPlain(PlainRun(n))
  {
    if n > 0 { PlainRunIsPlain(n - 1); }
  }

  lemma {:induction false} PlainStepsRun(cfg: Config, srv: Server, start: nat, steps: seq<SubStep>)
    requires IsPlain(steps)
    ensures RunSub(cfg, srv, Subscribe(start), steps) == PlainSub(cfg, srv, start, |steps| - 1)
  {
    var front := steps[..|steps| - 1];
    if front != [] { PlainStepsRun(cfg, srv, start, front); }
  }

  lemma {:induction false} PlainSubRuns(cfg: Config, srv: Server, start: nat, n: nat)
    ensures PlainSub(cfg, srv, start, n) == RunSub(cfg, srv, Subscribe(start), PlainRun(n))
  {
    PlainRunIsPlain(n);
    PlainStepsRun(cfg, srv, start, PlainRun(n));
  }

  lemma {:induction false} PlainNext(cfg: Config, srv: Server, start: nat, at: nat, sub: Sub, heard: seq<Event>)
    requires WellNumbered(srv.log) && at < |srv.log| && !cfg.isEnd(srv.log[at])
    requires HasHeard(cfg, srv, start, at, sub, heard)
    ensures HasHeard(cfg, srv, start, at + 1, StepSub(cfg, srv, sub, Receive), heard + HeardOf(cfg, [srv.log[at]]))
  {
    HearOne(cfg, srv, sub, at);
  }

  /** What holds of the first subscription and is handed on by each receive holds of the last. */
  lemma {:induction false} PlainInduction(cfg: Config, srv: Server, start: nat, n: nat, holds: (nat, Sub) -> bool)
    requires holds(0, PlainSub(cfg, srv, start, 0))
    requires forall k: nat, sub :: k < n && holds(k, sub) ==> holds(k + 1, StepSub(cfg, srv, sub, Receive))
    ensures holds(n, PlainSub(cfg, srv, start, n))
  {
    if n > 0 { PlainInduction(cfg, srv, start, n - 1, holds); }
  }

  lemma {:induction false} PlainSubHears(cfg: Config, srv: Server, start: nat, n: nat)
    requires WellNumbered(srv.log) && start + n <= |srv.log|
    requires forall k :: 0 <= k < |srv.log| ==> !cfg.isEnd(srv.log[k])
    ensures HasHeard(cfg, srv, start, start + n, PlainSub(cfg, srv, start, n), HeardOf(cfg, srv.log[start..start + n]))
  {
    var holds := (k: nat, sub: Sub) => k <= n && HeardFirst(cfg, srv, start, k, sub);
    ConnectStreams(cfg, srv, start);
    assert srv.log[start..start] == [];
    forall k: nat, sub | k < n && holds(k, sub) ensures holds(k + 1, StepSub(cfg, srv, sub, Receive)) {
      PlainNextFirst(cfg, srv, start, k, sub);
    }
    PlainInduction(cfg, srv, start, n, holds);
  }

  ghost predicate HeardUpTo(cfg: Config, srv: Server, start: nat, at: nat, sub: Sub) {
    start <= at <= |srv.log| && HasHeard(cfg, srv, start, at, sub, HeardOf(cfg, srv.log[start..at]))
  }

  /** The first `k` events behind the start have been dispatched. */
  ghost predicate HeardFirst(cfg: Config, srv: Server, start: nat, k: nat, sub: Sub) {
    HeardUpTo(cfg, srv, start, start + k, sub)
  }

  lemma {:induction false} PlainNextFirst(cfg: Config, srv: Server, start: nat, k: nat, sub: Sub)
    requires WellNumbered(srv.log) && start + k < |srv.log| && !cfg.isEnd(srv.log[start + k])
    requires HeardFirst(cfg, srv, start, k, sub)
    ensures HeardFirst(cfg, srv, start, k + 1, StepSub(cfg, srv, sub, Receive))
  {
    PlainAdvances(cfg, srv, start, start + k, sub);
  }

  lemma {:induction false} PlainAdvances(cfg: Config, srv: Server, start: nat, at: nat, sub: Sub)
    requires WellNumbered(srv.log) && start <= at < |srv.log| && !cfg.isEnd(srv.log[at])
    requires HeardUpTo(cfg, srv, start, at, sub)
    ensures HeardUpTo(cfg, srv, start, at + 1, StepSub(cfg, srv, sub, Receive))
  {
    HeardOfSnoc(cfg, srv.log, start, at);
    PlainReceive(cfg, srv, start, at, sub, StepSub(cfg, srv, sub, Receive),
                 HeardOf(cfg, srv.log[start..at]), HeardOf(cfg, srv.log[start..at + 1]));
  }

  lemma {:induction false} PlainReceive(cfg: Config, srv: Server, start: nat, at: nat, sub: Sub, next: Sub,
      heard: seq<Event>, more: seq<Event>)
    requires WellNumbered(srv.log) && at < |srv.log| && !cfg.isEnd(srv.log[at])
    requires next == StepSub(cfg, srv, sub, Receive) && more == heard + HeardOf(cfg, [srv.log[at]])
    requires HasHeard(cfg, srv, start, at, sub, heard)
    ensures HasHeard(cfg, srv, start, at + 1, next, more)
  {
    PlainNext(cfg, srv, start, at, sub, heard);
  }

  lemma {:induction false} HeardOfSnoc(cfg: Config, log: seq<Event>, lo: nat, hi: nat)
    requires lo <= hi < |log|
    ensures HeardOf(cfg, log[lo..hi + 1]) == HeardOf(cfg, log[lo..hi]) + HeardOf(cfg, [log[hi]])
  {
    var slice := log[lo..hi + 1];
    assert slice[..|slice| - 1] == log[lo..hi];
    assert HeardOf(cfg, [log[hi]]) == if Heard(cfg, log[hi]) then [log[hi]] else [];
  }

  lemma {:induction false} HeardOfMembers(cfg: Config, events: seq<Event>, e: Event)
    ensures e in HeardOf(cfg, events) <==> e in events && Heard(cfg, e)
  {
    if events != [] {
      HeardOfMembers(cfg, events[..|events| - 1], e);
      assert events == events[..|events| - 1] + [events[|events| - 1]];
    }
  }

  lemma {:induction false} RunSubOk(cfg: Config, srv: Server, sub: Sub, steps: seq<SubStep>)
    requires WellNumbered(srv.log) && SubOk(cfg, srv.log, sub)
    ensures SubOk(cfg, srv.log, RunSub(cfg, srv, sub, steps))
    ensures RunSub(cfg, srv, sub, steps).start == sub.start
  {
    if steps != [] {
      RunSubOk(cfg, srv, sub, steps[..|steps| - 1]);
      StepOk(cfg, srv, RunSub(cfg, srv, sub, steps[..|steps| - 1]), steps[|steps| - 1]);
    }
  }

  lemma {:induction false} PlainRunDelivers(cfg: Config, srv: Server, start: nat)
    requires WellNumbered(srv.log) && start <= |srv.log|
    requires forall k :: 0 <= k < |srv.log| ==> !cfg.isEnd(srv.log[k])
    ensures var sub := RunSub(cfg, srv, Subscribe(start), PlainRun(|srv.log| - start));
      sub.start == start && sub.client.delivered == HeardOf(cfg, srv.log[start..])
  {
    var n := |srv.log| - start;
    PlainSubHears(cfg, srv, start, n);
    PlainSubRuns(cfg, srv, start, n);
    assert srv.log[start..start + n] == srv.log[start..];
    HasHeardGives(cfg, srv, start, start + n, PlainSub(cfg, srv, start, n), HeardOf(cfg, srv.log[start..]));
  }

  lemma {:induction false} HasHeardGives(cfg: Config, srv: Server, start: nat, at: nat, sub: Sub, heard: seq<Event>)
    requires HasHeard(cfg, srv, start, at, sub, heard)
    ensures sub.start == start && sub.client.delivered == heard
  {
  }

  /** With everything dispatched, the wire holds the end marker of a run that is over, or nothing. */
  lemma {:induction false} LastReceive(cfg: Config, srv: Server, sub: Sub)
    requires Streaming(cfg, srv, sub, |srv.log|)
    ensures var now := StepSub(cfg, srv, sub, Receive).client;
      now.status == Ended <==> srv.state in {Succeeded, Failed, Cancelled, Interrupted}
  {
    assert WireOk(srv.log, sub.es.value.conn.value, |srv.log|);
  }

  lemma {:induction false} PlainRunStreams(cfg: Config, srv: Server, start: nat, n: nat, sub: Sub)
    requires WellNumbered(srv.log) && start + n <= |srv.log|
    requires forall k :: 0 <= k < |srv.log| ==> !cfg.isEnd(srv.log[k])
    requires sub == RunSub(cfg, srv, Subscribe(start), PlainRun(n))
    ensures Streaming(cfg, srv, sub, start + n)
  {
    PlainSubHears(cfg, srv, start, n);
    PlainSubRuns(cfg, srv, start, n);
    HasHeardStreams(cfg, srv, start, start + n, sub, HeardOf(cfg, srv.log[start..start + n]));
  }

  lemma {:induction false} HasHeardStreams(cfg: Config, srv: Server, start: nat, at: nat, sub: Sub, heard: seq<Event>)
    requires HasHeard(cfg, srv, start, at, sub, heard)
    ensures Streaming(cfg, srv, sub, at)
  {
  }

  /** Behind the plain run one more receive ends the stream if and only if the run succeeded, failed,
      was cancelled or was interrupted. */
  lemma {:induction false} StreamEndsExactlyWhenOver(cfg: Config, srv: Server, start: nat, sub: Sub)
    requires WellNumbered(srv.log) && start <= |srv.log|
    requires forall k :: 0 <= k < |srv.log| ==> !cfg.isEnd(srv.log[k])
    requires sub == RunSub(cfg, srv, Subscribe(start), PlainRun(|srv.log| - start))
    ensures StepSub(cfg, srv, sub, Receive).client.status == Ended <==>
      srv.state in {Succeeded, Failed, Cancelled, Interrupted}
  {
    PlainRunStreams(cfg, srv, start, |srv.log| - start, sub);
    LastReceive(cfg, srv, sub);
  }

  /** Connecting once and receiving everything leaves a hole where the log is gappy. */
  lemma {:induction false} GappyRunHasHole(cfg: Config, srv: Server, start: nat, n: nat, m: nat)
    requires WellNumbered(srv.log) && start <= n < m < |srv.log|
    requires forall k :: 0 <= k < |srv.log| ==> !cfg.isEnd(srv.log[k])
    requires !Heard(cfg, srv.log[n]) && Heard(cfg, srv.log[m])
    ensures !Contiguous(srv.log, RunSub(cfg, srv, Subscribe(start), PlainRun(|srv.log| - start)))
  {
    PlainRunDelivers(cfg, srv, start);
    var sub := RunSub(cfg, srv, Subscribe(start), PlainRun(|srv.log| - start));
    var all := srv.log[start..];
    assert all[m - start] == srv.log[m];
    HeardOfMembers(cfg, all, srv.log[n]);
    HeardOfMembers(cfg, all, srv.log[m]);
    HoleBefore(srv.log, sub.client.delivered, start, sub.client.cursor, n, m);
  }

  /** Items that hold a later event but not an earlier one are no slice from `start`. */
  lemma {:induction false} HoleBefore(log: seq<Event>, items: seq<Event>, start: nat, hi: nat, n: nat, m: nat)
    requires WellNumbered(log) && start <= n < m < |log| && log[m] in items && log[n] !in items
    ensures start <= hi <= |log| ==> items != log[start..hi]
  {
    if start <= hi <= |log| {
      var slice := log[start..hi];
      if m < hi {
        assert slice[n - start] == log[n];
      } else {
        assert forall k :: 0 <= k < |slice| ==> slice[k].sequence == start + k + 1;
      }
    }
  }

  /** For a given log, every run is contiguous if and only if no unheard event precedes a
      heard one. */
  lemma {:induction false} ContiguousExactlyWhenNotGappy(cfg: Config, srv: Server, start: nat)
    requires WellNumbered(srv.log) && start <= |srv.log|
    requires forall k :: 0 <= k < |srv.log| ==> !cfg.isEnd(srv.log[k])
    ensures (forall steps: seq<SubStep> :: Contiguous(srv.log, RunSub(cfg, srv, Subscribe(start), steps)))
            <==> !Gappy(cfg, srv.log, start)
  {
    if Gappy(cfg, srv.log, start) {
      var n, m :| start <= n < m < |srv.log| && !Heard(cfg, srv.log[n]) && Heard(cfg, srv.log[m]);
      GappyRunHasHole(cfg, srv, start, n, m);
    } else {
      forall steps: seq<SubStep> ensures Contiguous(srv.log, RunSub(cfg, srv, Subscribe(start), steps)) {
        SubscribeOk(cfg, srv.log, start);
        RunSubOk(cfg, srv, Subscribe(start), steps);
        OkIsContiguous(cfg, srv.log, RunSub(cfg, srv, Subscribe(start), steps));
      }
    }
  }
}
