/** The per-run event log of the server: numbering, state changes, paged history
    and what one open stream still has to write. */
module RunLog {
  import opened Options

  datatype RunState =
    | Queued | Preparing | LoadingModel | Running | WaitingInput | Cancelling
    | Succeeded | Failed | Cancelled | Interrupted

  predicate IsTerminal(s: RunState) {
    s.Succeeded? || s.Failed? || s.Cancelled? || s.Interrupted?
  }

  /** One log entry. `to` is the target of a state change; `body` is the rest of the payload. */
  datatype Event = Event(sequence: nat, kind: string, to: Option<RunState>, body: string)

  const STATE_CHANGED := "run.state_changed"

  /** The log is numbered 1, 2, 3, ... without a hole. */
  predicate WellNumbered(log: seq<Event>) {
    forall i :: 0 <= i < |log| ==> log[i].sequence == i + 1
  }

  function LastSequence(log: seq<Event>): nat {
    if log == [] then 0 else log[|log| - 1].sequence
  }

  function Appended(log: seq<Event>, kind: string, to: Option<RunState>, body: string): seq<Event> {
    log + [Event(LastSequence(log) + 1, kind, to, body)]
  }

  /** The state the log itself records: the target of its last state change. */
  function RecordedState(log: seq<Event>, initial: RunState): RunState {
    if log == [] then initial
    else
      var e := log[|log| - 1];
      if e.kind == STATE_CHANGED && e.to.Some? then e.to.value
      else RecordedState(log[..|log| - 1], initial)
  }

  /** A run record: appending and changing state are the only ways its log grows. */
  class RunRecord {
    var events: seq<Event>
    var state: RunState
    ghost const initial: RunState

    /** The record's state is the one its own log records. */
    ghost predicate Recorded()
      reads this
    {
      state == RecordedState(events, initial)
    }

    constructor (s: RunState)
      ensures WellNumbered(events) && Recorded()
      ensures events == [] && state == s && initial == s
    {
      events := [];
      state := s;
      initial := s;
    }

    method AppendEvent(kind: string, to: Option<RunState>, body: string) returns (event: Event)
      requires WellNumbered(events)
      modifies this`events
      ensures WellNumbered(events)
      ensures event == Event(|old(events)| + 1, kind, to, body)
      ensures events == old(events) + [event] == Appended(old(events), kind, to, body)
      ensures old(Recorded()) && (kind == STATE_CHANGED && to.Some? ==> to.value == state) ==> Recorded()
    {
      event := Event((if |events| > 0 then events[|events| - 1].sequence else 0) + 1, kind, to, body);
      events := events + [event];
    }

    method SetRunState(to: RunState, body: string)
      requires WellNumbered(events)
      modifies this
      ensures WellNumbered(events) && state == to
      ensures events == if old(state) == to then old(events)
                        else Appended(old(events), STATE_CHANGED, Some(to), body)
      ensures old(Recorded()) ==> Recorded()
    {
      if state == to { return; }
      state := to;
      var _ := AppendEvent(STATE_CHANGED, Some(to), body);
    }
  }

  // --- Paged history --------------------------------------------------------

  function After(log: seq<Event>, after: nat): seq<Event> {
    if log == [] then []
    else (if log[0].sequence > after then [log[0]] else []) + After(log[1..], after)
  }

  function Min(a: int, b: int): int { if a < b then a else b }

  function History(log: seq<Event>, after: nat, limit: nat): seq<Event> {
    var found := After(log, after);
    found[..Min(limit, |found|)]
  }

  lemma {:induction false} AfterIsSuffix(log: seq<Event>, base: nat, after: nat)
    requires forall i :: 0 <= i < |log| ==> log[i].sequence == base + i + 1
    ensures After(log, after) == log[Min(|log|, if after <= base then 0 else after - base)..]
  {
    if log != [] {
      AfterIsSuffix(log[1..], base + 1, after);
      if after <= base { assert [log[0]] + log[1..] == log; }
    }
  }

  /** The history route serves exactly the next `limit` events after the cursor. */
  lemma {:induction false} HistoryIsSlice(log: seq<Event>, after: nat, limit: nat)
    requires WellNumbered(log)
    ensures after <= |log| ==> History(log, after, limit) == log[after..Min(after + limit, |log|)]
    ensures after > |log| ==> History(log, after, limit) == []
  {
    AfterIsSuffix(log, 0, after);
  }

  // --- One server stream ----------------------------------------------------

  /** The cursor moves with each event written. */
  function CursorAfter(log: seq<Event>, cursor: nat): nat {
    if log == [] then cursor
    else
      var c, e := CursorAfter(log[..|log| - 1], cursor), log[|log| - 1];
      if e.sequence > c then e.sequence else c
  }

  /** What a flush writes: every event past the moving cursor. */
  function Unsent(log: seq<Event>, cursor: nat): seq<Event> {
    if log == [] then []
    else
      var front, e := log[..|log| - 1], log[|log| - 1];
      Unsent(front, cursor) + (if e.sequence > CursorAfter(front, cursor) then [e] else [])
  }

  lemma {:induction false} CursorAfterIsEnd(log: seq<Event>, cursor: nat)
    requires WellNumbered(log)
    ensures CursorAfter(log, cursor) == if cursor < |log| then |log| else cursor
  {
    if log != [] { CursorAfterIsEnd(log[..|log| - 1], cursor); }
  }

  lemma {:induction false} SuffixSnoc(log: seq<Event>, k: nat)
    requires k < |log|
    ensures log[..|log| - 1][k..] + [log[|log| - 1]] == log[k..]
  {
  }

  lemma {:induction false} UnsentIsSuffix(log: seq<Event>, cursor: nat)
    requires WellNumbered(log)
    ensures CursorAfter(log, cursor) == if cursor < |log| then |log| else cursor
    ensures Unsent(log, cursor) == log[Min(|log|, cursor)..]
  {
    CursorAfterIsEnd(log, cursor);
    if log != [] {
      UnsentIsSuffix(log[..|log| - 1], cursor);
      if cursor < |log| {
        SuffixSnoc(log, cursor);
      } else {
        assert log[..|log| - 1][|log| - 1..] == [] == log[|log|..];
      }
    }
  }

  /** A message on the wire. `End.at` records how long the log was when the marker was written. */
  datatype Message = Item(event: Event) | End(at: nat)

  function Items(events: seq<Event>): seq<Message> {
    seq(|events|, i requires 0 <= i < |events| => Item(events[i]))
  }

  function FlushOutput(log: seq<Event>, state: RunState, cursor: nat): seq<Message> {
    Items(Unsent(log, cursor)) + (if IsTerminal(state) then [End(|log|)] else [])
  }

  lemma {:induction false} ItemsSnoc(events: seq<Event>, e: Event)
    ensures Items(events + [e]) == Items(events) + [Item(e)]
  {
  }

  lemma {:induction false} UnsentSnoc(events: seq<Event>, i: nat, cursor: nat)
    requires i < |events|
    ensures var c, e := CursorAfter(events[..i], cursor), events[i];
      && (e.sequence > c ==>
            && Unsent(events[..i + 1], cursor) == Unsent(events[..i], cursor) + [e]
            && CursorAfter(events[..i + 1], cursor) == e.sequence)
      && (e.sequence <= c ==>
            && Unsent(events[..i + 1], cursor) == Unsent(events[..i], cursor)
            && CursorAfter(events[..i + 1], cursor) == c)
  {
    assert events[..i + 1][..i] == events[..i] && events[..i + 1][i] == events[i];
  }

  lemma {:induction false} Regroup(a: seq<Message>, b: seq<Message>, c: seq<Message>)
    ensures (a + b) + c == a + (b + c)
  {
  }

  function StartCursor(lastEventId: Option<string>, after: Option<string>, number: string -> Option<int>): nat {
    var given := if lastEventId.Some? then lastEventId else after;
    if given.None? || number(given.value).None? || number(given.value).value < 0 then 0 else number(given.value).value
  }

  /** One open stream of the events route: its own cursor and what it has written so far. */
  class EventStreamResponse {
    var cursor: nat
    var closed: bool
    var written: seq<Message>

    /** The Last-Event-ID header, else the query parameter, read by `number`; text that is no
        number starts at 0, and so does a number below 0, which no event precedes. */
    constructor (lastEventId: Option<string>, after: Option<string>, number: string -> Option<int>)
      ensures !closed && written == []
      ensures cursor == StartCursor(lastEventId, after, number)
    {
      cursor := StartCursor(lastEventId, after, number);
      closed := false;
      written := [];
    }

    method Flush(events: seq<Event>, state: RunState)
      requires WellNumbered(events)
      modifies this
      ensures old(closed) ==> closed && written == old(written) && cursor == old(cursor)
      ensures !old(closed) ==>
        && written == old(written) + FlushOutput(events, state, old(cursor))
        && cursor == (if old(cursor) < |events| then |events| else old(cursor))
        && closed == IsTerminal(state)
    {
      if closed { return; }
      ghost var out: seq<Event> := [];
      ghost var sent: seq<Message> := Items(out);
      var i := 0;
      while i < |events|
        invariant 0 <= i <= |events| && !closed
        invariant written == old(written) + sent && sent == Items(out)
        invariant out == Unsent(events[..i], old(cursor)) && cursor == CursorAfter(events[..i], old(cursor))
      {
        var e := events[i];
        UnsentSnoc(events, i, old(cursor));
        if e.sequence > cursor {
          written := written + [Item(e)];
          Regroup(old(written), sent, [Item(e)]);
          ItemsSnoc(out, e);
          out, sent := out + [e], sent + [Item(e)];
          cursor := e.sequence;
        }
        i := i + 1;
      }
      assert events[..i] == events;
      UnsentIsSuffix(events, old(cursor));
      Regroup(old(written), sent, [End(|events|)]);
      assert sent + [] == sent;
      if IsTerminal(state) {
        written := written + [End(|events|)];
        closed := true;
      }
    }
  }
}
