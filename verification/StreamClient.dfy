/** The browser side of one run-event subscription: the closure variables of `subscribe`
    as a value, its handlers as functions on that value, and the object that runs them. */
module StreamClient {
  import opened Options
  import opened RunLog

  datatype Status = Connecting | Live | Reconnecting | Polling | Ended | Closed

  /** `isEnd` is the optional end test; it is constantly false when the option is absent. */
  datatype Config = Config(eventTypes: set<string>, isEnd: Event -> bool,
                           maxErrors: nat, pollsBeforeRetry: nat)

  /** Where the polling loop is: not running, sleeping on its timer, or awaiting an answer
      to the request it sent for `asked`. */
  datatype Loop = Idle | Sleeping | Awaiting(asked: nat)

  /** `source` says an EventSource is held. The last four fields are the history of effects:
      items handed to `onItem`, EventSources opened, polls sent and timers started. */
  datatype Client = Client(
    cursor: nat, seen: set<nat>, errors: nat, status: Status, closed: bool, source: bool,
    loop: Loop, polls: nat,
    delivered: seq<Event>, opens: nat, requests: nat, timers: nat)

  function Finish(c: Client, final: Status): Client {
    if c.closed then c
    else c.(closed := true, source := false, status := final,
            loop := if c.loop.Sleeping? then Idle else c.loop)
  }

  function Deliver(cfg: Config, c: Client, item: Event): (Client, bool) {
    if item.sequence <= c.cursor || item.sequence in c.seen then (c, false)
    else
      var d := c.(seen := c.seen + {item.sequence}, cursor := item.sequence,
                  delivered := c.delivered + [item]);
      if cfg.isEnd(item) then (Finish(d, Ended), false) else (d, true)
  }

  function Handle(cfg: Config, c: Client, item: Event): Client {
    if c.closed then c else Deliver(cfg, c.(errors := 0, status := Live), item).0
  }

  function Open(c: Client): Client {
    if c.closed then c else c.(source := true, opens := c.opens + 1)
  }

  function OnOpen(c: Client): Client {
    c.(errors := 0, status := Live)
  }

  function Tick(c: Client): Client {
    if c.closed then c.(loop := Idle)
    else c.(loop := Awaiting(c.cursor), requests := c.requests + 1)
  }

  function OnError(cfg: Config, c: Client, gaveUp: bool): Client {
    if c.closed then c
    else if gaveUp || c.errors + 1 >= cfg.maxErrors then
      Tick(c.(errors := c.errors + 1, source := false, status := Polling, polls := 0))
    else c.(errors := c.errors + 1, status := Reconnecting)
  }

  function DeliverAll(cfg: Config, c: Client, items: seq<Event>): Client
    decreases |items|
  {
    if items == [] then c
    else
      var (d, more) := Deliver(cfg, c, items[0]);
      if more then DeliverAll(cfg, d, items[1..]) else d
  }

  function AfterPoll(cfg: Config, c: Client): Client {
    if c.closed then c
    else if c.polls + 1 >= cfg.pollsBeforeRetry then
      Open(c.(polls := c.polls + 1, errors := 0, status := Reconnecting))
    else c.(polls := c.polls + 1, loop := Sleeping, timers := c.timers + 1)
  }

  function PollReturned(cfg: Config, c: Client, items: seq<Event>, idle: bool): Client {
    var d := DeliverAll(cfg, c.(loop := Idle), items);
    if items == [] && idle then Finish(d, Ended) else AfterPoll(cfg, d)
  }

  function PollFailed(cfg: Config, c: Client): Client {
    AfterPoll(cfg, c.(loop := Idle))
  }

  function Fresh(start: nat): Client {
    Open(Client(start, {}, 0, Connecting, false, false, Idle, 0, [], 0, 0, 0))
  }

  /** The running subscription. Every method does to the fields what the function of the
      same name does to the value. */
  class Subscription {
    const cfg: Config
    var cursor: nat
    var seen: set<nat>
    var errors: nat
    var status: Status
    var closed: bool
    var source: bool
    var loop: Loop
    var polls: nat
    ghost var delivered: seq<Event>
    ghost var opens: nat
    ghost var requests: nat
    ghost var timers: nat

    ghost function View(): Client
      reads this
    {
      Client(cursor, seen, errors, status, closed, source, loop, polls,
             delivered, opens, requests, timers)
    }

    constructor (cfg: Config, initialCursor: nat)
      ensures View() == Fresh(initialCursor) && this.cfg == cfg
    {
      this.cfg := cfg;
      cursor, seen, errors, status, closed := initialCursor, {}, 0, Connecting, false;
      source, loop, polls := false, Idle, 0;
      delivered, opens, requests, timers := [], 0, 0, 0;
      new;
      OpenSource();
    }

    method SetStatus(next: Status)
      modifies this`status
      ensures status == next
    {
      if status == next { return; }
      status := next;
    }

    method OpenSource()
      modifies this
      ensures View() == Open(old(View()))
    {
      if closed { return; }
      source := true;
      opens := opens + 1;
    }

    method FinishWith(final: Status)
      modifies this
      ensures View() == Finish(old(View()), final)
    {
      if closed { return; }
      closed := true;
      source := false;
      if loop.Sleeping? { loop := Idle; }
      SetStatus(final);
    }

    method DeliverItem(item: Event) returns (more: bool)
      modifies this
      ensures (View(), more) == Deliver(cfg, old(View()), item)
    {
      if item.sequence <= cursor || item.sequence in seen { return false; }
      seen := seen + {item.sequence};
      cursor := item.sequence;
      delivered := delivered + [item];
      if cfg.isEnd(item) {
        FinishWith(Ended);
        return false;
      }
      return true;
    }

    method HandleEvent(item: Event)
      modifies this
      ensures View() == Handle(cfg, old(View()), item)
    {
      if closed { return; }
      errors := 0;
      SetStatus(Live);
      var _ := DeliverItem(item);
    }

    method SourceOpened()
      modifies this
      ensures View() == OnOpen(old(View()))
    {
      errors := 0;
      SetStatus(Live);
    }

    method SourceFailed(gaveUp: bool)
      modifies this
      ensures View() == OnError(cfg, old(View()), gaveUp)
    {
      if closed { return; }
      errors := errors + 1;
      if gaveUp || errors >= cfg.maxErrors {
        source := false;
        SetStatus(Polling);
        polls := 0;
        StartTick();
      } else {
        SetStatus(Reconnecting);
      }
    }

    /** The part of a tick before its `await`. */
    method StartTick()
      modifies this
      ensures View() == Tick(old(View()))
    {
      loop := Idle;
      if closed { return; }
      loop := Awaiting(cursor);
      requests := requests + 1;
    }

    /** Hand over a poll's items in order, stopping at the first that is not wanted. */
    method DeliverItems(items: seq<Event>)
      modifies this
      ensures View() == DeliverAll(cfg, old(View()), items)
    {
      var i := 0;
      var more := true;
      while more && i < |items|
        invariant 0 <= i <= |items|
        invariant DeliverAll(cfg, old(View()), items) == if more then DeliverAll(cfg, View(), items[i..]) else View()
      {
        assert items[i..][0] == items[i] && items[i..][1..] == items[i + 1..];
        more := DeliverItem(items[i]);
        i := i + 1;
      }
    }

    /** The part of a tick after its `await`; a rejected request gives no answer. */
    method ResumeTick(answer: Option<seq<Event>>, idle: bool)
      modifies this
      ensures answer.Some? ==> View() == PollReturned(cfg, old(View()), answer.value, idle)
      ensures answer.None? ==> View() == PollFailed(cfg, old(View()))
    {
      loop := Idle;
      if answer.Some? {
        DeliverItems(answer.value);
        if |answer.value| == 0 && idle {
          FinishWith(Ended);
          return;
        }
      }
      ScheduleNext();
    }

    /** After a poll: go back to the stream, or sleep until the next poll. */
    method ScheduleNext()
      modifies this
      ensures View() == AfterPoll(cfg, old(View()))
    {
      if closed { return; }
      polls := polls + 1;
      if polls >= cfg.pollsBeforeRetry {
        errors := 0;
        SetStatus(Reconnecting);
        OpenSource();
        return;
      }
      loop := Sleeping;
      timers := timers + 1;
    }

    method CloseIt()
      modifies this
      ensures View() == Finish(old(View()), Closed)
    {
      FinishWith(Closed);
    }
  }
}
