/** Telling a recording from a person by timing: `VoicemailDetector` of the voice caller. */
module Voicemail {
  import opened Options

  datatype Verdict = VoicemailReached | IvrReached

  /** Limits and fields of the detector. */
  datatype State = State(
    silenceLimit: real, monologueLimit: real,
    answeredAt: Option<real>, speechStartedAt: Option<real>, hasSpoken: bool, disarmed: bool,
    agentSince: Option<real>, agentTotal: real)

  datatype Event =
    | Answer(at: real)
    | AgentStart(at: real)
    | AgentEnd(at: real)
    | RemoteStart(at: real)
    | RemoteEnd(at: real)

  function Fresh(silenceLimit: real, monologueLimit: real): State {
    State(silenceLimit, monologueLimit, None, None, false, false, None, 0.0)
  }

  function Max(a: real, b: real): real { if a < b then b else a }

  function Apply(d: State, e: Event): State {
    match e
    case Answer(at) => Fresh(d.silenceLimit, d.monologueLimit).(answeredAt := Some(at))
    case AgentStart(at) => if d.agentSince.None? then d.(agentSince := Some(at)) else d
    case AgentEnd(at) =>
      if d.agentSince.None? then d
      else d.(agentTotal := d.agentTotal + Max(0.0, at - d.agentSince.value), agentSince := None)
    case RemoteStart(at) => d.(speechStartedAt := Some(at), hasSpoken := true)
    case RemoteEnd(at) => d.(speechStartedAt := None, disarmed := d.disarmed || d.hasSpoken)
  }

  function Checked(d: State, now: real): Option<Verdict> {
    if d.answeredAt.None? || d.disarmed || d.agentSince.Some? then None
    else if d.speechStartedAt.Some? then
      if now - d.speechStartedAt.value > d.monologueLimit then Some(IvrReached) else None
    else if !d.hasSpoken && now > d.answeredAt.value + d.agentTotal + d.silenceLimit then Some(VoicemailReached)
    else None
  }

  class VoicemailDetector {
    const silenceLimit: real
    const monologueLimit: real
    var answeredAt: Option<real>
    var speechStartedAt: Option<real>
    var hasSpoken: bool
    var disarmed: bool
    var agentSince: Option<real>
    var agentTotal: real

    ghost function Value(): State
      reads this
    {
      State(silenceLimit, monologueLimit, answeredAt, speechStartedAt, hasSpoken, disarmed, agentSince, agentTotal)
    }

    constructor (silenceLimit: real, monologueLimit: real)
      ensures Value() == Fresh(silenceLimit, monologueLimit)
    {
      this.silenceLimit, this.monologueLimit := silenceLimit, monologueLimit;
      answeredAt, speechStartedAt, hasSpoken, disarmed, agentSince, agentTotal := None, None, false, false, None, 0.0;
    }

    method OnAnswer(at: real)
      modifies this
      ensures Value() == Apply(old(Value()), Answer(at))
    {
      answeredAt, speechStartedAt, hasSpoken, disarmed := Some(at), None, false, false;
      agentSince, agentTotal := None, 0.0;
    }

    method OnAgentSpeechStart(at: real)
      modifies this
      ensures Value() == Apply(old(Value()), AgentStart(at))
    {
      if agentSince.None? { agentSince := Some(at); }
    }

    method OnAgentSpeechEnd(at: real)
      modifies this
      ensures Value() == Apply(old(Value()), AgentEnd(at))
    {
      if agentSince.Some? {
        agentTotal := agentTotal + Max(0.0, at - agentSince.value);
        agentSince := None;
      }
    }

    method OnRemoteSpeechStart(at: real)
      modifies this
      ensures Value() == Apply(old(Value()), RemoteStart(at))
    {
      speechStartedAt, hasSpoken := Some(at), true;
    }

    method OnRemoteSpeechEnd(at: real)
      modifies this
      ensures Value() == Apply(old(Value()), RemoteEnd(at))
    {
      speechStartedAt := None;
      if hasSpoken { disarmed := true; }
    }

    method Check(now: real) returns (v: Option<Verdict>)
      ensures v == Checked(Value(), now)
    {
      if answeredAt.None? { return None; }
      if disarmed { return None; }
      if agentSince.Some? { return None; }
      if speechStartedAt.Some? {
        if now - speechStartedAt.value > monologueLimit { return Some(IvrReached); }
        return None;
      }
      var deadline := answeredAt.value + agentTotal + silenceLimit;
      if !hasSpoken && now > deadline { return Some(VoicemailReached); }
      return None;
    }
  }

  // --- What happened on the call -----------------------------------------------------------------

  type Trace = seq<Event>

  function After(d: State, trace: Trace): State {
    if trace == [] then d else Apply(After(d, trace[..|trace| - 1]), trace[|trace| - 1])
  }

  ghost predicate Ordered(trace: Trace) {
    forall i, j :: 0 <= i < j < |trace| ==> trace[i].at <= trace[j].at
  }

  ghost predicate Answered(trace: Trace) { exists i :: 0 <= i < |trace| && trace[i].Answer? }

  /** Event `i` lies after the last answer, or anywhere if there was none. */
  ghost predicate Since(trace: Trace, i: int) {
    0 <= i < |trace| && forall k :: i <= k < |trace| ==> !trace[k].Answer?
  }

  /** The far end has begun to speak. */
  ghost predicate Spoke(trace: Trace) { exists i :: Since(trace, i) && trace[i].RemoteStart? }

  /** The far end has begun to speak and later stopped. */
  ghost predicate YieldedAt(trace: Trace, i: int, j: int) {
    Since(trace, i) && i < j < |trace| && trace[i].RemoteStart? && trace[j].RemoteEnd?
  }

  ghost predicate Yielded(trace: Trace) { exists i, j :: YieldedAt(trace, i, j) }

  /** The far end speaks since event `i`. */
  ghost predicate TalkingSince(trace: Trace, i: int) {
    && Since(trace, i) && trace[i].RemoteStart?
    && forall k :: i < k < |trace| ==> !trace[k].RemoteStart? && !trace[k].RemoteEnd?
  }

  ghost predicate AgentSince(trace: Trace, i: int) {
    Since(trace, i) && trace[i].AgentStart? && forall k :: i < k < |trace| ==> !trace[k].AgentEnd?
  }

  /** The agent has begun to speak and not stopped. */
  ghost predicate AgentSpeaks(trace: Trace) { exists i :: AgentSince(trace, i) }

  /** The time from the last answer to the last event in which the agent did not speak. */
  ghost function QuietTime(trace: Trace): real {
    if trace == [] || trace[|trace| - 1].Answer? then 0.0
    else
      var front := trace[..|trace| - 1];
      if front == [] || AgentSpeaks(front) then QuietTime(front)
      else QuietTime(front) + (trace[|trace| - 1].at - front[|front| - 1].at)
  }

  /** The same, up to now. */
  ghost function QuietUntil(trace: Trace, now: real): real {
    if trace == [] || AgentSpeaks(trace) then QuietTime(trace) else QuietTime(trace) + (now - trace[|trace| - 1].at)
  }

  // --- One more event --------------------------------------------------------------------------------

  lemma {:induction false} SinceSnoc(front: Trace, e: Event, i: int)
    ensures Since(front + [e], i) <==> !e.Answer? && (i == |front| || Since(front, i))
  {
    var trace := front + [e];
    assert trace[|front|] == e;
    assert forall k :: 0 <= k < |front| ==> trace[k] == front[k];
  }

  lemma {:induction false} AnsweredSnoc(front: Trace, e: Event)
    ensures Answered(front + [e]) <==> Answered(front) || e.Answer?
  {
    var trace := front + [e];
    assert trace[|front|] == e;
    assert forall k :: 0 <= k < |front| ==> trace[k] == front[k];
  }

  lemma {:induction false} SpokeSnoc(front: Trace, e: Event)
    ensures Spoke(front + [e]) <==> !e.Answer? && (Spoke(front) || e.RemoteStart?)
  {
    var trace := front + [e];
    forall i ensures Since(trace, i) <==> !e.Answer? && (i == |front| || Since(front, i)) { SinceSnoc(front, e, i); }
    if Spoke(front) && !e.Answer? {
      var i :| Since(front, i) && front[i].RemoteStart?;
      assert Since(trace, i) && trace[i] == front[i];
    }
    if e.RemoteStart? { assert Since(trace, |front|); }
  }

  lemma {:induction false} YieldedSnoc(front: Trace, e: Event)
    ensures Yielded(front + [e]) <==> !e.Answer? && (Yielded(front) || (e.RemoteEnd? && Spoke(front)))
  {
    var trace := front + [e];
    forall i ensures Since(trace, i) <==> !e.Answer? && (i == |front| || Since(front, i)) { SinceSnoc(front, e, i); }
    if Yielded(front) && !e.Answer? {
      var i, j :| YieldedAt(front, i, j);
      assert YieldedAt(trace, i, j);
    }
    if Spoke(front) && e.RemoteEnd? {
      var i :| Since(front, i) && front[i].RemoteStart?;
      assert YieldedAt(trace, i, |front|);
    }
    if Yielded(trace) {
      var i, j :| YieldedAt(trace, i, j);
      assert trace[i] == front[i];
      if j < |front| { assert YieldedAt(front, i, j); }
    }
  }

  lemma {:induction false} TalkingSnoc(front: Trace, e: Event, i: int)
    ensures TalkingSince(front + [e], i) <==>
      if e.RemoteStart? then i == |front| else !e.Answer? && !e.RemoteEnd? && TalkingSince(front, i)
  {
    var trace := front + [e];
    SinceSnoc(front, e, i);
    assert trace[|front|] == e;
    assert forall k :: 0 <= k < |front| ==> trace[k] == front[k];
  }

  lemma {:induction false} AgentSinceSnoc(front: Trace, e: Event, i: int)
    ensures AgentSince(front + [e], i) <==>
      !e.Answer? && !e.AgentEnd? && (AgentSince(front, i) || (e.AgentStart? && i == |front|))
  {
    var trace := front + [e];
    SinceSnoc(front, e, i);
    assert trace[|front|] == e;
    assert forall k :: 0 <= k < |front| ==> trace[k] == front[k];
  }

  lemma {:induction false} AgentSpeaksSnoc(front: Trace, e: Event)
    ensures AgentSpeaks(front + [e]) <==> !e.Answer? && !e.AgentEnd? && (AgentSpeaks(front) || e.AgentStart?)
  {
    forall i ensures AgentSince(front + [e], i) <==>
      !e.Answer? && !e.AgentEnd? && (AgentSince(front, i) || (e.AgentStart? && i == |front|))
    {
      AgentSinceSnoc(front, e, i);
    }
    if AgentSpeaks(front) && !e.Answer? && !e.AgentEnd? {
      var i :| AgentSince(front, i);
      assert AgentSince(front + [e], i);
    }
    if e.AgentStart? { assert AgentSince(front + [e], |front|); }
  }

  // --- The fields say what happened ---------------------------------------------------------------------

  /** The flags and the far end's clock. */
  ghost predicate FlagsRight(d: State, trace: Trace) {
    && (d.answeredAt.Some? <==> Answered(trace))
    && (d.hasSpoken <==> Spoke(trace))
    && (d.disarmed <==> Yielded(trace))
    && (d.speechStartedAt.Some? ==> exists i :: TalkingSince(trace, i) && trace[i].at == d.speechStartedAt.value)
    && (d.speechStartedAt.None? ==> forall i :: !TalkingSince(trace, i))
    && (d.agentSince.Some? <==> AgentSpeaks(trace))
  }

  lemma {:induction false} ClockStep(d: State, front: Trace, e: Event)
    requires FlagsRight(d, front)
    ensures var n := Apply(d, e);
      && (n.speechStartedAt.Some? ==>
            exists i :: TalkingSince(front + [e], i) && (front + [e])[i].at == n.speechStartedAt.value)
      && (n.speechStartedAt.None? ==> forall i :: !TalkingSince(front + [e], i))
  {
    var trace := front + [e];
    forall i ensures TalkingSince(trace, i) <==>
      if e.RemoteStart? then i == |front| else !e.Answer? && !e.RemoteEnd? && TalkingSince(front, i)
    {
      TalkingSnoc(front, e, i);
    }
    if e.RemoteStart? {
      assert TalkingSince(trace, |front|) && trace[|front|].at == e.at;
    } else if !e.Answer? && !e.RemoteEnd? && d.speechStartedAt.Some? {
      var i :| TalkingSince(front, i) && front[i].at == d.speechStartedAt.value;
      assert TalkingSince(trace, i) && trace[i] == front[i];
    }
  }

  lemma {:induction false} FlagsStep(d: State, front: Trace, e: Event)
    requires FlagsRight(d, front)
    ensures FlagsRight(Apply(d, e), front + [e])
  {
    AnsweredSnoc(front, e);
    SpokeSnoc(front, e);
    YieldedSnoc(front, e);
    AgentSpeaksSnoc(front, e);
    ClockStep(d, front, e);
  }

  lemma {:induction false} FlagsAreRight(silenceLimit: real, monologueLimit: real, trace: Trace)
    ensures FlagsRight(After(Fresh(silenceLimit, monologueLimit), trace), trace)
  {
    if trace != [] {
      var front := trace[..|trace| - 1];
      FlagsAreRight(silenceLimit, monologueLimit, front);
      FlagsStep(After(Fresh(silenceLimit, monologueLimit), front), front, trace[|trace| - 1]);
      assert trace == front + [trace[|trace| - 1]];
    }
  }

  /** Since the answer, time is either agent speech or quiet; a running utterance began no later
      than the last event. */
  ghost predicate TimesRight(d: State, trace: Trace) {
    Answered(trace) && d.answeredAt.Some? ==>
      var last := trace[|trace| - 1].at;
      && (d.agentSince.Some? ==> d.agentSince.value <= last)
      && QuietTime(trace) + d.agentTotal + d.answeredAt.value ==
           if d.agentSince.Some? then d.agentSince.value else last
  }

  lemma {:induction false} TimesStep(d: State, front: Trace, e: Event)
    requires FlagsRight(d, front) && TimesRight(d, front)
    requires front != [] ==> front[|front| - 1].at <= e.at
    ensures TimesRight(Apply(d, e), front + [e])
  {
    var trace := front + [e];
    assert trace[..|front|] == front && trace[|front|] == e;
    AnsweredSnoc(front, e);
  }

  lemma {:induction false} TimesAreRight(silenceLimit: real, monologueLimit: real, trace: Trace)
    requires Ordered(trace)
    ensures TimesRight(After(Fresh(silenceLimit, monologueLimit), trace), trace)
  {
    if trace != [] {
      var front := trace[..|trace| - 1];
      TimesAreRight(silenceLimit, monologueLimit, front);
      FlagsAreRight(silenceLimit, monologueLimit, front);
      TimesStep(After(Fresh(silenceLimit, monologueLimit), front), front, trace[|trace| - 1]);
      assert trace == front + [trace[|trace| - 1]];
    }
  }

  lemma {:induction false} LimitsStay(d: State, trace: Trace)
    ensures After(d, trace).silenceLimit == d.silenceLimit && After(d, trace).monologueLimit == d.monologueLimit
  {
    if trace != [] { LimitsStay(d, trace[..|trace| - 1]); }
  }

  // --- What `check` reports -----------------------------------------------------------------------------

  /** Voicemail is reported exactly when the call is answered, the far end has not spoken since,
      the agent is silent, and the time in which neither spoke exceeds the limit. */
  lemma {:induction false} VoicemailExactly(silenceLimit: real, monologueLimit: real, trace: Trace, now: real)
    requires Ordered(trace)
    ensures Checked(After(Fresh(silenceLimit, monologueLimit), trace), now) == Some(VoicemailReached) <==>
      Answered(trace) && !Spoke(trace) && !AgentSpeaks(trace) && QuietUntil(trace, now) > silenceLimit
  {
    var d := After(Fresh(silenceLimit, monologueLimit), trace);
    LimitsStay(Fresh(silenceLimit, monologueLimit), trace);
    FlagsAreRight(silenceLimit, monologueLimit, trace);
    TimesAreRight(silenceLimit, monologueLimit, trace);
    if Yielded(trace) {
      var i, j :| YieldedAt(trace, i, j);
      assert Since(trace, i) && trace[i].RemoteStart?;
    }
  }

  /** A menu is reported exactly when the call is answered, the agent is silent, and the far end,
      never having stopped since it first spoke, speaks for longer than the limit. */
  lemma {:induction false} IvrExactly(silenceLimit: real, monologueLimit: real, trace: Trace, now: real)
    ensures Checked(After(Fresh(silenceLimit, monologueLimit), trace), now) == Some(IvrReached) <==>
      && Answered(trace) && !Yielded(trace) && !AgentSpeaks(trace)
      && exists i :: TalkingSince(trace, i) && now - trace[i].at > monologueLimit
  {
    LimitsStay(Fresh(silenceLimit, monologueLimit), trace);
    FlagsAreRight(silenceLimit, monologueLimit, trace);
    forall i, j | TalkingSince(trace, i) && TalkingSince(trace, j) ensures i == j {
    }
  }

  lemma {:induction false} YieldedStays(trace: Trace, more: Trace)
    requires Yielded(trace) && forall k :: 0 <= k < |more| ==> !more[k].Answer?
    ensures Yielded(trace + more)
  {
    var i, j :| YieldedAt(trace, i, j);
    assert forall k :: 0 <= k < |trace| ==> (trace + more)[k] == trace[k];
    assert forall k :: 0 <= k < |more| ==> (trace + more)[|trace| + k] == more[k];
    assert YieldedAt(trace + more, i, j);
  }

  /** Once the far end has spoken and stopped, nothing is reported at any time until the next
      answer, whatever happens. */
  lemma {:induction false} SpokenAndYieldedIsSilence(silenceLimit: real, monologueLimit: real, trace: Trace,
      more: Trace, now: real)
    requires Yielded(trace) && forall k :: 0 <= k < |more| ==> !more[k].Answer?
    ensures Checked(After(Fresh(silenceLimit, monologueLimit), trace + more), now) == None
  {
    YieldedStays(trace, more);
    FlagsAreRight(silenceLimit, monologueLimit, trace + more);
  }

  // --- When the silence lasts ---------------------------------------------------------------------------

  /** Whenever it is asked, the detector reports nothing. */
  ghost predicate AlwaysSilent(d: State) { forall now :: Checked(d, now).None? }

  /** Speech that is no longer running has been yielded. */
  lemma {:induction false} QuietAfterSpeechIsDisarmed(silenceLimit: real, monologueLimit: real, trace: Trace)
    ensures var d := After(Fresh(silenceLimit, monologueLimit), trace);
      d.hasSpoken && d.speechStartedAt.None? ==> d.disarmed
  {
    if trace != [] { QuietAfterSpeechIsDisarmed(silenceLimit, monologueLimit, trace[..|trace| - 1]); }
  }

  /** An armed detector reports something, late enough. */
  lemma {:induction false} ArmedSpeaksUp(d: State)
    requires d.answeredAt.Some? && !d.disarmed && d.agentSince.None?
    requires d.speechStartedAt.None? ==> !d.hasSpoken
    ensures !AlwaysSilent(d)
  {
    var late := if d.speechStartedAt.Some? then d.speechStartedAt.value + d.monologueLimit + 1.0
                else d.answeredAt.value + d.agentTotal + d.silenceLimit + 1.0;
    assert Checked(d, late).Some?;
  }

  /** Nothing is reported at any time exactly when the call is not answered, the far end has spoken
      and stopped since the last answer, or the agent speaks. */
  lemma {:induction false} SilentExactly(silenceLimit: real, monologueLimit: real, trace: Trace)
    ensures AlwaysSilent(After(Fresh(silenceLimit, monologueLimit), trace)) <==>
      !Answered(trace) || Yielded(trace) || AgentSpeaks(trace)
  {
    var d := After(Fresh(silenceLimit, monologueLimit), trace);
    FlagsAreRight(silenceLimit, monologueLimit, trace);
    QuietAfterSpeechIsDisarmed(silenceLimit, monologueLimit, trace);
    if Answered(trace) && !Yielded(trace) && !AgentSpeaks(trace) { ArmedSpeaksUp(d); }
  }

  ghost predicate NoAnswer(trace: Trace) { forall k :: 0 <= k < |trace| ==> !trace[k].Answer? }

  lemma {:induction false} UnansweredStays(trace: Trace, more: Trace)
    requires !Answered(trace) && NoAnswer(more)
    ensures !Answered(trace + more)
  {
    assert forall k :: 0 <= k < |trace| ==> !trace[k].Answer?;
  }

  /** Nothing will be reported, whatever happens short of another answer, exactly when the call is not
      answered or the far end has spoken and stopped since the last answer. */
  lemma {:induction false} SilentForGoodExactly(silenceLimit: real, monologueLimit: real, trace: Trace)
    ensures (forall more | NoAnswer(more) :: AlwaysSilent(After(Fresh(silenceLimit, monologueLimit), trace + more)))
            <==> !Answered(trace) || Yielded(trace)
  {
    var initial := Fresh(silenceLimit, monologueLimit);
    if !Answered(trace) || Yielded(trace) {
      forall more | NoAnswer(more) ensures AlwaysSilent(After(initial, trace + more)) {
        SilentExactly(silenceLimit, monologueLimit, trace + more);
        if Yielded(trace) { YieldedStays(trace, more); } else { UnansweredStays(trace, more); }
      }
    } else {
      var end := AgentEnd(0.0);
      AnsweredSnoc(trace, end);
      YieldedSnoc(trace, end);
      AgentSpeaksSnoc(trace, end);
      SilentExactly(silenceLimit, monologueLimit, trace + [end]);
      assert NoAnswer([end]);
    }
  }

  /** An answer arms the detector whatever came before it: without another event, voicemail is
      reported once the silence limit has passed. */
  lemma {:induction false} AnswerArms(silenceLimit: real, monologueLimit: real, trace: Trace, at: real, now: real)
    ensures Checked(After(Fresh(silenceLimit, monologueLimit), trace + [Answer(at)]), now) ==
      if now > at + silenceLimit then Some(VoicemailReached) else None
  {
    assert (trace + [Answer(at)])[..|trace|] == trace;
    LimitsStay(Fresh(silenceLimit, monologueLimit), trace);
  }

  /** A detector that has been disarmed stays silent throughout what follows exactly when no answer
      is among it. */
  lemma {:induction false} DisarmLastsExactly(silenceLimit: real, monologueLimit: real, trace: Trace, more: Trace)
    requires Yielded(trace)
    ensures (forall k :: 0 <= k <= |more| ==>
               AlwaysSilent(After(Fresh(silenceLimit, monologueLimit), trace + more[..k]))) <==> NoAnswer(more)
  {
    var initial := Fresh(silenceLimit, monologueLimit);
    if NoAnswer(more) {
      forall k | 0 <= k <= |more| ensures AlwaysSilent(After(initial, trace + more[..k])) {
        YieldedStays(trace, more[..k]);
        SilentExactly(silenceLimit, monologueLimit, trace + more[..k]);
      }
    } else {
      var k :| 0 <= k < |more| && more[k].Answer?;
      var late := more[k].at + silenceLimit + 1.0;
      AnswerArms(silenceLimit, monologueLimit, trace + more[..k], more[k].at, late);
      assert trace + more[..k + 1] == (trace + more[..k]) + [Answer(more[k].at)];
      assert !AlwaysSilent(After(initial, trace + more[..k + 1]));
    }
  }

  /** The order of an ordinary call: the callee's hello comes first and disarms the detector, the
      answer is reported behind it, and a callee who then listens is taken for a voicemail. */
  lemma {:induction false} HelloBeforeAnswerIsForgotten(silenceLimit: real, monologueLimit: real,
      hello: real, pause: real, answer: real, now: real)
    requires hello <= pause <= answer && now > answer + silenceLimit
    ensures var initial, call := Fresh(silenceLimit, monologueLimit), [RemoteStart(hello), RemoteEnd(pause)];
      && Ordered(call + [Answer(answer)]) && Yielded(call) && After(initial, call).disarmed
      && Checked(After(initial, call + [Answer(answer)]), now) == Some(VoicemailReached)
  {
    var call := [RemoteStart(hello), RemoteEnd(pause)];
    assert YieldedAt(call, 0, 1);
    FlagsAreRight(silenceLimit, monologueLimit, call);
    AnswerArms(silenceLimit, monologueLimit, call, answer, now);
  }
}
