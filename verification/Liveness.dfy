/** Authorisation, pinging and the two deadline timers of a worker session, as a timed state machine.
    Cancelling or re-arming a timer does not drop its handler: the handler still runs once, with the
    "aborted" error. Those pending runs are counted here, because both handlers act on them. */
module Liveness {
  import opened Common

  const PING_TIME: real := 10.0

  datatype Session = Session(
    now: real,
    id: string,
    live: bool,
    pingSuccess: bool,
    closed: bool,
    pingAt: Option<real>,      // deadline of the ping timer, when armed
    deadAt: Option<real>,      // deadline of the dead-ping timer, when armed
    abortedPing: nat,          // aborted ping handlers that have yet to run
    abortedDead: nat,          // aborted dead-ping handlers that have yet to run
    lastGood: real)            // time of the last authorisation or successful ping answer

  const NEW_SESSION := Session(0.0, "-1", false, false, false, None, None, 0, 0, 0.0)

  predicate Accepted(column: seq<string>, id: Option<string>) {
    id.Some? && QuotedId(id.value) in column
  }

  // ------------------------------------------------------------------ the handlers as functions

  function CancelPing(s: Session): Session {
    if s.pingAt.Some? then s.(pingAt := None, abortedPing := s.abortedPing + 1) else s
  }

  function CancelDead(s: Session): Session {
    if s.deadAt.Some? then s.(deadAt := None, abortedDead := s.abortedDead + 1) else s
  }

  function ArmPing(s: Session): Session {
    CancelPing(s).(pingAt := Some(s.now + PING_TIME))
  }

  function ArmDead(s: Session): Session {
    CancelDead(s).(deadAt := Some(s.now + PING_TIME * 2.0))
  }

  function Stop(s: Session): Session {
    CancelDead(CancelPing(s.(live := false))).(closed := true)
  }

  /** A connect message; None when it carries no id. A rejected id is remembered all the same, and
      rejection does not take liveness away. */
  function Autorization(column: seq<string>, s: Session, id: Option<string>): Session {
    if id.None? then s
    else
      var s1 := s.(id := QuotedId(id.value));
      if Accepted(column, id) then ArmPing(s1.(live := true)).(lastGood := s.now) else s1
  }

  /** The ping timer's handler. */
  function Ping(s: Session, aborted: bool): Session {
    if aborted then Stop(s)
    else if s.live then ArmDead(CancelDead(s.(pingSuccess := false)))
    else s
  }

  /** The dead-ping timer's handler: it does not look at whether it was aborted. */
  function DeadPing(s: Session): Session {
    if !s.pingSuccess then Stop(s) else s
  }

  function AnalizePing(s: Session, success: bool): Session {
    if success then ArmPing(CancelDead(s.(pingSuccess := true))).(lastGood := s.now) else Stop(s)
  }

  function SendDone(s: Session): Session {
    if s.live then s else Stop(s)
  }

  // ------------------------------------------------------------------ runs

  datatype Event =
    | Connect(id: Option<string>)
    | Answer(success: bool)
    | SendCompletes
    | IoError
    | PingFires
    | DeadFires
    | AbortedPingRuns
    | AbortedDeadRuns
    | Tick(to: real)

  /** Timers fire at their deadlines and aborted handlers run at once: time does not pass either. */
  predicate Enabled(s: Session, e: Event) {
    match e
    case PingFires => s.pingAt == Some(s.now)
    case DeadFires => s.deadAt == Some(s.now)
    case AbortedPingRuns => s.abortedPing > 0
    case AbortedDeadRuns => s.abortedDead > 0
    case Tick(to) =>
      && s.now <= to && s.abortedPing == 0 && s.abortedDead == 0
      && (s.pingAt.Some? ==> to <= s.pingAt.value) && (s.deadAt.Some? ==> to <= s.deadAt.value)
    case _ => true
  }

  function Step(column: seq<string>, s: Session, e: Event): Session
    requires Enabled(s, e)
  {
    match e
    case Connect(id) => Autorization(column, s, id)
    case Answer(success) => AnalizePing(s, success)
    case SendCompletes => SendDone(s)
    case IoError => Stop(s)
    case PingFires => Ping(s.(pingAt := None), false)
    case DeadFires => DeadPing(s.(deadAt := None))
    case AbortedPingRuns => Ping(s.(abortedPing := s.abortedPing - 1), true)
    case AbortedDeadRuns => DeadPing(s.(abortedDead := s.abortedDead - 1))
    case Tick(to) => s.(now := to)
  }

  predicate IsRun(column: seq<string>, s: Session, events: seq<Event>)
    decreases events
  {
    events == [] || (Enabled(s, events[0]) && IsRun(column, Step(column, s, events[0]), events[1..]))
  }

  function Run(column: seq<string>, s: Session, events: seq<Event>): Session
    requires IsRun(column, s, events)
    decreases events
  {
    if events == [] then s else Run(column, Step(column, s, events[0]), events[1..])
  }

  predicate HasAcceptedConnect(column: seq<string>, events: seq<Event>) {
    exists i :: 0 <= i < |events| && events[i].Connect? && Accepted(column, events[i].id)
  }

  // ------------------------------------------------------------------ a live session is never stale

  ghost predicate Timely(s: Session) {
    && s.lastGood <= s.now
    && (s.pingAt.Some? ==> s.now <= s.pingAt.value == s.lastGood + 10.0)
    && (s.deadAt.Some? ==> s.now <= s.deadAt.value)
    && (s.live ==>
          || s.pingAt.Some?
          || (s.deadAt.Some? && !s.pingSuccess && s.deadAt.value <= s.lastGood + 30.0))
  }

  lemma StepKeepsTimely(column: seq<string>, s: Session, e: Event)
    requires Timely(s) && Enabled(s, e)
    ensures Timely(Step(column, s, e))
  {
    match e
    case Connect(id) => ConnectKeepsTimely(column, s, id);
    case Answer(success) => AnswerKeepsTimely(s, success);
    case PingFires => PingKeepsTimely(s);
    case DeadFires => DeadPingKeepsTimely(s.(deadAt := None));
    case AbortedDeadRuns => DeadPingKeepsTimely(s.(abortedDead := s.abortedDead - 1));
    case _ =>
  }

  lemma ConnectKeepsTimely(column: seq<string>, s: Session, id: Option<string>)
    requires Timely(s)
    ensures Timely(Autorization(column, s, id))
  {
  }

  lemma AnswerKeepsTimely(s: Session, success: bool)
    requires Timely(s)
    ensures Timely(AnalizePing(s, success))
  {
  }

  lemma PingKeepsTimely(s: Session)
    requires Timely(s) && s.pingAt == Some(s.now)
    ensures Timely(Ping(s.(pingAt := None), false))
  {
  }

  lemma DeadPingKeepsTimely(s: Session)
    requires s.lastGood <= s.now
    requires s.pingAt.Some? ==> s.now <= s.pingAt.value == s.lastGood + 10.0
    requires s.deadAt.Some? ==> s.now <= s.deadAt.value
    requires s.live && s.pingSuccess ==> s.pingAt.Some?
    ensures Timely(DeadPing(s))
  {
  }

  lemma {:induction false} RunKeepsTimely(column: seq<string>, s: Session, events: seq<Event>)
    requires Timely(s) && IsRun(column, s, events)
    ensures Timely(Run(column, s, events))
    decreases events
  {
    if events != [] {
      StepKeepsTimely(column, s, events[0]);
      RunKeepsTimely(column, Step(column, s, events[0]), events[1..]);
    }
  }

  /** In every reachable state a live session was authorised, or answered a ping, at most 30 seconds
      ago: whatever connects, answers, errors and completions happen in between. */
  lemma LiveSessionIsAtMost30SecondsStale(column: seq<string>, events: seq<Event>)
    requires IsRun(column, NEW_SESSION, events)
    ensures var s := Run(column, NEW_SESSION, events);
            s.live ==> s.now - s.lastGood <= 30.0
  {
    RunKeepsTimely(column, NEW_SESSION, events);
  }

  /** The bound is reached: a worker that falls silent stays live for 30 seconds, and no longer. */
  lemma ThirtySecondsAreReached(column: seq<string>, id: string)
    requires QuotedId(id) in column
    ensures var silent := [Connect(Some(id)), Tick(10.0), PingFires, Tick(30.0)];
            && IsRun(column, NEW_SESSION, silent)
            && Run(column, NEW_SESSION, silent).live
            && Run(column, NEW_SESSION, silent).now - Run(column, NEW_SESSION, silent).lastGood == 30.0
            && Enabled(Run(column, NEW_SESSION, silent), DeadFires)
            && !Step(column, Run(column, NEW_SESSION, silent), DeadFires).live
            && forall to :: to > 30.0 ==> !Enabled(Run(column, NEW_SESSION, silent), Tick(to))
  {
    var s0 := NEW_SESSION;
    var s1 := Step(column, s0, Connect(Some(id)));
    var s2 := Step(column, s1, Tick(10.0));
    var s3 := Step(column, s2, PingFires);
    var s4 := Step(column, s3, Tick(30.0));
    RunFour(column, s0, Connect(Some(id)), Tick(10.0), PingFires, Tick(30.0));
    assert s4.deadAt == Some(30.0) && s4.live;
  }

  lemma RunFour(column: seq<string>, s: Session, a: Event, b: Event, c: Event, d: Event)
    requires Enabled(s, a)
    requires Enabled(Step(column, s, a), b)
    requires Enabled(Step(column, Step(column, s, a), b), c)
    requires Enabled(Step(column, Step(column, Step(column, s, a), b), c), d)
    ensures IsRun(column, s, [a, b, c, d])
    ensures Run(column, s, [a, b, c, d]) == Step(column, Step(column, Step(column, Step(column, s, a), b), c), d)
  {
    var s2 := Step(column, Step(column, s, a), b);
    RunTwo(column, s2, c, d);
    assert [a, b, c, d][1..] == [b, c, d] && [b, c, d][1..] == [c, d];
  }

  lemma RunTwo(column: seq<string>, s: Session, a: Event, b: Event)
    requires Enabled(s, a) && Enabled(Step(column, s, a), b)
    ensures IsRun(column, s, [a, b]) && Run(column, s, [a, b]) == Step(column, Step(column, s, a), b)
  {
    var s1 := Step(column, s, a);
    assert [a, b][1..] == [b] && [b][1..] == [];
    assert Run(column, s1, [b]) == Run(column, Step(column, s1, b), []);
  }

  // ------------------------------------------------------------------ who gets killed

  /** An observer of the events alone: is a ping waiting for its answer, and since when? A failed
      answer, one that nobody waited for, an error of the connection and a ping left unanswered until
      the dead timer are violations. */
  datatype Watch = Idle | Waiting(since: real) | Violated

  function Observe(w: Watch, now: real, e: Event): Watch {
    match (w, e)
    case (Idle, PingFires) => Waiting(now)
    case (Idle, Answer(_)) => Violated
    case (Waiting(_), Answer(success)) => if success then Idle else Violated
    case (Waiting(_), DeadFires) => Violated
    case (_, IoError) => Violated
    case _ => w
  }

  function ClockAfter(now: real, e: Event): real {
    if e.Tick? then e.to else now
  }

  function ObserveAll(w: Watch, now: real, events: seq<Event>): Watch
    decreases events
  {
    if events == [] then w
    else ObserveAll(Observe(w, now, events[0]), ClockAfter(now, events[0]), events[1..])
  }

  ghost predicate Agrees(w: Watch, s: Session) {
    match w
    case Idle =>
      && s.live && s.pingAt.Some? && s.deadAt.None? && s.abortedPing == 0
      && (s.abortedDead > 0 ==> s.pingSuccess && s.pingAt == Some(s.now + 10.0))
    case Waiting(since) =>
      && s.live && s.pingAt.None? && s.deadAt == Some(since + 20.0) && !s.pingSuccess
      && s.abortedPing == 0 && s.abortedDead == 0
    case Violated => Doomed(s)
  }

  /** Stopped, or about to be by a handler that is due to run now: an aborted ping handler, or an
      aborted dead-ping handler that finds no success. */
  predicate Doomed(s: Session) {
    || !s.live || s.abortedPing > 0
    || (s.abortedDead > 0 && !s.pingSuccess && s.pingAt.Some? && s.pingAt.value > s.now)
  }

  lemma StepAgrees(column: seq<string>, w: Watch, s: Session, e: Event)
    requires Agrees(w, s) && Enabled(s, e) && !(e.Connect? && Accepted(column, e.id))
    ensures Agrees(Observe(w, s.now, e), Step(column, s, e))
    ensures Step(column, s, e).now == ClockAfter(s.now, e)
  {
  }

  lemma {:induction false} RunAgrees(column: seq<string>, w: Watch, s: Session, events: seq<Event>)
    requires Agrees(w, s) && IsRun(column, s, events) && !HasAcceptedConnect(column, events)
    ensures Agrees(ObserveAll(w, s.now, events), Run(column, s, events))
    decreases events
  {
    if events != [] {
      assert !(events[0].Connect? && Accepted(column, events[0].id));
      StepAgrees(column, w, s, events[0]);
      assert forall i :: 0 <= i < |events[1..]| ==> events[1..][i] == events[i + 1];
      RunAgrees(column, Observe(w, s.now, events[0]), Step(column, s, events[0]), events[1..]);
    }
  }

  /** Nothing of an earlier stop is left that would strike the session after its authorisation: no
      ping handler armed or aborted, no aborted dead-ping handler without a success. */
  predicate Ready(s: Session) {
    s.pingAt.None? && s.abortedPing == 0 && (s.abortedDead > 0 ==> s.pingSuccess)
  }

  lemma {:induction false} OnlyLiveSessionsAwaitDeath(column: seq<string>, s: Session, events: seq<Event>)
    requires IsRun(column, s, events) && (s.deadAt.Some? ==> s.live)
    ensures Run(column, s, events).deadAt.Some? ==> Run(column, s, events).live
    decreases events
  {
    if events != [] {
      OnlyLiveSessionsAwaitDeath(column, Step(column, s, events[0]), events[1..]);
    }
  }

  /** A session that nobody has authorised yet, and whose worker has answered no ping, is ready. */
  lemma {:induction false} ReadyBeforeTheFirstConnect(column: seq<string>, s: Session, events: seq<Event>)
    requires IsRun(column, s, events) && !HasAcceptedConnect(column, events) && Answer(true) !in events
    requires !s.live && Ready(s) && s.deadAt.None? && s.abortedDead == 0
    ensures !Run(column, s, events).live && Ready(Run(column, s, events))
    decreases events
  {
    if events != [] {
      assert !(events[0].Connect? && Accepted(column, events[0].id)) && events[0] != Answer(true);
      assert forall i :: 0 <= i < |events[1..]| ==> events[1..][i] == events[i + 1];
      ReadyBeforeTheFirstConnect(column, Step(column, s, events[0]), events[1..]);
    }
  }

  /** From any reachable session, at the moment an accepted connect brings it to life, and until the next
      one: once all pending handlers have run, the session is live iff nothing of an earlier stop was
      left over, no error came and every ping was answered, exactly once and with success, before the
      dead timer fired. Cancelling the dead timer, which also runs `_deadPing`, never kills
      it; an unasked answer, which re-arms and so aborts the ping timer, always does. */
  lemma LiveIffEveryPingAnsweredOnce(column: seq<string>, before: seq<Event>, id: string, events: seq<Event>)
    requires QuotedId(id) in column && !HasAcceptedConnect(column, events)
    requires IsRun(column, NEW_SESSION, before) && !Run(column, NEW_SESSION, before).live
    requires var s := Autorization(column, Run(column, NEW_SESSION, before), Some(id));
             && IsRun(column, s, events)
             && Run(column, s, events).abortedPing == 0 && Run(column, s, events).abortedDead == 0
    ensures var s := Run(column, NEW_SESSION, before);
            Run(column, Autorization(column, s, Some(id)), events).live
            <==> Ready(s) && ObserveAll(Idle, s.now, events) != Violated
  {
    var s := Run(column, NEW_SESSION, before);
    OnlyLiveSessionsAwaitDeath(column, NEW_SESSION, before);
    var s1 := Autorization(column, s, Some(id));
    if Ready(s) {
      RunAgrees(column, Idle, s1, events);
    } else {
      ViolatedStays(s.now, events);
      RunAgrees(column, Violated, s1, events);
    }
  }

  lemma {:induction false} ViolatedStays(now: real, events: seq<Event>)
    ensures ObserveAll(Violated, now, events) == Violated
    decreases events
  {
    if events != [] {
      ViolatedStays(ClockAfter(now, events[0]), events[1..]);
    }
  }

  /** In the trace of events every ping is answered with success less than 20 seconds after it was sent,
      nothing is answered that was not asked, and there is no error. */
  predicate AnswersInTime(w: Watch, now: real, events: seq<Event>)
    decreases events
  {
    events == [] ||
    var e := events[0];
    && (e.Answer? ==> w.Waiting? && e.success) && !e.IoError?
    && (w.Waiting? && e.Tick? ==> e.to < w.since + 20.0)
    && AnswersInTime(Observe(w, now, e), ClockAfter(now, e), events[1..])
  }

  lemma {:induction false} InTimeIsNeverViolated(column: seq<string>, w: Watch, s: Session, events: seq<Event>)
    requires Agrees(w, s) && IsRun(column, s, events) && !HasAcceptedConnect(column, events)
    requires AnswersInTime(w, s.now, events) && !w.Violated?
    requires w.Waiting? ==> w.since <= s.now < w.since + 20.0
    ensures !ObserveAll(w, s.now, events).Violated?
    ensures DeadFires !in events
    decreases events
  {
    if events != [] {
      assert !(events[0].Connect? && Accepted(column, events[0].id));
      StepAgrees(column, w, s, events[0]);
      assert forall i :: 0 <= i < |events[1..]| ==> events[1..][i] == events[i + 1];
      assert events[0] != DeadFires;
      InTimeIsNeverViolated(column, Observe(w, s.now, events[0]), Step(column, s, events[0]), events[1..]);
      assert events == [events[0]] + events[1..];
    }
  }

  /** A session that is brought to life with nothing left over, and then answers every ping once,
      within 20 seconds, is live at every moment; its dead timer never fires, and the aborted dead-ping
      handlers that do run leave it alone. */
  lemma PromptSessionStaysLive(column: seq<string>, before: seq<Event>, id: string, events: seq<Event>)
    requires QuotedId(id) in column && !HasAcceptedConnect(column, events)
    requires IsRun(column, NEW_SESSION, before)
    requires !Run(column, NEW_SESSION, before).live && Ready(Run(column, NEW_SESSION, before))
    requires IsRun(column, Autorization(column, Run(column, NEW_SESSION, before), Some(id)), events)
    requires AnswersInTime(Idle, Run(column, NEW_SESSION, before).now, events)
    ensures Run(column, Autorization(column, Run(column, NEW_SESSION, before), Some(id)), events).live
    ensures DeadFires !in events
  {
    OnlyLiveSessionsAwaitDeath(column, NEW_SESSION, before);
    var s := Autorization(column, Run(column, NEW_SESSION, before), Some(id));
    RunAgrees(column, Idle, s, events);
    InTimeIsNeverViolated(column, Idle, s, events);
  }

  // ------------------------------------------------------------------ authorisation over runs

  lemma {:induction false} OnlyConnectRevives(column: seq<string>, s: Session, events: seq<Event>)
    requires IsRun(column, s, events) && !s.live && !HasAcceptedConnect(column, events)
    ensures !Run(column, s, events).live
    decreases events
  {
    if events != [] {
      assert !(events[0].Connect? && Accepted(column, events[0].id));
      assert forall i :: 0 <= i < |events[1..]| ==> events[1..][i] == events[i + 1];
      OnlyConnectRevives(column, Step(column, s, events[0]), events[1..]);
    }
  }

  /** What stops a session at once: a failed ping answer, or an error of its connection. */
  predicate IsFatal(e: Event) {
    e == Answer(false) || e.IoError?
  }

  /** A stopped session is closed and neither of its timers is armed. */
  predicate IsStopped(s: Session) {
    !s.live && s.closed && s.pingAt.None? && s.deadAt.None?
  }

  lemma {:induction false} ClosedStays(column: seq<string>, s: Session, events: seq<Event>)
    requires IsRun(column, s, events) && s.closed
    ensures Run(column, s, events).closed
    decreases events
  {
    if events != [] {
      ClosedStays(column, Step(column, s, events[0]), events[1..]);
    }
  }

  /** Over every run, live or not before: a fatal event stops the session there and then. It is not live
      again before an accepted connect, and its socket stays closed for good. */
  lemma FatalEventStops(column: seq<string>, before: seq<Event>, e: Event, after: seq<Event>)
    requires IsFatal(e) && IsRun(column, NEW_SESSION, before + [e] + after) && !HasAcceptedConnect(column, after)
    ensures IsRun(column, NEW_SESSION, before + [e]) && IsStopped(Run(column, NEW_SESSION, before + [e]))
    ensures !Run(column, NEW_SESSION, before + [e] + after).live
    ensures Run(column, NEW_SESSION, before + [e] + after).closed
  {
    RunConcat(column, NEW_SESSION, before + [e], after);
    RunConcat(column, NEW_SESSION, before, [e]);
    var s := Run(column, NEW_SESSION, before);
    assert [e][1..] == [] && Run(column, s, [e]) == Step(column, s, e);
    OnlyConnectRevives(column, Run(column, NEW_SESSION, before + [e]), after);
    ClosedStays(column, Run(column, NEW_SESSION, before + [e]), after);
  }

  lemma {:induction false} RunConcat(column: seq<string>, s: Session, a: seq<Event>, b: seq<Event>)
    requires IsRun(column, s, a + b)
    ensures IsRun(column, s, a) && IsRun(column, Run(column, s, a), b)
    ensures Run(column, s, a + b) == Run(column, Run(column, s, a), b)
    decreases a
  {
    if a == [] {
      assert a + b == b;
    } else {
      assert (a + b)[0] == a[0] && (a + b)[1..] == a[1..] + b;
      RunConcat(column, Step(column, s, a[0]), a[1..], b);
    }
  }

  lemma {:induction false} RunPrefix(column: seq<string>, s: Session, events: seq<Event>, n: nat)
    requires IsRun(column, s, events) && n < |events|
    ensures IsRun(column, s, events[..n]) && IsRun(column, s, events[..n + 1])
    ensures Enabled(Run(column, s, events[..n]), events[n])
    ensures Run(column, s, events[..n + 1]) == Step(column, Run(column, s, events[..n]), events[n])
    decreases n
  {
    if n == 0 {
      assert events[..1][1..] == [];
    } else {
      RunPrefix(column, Step(column, s, events[0]), events[1..], n - 1);
      assert events[..n][1..] == events[1..][..n - 1];
      assert events[..n + 1][1..] == events[1..][..n];
    }
  }

  lemma {:induction false} PrefixIsRun(column: seq<string>, s: Session, events: seq<Event>, n: nat)
    requires IsRun(column, s, events) && n <= |events|
    ensures IsRun(column, s, events[..n])
  {
    if n < |events| {
      RunPrefix(column, s, events, n);
    } else {
      assert events[..n] == events;
    }
  }

  /** A session that is not live, stopped or not, comes to life during a run iff an accepted connect
      message is handled in it. */
  lemma ComesToLifeIffConnected(column: seq<string>, s: Session, events: seq<Event>)
    requires IsRun(column, s, events) && !s.live
    ensures (exists n: nat :: n <= |events| && IsRun(column, s, events[..n]) && Run(column, s, events[..n]).live)
       <==> HasAcceptedConnect(column, events)
  {
    if HasAcceptedConnect(column, events) {
      var i :| 0 <= i < |events| && events[i].Connect? && Accepted(column, events[i].id);
      RunPrefix(column, s, events, i);
      assert Run(column, s, events[..i + 1]).live;
    } else {
      forall n: nat | n <= |events| ensures IsRun(column, s, events[..n]) && !Run(column, s, events[..n]).live {
        PrefixIsRun(column, s, events, n);
        OnlyConnectRevives(column, s, events[..n]);
      }
    }
  }

  /** A session whose connect was rejected is closed at its next send completion. */
  lemma RejectedIsClosedAtSendCompletion(column: seq<string>, s: Session, id: Option<string>, events: seq<Event>)
    requires !s.live && !Accepted(column, id) && !HasAcceptedConnect(column, events)
    requires IsRun(column, Autorization(column, s, id), events)
    ensures var s' := Run(column, Autorization(column, s, id), events);
            var done := Step(column, s', SendCompletes);
            done.closed && !done.live && done.pingAt.None? && done.deadAt.None?
  {
    OnlyConnectRevives(column, Autorization(column, s, id), events);
  }

  /** What closes a session that nobody has authorised. */
  predicate ClosesUnauthorised(e: Event) {
    e == Answer(false) || e.IoError? || e.SendCompletes? || e.AbortedPingRuns?
  }

  /** Without an accepted connect a session is never live, and it is closed iff a send has completed, an
      error or failed answer has come, or the handler of a ping timer has run aborted. */
  lemma {:induction false} UnauthorisedIsClosedIff(column: seq<string>, s: Session, events: seq<Event>)
    requires IsRun(column, s, events) && !HasAcceptedConnect(column, events)
    requires !s.live && s.deadAt.None? && s.abortedDead == 0
    ensures var s' := Run(column, s, events);
            && !s'.live && s'.deadAt.None?
            && (s'.closed <==> s.closed || exists k :: 0 <= k < |events| && ClosesUnauthorised(events[k]))
    decreases events
  {
    if events != [] {
      assert !(events[0].Connect? && Accepted(column, events[0].id));
      assert forall i :: 0 <= i < |events[1..]| ==> events[1..][i] == events[i + 1];
      UnauthorisedIsClosedIff(column, Step(column, s, events[0]), events[1..]);
      assert (exists k :: 0 <= k < |events| && ClosesUnauthorised(events[k]))
        <==> ClosesUnauthorised(events[0])
             || exists k :: 0 <= k < |events[1..]| && ClosesUnauthorised(events[1..][k]);
    }
  }

  /** The id carried by the last connect message that carried one. */
  function LastId(events: seq<Event>): Option<string>
    decreases events
  {
    if events == [] then None
    else
      var last := events[|events| - 1];
      if last.Connect? && last.id.Some? then last.id else LastId(events[..|events| - 1])
  }

  lemma {:induction false} IdIsLastId(column: seq<string>, events: seq<Event>)
    requires IsRun(column, NEW_SESSION, events)
    ensures var s := Run(column, NEW_SESSION, events);
            && s.id == (if LastId(events).Some? then QuotedId(LastId(events).value) else "-1")
            && (LastId(events).None? ==> !s.live)
    decreases |events|
  {
    if events != [] {
      var n := |events| - 1;
      RunPrefix(column, NEW_SESSION, events, n);
      assert events[..n + 1] == events;
      IdIsLastId(column, events[..n]);
    }
  }

  /** A live session's id is in the worker-id column iff the last connect that carried an id was
      accepted. */
  lemma LiveIdIsKnownIff(column: seq<string>, events: seq<Event>)
    requires IsRun(column, NEW_SESSION, events) && Run(column, NEW_SESSION, events).live
    ensures Run(column, NEW_SESSION, events).id in column <==> Accepted(column, LastId(events))
  {
    IdIsLastId(column, events);
  }

  predicate AtMostOneConnect(events: seq<Event>) {
    forall i, j :: 0 <= i < j < |events| ==> !(events[i].Connect? && events[j].Connect?)
  }

  /** With one connect message at most, being live implies a known id. */
  lemma {:induction false} LiveIdIsKnown(column: seq<string>, events: seq<Event>)
    requires IsRun(column, NEW_SESSION, events) && AtMostOneConnect(events)
    ensures Run(column, NEW_SESSION, events).live ==> Run(column, NEW_SESSION, events).id in column
    decreases |events|
  {
    if events != [] {
      var n := |events| - 1;
      RunPrefix(column, NEW_SESSION, events, n);
      assert events[..n + 1] == events;
      LiveIdIsKnown(column, events[..n]);
      if events[n].Connect? {
        assert !HasAcceptedConnect(column, events[..n]);
        OnlyConnectRevives(column, NEW_SESSION, events[..n]);
      }
    }
  }

  /** With a second connect it does not: a rejected id replaces the good one and the session stays
      live. */
  lemma SecondConnectCanSpoilTheId(good: string, bad: string)
    requires good != bad
    ensures var events := [Connect(Some(good)), Connect(Some(bad))];
            var column := [QuotedId(good)];
            && IsRun(column, NEW_SESSION, events)
            && Run(column, NEW_SESSION, events).live
            && Run(column, NEW_SESSION, events).id !in column
  {
    var column := [QuotedId(good)];
    var a, b := Connect(Some(good)), Connect(Some(bad));
    assert QuotedId(good)[1..|good| + 1] == good;
    assert QuotedId(bad)[1..|bad| + 1] == bad;
    RunTwo(column, NEW_SESSION, a, b);
  }

  // ------------------------------------------------------------------ the class

  class WorkerSession {
    const column: seq<string>
    var now: real
    var id: string
    var live: bool
    var pingSuccess: bool
    var closed: bool
    var pingAt: Option<real>
    var deadAt: Option<real>
    var abortedPing: nat
    var abortedDead: nat
    var lastGood: real

    constructor (column: seq<string>)
      ensures this.column == column && Model() == NEW_SESSION
    {
      this.column := column;
      now, id, live, pingSuccess, closed := 0.0, "-1", false, false, false;
      pingAt, deadAt, abortedPing, abortedDead, lastGood := None, None, 0, 0, 0.0;
    }

    function Model(): Session
      reads this
    {
      Session(now, id, live, pingSuccess, closed, pingAt, deadAt, abortedPing, abortedDead, lastGood)
    }

    method CancelPingTimer()
      modifies this
      ensures Model() == CancelPing(old(Model()))
    {
      if pingAt.Some? {
        pingAt := None;
        abortedPing := abortedPing + 1;
      }
    }

    method CancelDeadTimer()
      modifies this
      ensures Model() == CancelDead(old(Model()))
    {
      if deadAt.Some? {
        deadAt := None;
        abortedDead := abortedDead + 1;
      }
    }

    method StopSession()
      modifies this
      ensures Model() == Stop(old(Model()))
    {
      live := false;
      CancelPingTimer();
      CancelDeadTimer();
      closed := true;
    }

    /** The search of the id column, then liveness and the first ping timer. */
    method HandleAutorization(requestId: Option<string>)
      modifies this
      ensures Model() == Autorization(column, old(Model()), requestId)
    {
      if requestId.None? {
        return;
      }
      id := QuotedId(requestId.value);
      var found := false;
      for i := 0 to |column|
        invariant !found && id !in column[..i]
      {
        if id == column[i] {
          found := true;
          break;
        }
      }
      if found {
        live := true;
        CancelPingTimer();
        pingAt := Some(now + PING_TIME);
        lastGood := now;
      }
    }

    method HandlePing(aborted: bool)
      modifies this
      ensures Model() == Ping(old(Model()), aborted)
    {
      if aborted {
        StopSession();
        return;
      }
      if live {
        pingSuccess := false;
        CancelDeadTimer();
        CancelDeadTimer();
        deadAt := Some(now + PING_TIME * 2.0);
      }
    }

    method HandleDeadPing()
      modifies this
      ensures Model() == DeadPing(old(Model()))
    {
      if !pingSuccess {
        live := false;
        StopSession();
      }
    }

    method HandlePingAnswer(success: bool)
      modifies this
      ensures Model() == AnalizePing(old(Model()), success)
    {
      if success {
        pingSuccess := true;
        CancelDeadTimer();
        CancelPingTimer();
        pingAt := Some(now + PING_TIME);
        lastGood := now;
      } else {
        live := false;
        StopSession();
      }
    }

    method HandleSendDone()
      modifies this
      ensures Model() == SendDone(old(Model()))
    {
      if !live {
        StopSession();
      }
    }

    /** One event of a run, given to the handler that it belongs to. */
    method Handle(e: Event)
      requires Enabled(Model(), e)
      modifies this
      ensures Model() == Step(column, old(Model()), e)
    {
      match e {
        case Connect(requestId) => HandleAutorization(requestId);
        case Answer(success) => HandlePingAnswer(success);
        case SendCompletes => HandleSendDone();
        case IoError => StopSession();
        case PingFires => pingAt := None; HandlePing(false);
        case DeadFires => deadAt := None; HandleDeadPing();
        case AbortedPingRuns => abortedPing := abortedPing - 1; HandlePing(true);
        case AbortedDeadRuns => abortedDead := abortedDead - 1; HandleDeadPing();
        case Tick(to) => now := to;
      }
    }
  }

  /** A fresh session driven by any run of events, live or not at the end, is never stale. */
  method RunSession(column: seq<string>, events: seq<Event>) returns (live: bool, age: real)
    requires IsRun(column, NEW_SESSION, events)
    ensures live == Run(column, NEW_SESSION, events).live
    ensures live ==> 0.0 <= age <= 30.0
  {
    var session := new WorkerSession(column);
    for i := 0 to |events|
      invariant session.column == column
      invariant IsRun(column, session.Model(), events[i..])
      invariant Run(column, session.Model(), events[i..]) == Run(column, NEW_SESSION, events)
    {
      assert events[i..][0] == events[i] && events[i..][1..] == events[i + 1..];
      session.Handle(events[i]);
    }
    RunKeepsTimely(column, NEW_SESSION, events);
    live, age := session.live, session.now - session.lastGood;
  }
}
