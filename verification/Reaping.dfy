/** The kill timers of the worker server and of the HTTPS listener: each tick takes at most one
    session that is not live out of the session vector, and the next tick comes after one second if
    it found one and after the full period if it did not. */
module Reaping {
  import opened Common

  // ------------------------------------------------------------------ one tick, and many

  function RemoveFirstDead<T(==)>(s: seq<T>, dead: set<T>): seq<T> {
    if s == [] then []
    else if s[0] in dead then s[1..]
    else [s[0]] + RemoveFirstDead(s[1..], dead)
  }

  /** The order-preserving filter that reaping is meant to reach. */
  function LiveOnly<T(==)>(s: seq<T>, dead: set<T>): seq<T> {
    if s == [] then []
    else if s[0] in dead then LiveOnly(s[1..], dead)
    else [s[0]] + LiveOnly(s[1..], dead)
  }

  function CountDead<T(==)>(s: seq<T>, dead: set<T>): nat {
    if s == [] then 0 else (if s[0] in dead then 1 else 0) + CountDead(s[1..], dead)
  }

  lemma {:induction false} CountedByLength<T>(s: seq<T>, dead: set<T>)
    ensures |LiveOnly(s, dead)| + CountDead(s, dead) == |s|
    ensures CountDead(s, dead) == 0 ==> LiveOnly(s, dead) == s
  {
    if s != [] {
      CountedByLength(s[1..], dead);
      assert s == [s[0]] + s[1..];
    }
  }

  lemma {:induction false} OneTick<T>(s: seq<T>, dead: set<T>)
    ensures LiveOnly(RemoveFirstDead(s, dead), dead) == LiveOnly(s, dead)
    ensures CountDead(s, dead) > 0 ==> CountDead(RemoveFirstDead(s, dead), dead) == CountDead(s, dead) - 1
    ensures CountDead(s, dead) == 0 ==> RemoveFirstDead(s, dead) == s
  {
    if s != [] && s[0] !in dead {
      OneTick(s[1..], dead);
      var rest := RemoveFirstDead(s[1..], dead);
      assert ([s[0]] + rest)[1..] == rest;
      assert s == [s[0]] + s[1..];
    }
  }

  function Ticks<T(==)>(s: seq<T>, dead: set<T>, n: nat): seq<T>
    decreases n
  {
    if n == 0 then s else Ticks(RemoveFirstDead(s, dead), dead, n - 1)
  }

  lemma {:induction false} TicksCount<T>(s: seq<T>, dead: set<T>, n: nat)
    ensures LiveOnly(Ticks(s, dead, n), dead) == LiveOnly(s, dead)
    ensures CountDead(Ticks(s, dead, n), dead) == if n <= CountDead(s, dead) then CountDead(s, dead) - n else 0
    decreases n
  {
    if n > 0 {
      OneTick(s, dead);
      TicksCount(RemoveFirstDead(s, dead), dead, n - 1);
    }
  }

  /** Repeated ticks reach the filter of the live sessions, in the same order, after exactly as many
      ticks as there were dead sessions: not one tick earlier, and never past it. */
  lemma TicksReachFilterIff<T>(s: seq<T>, dead: set<T>, n: nat)
    ensures Ticks(s, dead, n) == LiveOnly(s, dead) <==> n >= CountDead(s, dead)
  {
    TicksCount(s, dead, n);
    CountedByLength(s, dead);
    CountedByLength(Ticks(s, dead, n), dead);
  }

  // ------------------------------------------------------------------ saved positions

  function FirstDead<T(==)>(s: seq<T>, dead: set<T>): (k: nat)
    ensures k <= |s|
    ensures k < |s| ==> s[k] in dead
    ensures forall i :: 0 <= i < k ==> s[i] !in dead
  {
    FirstWhere(s, x => x in dead)
  }

  /** A reap closes up the gap behind the victim and moves nothing before it. */
  lemma {:induction false} ReapErasesOne<T>(s: seq<T>, dead: set<T>)
    ensures var k := FirstDead(s, dead);
            RemoveFirstDead(s, dead) == if k < |s| then s[..k] + s[k + 1..] else s
  {
    if s != [] && s[0] !in dead {
      ReapErasesOne(s[1..], dead);
      var k := FirstDead(s[1..], dead);
      assert s == [s[0]] + s[1..];
      if k < |s[1..]| {
        assert s[..k + 1] == [s[0]] + s[1..][..k];
        assert s[k + 2..] == s[1..][k + 1..];
      }
    }
  }

  /** A position that was saved before a reap still denotes the same session iff it lies before the
      victim (or nothing was reaped). */
  lemma SavedPositionSurvivesIff<T>(s: seq<T>, dead: set<T>, p: nat)
    requires Distinct(s) && p < |s|
    ensures var s' := RemoveFirstDead(s, dead);
            (p < |s'| && s'[p] == s[p]) <==> (p < FirstDead(s, dead) || FirstDead(s, dead) == |s|)
  {
    ReapErasesOne(s, dead);
  }

  // ------------------------------------------------------------------ the timer

  /** The vector and the whole seconds left until the next tick. */
  datatype Reaper<T> = Reaper(sessions: seq<T>, killIn: nat)

  function Fire<T(==)>(r: Reaper<T>, dead: set<T>, period: nat): Reaper<T> {
    if CountDead(r.sessions, dead) > 0 then Reaper(RemoveFirstDead(r.sessions, dead), 1)
    else Reaper(r.sessions, period)
  }

  function Second<T(==)>(r: Reaper<T>, dead: set<T>, period: nat): Reaper<T> {
    if r.killIn > 1 then r.(killIn := r.killIn - 1) else Fire(r, dead, period)
  }

  function AfterSeconds<T(==)>(r: Reaper<T>, dead: set<T>, period: nat, t: nat): Reaper<T>
    decreases t
  {
    if t == 0 then r else AfterSeconds(Second(r, dead, period), dead, period, t - 1)
  }

  lemma {:induction false} SecondsAreTicks<T>(r: Reaper<T>, dead: set<T>, period: nat, t: nat)
    requires r.killIn >= 1 && period >= 1
    ensures t < r.killIn ==> AfterSeconds(r, dead, period, t).sessions == r.sessions
    ensures r.killIn <= t < r.killIn + CountDead(r.sessions, dead)
            ==> AfterSeconds(r, dead, period, t).sessions == Ticks(r.sessions, dead, t - r.killIn + 1)
    ensures r.killIn + CountDead(r.sessions, dead) <= t
            ==> AfterSeconds(r, dead, period, t).sessions == LiveOnly(r.sessions, dead)
    decreases t
  {
    CountedByLength(r.sessions, dead);
    if t > 0 {
      OneTick(r.sessions, dead);
      SecondsAreTicks(Second(r, dead, period), dead, period, t - 1);
    }
  }

  /** With no new deaths or accepts, d dead sessions are gone exactly from the moment on that lies
      (d - 1) seconds after the next tick, hence within period + (d - 1) seconds; never earlier. */
  lemma DeadAreGoneIff<T>(r: Reaper<T>, dead: set<T>, period: nat, t: nat)
    requires 1 <= r.killIn <= period && CountDead(r.sessions, dead) > 0
    ensures AfterSeconds(r, dead, period, t).sessions == LiveOnly(r.sessions, dead)
       <==> t >= r.killIn + CountDead(r.sessions, dead) - 1
  {
    SecondsAreTicks(r, dead, period, t);
    TicksReachFilterIff(r.sessions, dead, 0);
    if r.killIn <= t {
      TicksReachFilterIff(r.sessions, dead, t - r.killIn + 1);
    }
  }

  // ------------------------------------------------------------------ runs with accepts and deaths

  /** Sessions are numbered as they are accepted. A fresh session is not live until it is authorised. */
  datatype World = World(accepted: nat, sessions: seq<nat>, live: set<nat>, reaped: set<nat>)

  const START := World(0, [], {}, {})

  datatype Event = Accept | ComesAlive(id: nat) | Dies(id: nat) | Kill

  /** A session can come alive although it was reaped already: the handler that does it, the end of a
      handshake or a connect message, is still pending and holds on to the session. */
  predicate Enabled(w: World, e: Event) {
    e.ComesAlive? ==> e.id < w.accepted
  }

  function DeadIn(w: World): set<nat> {
    set id | id in w.sessions && id !in w.live
  }

  function Step(w: World, e: Event): World
    requires Enabled(w, e)
  {
    match e
    case Accept => w.(accepted := w.accepted + 1, sessions := w.sessions + [w.accepted])
    case ComesAlive(id) => w.(live := w.live + {id})
    case Dies(id) => w.(live := w.live - {id})
    case Kill =>
      var k := FirstDead(w.sessions, DeadIn(w));
      if k < |w.sessions| then
        w.(sessions := RemoveFirstDead(w.sessions, DeadIn(w)), reaped := w.reaped + {w.sessions[k]})
      else w
  }

  predicate IsRun(w: World, events: seq<Event>)
    decreases events
  {
    events == [] || (Enabled(w, events[0]) && IsRun(Step(w, events[0]), events[1..]))
  }

  function Run(w: World, events: seq<Event>): World
    requires IsRun(w, events)
    decreases events
  {
    if events == [] then w else Run(Step(w, events[0]), events[1..])
  }

  /** The vector holds, in the order of acceptance, exactly the sessions that were not reaped. */
  ghost predicate Kept(w: World) {
    && Ascending(w.sessions)
    && (forall id: nat :: id in w.sessions <==> id < w.accepted && id !in w.reaped)
    && (forall id :: id in w.live || id in w.reaped ==> id < w.accepted)
  }

  lemma StepKeeps(w: World, e: Event)
    requires Kept(w) && Enabled(w, e)
    ensures Kept(Step(w, e))
  {
    if e.Kill? {
      KillKeeps(w);
    } else if e.Accept? {
      assert forall i :: 0 <= i < |w.sessions| ==> w.sessions[i] in w.sessions;
    }
  }

  lemma KillKeeps(w: World)
    requires Kept(w)
    ensures Kept(Step(w, Kill))
  {
    ReapErasesOne(w.sessions, DeadIn(w));
    if FirstDead(w.sessions, DeadIn(w)) < |w.sessions| {
      EraseKeeps(w, FirstDead(w.sessions, DeadIn(w)));
    }
  }

  lemma EraseKeeps(w: World, k: nat)
    requires Kept(w) && k < |w.sessions|
    ensures Kept(w.(sessions := w.sessions[..k] + w.sessions[k + 1..], reaped := w.reaped + {w.sessions[k]}))
  {
    var rest, victim := w.sessions[..k] + w.sessions[k + 1..], w.sessions[k];
    EraseFromAscending(w.sessions, k);
    assert victim in w.sessions;
    forall id: nat ensures id in rest <==> id < w.accepted && id !in w.reaped + {victim} {
      assert id in rest <==> id in w.sessions && id != victim;
    }
  }

  predicate Ascending(s: seq<nat>) {
    forall i, j :: 0 <= i < j < |s| ==> s[i] < s[j]
  }

  lemma EraseFromAscending(s: seq<nat>, k: nat)
    requires Ascending(s) && k < |s|
    ensures Ascending(s[..k] + s[k + 1..])
    ensures forall id: nat :: id in s[..k] + s[k + 1..] <==> id in s && id != s[k]
  {
    var t := s[..k] + s[k + 1..];
    assert forall i :: 0 <= i < |t| ==> t[i] == s[if i < k then i else i + 1];
    forall id | id in s && id != s[k] ensures id in t {
      var i :| 0 <= i < |s| && s[i] == id;
      assert i != k && t[if i < k then i else i - 1] == id;
    }
  }

  lemma {:induction false} RunKeeps(w: World, events: seq<Event>)
    requires Kept(w) && IsRun(w, events)
    ensures Kept(Run(w, events))
    decreases events
  {
    if events != [] {
      StepKeeps(w, events[0]);
      RunKeeps(Step(w, events[0]), events[1..]);
    }
  }

  /** Over every run of accepts, authorisations, deaths and ticks the vector is ordered by acceptance,
      holds no session twice, and lacks just the sessions that a tick took out. */
  lemma VectorHoldsWhatWasNotReaped(events: seq<Event>)
    requires IsRun(START, events)
    ensures var w := Run(START, events);
            && (forall id: nat :: id in w.sessions <==> id < w.accepted && id !in w.reaped)
            && Ascending(w.sessions)
  {
    RunKeeps(START, events);
  }

  /** At some point of the run the session comes alive when it is no longer in the vector. */
  predicate ComesAliveReaped(w: World, events: seq<Event>, id: nat)
    requires IsRun(w, events)
    decreases events
  {
    events != [] &&
    ((events[0] == ComesAlive(id) && id in w.reaped) || ComesAliveReaped(Step(w, events[0]), events[1..], id))
  }

  lemma {:induction false} ReapedStays(w: World, events: seq<Event>, id: nat)
    requires IsRun(w, events) && id in w.reaped
    ensures id in Run(w, events).reaped
    decreases events
  {
    if events != [] {
      ReapedStays(Step(w, events[0]), events[1..], id);
    }
  }

  lemma {:induction false} LiveAndReapedIff(w: World, events: seq<Event>, id: nat)
    requires IsRun(w, events) && !(id in w.live && id in w.reaped)
    requires id in Run(w, events).live
    ensures id in Run(w, events).reaped <==> ComesAliveReaped(w, events, id)
    decreases events
  {
    if events != [] {
      if events[0] == ComesAlive(id) && id in w.reaped {
        ReapedStays(w, events, id);
      } else {
        assert events[0].Kill? ==> forall v :: v in Step(w, Kill).reaped && v !in w.reaped ==> v !in w.live;
        LiveAndReapedIff(Step(w, events[0]), events[1..], id);
      }
    }
  }

  /** A live session is in the vector iff it had not been reaped by the time it came alive: ticks never
      take out a live session, but one that was slow to come alive may be gone by then. */
  lemma LiveSessionIsKeptIff(events: seq<Event>, id: nat)
    requires IsRun(START, events) && id in Run(START, events).live
    ensures id in Run(START, events).sessions <==> !ComesAliveReaped(START, events, id)
  {
    RunKeeps(START, events);
    LiveAndReapedIff(START, events, id);
  }

  /** The failing run: a tick comes before the handshake has ended. The session is live for the rest of
      its life and in no vector. */
  lemma SlowSessionIsLost()
    ensures var events := [Accept, Kill, ComesAlive(0)];
            && IsRun(START, events)
            && Run(START, events).live == {0} && Run(START, events).sessions == []
  {
    var w1 := Step(START, Accept);
    assert w1.sessions == [0] && DeadIn(w1) == {0};
    var w2 := Step(w1, Kill);
    assert w2.sessions == [] && w2.accepted == 1;
    var w3 := Step(w2, ComesAlive(0));
    assert [Accept, Kill, ComesAlive(0)][1..] == [Kill, ComesAlive(0)] && [Kill, ComesAlive(0)][1..] == [ComesAlive(0)];
    assert IsRun(w2, [ComesAlive(0)]) && Run(w2, [ComesAlive(0)]) == Run(w3, []);
    assert IsRun(w1, [Kill, ComesAlive(0)]) && Run(w1, [Kill, ComesAlive(0)]) == w3;
  }

  // ------------------------------------------------------------------ the classes

  class Peer {
    var live: bool
    var stopped: bool

    constructor ()
      ensures !live && !stopped
    {
      live, stopped := false, false;
    }

    method Stop()
      modifies this
      ensures !live && stopped
    {
      live, stopped := false, true;
    }
  }

  /** The vector and timer of one server. The worker server stops its victims and waits 30 seconds
      between idle ticks; the HTTPS listener only drops them and waits 5. */
  class SessionList {
    const period: nat
    const stopsVictims: bool
    var sessions: seq<Peer>
    var killIn: nat

    constructor WorkerServer()
      ensures period == 30 && stopsVictims && sessions == [] && killIn == period
    {
      period, stopsVictims, sessions, killIn := 30, true, [], 30;
    }

    constructor HttpsListener()
      ensures period == 5 && !stopsVictims && sessions == [] && killIn == period
    {
      period, stopsVictims, sessions, killIn := 5, false, [], 5;
    }

    ghost function Dead(): set<Peer>
      reads this, sessions
    {
      set p | p in sessions && !p.live
    }

    function Model(): Reaper<Peer>
      reads this
    {
      Reaper(sessions, killIn)
    }

    method Accept() returns (peer: Peer)
      modifies this`sessions
      ensures fresh(peer) && !peer.live
      ensures sessions == old(sessions) + [peer]
    {
      peer := new Peer();
      sessions := sessions + [peer];
    }

    /** Takes the victim out of the vector; only the worker server stops it first. */
    method EraseAt(i: nat)
      requires i < |sessions| && !sessions[i].live && Distinct(sessions)
      modifies this`sessions, sessions[i]
      ensures sessions == old(sessions)[..i] + old(sessions)[i + 1..]
      ensures old(sessions[i]) !in sessions
      ensures !old(sessions[i]).live && old(sessions[i]).stopped == (stopsVictims || old(sessions[i].stopped))
    {
      if stopsVictims {
        sessions[i].Stop();
      }
      sessions := sessions[..i] + sessions[i + 1..];
    }

    /** One tick of the kill timer. */
    method KillSession()
      requires Distinct(sessions)
      modifies this`sessions, this`killIn, sessions
      ensures Model() == old(Fire(Model(), Dead(), period))
      ensures forall p :: p in old(sessions) ==> p.live == old(p.live)
      ensures forall p :: p in old(sessions) && p in sessions ==> p.stopped == old(p.stopped)
      ensures forall p :: p in old(sessions) && p !in sessions ==> p.stopped == (stopsVictims || old(p.stopped))
    {
      ghost var dead := Dead();
      var kill := false;
      for i := 0 to |sessions|
        invariant !kill && sessions == old(sessions) && dead == Dead()
        invariant forall j :: 0 <= j < i ==> sessions[j] !in dead
        invariant forall p :: p in sessions ==> p.live == old(p.live) && p.stopped == old(p.stopped)
      {
        if !sessions[i].live {
          FirstDeadIs(sessions, dead, i);
          EraseAt(i);
          kill := true;
          break;
        }
      }
      if kill {
        killIn := 1;
      } else {
        NoDeadToCount(sessions, dead);
        killIn := period;
      }
    }
  }

  lemma FirstDeadIs<T>(s: seq<T>, dead: set<T>, i: nat)
    requires i < |s| && s[i] in dead && forall j :: 0 <= j < i ==> s[j] !in dead
    ensures CountDead(s, dead) > 0
    ensures RemoveFirstDead(s, dead) == s[..i] + s[i + 1..]
  {
    DeadAreCounted(s, dead, i);
    ReapErasesOne(s, dead);
  }

  lemma {:induction false} DeadAreCounted<T>(s: seq<T>, dead: set<T>, i: nat)
    requires i < |s| && s[i] in dead
    ensures CountDead(s, dead) > 0
  {
    if s[0] !in dead {
      DeadAreCounted(s[1..], dead, i - 1);
    }
  }

  lemma {:induction false} NoDeadToCount<T>(s: seq<T>, dead: set<T>)
    requires forall i :: 0 <= i < |s| ==> s[i] !in dead
    ensures CountDead(s, dead) == 0
  {
    if s != [] {
      NoDeadToCount(s[1..], dead);
    }
  }

  lemma {:induction false} SameDeadSameVictim<T>(s: seq<T>, dead: set<T>, other: set<T>)
    requires forall i :: 0 <= i < |s| ==> (s[i] in dead <==> s[i] in other)
    ensures RemoveFirstDead(s, dead) == RemoveFirstDead(s, other) && CountDead(s, dead) == CountDead(s, other)
  {
    if s != [] {
      SameDeadSameVictim(s[1..], dead, other);
    }
  }

  lemma TickKeepsDistinct<T>(s: seq<T>, dead: set<T>)
    requires Distinct(s)
    ensures Distinct(RemoveFirstDead(s, dead)) && forall x :: x in RemoveFirstDead(s, dead) ==> x in s
  {
    ReapErasesOne(s, dead);
  }

  predicate Within<T(==)>(s: seq<T>, all: seq<T>) {
    forall k :: 0 <= k < |s| ==> s[k] in all
  }

  /** One tick, told with the sessions that were dead at the start. */
  method Tick(list: SessionList, ghost dead: set<Peer>)
    requires Distinct(list.sessions) && forall p :: p in list.sessions ==> (p in dead <==> !p.live)
    modifies list, list.sessions
    ensures list.sessions == RemoveFirstDead(old(list.sessions), dead) && Distinct(list.sessions)
    ensures Within(list.sessions, old(list.sessions))
    ensures forall p :: p in old(list.sessions) ==> p.live == old(p.live)
    ensures var count := CountDead(old(list.sessions), dead);
            && CountDead(list.sessions, dead) == (if count > 0 then count - 1 else 0)
            && list.killIn == if count > 0 then 1 else list.period
  {
    SameDeadSameVictim(list.sessions, dead, list.Dead());
    TickKeepsDistinct(list.sessions, dead);
    OneTick(list.sessions, dead);
    list.KillSession();
  }

  /** The vector driven through n ticks while nothing else happens: they leave the live sessions, in
      their order, iff there were no more than n dead ones. */
  method KillFor(list: SessionList, n: nat)
    requires Distinct(list.sessions)
    modifies list, list.sessions
    ensures list.sessions == LiveOnly(old(list.sessions), old(list.Dead()))
       <==> n >= CountDead(old(list.sessions), old(list.Dead()))
    ensures n > 0 ==> list.killIn == if n <= CountDead(old(list.sessions), old(list.Dead())) then 1 else list.period
  {
    ghost var all, dead := list.sessions, list.Dead();
    for i := 0 to n
      invariant Distinct(list.sessions) && Within(list.sessions, all)
      invariant forall p :: p in all ==> p.live == old(p.live)
      invariant Ticks(list.sessions, dead, n - i) == Ticks(all, dead, n)
      invariant CountDead(list.sessions, dead) == if i <= CountDead(all, dead) then CountDead(all, dead) - i else 0
      invariant i > 0 ==> list.killIn == if i <= CountDead(all, dead) then 1 else list.period
    {
      ghost var before := list.sessions;
      Tick(list, dead);
      assert forall k :: 0 <= k < |list.sessions| ==> list.sessions[k] in before;
    }
    TicksReachFilterIff(all, dead, n);
  }
}
