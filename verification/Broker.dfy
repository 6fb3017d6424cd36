/** The MQTT broker of a lift worker: which sessions are named after which lift, and where a publish
    goes. */
module Broker {
  import opened Common

  datatype Message = Message(topic: string, text: string)

  /** `closed` records that a close, error or disconnect handler has run. */
  datatype BrokerSession = BrokerSession(name: string, live: bool, closed: bool, published: seq<Message>)

  const NEW_SESSION := BrokerSession("", true, false, [])

  // ------------------------------------------------------------------ the client id

  const SEARCH_PHRASE := "LKDS_LU"

  /** `std::string::npos` and the wrap-round of `size_t`. */
  const SIZE_T: nat := 0x1_0000_0000_0000_0000
  const NPOS: nat := SIZE_T - 1

  /** A client id's length is a two-byte field of the MQTT connect packet. */
  const MAX_CLIENT_ID: nat := 0x1_0000

  function Find(s: string, text: string, from: nat): nat {
    var r := FindFrom(s, text, from);
    if r.Some? then r.value else NPOS
  }

  /** `substr(start, count)`; None where it throws. */
  function Substr(s: string, start: nat, count: nat): Option<string> {
    if start > |s| then None
    else if start + count > |s| then Some(s[start..])
    else Some(s[start..start + count])
  }

  /** The name cut out of a client id, with the code's own unsigned arithmetic: the second argument of
      `substr` is the space's position less the phrase's length, whatever precedes the phrase. */
  function ParseName(clientId: string): Option<string> {
    var n := |SEARCH_PHRASE|;
    var phrase := Find(clientId, SEARCH_PHRASE, 0);
    var start := (phrase + n) % SIZE_T;
    var space := Find(clientId, " ", start);
    Substr(clientId, start, (space + SIZE_T - n) % SIZE_T)
  }

  lemma FindOfFirst(s: string, text: string, from: nat, k: nat)
    requires from <= k && OccursAt(s, text, k)
    requires forall i: nat :: from <= i < k ==> !OccursAt(s, text, i)
    ensures Find(s, text, from) == k
  {
  }

  lemma NoWrap(x: nat)
    requires x < SIZE_T
    ensures x % SIZE_T == x && (x + SIZE_T) % SIZE_T == x
  {
  }

  /** For ids of the length that MQTT allows the unsigned arithmetic does not wrap once phrase and
      space are found. */
  lemma ParseNameFound(id: string, p: nat, space: nat)
    requires |id| < MAX_CLIENT_ID
    requires Find(id, SEARCH_PHRASE, 0) == p && p + |SEARCH_PHRASE| <= space < |id|
    requires Find(id, " ", p + |SEARCH_PHRASE|) == space
    ensures ParseName(id) == Substr(id, p + |SEARCH_PHRASE|, space - |SEARCH_PHRASE|)
  {
    var n := |SEARCH_PHRASE|;
    NoWrap(p + n);
    NoWrap(space - n);
    assert space + SIZE_T - n == (space - n) + SIZE_T;
  }

  /** The text after the phrase, up to the first space or, without one, to its end. */
  function Descriptor(tail: string): string {
    var r := FindFrom(tail, " ", 0);
    if r.Some? then tail[..r.value] else tail
  }

  /** The phrase stands behind this prefix, and not earlier. */
  predicate PhraseComesAfter(prefix: string, tail: string) {
    forall i: nat :: i < |prefix| ==> !OccursAt(prefix + SEARCH_PHRASE + tail, SEARCH_PHRASE, i)
  }

  lemma SpaceAt(s: string, i: nat)
    requires i < |s|
    ensures OccursAt(s, " ", i) <==> s[i] == ' '
  {
    assert s[i..i + 1] == [s[i]];
  }

  /** The phrase is found behind the prefix, and the space where the tail has it. */
  lemma PhraseAndSpace(prefix: string, tail: string)
    requires PhraseComesAfter(prefix, tail)
    ensures var id := prefix + SEARCH_PHRASE + tail;
            var start := |prefix| + |SEARCH_PHRASE|;
            && Find(id, SEARCH_PHRASE, 0) == |prefix| && id[start..] == tail
            && Find(id, " ", start) == if ' ' in tail then start + |Descriptor(tail)| else NPOS
    ensures ' ' in tail <==> |Descriptor(tail)| < |tail|
  {
    var id := prefix + SEARCH_PHRASE + tail;
    var start := |prefix| + |SEARCH_PHRASE|;
    assert id[|prefix|..start] == SEARCH_PHRASE && id[start..] == tail;
    FindOfFirst(id, SEARCH_PHRASE, 0, |prefix|);
    forall i: nat | i < |tail| ensures OccursAt(tail, " ", i) <==> tail[i] == ' ' {
      SpaceAt(tail, i);
    }
    forall i: nat | start <= i < |id| ensures OccursAt(id, " ", i) <==> tail[i - start] == ' ' {
      SpaceAt(id, i);
    }
    if ' ' in tail {
      FindOfFirst(id, " ", start, start + |Descriptor(tail)|);
    }
  }

  lemma ParseNameWithoutSpace(id: string, p: nat)
    requires |id| < MAX_CLIENT_ID && Find(id, SEARCH_PHRASE, 0) == p && p + |SEARCH_PHRASE| <= |id|
    requires Find(id, " ", p + |SEARCH_PHRASE|) == NPOS
    ensures ParseName(id) == Some(id[p + |SEARCH_PHRASE|..])
  {
    var n := |SEARCH_PHRASE|;
    NoWrap(p + n);
    NoWrap(NPOS - n);
    assert NPOS + SIZE_T - n == (NPOS - n) + SIZE_T;
  }

  /** For any client id that holds the phrase: the name is the descriptor, the text behind the phrase up
      to a space or the end, iff nothing precedes the phrase or no space follows it. Without a space the
      count is so large that it is clamped to the end, whatever precedes. */
  lemma NameIsDescriptorIff(prefix: string, tail: string)
    requires PhraseComesAfter(prefix, tail) && |prefix + SEARCH_PHRASE + tail| < MAX_CLIENT_ID
    ensures ParseName(prefix + SEARCH_PHRASE + tail) == Some(Descriptor(tail)) <==> prefix == "" || ' ' !in tail
  {
    if ' ' in tail {
      NameBeforeSpaceIff(prefix, tail);
    } else {
      PhraseAndSpace(prefix, tail);
      ParseNameWithoutSpace(prefix + SEARCH_PHRASE + tail, |prefix|);
    }
  }

  lemma NameBeforeSpaceIff(prefix: string, tail: string)
    requires PhraseComesAfter(prefix, tail) && |prefix + SEARCH_PHRASE + tail| < MAX_CLIENT_ID && ' ' in tail
    ensures ParseName(prefix + SEARCH_PHRASE + tail) == Some(Descriptor(tail)) <==> prefix == ""
  {
    var id, d := prefix + SEARCH_PHRASE + tail, Descriptor(tail);
    var start := |prefix| + |SEARCH_PHRASE|;
    PhraseAndSpace(prefix, tail);
    ParseNameFound(id, |prefix|, start + |d|);
    SubstrLength(id, start, |prefix| + |d|);
    assert |id| == start + |tail| && |d| < |tail|;
    if prefix == "" {
      assert id[start..start + |d|] == tail[..|d|] == d;
    }
  }

  lemma SubstrLength(s: string, start: nat, count: nat)
    requires start <= |s|
    ensures var r := Substr(s, start, count);
            r.Some? && |r.value| == if start + count > |s| then |s| - start else count
  {
  }

  lemma DescriptorOf(d: string, rest: string)
    requires ' ' !in d
    ensures Descriptor(d + " " + rest) == d
  {
    var tail := d + " " + rest;
    forall i: nat | i < |tail| ensures OccursAt(tail, " ", i) <==> tail[i] == ' ' {
      SpaceAt(tail, i);
    }
    FindOfFirst(tail, " ", 0, |d|);
  }

  /** A lift that names itself `LKDS_LU<d> ...` is filed under <d>. */
  lemma LiftIsNamedByDescriptor(d: string, rest: string)
    requires ' ' !in d && |SEARCH_PHRASE + d + " " + rest| < MAX_CLIENT_ID
    ensures ParseName(SEARCH_PHRASE + d + " " + rest) == Some(d)
  {
    var tail := d + " " + rest;
    assert "" + SEARCH_PHRASE + tail == SEARCH_PHRASE + d + " " + rest;
    DescriptorOf(d, rest);
    NameIsDescriptorIff("", tail);
  }

  /** The text behind the sixth character, where the code looks when the phrase is not found: adding the
      phrase's length to npos leaves six. */
  function Behind6(id: string): string
    requires |id| >= 6
  {
    id[6..]
  }

  /** A client id without the phrase is refused iff it is shorter than six characters. Otherwise its
      client gets a name all the same: what stands behind the sixth character, up to a space and without
      the character before that; to the end when there is no space or nothing before it. */
  lemma NameWithoutPhrase(id: string)
    requires !Occurs(id, SEARCH_PHRASE) && |id| < MAX_CLIENT_ID
    ensures ParseName(id)
         == if |id| < 6 then None
            else
              var d := Descriptor(Behind6(id));
              Some(if ' ' in Behind6(id) && d != "" then d[..|d| - 1] else Behind6(id))
  {
    var n := |SEARCH_PHRASE|;
    assert Find(id, SEARCH_PHRASE, 0) == NPOS by {
      assert forall i: nat :: OccursAt(id, SEARCH_PHRASE, i) ==> i <= |id|;
    }
    assert (NPOS + n) % SIZE_T == 6;
    if |id| >= 6 {
      var tail := Behind6(id);
      SpaceBehind6(id);
      if ' ' !in tail {
        NoWrap(NPOS - n);
        assert NPOS + SIZE_T - n == (NPOS - n) + SIZE_T;
      } else if Descriptor(tail) != "" {
        var d := Descriptor(tail);
        NoWrap(|d| - 1);
        assert 6 + |d| + SIZE_T - n == (|d| - 1) + SIZE_T;
        assert id[6..6 + (|d| - 1)] == tail[..|d| - 1] == d[..|d| - 1];
      }
    }
  }

  lemma SpaceBehind6(id: string)
    requires |id| >= 6
    ensures Find(id, " ", 6) == if ' ' in Behind6(id) then 6 + |Descriptor(Behind6(id))| else NPOS
    ensures ' ' in Behind6(id) <==> |Descriptor(Behind6(id))| < |Behind6(id)|
    ensures Descriptor(Behind6(id)) <= Behind6(id)
  {
    var tail := Behind6(id);
    forall i: nat | i < |tail| ensures OccursAt(tail, " ", i) <==> tail[i] == ' ' {
      SpaceAt(tail, i);
    }
    forall i: nat | 6 <= i < |id| ensures OccursAt(id, " ", i) <==> tail[i - 6] == ' ' {
      SpaceAt(id, i);
    }
    if ' ' in tail {
      FindOfFirst(id, " ", 6, 6 + |Descriptor(tail)|);
    }
  }

  // ------------------------------------------------------------------ handlers and histories

  predicate Authorized(logins: set<string>, username: string) {
    QuotedId(username) in logins
  }

  function Connect(logins: set<string>, s: BrokerSession, username: string, clientId: string): BrokerSession {
    if !Authorized(logins, username) then s.(live := false)
    else match ParseName(clientId)
      case Some(name) => s.(name := name)
      case None => s.(live := false)
  }

  function Close(s: BrokerSession): BrokerSession {
    s.(name := "", live := false, closed := true)
  }

  datatype Event =
    | Accepted
    | Connects(i: nat, username: string, clientId: string)
    | Closes(i: nat)
    | Moves(descriptor: string, message: Message)

  /** A connection that was closed sends no more connect packets. */
  predicate Enabled(sessions: seq<BrokerSession>, e: Event) {
    match e
    case Connects(i, _, _) => i < |sessions| && !sessions[i].closed
    case Closes(i) => i < |sessions|
    case _ => true
  }

  function FirstNamed(sessions: seq<BrokerSession>, name: string): (k: nat)
    ensures k <= |sessions|
    ensures k < |sessions| ==> sessions[k].name == name
    ensures forall i :: 0 <= i < k ==> sessions[i].name != name
  {
    FirstWhere(sessions, (s: BrokerSession) => s.name == name)
  }

  /** A publish goes to the first session of that name, or nowhere. */
  function Publish(sessions: seq<BrokerSession>, name: string, m: Message): seq<BrokerSession> {
    var k := FirstNamed(sessions, name);
    if k < |sessions| then sessions[k := sessions[k].(published := sessions[k].published + [m])] else sessions
  }

  function Step(logins: set<string>, sessions: seq<BrokerSession>, e: Event): seq<BrokerSession>
    requires Enabled(sessions, e)
  {
    match e
    case Accepted => sessions + [NEW_SESSION]
    case Connects(i, username, clientId) => sessions[i := Connect(logins, sessions[i], username, clientId)]
    case Closes(i) => sessions[i := Close(sessions[i])]
    case Moves(d, m) => Publish(sessions, d, m)
  }

  predicate IsRun(logins: set<string>, sessions: seq<BrokerSession>, events: seq<Event>)
    decreases events
  {
    events == [] || (Enabled(sessions, events[0]) && IsRun(logins, Step(logins, sessions, events[0]), events[1..]))
  }

  function Run(logins: set<string>, sessions: seq<BrokerSession>, events: seq<Event>): seq<BrokerSession>
    requires IsRun(logins, sessions, events)
    decreases events
  {
    if events == [] then sessions else Run(logins, Step(logins, sessions, events[0]), events[1..])
  }

  lemma {:induction false} RunConcat(logins: set<string>, sessions: seq<BrokerSession>, a: seq<Event>, b: seq<Event>)
    requires IsRun(logins, sessions, a + b)
    ensures IsRun(logins, sessions, a) && IsRun(logins, Run(logins, sessions, a), b)
    ensures Run(logins, sessions, a + b) == Run(logins, Run(logins, sessions, a), b)
    decreases a
  {
    if a == [] {
      assert a + b == b;
    } else {
      assert (a + b)[0] == a[0] && (a + b)[1..] == a[1..] + b;
      RunConcat(logins, Step(logins, sessions, a[0]), a[1..], b);
    }
  }

  predicate ClosedAreNameless(sessions: seq<BrokerSession>) {
    forall i :: 0 <= i < |sessions| && sessions[i].closed ==> sessions[i].name == ""
  }

  /** In every history a closed session has lost its name. */
  lemma {:induction false} HistoriesKeepClosedNameless(logins: set<string>, sessions: seq<BrokerSession>,
                                                       events: seq<Event>)
    requires ClosedAreNameless(sessions) && IsRun(logins, sessions, events)
    ensures ClosedAreNameless(Run(logins, sessions, events))
    decreases events
  {
    if events != [] {
      HistoriesKeepClosedNameless(logins, Step(logins, sessions, events[0]), events[1..]);
    }
  }

  predicate Touches(e: Event, i: nat) {
    (e.Connects? && e.i == i) || (e.Closes? && e.i == i)
  }

  lemma {:induction false} UntouchedKeepsName(logins: set<string>, sessions: seq<BrokerSession>, events: seq<Event>,
                                              i: nat)
    requires IsRun(logins, sessions, events) && i < |sessions|
    requires forall k :: 0 <= k < |events| ==> !Touches(events[k], i)
    ensures var s := Run(logins, sessions, events);
            i < |s| && s[i].name == sessions[i].name && s[i].closed == sessions[i].closed
    decreases events
  {
    if events != [] {
      assert !Touches(events[0], i);
      assert forall k :: 0 <= k < |events[1..]| ==> events[1..][k] == events[k + 1];
      UntouchedKeepsName(logins, Step(logins, sessions, events[0]), events[1..], i);
    }
  }

  // ------------------------------------------------------------------ what a history leaves behind

  function Accepts(events: seq<Event>): nat {
    if events == [] then 0 else (if events[0].Accepted? then 1 else 0) + Accepts(events[1..])
  }

  /** The name of session `i`, read off its history from the end: a close takes the name away, an
      accepted connect gives one, and a rejected connect leaves whatever was there. */
  function NameByHistory(logins: set<string>, events: seq<Event>, i: nat): string
    decreases events
  {
    if events == [] then ""
    else
      var n := |events| - 1;
      match events[n]
      case Closes(j) => if j == i then "" else NameByHistory(logins, events[..n], i)
      case Connects(j, username, clientId) =>
        if j == i && QuotedId(username) in logins && ParseName(clientId).Some? then ParseName(clientId).value
        else NameByHistory(logins, events[..n], i)
      case _ => NameByHistory(logins, events[..n], i)
  }

  lemma {:induction false} AcceptsConcat(a: seq<Event>, b: seq<Event>)
    ensures Accepts(a + b) == Accepts(a) + Accepts(b)
  {
    if a == [] {
      assert a + b == b;
    } else {
      assert (a + b)[0] == a[0] && (a + b)[1..] == a[1..] + b;
      AcceptsConcat(a[1..], b);
    }
  }

  /** Nobody has touched a session that was not accepted yet. */
  lemma {:induction false} UntouchedHasNoName(logins: set<string>, events: seq<Event>, i: nat)
    requires forall k :: 0 <= k < |events| ==> !Touches(events[k], i)
    ensures NameByHistory(logins, events, i) == "" && Closes(i) !in events
    decreases events
  {
    if events != [] {
      var n := |events| - 1;
      UntouchedHasNoName(logins, events[..n], i);
      assert !Touches(events[n], i) && events == events[..n] + [events[n]];
    }
  }

  ghost predicate TouchesAccepted(events: seq<Event>, n: nat) {
    forall k, i: nat :: 0 <= k < |events| && Touches(events[k], i) ==> i < n
  }

  /** A connect of this session under an unknown login, or with a client id that cannot be cut. */
  predicate IsRejected(logins: set<string>, e: Event, i: nat) {
    e.Connects? && e.i == i && (QuotedId(e.username) !in logins || ParseName(e.clientId).None?)
  }

  predicate WasRejected(logins: set<string>, events: seq<Event>, i: nat) {
    exists k :: 0 <= k < |events| && IsRejected(logins, events[k], i)
  }

  /** The session has the name and the state that this history gives it. */
  predicate Remembers(logins: set<string>, events: seq<Event>, s: BrokerSession, i: nat) {
    && s.name == NameByHistory(logins, events, i) && (s.closed <==> Closes(i) in events)
    && (s.live <==> !s.closed && !WasRejected(logins, events, i))
  }

  lemma StepIsRemembered(logins: set<string>, before: seq<Event>, e: Event, sessions: seq<BrokerSession>, i: nat)
    requires Enabled(sessions, e) && i < |Step(logins, sessions, e)|
    requires i < |sessions| ==> Remembers(logins, before, sessions[i], i)
    requires i >= |sessions| ==> forall k :: 0 <= k < |before| ==> !Touches(before[k], i)
    ensures Remembers(logins, before + [e], Step(logins, sessions, e)[i], i)
  {
    var events := before + [e];
    assert events[|before|] == e && events[..|before|] == before;
    assert Closes(i) in events <==> Closes(i) in before || e == Closes(i);
    assert WasRejected(logins, events, i) <==> WasRejected(logins, before, i) || IsRejected(logins, e, i) by {
      assert forall k :: 0 <= k < |before| ==> events[k] == before[k];
    }
    if i >= |sessions| {
      UntouchedHasNoName(logins, before, i);
    }
  }

  /** The sessions after any history are those accepted in it, in order; each bears the name that its
      own part of the history gives it, is closed iff it was closed at some point, and live iff it was
      neither closed nor ever rejected. */
  lemma {:induction false} SessionsRememberTheirHistory(logins: set<string>, events: seq<Event>)
    requires IsRun(logins, [], events)
    ensures var sessions := Run(logins, [], events);
            && |sessions| == Accepts(events) && TouchesAccepted(events, |sessions|)
            && forall i :: 0 <= i < |sessions| ==> Remembers(logins, events, sessions[i], i)
    decreases events
  {
    if events != [] {
      var n := |events| - 1;
      var before, e := events[..n], events[n];
      assert events == before + [e];
      RunConcat(logins, [], before, [e]);
      var s := Run(logins, [], before);
      assert [e][1..] == [] && Run(logins, s, [e]) == Step(logins, s, e);
      AcceptsConcat(before, [e]);
      SessionsRememberTheirHistory(logins, before);
      StepTouchesAccepted(logins, before, e, s);
      StepsAreRemembered(logins, before, e, s);
    }
  }

  lemma StepTouchesAccepted(logins: set<string>, before: seq<Event>, e: Event, sessions: seq<BrokerSession>)
    requires Enabled(sessions, e) && TouchesAccepted(before, |sessions|)
    ensures TouchesAccepted(before + [e], |Step(logins, sessions, e)|)
    ensures |Step(logins, sessions, e)| == |sessions| + Accepts([e])
  {
    assert [e][1..] == [];
  }

  lemma StepsAreRemembered(logins: set<string>, before: seq<Event>, e: Event, sessions: seq<BrokerSession>)
    requires Enabled(sessions, e) && TouchesAccepted(before, |sessions|)
    requires forall i :: 0 <= i < |sessions| ==> Remembers(logins, before, sessions[i], i)
    ensures var later := Step(logins, sessions, e);
            forall i :: 0 <= i < |later| ==> Remembers(logins, before + [e], later[i], i)
  {
    forall i | 0 <= i < |Step(logins, sessions, e)|
      ensures Remembers(logins, before + [e], Step(logins, sessions, e)[i], i)
    {
      StepIsRemembered(logins, before, e, sessions, i);
    }
  }

  // ------------------------------------------------------------------ the class

  class MQTTBroker {
    const logins: set<string>
    var sessions: seq<BrokerSession>

    constructor (logins: set<string>)
      ensures this.logins == logins && sessions == []
    {
      this.logins, sessions := logins, [];
    }

    method Accept()
      modifies this
      ensures sessions == Step(logins, old(sessions), Accepted)
    {
      sessions := sessions + [NEW_SESSION];
    }

    method HandleConnect(i: nat, username: string, clientId: string) returns (ok: bool)
      requires Enabled(sessions, Connects(i, username, clientId))
      modifies this
      ensures sessions == Step(logins, old(sessions), Connects(i, username, clientId))
      ensures ok <==> Authorized(logins, username) && ParseName(clientId).Some?
    {
      if QuotedId(username) !in logins {
        sessions := sessions[i := sessions[i].(live := false)];
        return false;
      }
      var name := ParseName(clientId);
      if name.None? {
        sessions := sessions[i := sessions[i].(live := false)];
        return false;
      }
      sessions := sessions[i := sessions[i].(name := name.value)];
      return true;
    }

    /** The close, error and disconnect handlers all come here. */
    method CloseProc(i: nat)
      requires i < |sessions|
      modifies this
      ensures sessions == Step(logins, old(sessions), Closes(i))
    {
      sessions := sessions[i := sessions[i].(name := "", live := false, closed := true)];
    }

    method PublishTo(descriptor: string, m: Message) returns (found: bool)
      modifies this
      ensures sessions == Step(logins, old(sessions), Moves(descriptor, m))
      ensures found <==> exists i :: 0 <= i < |old(sessions)| && old(sessions)[i].name == descriptor
    {
      for i := 0 to |sessions|
        invariant sessions == old(sessions)
        invariant forall k :: 0 <= k < i ==> sessions[k].name != descriptor
      {
        if sessions[i].name == descriptor {
          assert FirstNamed(sessions, descriptor) == i;
          sessions := sessions[i := sessions[i].(published := sessions[i].published + [m])];
          return true;
        }
      }
      return false;
    }
  }

  /** The broker driven over a whole history: names and closed sessions are what the history says, and
      no closed session has a name. */
  method ServeHistory(broker: MQTTBroker, events: seq<Event>)
    requires broker.sessions == [] && IsRun(broker.logins, [], events)
    modifies broker
    ensures broker.sessions == Run(broker.logins, [], events)
    ensures |broker.sessions| == Accepts(events) && ClosedAreNameless(broker.sessions)
    ensures forall i :: 0 <= i < |broker.sessions| ==> Remembers(broker.logins, events, broker.sessions[i], i)
  {
    for k := 0 to |events|
      invariant IsRun(broker.logins, broker.sessions, events[k..])
      invariant Run(broker.logins, broker.sessions, events[k..]) == Run(broker.logins, [], events)
    {
      assert events[k..][0] == events[k] && events[k..][1..] == events[k + 1..];
      match events[k] {
        case Accepted => broker.Accept();
        case Connects(i, username, clientId) => var _ := broker.HandleConnect(i, username, clientId);
        case Closes(i) => broker.CloseProc(i);
        case Moves(d, m) => var _ := broker.PublishTo(d, m);
      }
    }
    HistoriesKeepClosedNameless(broker.logins, [], events);
    SessionsRememberTheirHistory(broker.logins, events);
  }
}
