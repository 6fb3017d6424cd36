/** One HTTPS session: a request is routed, a command goes to a text worker, perhaps a second one to
    an MQTT worker, and a response is built from whichever answer closes the request. */
module Https {
  import opened Common
  import opened Routing

  /** The members of a well-formed request body that the code reads. */
  datatype Body = Body(sessionId: string, applicationId: string, messageId: int)

  datatype Request =
    | OtherMethod
    | Options
    | BadPost                // a body that is not one whole JSON text
    | Post(body: Body)

  /** What a response says; the wording itself is not modelled. */
  datatype Content =
    | WorkerText(text: string)
    | Greeting               // the station is not in the database
    | AskMore                // the lift was sent
    | ServiceUnavailable(endSession: bool)

  datatype Response =
    | BadRequest
    | Preflight
    | Skill(content: Content, sessionId: string, userId: string, messageId: int)

  /** A text worker's answer. A move names its lift block and floor; `floor` is None when its value
      is not a number. */
  datatype TextAnswer = StaticMessage(text: string) | MoveLift(station: string, block: string, floor: Option<int>)
                      | NotFoundAnswer | OtherAnswer

  datatype MqttAnswer = Moved(success: bool) | OtherMqttAnswer

  datatype TextCommand = TextCommand(worker: nat, station: string)
  datatype MoveCommand = MoveCommand(worker: nat, station: string, block: string, floor: int)

  datatype Http = Http(
    pos: Positions,
    body: Option<Body>,               // the request being answered; None once it was answered
    responses: seq<Response>,
    textCommands: seq<TextCommand>,   // the commands that were really sent to a text worker
    moveCommands: seq<MoveCommand>)

  const NEW_HTTP := Http(Positions(0, 0, 0, 0), None, [], [], [])

  // ------------------------------------------------------------------ the handlers as functions

  /** `__constructResponse` throws when the body is gone: then nothing is sent. */
  function ConstructResponse(h: Http, content: Content): Http {
    match h.body
    case None => h
    case Some(b) =>
      h.(body := None, responses := h.responses + [Skill(content, b.sessionId, b.applicationId, b.messageId)])
  }

  /** `startCommand` on a worker that is not live does nothing, and says nothing. */
  function CallbackText(h: Http, mqtt: seq<Worker>, answer: TextAnswer): Http {
    match answer
    case StaticMessage(text) => ConstructResponse(h, WorkerText(text))
    case NotFoundAnswer => ConstructResponse(h, Greeting)
    case OtherAnswer => ConstructResponse(h, ServiceUnavailable(false))
    case MoveLift(station, block, floor) =>
      if floor.None? || h.pos.mqttWorker >= |mqtt| then ConstructResponse(h, ServiceUnavailable(false))
      else if !mqtt[h.pos.mqttWorker].live then h
      else h.(moveCommands := h.moveCommands + [MoveCommand(h.pos.mqttWorker, station, block, floor.value)])
  }

  function CallbackMqtt(h: Http, answer: MqttAnswer): Http {
    match answer
    case Moved(success) => ConstructResponse(h, if success then AskMore else ServiceUnavailable(false))
    case OtherMqttAnswer => ConstructResponse(h, ServiceUnavailable(true))
  }

  predicate InRange(h: Http, st: Stations, bl: Blocks) {
    Rectangular(st, bl) && h.pos.station < |st.applicationId| && h.pos.block < |bl.id|
  }

  function AnalizeRequest(h: Http, st: Stations, bl: Blocks, text: seq<Worker>, mqtt: seq<Worker>,
                          request: Request): Http
    requires InRange(h, st, bl)
  {
    match request
    case OtherMethod => h.(responses := h.responses + [BadRequest])
    case BadPost => h.(responses := h.responses + [BadRequest])
    case Options => h.(responses := h.responses + [Preflight])
    case Post(body) =>
      var (outcome, pos) := Route(body.applicationId, st, bl, text, mqtt, h.pos);
      var h1 := h.(body := Some(body), pos := pos);
      match outcome
      case Unavailable => ConstructResponse(h1, ServiceUnavailable(false))
      case NotFound => ConstructResponse(h1, Greeting)
      case Start =>
        if pos.textWorker < |text| && text[pos.textWorker].live
        then h1.(textCommands := h.textCommands + [TextCommand(pos.textWorker, body.applicationId)])
        else h1
  }

  // ------------------------------------------------------------------ runs

  /** An answer can only come once a command was sent; it may come more than once. The MQTT worker
      list is the one at the time of the answer. */
  datatype Event = FromText(answer: TextAnswer, mqtt: seq<Worker>) | FromMqtt(result: MqttAnswer)

  predicate Enabled(h: Http, e: Event) {
    match e
    case FromText(_, _) => h.textCommands != []
    case FromMqtt(_) => h.moveCommands != []
  }

  function Step(h: Http, e: Event): Http {
    match e
    case FromText(answer, mqtt) => CallbackText(h, mqtt, answer)
    case FromMqtt(answer) => CallbackMqtt(h, answer)
  }

  predicate IsRun(h: Http, events: seq<Event>)
    decreases events
  {
    events == [] || (Enabled(h, events[0]) && IsRun(Step(h, events[0]), events[1..]))
  }

  function Run(h: Http, events: seq<Event>): Http
    decreases events
  {
    if events == [] then h else Run(Step(h, events[0]), events[1..])
  }

  /** An event that makes the session answer, if it still has a request to answer. */
  predicate Closes(h: Http, e: Event) {
    match e
    case FromMqtt(_) => true
    case FromText(answer, mqtt) => answer.MoveLift? ==> answer.floor.None? || h.pos.mqttWorker >= |mqtt|
  }

  /** What the response to a closing event says. */
  function ContentOf(e: Event): Content {
    match e
    case FromText(StaticMessage(text), _) => WorkerText(text)
    case FromText(NotFoundAnswer, _) => Greeting
    case FromText(_, _) => ServiceUnavailable(false)
    case FromMqtt(Moved(true)) => AskMore
    case FromMqtt(Moved(false)) => ServiceUnavailable(false)
    case FromMqtt(OtherMqttAnswer) => ServiceUnavailable(true)
  }

  /** The callback throws: it builds a response although the request is answered already. */
  predicate Throws(h: Http, e: Event) {
    Closes(h, e) && h.body.None?
  }

  /** The first event that closes the request. */
  function FirstClosing(h: Http, events: seq<Event>): (e: Option<Event>)
    ensures e.Some? ==> e.value in events && Closes(h, e.value)
    ensures e.None? ==> forall i :: 0 <= i < |events| ==> !Closes(h, events[i])
    decreases events
  {
    if events == [] then None else if Closes(h, events[0]) then Some(events[0]) else FirstClosing(h, events[1..])
  }

  predicate Echoes(response: Response, body: Body) {
    && response.Skill? && response.sessionId == body.sessionId
    && response.userId == body.applicationId && response.messageId == body.messageId
  }

  lemma {:induction false} AnsweredRunSendsNothing(h: Http, events: seq<Event>)
    requires h.body.None?
    ensures Run(h, events).responses == h.responses && Run(h, events).body.None?
    decreases events
  {
    if events != [] {
      AnsweredRunSendsNothing(Step(h, events[0]), events[1..]);
    }
  }

  lemma ClosingSameAt(h: Http, h1: Http, events: seq<Event>)
    requires h.pos == h1.pos
    ensures FirstClosing(h, events) == FirstClosing(h1, events)
    decreases events
  {
  }

  /** An open request gets exactly one response, built from the first closing event, or none. */
  lemma {:induction false} OpenRunAnswersOnceIff(h: Http, events: seq<Event>)
    requires h.body.Some?
    ensures var h' := Run(h, events);
            match FirstClosing(h, events)
            case None => h'.responses == h.responses && h'.body == h.body
            case Some(e) =>
              && h'.body.None? && |h'.responses| == |h.responses| + 1 && h'.responses[..|h.responses|] == h.responses
              && Echoes(h'.responses[|h.responses|], h.body.value)
              && h'.responses[|h.responses|].content == ContentOf(e)
    decreases events
  {
    if events != [] {
      var h1 := Step(h, events[0]);
      ClosingSameAt(h, h1, events[1..]);
      if Closes(h, events[0]) {
        AnsweredRunSendsNothing(h1, events[1..]);
      } else {
        OpenRunAnswersOnceIff(h1, events[1..]);
      }
    }
  }

  /** The life of a POST request on a fresh session. Whatever answers come, and however often, it gets
      at most one response, and that one echoes its session, application and message ids. If it was
      not turned away at routing, it gets one iff some answer closes it, and the first one that does
      says what is in it. */
  lemma RequestIsAnsweredAtMostOnce(st: Stations, bl: Blocks, text: seq<Worker>, mqtt: seq<Worker>, body: Body,
                                    events: seq<Event>)
    requires InRange(NEW_HTTP, st, bl)
    ensures var (outcome, _) := Route(body.applicationId, st, bl, text, mqtt, NEW_HTTP.pos);
            var asked := AnalizeRequest(NEW_HTTP, st, bl, text, mqtt, Post(body));
            var h := Run(asked, events);
            && IsLifeOf(body, outcome, FirstClosing(asked, events), h.responses)
            && (h.body.Some? <==> h.responses == [])
  {
    var asked := AnalizeRequest(NEW_HTTP, st, bl, text, mqtt, Post(body));
    if asked.body.None? {
      AnsweredRunSendsNothing(asked, events);
    } else {
      OpenRunAnswersOnceIff(asked, events);
    }
  }

  predicate IsLifeOf(body: Body, outcome: Outcome, closing: Option<Event>, responses: seq<Response>) {
    if outcome == Start && closing.None? then responses == []
    else
      && |responses| == 1 && Echoes(responses[0], body)
      && responses[0].content == match outcome
                                 case Unavailable => ServiceUnavailable(false)
                                 case NotFound => Greeting
                                 case Start => ContentOf(closing.value)
  }

  /** A text answer for which a move command goes out. */
  predicate AsksForMove(h: Http, e: Event) {
    e.FromText? && e.answer.MoveLift? && !Closes(h, e) && e.mqtt[h.pos.mqttWorker].live
  }

  /** The move commands of a list of answers, in order: station, block and floor of each answer that
      asks for one, sent to the position that routing saved. */
  function MovesOf(h: Http, events: seq<Event>): seq<MoveCommand>
    decreases events
  {
    if events == [] then []
    else if AsksForMove(h, events[0]) then
      var answer := events[0].answer;
      [MoveCommand(h.pos.mqttWorker, answer.station, answer.block, answer.floor.value)] + MovesOf(h, events[1..])
    else MovesOf(h, events[1..])
  }

  lemma {:induction false} MovesAreThoseAskedFor(h: Http, events: seq<Event>)
    ensures Run(h, events).moveCommands == h.moveCommands + MovesOf(h, events)
    decreases events
  {
    if events == [] {
      assert h.moveCommands + [] == h.moveCommands;
    } else {
      var h1 := Step(h, events[0]);
      MovesAreThoseAskedFor(h1, events[1..]);
      SameMovesAt(h, h1, events[1..]);
    }
  }

  lemma SameMovesAt(h: Http, h1: Http, events: seq<Event>)
    requires h.pos == h1.pos
    ensures MovesOf(h, events) == MovesOf(h1, events)
    decreases events
  {
  }

  /** The text commands after a POST: one more than before, for the request's own station and to a live
      session that serves a row of that station, iff routing came through to a live session; otherwise
      none. */
  predicate VoiceGoesOut(before: seq<TextCommand>, after: seq<TextCommand>, app: string, st: Stations, bl: Blocks,
                         text: seq<Worker>, outcome: Outcome, chosen: Positions)
    requires Rectangular(st, bl)
  {
    if outcome == Start && chosen.textWorker < |text| && text[chosen.textWorker].live then
      && |after| == |before| + 1 && after[..|before|] == before
      && var command := after[|before|];
         && command.station == app && command.worker == chosen.textWorker
         && text[command.worker].live
         && StationRow(app, st, chosen.station) && TextWorkerFor(st, bl, text, chosen.station, command.worker)
    else after == before
  }

  lemma {:induction false} AnswersSendNoVoice(h: Http, events: seq<Event>)
    ensures Run(h, events).textCommands == h.textCommands
    decreases events
  {
    if events != [] {
      AnswersSendNoVoice(Step(h, events[0]), events[1..]);
    }
  }

  /** A POST sends at most one text command, whatever answers come later: it goes to the text worker of
      the request's station, and it goes out iff routing came through to a session that is live. */
  lemma VoiceCommandIff(h: Http, st: Stations, bl: Blocks, text: seq<Worker>, mqtt: seq<Worker>, body: Body,
                        events: seq<Event>)
    requires InRange(h, st, bl)
    ensures var (outcome, pos) := Route(body.applicationId, st, bl, text, mqtt, h.pos);
            var h' := Run(AnalizeRequest(h, st, bl, text, mqtt, Post(body)), events);
            VoiceGoesOut(h.textCommands, h'.textCommands, body.applicationId, st, bl, text, outcome, pos)
  {
    AnswersSendNoVoice(AnalizeRequest(h, st, bl, text, mqtt, Post(body)), events);
    StartedPositionsAreARoute(body.applicationId, st, bl, text, mqtt, h.pos);
  }

  /** A request that is no well-formed POST is answered there and then and leads to no command, so that
      no answer can come: OPTIONS by the preflight response, anything else by a bad request. */
  lemma OtherRequestsEndAtOnce(st: Stations, bl: Blocks, text: seq<Worker>, mqtt: seq<Worker>, request: Request,
                               events: seq<Event>)
    requires InRange(NEW_HTTP, st, bl) && !request.Post?
    requires IsRun(AnalizeRequest(NEW_HTTP, st, bl, text, mqtt, request), events)
    ensures var h := Run(AnalizeRequest(NEW_HTTP, st, bl, text, mqtt, request), events);
            && h.responses == [if request.Options? then Preflight else BadRequest]
            && h.textCommands == [] && h.moveCommands == [] && h.body.None?
  {
    assert events == [];
  }

  /** A request whose chosen text worker is not live is never answered: no command goes out, so no
      answer can come. */
  lemma DeadTextWorkerMeansNoResponse(st: Stations, bl: Blocks, text: seq<Worker>, mqtt: seq<Worker>, body: Body,
                                      events: seq<Event>)
    requires InRange(NEW_HTTP, st, bl)
    requires var (outcome, pos) := Route(body.applicationId, st, bl, text, mqtt, NEW_HTTP.pos);
             outcome == Start && !text[pos.textWorker].live
    requires IsRun(AnalizeRequest(NEW_HTTP, st, bl, text, mqtt, Post(body)), events)
    ensures events == [] && Run(AnalizeRequest(NEW_HTTP, st, bl, text, mqtt, Post(body)), events).responses == []
  {
  }

  // ------------------------------------------------------------------ the MQTT list in between

  /** What can happen to the list of MQTT sessions between routing and the text worker's answer. */
  datatype Change = Reaped(k: nat) | Joined(worker: Worker) | Turned(k: nat, live: bool)

  predicate Possible(workers: seq<Worker>, c: Change) {
    c.Joined? || c.k < |workers|
  }

  function Changed(workers: seq<Worker>, c: Change): seq<Worker>
    requires Possible(workers, c)
  {
    match c
    case Reaped(k) => workers[..k] + workers[k + 1..]
    case Joined(w) => workers + [w]
    case Turned(k, live) => workers[k := workers[k].(live := live)]
  }

  predicate AllPossible(workers: seq<Worker>, changes: seq<Change>)
    decreases changes
  {
    changes == [] || (Possible(workers, changes[0]) && AllPossible(Changed(workers, changes[0]), changes[1..]))
  }

  function AfterChanges(workers: seq<Worker>, changes: seq<Change>): seq<Worker>
    requires AllPossible(workers, changes)
    decreases changes
  {
    if changes == [] then workers else AfterChanges(Changed(workers, changes[0]), changes[1..])
  }

  predicate ReapsOnlyBehind(changes: seq<Change>, p: nat) {
    forall i :: 0 <= i < |changes| && changes[i].Reaped? ==> changes[i].k > p
  }

  /** No session but, perhaps, the one at `p` serves the block, and none that does joins. */
  predicate OnlyServer(workers: seq<Worker>, changes: seq<Change>, first: string, second: string, p: nat) {
    && (forall i :: 0 <= i < |workers| && i != p ==> !Serves(workers[i], first, second))
    && (forall i :: 0 <= i < |changes| && changes[i].Joined? ==> !Serves(changes[i].worker, first, second))
  }

  predicate ServedAt(workers: seq<Worker>, first: string, second: string, p: nat) {
    p < |workers| && Serves(workers[p], first, second)
  }

  /** Where the session at `q` stands after a change; `gone` when it was reaped itself. */
  function PlaceAfter(c: Change, q: nat, gone: nat): nat {
    if c.Reaped? && c.k == q then gone else if c.Reaped? && c.k < q then q - 1 else q
  }

  lemma ChangeKeepsOnlyServer(workers: seq<Worker>, changes: seq<Change>, first: string, second: string, q: nat,
                              gone: nat)
    requires changes != [] && Possible(workers, changes[0]) && OnlyServer(workers, changes, first, second, q)
    ensures OnlyServer(Changed(workers, changes[0]), changes[1..], first, second, PlaceAfter(changes[0], q, gone))
  {
    assert forall i :: 0 <= i < |changes[1..]| ==> changes[1..][i] == changes[i + 1];
  }

  lemma ChangedServer(workers: seq<Worker>, c: Change, first: string, second: string, q: nat, gone: nat)
    requires Possible(workers, c) && (forall i :: 0 <= i < |workers| && i != q ==> !Serves(workers[i], first, second))
    requires c.Joined? ==> !Serves(c.worker, first, second)
    ensures ServedAt(Changed(workers, c), first, second, PlaceAfter(c, q, gone))
       <==> ServedAt(workers, first, second, q) && !(c.Reaped? && c.k == q)
  {
  }

  /** Once the block's session has moved below the saved position it never comes back to it. */
  lemma {:induction false} NeverServedAgain(workers: seq<Worker>, changes: seq<Change>, first: string,
                                            second: string, q: nat, p: nat)
    requires AllPossible(workers, changes) && OnlyServer(workers, changes, first, second, q)
    requires q < p || !ServedAt(workers, first, second, q)
    ensures !ServedAt(AfterChanges(workers, changes), first, second, p)
    decreases changes
  {
    if changes != [] {
      ChangeKeepsOnlyServer(workers, changes, first, second, q, p);
      ChangedServer(workers, changes[0], first, second, q, p);
      NeverServedAgain(Changed(workers, changes[0]), changes[1..], first, second, PlaceAfter(changes[0], q, p), p);
    }
  }

  lemma {:induction false} ServedPositionIff(workers: seq<Worker>, changes: seq<Change>, first: string,
                                             second: string, p: nat)
    requires AllPossible(workers, changes) && OnlyServer(workers, changes, first, second, p)
    requires ServedAt(workers, first, second, p)
    ensures ServedAt(AfterChanges(workers, changes), first, second, p) <==> ReapsOnlyBehind(changes, p)
    decreases changes
  {
    if changes != [] {
      var c, rest := changes[0], changes[1..];
      ChangeKeepsOnlyServer(workers, changes, first, second, p, p);
      ChangedServer(workers, c, first, second, p, p);
      assert changes == [c] + rest;
      assert ReapsOnlyBehind(changes, p) <==> !(c.Reaped? && c.k <= p) && ReapsOnlyBehind(rest, p);
      if c.Reaped? && c.k <= p {
        NeverServedAgain(Changed(workers, c), rest, first, second, PlaceAfter(c, p, p), p);
      } else {
        ServedPositionIff(Changed(workers, c), rest, first, second, p);
      }
    }
  }

  /** The position that routing saved is used again when the text worker answers, on the list as it
      is then. When one session serves the lift block, the move is sent to a worker of the block iff
      every session that was reaped in between stood behind it, and it is still live. */
  lemma MoveGoesToTheBlocksWorkerIff(h: Http, mqtt: seq<Worker>, changes: seq<Change>, first: string, second: string,
                                     station: string, block: string, floor: int)
    requires AllPossible(mqtt, changes) && ServedAt(mqtt, first, second, h.pos.mqttWorker)
    requires OnlyServer(mqtt, changes, first, second, h.pos.mqttWorker)
    ensures var now := AfterChanges(mqtt, changes);
            var p := h.pos.mqttWorker;
            var moves := Step(h, FromText(MoveLift(station, block, Some(floor)), now)).moveCommands;
            && (moves != h.moveCommands ==> moves == h.moveCommands + [MoveCommand(p, station, block, floor)])
            && ((moves != h.moveCommands && ServedAt(now, first, second, p))
                <==> ReapsOnlyBehind(changes, p) && p < |now| && now[p].live)
  {
    ServedPositionIff(mqtt, changes, first, second, h.pos.mqttWorker);
  }

  // ------------------------------------------------------------------ the class

  class HttpsSession {
    const st: Stations
    const bl: Blocks
    var posStation: nat
    var posTextWorker: nat
    var posBlock: nat
    var posMqttWorker: nat
    var body: Option<Body>
    var responses: seq<Response>
    var textCommands: seq<TextCommand>
    var moveCommands: seq<MoveCommand>

    constructor (st: Stations, bl: Blocks)
      ensures this.st == st && this.bl == bl && Model() == NEW_HTTP
    {
      this.st, this.bl := st, bl;
      posStation, posTextWorker, posBlock, posMqttWorker := 0, 0, 0, 0;
      body, responses, textCommands, moveCommands := None, [], [], [];
    }

    function Model(): Http
      reads this
    {
      Http(Positions(posStation, posTextWorker, posBlock, posMqttWorker), body, responses, textCommands, moveCommands)
    }

    method Respond(content: Content)
      modifies this
      ensures Model() == ConstructResponse(old(Model()), content)
    {
      if body.None? {
        return;
      }
      var b := body.value;
      responses := responses + [Skill(content, b.sessionId, b.applicationId, b.messageId)];
      body := None;
    }

    /** One table lookup: keep the saved position if it still fits, else search from the start. */
    method FindRow(column: seq<string>, key: string, pos: nat) returns (k: nat)
      requires pos < |column|
      ensures k == CachedIndex(column, key, pos)
    {
      k := pos;
      if column[pos] != key {
        k := 0;
        while k < |column|
          invariant k <= |column| && forall i :: 0 <= i < k ==> column[i] != key
        {
          if key == column[k] {
            break;
          }
          k := k + 1;
        }
      }
    }

    /** One session lookup; a saved position past the end is an exception that also leads to the
        search. */
    method FindWorker(workers: seq<Worker>, first: string, second: string, pos: nat) returns (k: nat)
      ensures k == CachedWorker(workers, first, second, pos)
    {
      k := pos;
      if pos >= |workers| || !(workers[pos].id == first || workers[pos].id == second) {
        k := 0;
        while k < |workers|
          invariant k <= |workers| && forall i :: 0 <= i < k ==> !Serves(workers[i], first, second)
        {
          if workers[k].id == first || workers[k].id == second {
            break;
          }
          k := k + 1;
        }
      }
    }

    method HandleRequest(text: seq<Worker>, mqtt: seq<Worker>, request: Request)
      requires InRange(Model(), st, bl)
      modifies this
      ensures Model() == AnalizeRequest(old(Model()), st, bl, text, mqtt, request)
    {
      match request {
        case OtherMethod => responses := responses + [BadRequest];
        case BadPost => responses := responses + [BadRequest];
        case Options => responses := responses + [Preflight];
        case Post(b) =>
          body := Some(b);
          RoutePost(b, text, mqtt);
      }
    }

    method RoutePost(b: Body, text: seq<Worker>, mqtt: seq<Worker>)
      requires InRange(Model(), st, bl) && body == Some(b)
      modifies this
      ensures Model() == AnalizeRequest(old(Model()), st, bl, text, mqtt, Post(b))
    {
      if |text| == 0 {
        Respond(ServiceUnavailable(false));
        return;
      }
      posStation := FindRow(st.applicationId, QuotedId(b.applicationId), posStation);
      if posStation == |st.applicationId| {
        Respond(Greeting);
        return;
      }
      posTextWorker := FindWorker(text, st.workerId[posStation], st.secondWorkerId[posStation], posTextWorker);
      if posTextWorker == |text| {
        Respond(ServiceUnavailable(false));
        return;
      }
      posBlock := FindRow(bl.id, st.liftBlockId[posStation], posBlock);
      if posBlock == |bl.id| {
        Respond(Greeting);
        return;
      }
      posMqttWorker := FindWorker(mqtt, bl.workerLuId[posBlock], bl.secondWorkerLuId[posBlock], posMqttWorker);
      if posMqttWorker == |mqtt| {
        Respond(ServiceUnavailable(false));
        return;
      }
      if text[posTextWorker].live {
        textCommands := textCommands + [TextCommand(posTextWorker, b.applicationId)];
      }
    }

    method HandleTextAnswer(mqtt: seq<Worker>, answer: TextAnswer)
      modifies this
      ensures Model() == CallbackText(old(Model()), mqtt, answer)
    {
      match answer {
        case StaticMessage(text) => Respond(WorkerText(text));
        case NotFoundAnswer => Respond(Greeting);
        case OtherAnswer => Respond(ServiceUnavailable(false));
        case MoveLift(station, block, floor) =>
          if |mqtt| == 0 || floor.None? || posMqttWorker >= |mqtt| {
            Respond(ServiceUnavailable(false));
          } else if mqtt[posMqttWorker].live {
            moveCommands := moveCommands + [MoveCommand(posMqttWorker, station, block, floor.value)];
          }
      }
    }

    method HandleMqttAnswer(answer: MqttAnswer)
      modifies this
      ensures Model() == CallbackMqtt(old(Model()), answer)
    {
      match answer {
        case Moved(success) =>
          if success {
            Respond(AskMore);
          } else {
            Respond(ServiceUnavailable(false));
          }
        case OtherMqttAnswer => Respond(ServiceUnavailable(true));
      }
    }
  }

  /** The object driven over the life of one POST request: the one text command goes to a text worker of
      the request's station; there is at most one response, which echoes the request's ids and says what
      the first closing answer asks for; and exactly the moves asked for go out. */
  method ServePost(s: HttpsSession, text: seq<Worker>, mqtt: seq<Worker>, body: Body, events: seq<Event>)
    requires s.Model() == NEW_HTTP && InRange(NEW_HTTP, s.st, s.bl)
    modifies s
    ensures var (outcome, _) := Route(body.applicationId, s.st, s.bl, text, mqtt, FRESH);
            var asked := AnalizeRequest(NEW_HTTP, s.st, s.bl, text, mqtt, Post(body));
            && IsLifeOf(body, outcome, FirstClosing(asked, events), s.responses)
            && (s.body.Some? <==> s.responses == [])
            && VoiceGoesOut([], s.textCommands, body.applicationId, s.st, s.bl, text, outcome,
                            Route(body.applicationId, s.st, s.bl, text, mqtt, FRESH).1)
            && s.moveCommands == MovesOf(asked, events)
  {
    s.HandleRequest(text, mqtt, Post(body));
    ghost var asked := s.Model();
    for i := 0 to |events|
      invariant Run(s.Model(), events[i..]) == Run(asked, events)
    {
      assert events[i..][0] == events[i] && events[i..][1..] == events[i + 1..];
      match events[i] {
        case FromText(answer, now) => s.HandleTextAnswer(now, answer);
        case FromMqtt(answer) => s.HandleMqttAnswer(answer);
      }
    }
    assert s.Model() == Run(asked, events) && asked.moveCommands == [];
    RequestIsAnsweredAtMostOnce(s.st, s.bl, text, mqtt, body, events);
    MovesAreThoseAskedFor(asked, events);
    VoiceCommandIff(NEW_HTTP, s.st, s.bl, text, mqtt, body, events);
  }
}
