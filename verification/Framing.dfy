/** How the receive handlers cut a TCP byte stream back into JSON documents and dispatch them:
    a fixed receive buffer read as a C string, a resumable parser, a queue of finished documents
    and a dispatch loop. */
module Framing {
  import opened Common
  import opened Json

  /** The resumable parser: the bytes of the current document so far and where the scan stands. */
  datatype Parser = Parser(text: string, scan: Scan)

  const FRESH_PARSER := Parser("", Fresh)

  /** Every receive buffer has this size, plus one terminator slot that the code never writes. */
  const BUF_SIZE: nat := 2048

  // ------------------------------------------------------------------ the parser's own write_some

  /** The library call: consume bytes until a document is complete or the input ends, and say how
      many were consumed. */
  function WriteSome(p: Parser, input: string): (r: (Parser, nat))
    ensures r.1 <= |input| && |r.0.text| == |p.text| + r.1
    ensures r.1 < |input| ==> r.0.scan.Done?
    ensures input != "" && !p.scan.Done? ==> r.1 > 0
    decreases input
  {
    if input == "" || p.scan.Done? then (p, 0)
    else
      var (p', n) := WriteSome(Parser(p.text + [input[0]], Step(p.scan, input[0])), input[1..]);
      (p', n + 1)
  }

  // ------------------------------------------------------------------ the reference: byte by byte

  /** What has been recognised so far: the running parser and the finished documents. */
  datatype Receiver = Receiver(parser: Parser, docs: seq<string>)

  const EMPTY_RECEIVER := Receiver(FRESH_PARSER, [])

  function ConsumeByte(r: Receiver, c: char): Receiver {
    var p := Parser(r.parser.text + [c], Step(r.parser.scan, c));
    if p.scan.Done? then Receiver(FRESH_PARSER, r.docs + [p.text]) else Receiver(p, r.docs)
  }

  function Consume(r: Receiver, bytes: string): Receiver
    decreases bytes
  {
    if bytes == "" then r else Consume(ConsumeByte(r, bytes[0]), bytes[1..])
  }

  function Flatten<T>(parts: seq<seq<T>>): seq<T> {
    if parts == [] then [] else parts[0] + Flatten(parts[1..])
  }

  lemma {:induction false} FlattenConcat<T>(a: seq<seq<T>>, b: seq<seq<T>>)
    ensures Flatten(a + b) == Flatten(a) + Flatten(b)
  {
    if a == [] {
      assert a + b == b;
    } else {
      assert (a + b)[1..] == a[1..] + b;
      FlattenConcat(a[1..], b);
    }
  }

  lemma FlattenAppend<T>(a: seq<seq<T>>, x: seq<T>)
    ensures Flatten(a + [x]) == Flatten(a) + x
  {
    FlattenConcat(a, [x]);
    assert Flatten([x]) == x by { assert [x][1..] == []; }
  }

  lemma {:induction false} ConsumeConcat(r: Receiver, a: string, b: string)
    ensures Consume(r, a + b) == Consume(Consume(r, a), b)
    decreases a
  {
    if a == "" {
      assert a + b == b;
    } else {
      assert (a + b)[0] == a[0] && (a + b)[1..] == a[1..] + b;
      ConsumeConcat(ConsumeByte(r, a[0]), a[1..], b);
    }
  }

  /** No byte is lost or invented: finished documents and the partial one hold exactly the input. */
  lemma {:induction false} ConsumeConserves(r: Receiver, bytes: string)
    ensures var r' := Consume(r, bytes);
            Flatten(r'.docs) + r'.parser.text == Flatten(r.docs) + r.parser.text + bytes
    decreases bytes
  {
    if bytes != "" {
      var r1 := ConsumeByte(r, bytes[0]);
      FlattenAppend(r.docs, r.parser.text + [bytes[0]]);
      ConsumeConserves(r1, bytes[1..]);
      assert bytes == [bytes[0]] + bytes[1..];
    }
  }

  /** The documents already finished play no part in what follows. */
  lemma {:induction false} ConsumeKeepsPrefix(p: Parser, docs: seq<string>, bytes: string)
    ensures Consume(Receiver(p, docs), bytes)
         == var r := Consume(Receiver(p, []), bytes); Receiver(r.parser, docs + r.docs)
    decreases bytes
  {
    if bytes != "" {
      var r1 := ConsumeByte(Receiver(p, []), bytes[0]);
      assert ConsumeByte(Receiver(p, docs), bytes[0]) == Receiver(r1.parser, docs + r1.docs) by {
        assert docs + [] == docs;
      }
      ConsumeKeepsPrefix(r1.parser, docs + r1.docs, bytes[1..]);
      ConsumeKeepsPrefix(r1.parser, r1.docs, bytes[1..]);
      var rest := Consume(Receiver(r1.parser, []), bytes[1..]);
      assert docs + r1.docs + rest.docs == docs + (r1.docs + rest.docs);
    } else {
      assert docs + [] == docs;
    }
  }

  /** One library call agrees with the byte-by-byte reference on the bytes that it takes. */
  lemma {:induction false} WriteSomeRefines(p: Parser, docs: seq<string>, input: string)
    requires !p.scan.Done?
    ensures var (p', n) := WriteSome(p, input);
            Consume(Receiver(p, docs), input[..n])
            == if p'.scan.Done? then Receiver(FRESH_PARSER, docs + [p'.text]) else Receiver(p', docs)
    decreases input
  {
    if input != "" {
      var p1 := Parser(p.text + [input[0]], Step(p.scan, input[0]));
      var (p', n) := WriteSome(p1, input[1..]);
      assert input[..n + 1] == [input[0]] + input[1..][..n];
      if !p1.scan.Done? {
        WriteSomeRefines(p1, docs, input[1..]);
      } else {
        assert input[..1][1..] == "";
      }
    }
  }

  /** A parser that is between two bytes is never in the finished state: finishing resets it. */
  predicate BetweenCalls(p: Parser) {
    !p.scan.Done? && (p.text == "" <==> p.scan.Fresh?)
  }

  lemma {:induction false} ConsumeStaysBetweenCalls(r: Receiver, bytes: string)
    requires BetweenCalls(r.parser)
    ensures BetweenCalls(Consume(r, bytes).parser)
    decreases bytes
  {
    if bytes != "" {
      ConsumeStaysBetweenCalls(ConsumeByte(r, bytes[0]), bytes[1..]);
    }
  }

  /** A document is recognised exactly at its last byte. */
  lemma {:induction false} ConsumeDocument(text: string, scan: Scan, rest: string, docs: seq<string>)
    requires ScanAll(scan, rest) == Done && !scan.Done?
    ensures Consume(Receiver(Parser(text, scan), docs), rest) == Receiver(FRESH_PARSER, docs + [text + rest])
    decreases rest
  {
    var scan' := Step(scan, rest[0]);
    assert text + rest == text + [rest[0]] + rest[1..];
    if scan'.Done? {
      assert rest[1..] == "" by {
        if rest[1..] != "" {
          BrokenStaysBroken(rest[1..][1..]);
        }
      }
      assert rest == [rest[0]];
    } else {
      ConsumeDocument(text + [rest[0]], scan', rest[1..], docs);
    }
  }

  /** The reference recovers any list of documents from their concatenation. */
  lemma {:induction false} ConsumeDocuments(done: seq<string>, docs: seq<string>)
    requires forall i :: 0 <= i < |docs| ==> IsDocument(docs[i])
    ensures Consume(Receiver(FRESH_PARSER, done), Flatten(docs)) == Receiver(FRESH_PARSER, done + docs)
    decreases docs
  {
    if docs == [] {
      assert done + docs == done;
    } else {
      ConsumeDocument("", Fresh, docs[0], done);
      assert "" + docs[0] == docs[0];
      ConsumeConcat(Receiver(FRESH_PARSER, done), docs[0], Flatten(docs[1..]));
      ConsumeDocuments(done + [docs[0]], docs[1..]);
      assert done + [docs[0]] + docs[1..] == done + docs;
    }
  }

  // ------------------------------------------------------------------ dispatching

  /** The handler that a document is given to. */
  datatype Handler = AnalizePing | MqttMessage | Autorization | StaticMessage | MoveLift

  datatype Call = Call(handler: Handler, doc: string)

  /** How a finished document's "target" member reads; None when it has none. */
  type TargetOf = string -> Option<string>

  /** What a target asks for. */
  predicate AsksFor(target: Option<string>, h: Handler) {
    target == match h
              case AnalizePing => Some("ping")
              case MqttMessage => Some("mqtt_message")
              case Autorization => Some("connect")
              case StaticMessage => Some("static_message")
              case MoveLift => Some("move_lift")
  }

  /** Every call went to the handler that its document's target asks for. */
  predicate RightHandlers(targetOf: TargetOf, calls: seq<Call>) {
    forall i :: 0 <= i < |calls| ==> AsksFor(targetOf(calls[i].doc), calls[i].handler)
  }

  /** The targets that the two kinds of session know. */
  predicate IsForMqtt(target: Option<string>) {
    target == Some("ping") || target == Some("mqtt_message") || target == Some("connect")
  }

  predicate IsForMarusia(target: Option<string>) {
    || target == Some("ping") || target == Some("static_message") || target == Some("move_lift")
    || target == Some("connect")
  }

  /** The dispatch table of SessionMQTT; None where no branch takes the document off the queue. */
  function MqttHandler(target: Option<string>): Option<Handler> {
    if target == Some("ping") then Some(AnalizePing)
    else if target == Some("mqtt_message") then Some(MqttMessage)
    else if target == Some("connect") then Some(Autorization)
    else None
  }

  function MarusiaHandler(target: Option<string>): Option<Handler> {
    if target == Some("ping") then Some(AnalizePing)
    else if target == Some("static_message") then Some(StaticMessage)
    else if target == Some("move_lift") then Some(MoveLift)
    else if target == Some("connect") then Some(Autorization)
    else None
  }

  /** The one callback that a session holds: the default, which never throws, or that of the HTTPS
      request which last started a command. An answer closes that request; once it is closed the
      callback throws. */
  datatype Callback = Default | ForRequest(open: bool)

  /** One document at the front of SessionMQTT's queue: its handler and the callback afterwards. None
      when the document stays where it is: no branch takes it, or its callback throws before it is
      popped. */
  function Handle(targetOf: TargetOf, cb: Callback, doc: string): Option<(Handler, Callback)> {
    match MqttHandler(targetOf(doc))
    case None => None
    case Some(MqttMessage) =>
      if cb == ForRequest(false) then None
      else Some((MqttMessage, if cb == ForRequest(true) then ForRequest(false) else cb))
    case Some(h) => Some((h, cb))
  }

  /** Every document in turn is taken off the queue. */
  predicate Dispatchable(targetOf: TargetOf, cb: Callback, docs: seq<string>)
    decreases docs
  {
    docs == []
    || (var r := Handle(targetOf, cb, docs[0]); r.Some? && Dispatchable(targetOf, r.value.1, docs[1..]))
  }

  function CallbackAfter(targetOf: TargetOf, cb: Callback, docs: seq<string>): Callback
    requires Dispatchable(targetOf, cb, docs)
    decreases docs
  {
    if docs == [] then cb else CallbackAfter(targetOf, Handle(targetOf, cb, docs[0]).value.1, docs[1..])
  }

  predicate AllHandled(targetOf: TargetOf, docs: seq<string>) {
    forall i :: 0 <= i < |docs| ==> IsForMqtt(targetOf(docs[i]))
  }

  function Messages(targetOf: TargetOf, docs: seq<string>): nat {
    if docs == [] then 0
    else (if targetOf(docs[0]) == Some("mqtt_message") then 1 else 0) + Messages(targetOf, docs[1..])
  }

  /** How many messages the callback bears: any number for the default, one for an open request. */
  predicate Bears(cb: Callback, messages: nat) {
    match cb
    case Default => true
    case ForRequest(open) => messages <= if open then 1 else 0
  }

  /** A queue can be dispatched iff every target is handled and no message meets a callback whose
      request is already answered. */
  lemma {:induction false} DispatchableIff(targetOf: TargetOf, cb: Callback, docs: seq<string>)
    ensures Dispatchable(targetOf, cb, docs) <==> AllHandled(targetOf, docs) && Bears(cb, Messages(targetOf, docs))
    decreases docs
  {
    if docs != [] {
      var r := Handle(targetOf, cb, docs[0]);
      assert AllHandled(targetOf, docs)
        <==> IsForMqtt(targetOf(docs[0])) && AllHandled(targetOf, docs[1..]) by {
        assert docs == [docs[0]] + docs[1..];
      }
      if r.Some? {
        DispatchableIff(targetOf, r.value.1, docs[1..]);
      }
    }
  }

  lemma {:induction false} DispatchableConcat(targetOf: TargetOf, cb: Callback, a: seq<string>, b: seq<string>)
    ensures Dispatchable(targetOf, cb, a + b)
       <==> Dispatchable(targetOf, cb, a) && Dispatchable(targetOf, CallbackAfter(targetOf, cb, a), b)
    ensures Dispatchable(targetOf, cb, a + b)
        ==> CallbackAfter(targetOf, cb, a + b) == CallbackAfter(targetOf, CallbackAfter(targetOf, cb, a), b)
    decreases a
  {
    if a == [] {
      assert a + b == b;
    } else {
      assert (a + b)[0] == a[0] && (a + b)[1..] == a[1..] + b;
      var r := Handle(targetOf, cb, a[0]);
      if r.Some? {
        DispatchableConcat(targetOf, r.value.1, a[1..], b);
      }
    }
  }

  /** The calls that dispatching a whole list of handled documents makes. */
  function MqttCalls(targetOf: TargetOf, docs: seq<string>): (calls: seq<Call>)
    requires AllHandled(targetOf, docs)
  {
    seq(|docs|, i requires 0 <= i < |docs| => Call(MqttHandler(targetOf(docs[i])).value, docs[i]))
  }

  // ------------------------------------------------------------------ the dispatch loop

  /** The loop's state: what is queued, the callback, and the calls that were completed. */
  datatype Dispatch = Dispatch(queue: seq<string>, callback: Callback, calls: seq<Call>)

  function Round(targetOf: TargetOf, d: Dispatch): Dispatch {
    if d.queue == [] then d
    else match Handle(targetOf, d.callback, d.queue[0])
      case Some((h, cb)) => Dispatch(d.queue[1..], cb, d.calls + [Call(h, d.queue[0])])
      case None => d
  }

  function Rounds(targetOf: TargetOf, d: Dispatch, n: nat): Dispatch
    decreases n
  {
    if n == 0 then d else Rounds(targetOf, Round(targetOf, d), n - 1)
  }

  /** SessionMQTT's dispatch loop ends iff every queued document has a handled target and no message
      meets a callback whose request is already answered: one offending document keeps the loop
      where it is for ever. */
  lemma DispatchLoopEndsIff(targetOf: TargetOf, d: Dispatch)
    ensures (exists n: nat :: Rounds(targetOf, d, n).queue == [])
       <==> AllHandled(targetOf, d.queue) && Bears(d.callback, Messages(targetOf, d.queue))
  {
    DispatchableIff(targetOf, d.callback, d.queue);
    if Dispatchable(targetOf, d.callback, d.queue) {
      DispatchLoopEnds(targetOf, d);
      assert Rounds(targetOf, d, |d.queue|).queue == [];
    } else {
      forall n: nat ensures Rounds(targetOf, d, n).queue != [] {
        DispatchLoopHangs(targetOf, d, n);
      }
    }
  }

  lemma {:induction false} DispatchLoopEnds(targetOf: TargetOf, d: Dispatch)
    requires Dispatchable(targetOf, d.callback, d.queue)
    ensures AllHandled(targetOf, d.queue)
    ensures Rounds(targetOf, d, |d.queue|)
         == Dispatch([], CallbackAfter(targetOf, d.callback, d.queue), d.calls + MqttCalls(targetOf, d.queue))
    decreases d.queue
  {
    DispatchableIff(targetOf, d.callback, d.queue);
    if d.queue == [] {
      assert d.calls + MqttCalls(targetOf, d.queue) == d.calls;
    } else {
      var d1 := Round(targetOf, d);
      DispatchLoopEnds(targetOf, d1);
      assert d1.calls + MqttCalls(targetOf, d1.queue) == d.calls + MqttCalls(targetOf, d.queue);
    }
  }

  lemma {:induction false} DispatchLoopHangs(targetOf: TargetOf, d: Dispatch, n: nat)
    requires !Dispatchable(targetOf, d.callback, d.queue)
    ensures Rounds(targetOf, d, n).queue != []
    decreases n
  {
    if n > 0 {
      DispatchLoopHangs(targetOf, Round(targetOf, d), n - 1);
    }
  }

  /** The failing input: two messages in one receive while one request is open. The first answers the
      request; the second, although its target is handled, stays at the front for ever. */
  lemma SecondMessageHangs(targetOf: TargetOf, first: string, second: string, n: nat)
    requires targetOf(first) == Some("mqtt_message") && targetOf(second) == Some("mqtt_message")
    requires n > 0
    ensures Rounds(targetOf, Dispatch([first, second], ForRequest(true), []), n)
         == Dispatch([second], ForRequest(false), [Call(MqttMessage, first)])
  {
    var d := Dispatch([first, second], ForRequest(true), []);
    assert Round(targetOf, d) == Dispatch([second], ForRequest(false), [Call(MqttMessage, first)]);
    StuckRounds(targetOf, Round(targetOf, d), n - 1);
  }

  lemma {:induction false} StuckRounds(targetOf: TargetOf, d: Dispatch, n: nat)
    requires Round(targetOf, d) == d
    ensures Rounds(targetOf, d, n) == d
    decreases n
  {
    if n > 0 {
      StuckRounds(targetOf, d, n - 1);
    }
  }

  // ------------------------------------------------------------------ one receive, and whole runs

  /** The receive side of a session between two receives. */
  datatype Session = Session(parser: Parser, queue: seq<string>, callback: Callback, calls: seq<Call>)

  const NEW_SESSION := Session(FRESH_PARSER, [], Default, [])

  /** The parser and queue after one chunk went through the receive check. */
  function Received(s: Session, chunk: string): Receiver {
    Consume(Receiver(s.parser, s.queue), chunk)
  }

  /** What this chunk releases for dispatch, if anything, can be dispatched. */
  predicate Returns(targetOf: TargetOf, s: Session, chunk: string) {
    var r := Received(s, chunk);
    r.parser == FRESH_PARSER ==> Dispatchable(targetOf, s.callback, r.docs)
  }

  /** SessionMQTT: a chunk that ends inside a document only queues; one that ends at a document's
      end dispatches the whole queue. */
  function MqttReceive(targetOf: TargetOf, s: Session, chunk: string): Session
    requires Returns(targetOf, s, chunk)
  {
    var r := Received(s, chunk);
    if r.parser != FRESH_PARSER then s.(parser := r.parser, queue := r.docs)
    else
      DispatchableIff(targetOf, s.callback, r.docs);
      Session(r.parser, [], CallbackAfter(targetOf, s.callback, r.docs), s.calls + MqttCalls(targetOf, r.docs))
  }

  /** SessionMarusia: the same receive check, but only the front document of the queue is looked at
      and the rest of the queue is thrown away, also when the callback throws. */
  function MarusiaReceive(targetOf: TargetOf, s: Session, chunk: string): Session {
    var r := Received(s, chunk);
    if r.parser != FRESH_PARSER then s.(parser := r.parser, queue := r.docs)
    else
      var front := r.docs[..if r.docs == [] then 0 else 1];
      s.(parser := r.parser, queue := [], calls := s.calls + MarusiaCalls(targetOf, front))
  }

  /** The calls for a list of documents; one without a handler gets none. */
  function MarusiaCalls(targetOf: TargetOf, docs: seq<string>): (calls: seq<Call>)
    decreases docs
  {
    if docs == [] then []
    else
      (match MarusiaHandler(targetOf(docs[0]))
       case Some(h) => [Call(h, docs[0])]
       case None => [])
      + MarusiaCalls(targetOf, docs[1..])
  }

  /** What happens to a session: bytes arrive, or a command installs another callback. */
  datatype Input = Chunk(bytes: string) | Install(callback: Callback)

  /** A whole run of SessionMQTT; None when some chunk released a queue on which the dispatch loop
      never returns. */
  function MqttRun(targetOf: TargetOf, s: Session, inputs: seq<Input>): Option<Session>
    decreases inputs
  {
    if inputs == [] then Some(s)
    else match inputs[0]
      case Install(cb) => MqttRun(targetOf, s.(callback := cb), inputs[1..])
      case Chunk(bytes) =>
        if Returns(targetOf, s, bytes) then MqttRun(targetOf, MqttReceive(targetOf, s, bytes), inputs[1..]) else None
  }

  function BytesOf(inputs: seq<Input>): string {
    if inputs == [] then "" else (if inputs[0].Chunk? then inputs[0].bytes else "") + BytesOf(inputs[1..])
  }

  function Chunks(chunks: seq<string>): (inputs: seq<Input>)
    ensures |inputs| == |chunks|
  {
    seq(|chunks|, i requires 0 <= i < |chunks| => Chunk(chunks[i]))
  }

  function MarusiaRun(targetOf: TargetOf, s: Session, chunks: seq<string>): Session
    decreases chunks
  {
    if chunks == [] then s else MarusiaRun(targetOf, MarusiaReceive(targetOf, s, chunks[0]), chunks[1..])
  }

  /** The documents that were handed to a handler, in order. */
  function Dispatched(calls: seq<Call>): (docs: seq<string>)
    ensures |docs| == |calls|
  {
    seq(|calls|, i requires 0 <= i < |calls| => calls[i].doc)
  }

  /** The session never runs ahead of or behind the byte-by-byte reference. */
  ghost predicate Tracks(targetOf: TargetOf, s: Session, received: string) {
    && Consume(EMPTY_RECEIVER, received) == Receiver(s.parser, Dispatched(s.calls) + s.queue)
    && (s.parser == FRESH_PARSER ==> s.queue == [])
    && RightHandlers(targetOf, s.calls)
  }

  /** A chunk moves a tracking session's receive check along with the reference. */
  lemma TrackedReceive(targetOf: TargetOf, s: Session, received: string, chunk: string)
    requires Tracks(targetOf, s, received)
    ensures var r := Received(s, chunk);
            Consume(EMPTY_RECEIVER, received + chunk) == Receiver(r.parser, Dispatched(s.calls) + r.docs)
  {
    var before := Dispatched(s.calls);
    ConsumeConcat(EMPTY_RECEIVER, received, chunk);
    ConsumeKeepsPrefix(s.parser, before + s.queue, chunk);
    ConsumeKeepsPrefix(s.parser, s.queue, chunk);
    var new_ := Consume(Receiver(s.parser, []), chunk).docs;
    assert before + s.queue + new_ == before + (s.queue + new_);
  }

  lemma MqttReceiveTracks(targetOf: TargetOf, s: Session, received: string, chunk: string)
    requires Tracks(targetOf, s, received) && Returns(targetOf, s, chunk)
    ensures Tracks(targetOf, MqttReceive(targetOf, s, chunk), received + chunk)
  {
    TrackedReceive(targetOf, s, received, chunk);
    var r := Received(s, chunk);
    var s' := MqttReceive(targetOf, s, chunk);
    if r.parser == FRESH_PARSER {
      DispatchableIff(targetOf, s.callback, r.docs);
      assert Dispatched(s'.calls) == Dispatched(s.calls) + r.docs;
      assert Dispatched(s'.calls) + s'.queue == Dispatched(s.calls) + r.docs;
    }
  }

  lemma BytesStep(received: string, inputs: seq<Input>)
    requires inputs != []
    ensures received + BytesOf(inputs)
         == received + (if inputs[0].Chunk? then inputs[0].bytes else "") + BytesOf(inputs[1..])
    ensures received + "" == received
  {
    var head := if inputs[0].Chunk? then inputs[0].bytes else "";
    Associative(received, head, BytesOf(inputs[1..]));
  }

  lemma Associative(a: string, b: string, c: string)
    ensures a + (b + c) == a + b + c
  {
  }

  lemma {:induction false} MqttRunTracks(targetOf: TargetOf, s: Session, received: string, inputs: seq<Input>)
    requires Tracks(targetOf, s, received) && MqttRun(targetOf, s, inputs).Some?
    ensures Tracks(targetOf, MqttRun(targetOf, s, inputs).value, received + BytesOf(inputs))
    decreases inputs
  {
    if inputs == [] {
      assert received + BytesOf(inputs) == received;
    } else {
      BytesStep(received, inputs);
      match inputs[0]
      case Install(cb) =>
        assert Tracks(targetOf, s.(callback := cb), received);
        MqttRunTracks(targetOf, s.(callback := cb), received, inputs[1..]);
      case Chunk(bytes) =>
        MqttReceiveTracks(targetOf, s, received, bytes);
        MqttRunTracks(targetOf, MqttReceive(targetOf, s, bytes), received + bytes, inputs[1..]);
    }
  }

  /** Conservation: after every run that returns, whatever bytes came, however they were cut and
      whatever callbacks were installed in between, dispatched documents, queued documents and the
      parser's partial bytes, in that order, are exactly the bytes received. */
  lemma MqttRunConserves(targetOf: TargetOf, inputs: seq<Input>)
    requires MqttRun(targetOf, NEW_SESSION, inputs).Some?
    ensures var s := MqttRun(targetOf, NEW_SESSION, inputs).value;
            && Flatten(Dispatched(s.calls)) + Flatten(s.queue) + s.parser.text == BytesOf(inputs)
            && RightHandlers(targetOf, s.calls)
  {
    MqttRunTracks(targetOf, NEW_SESSION, "", inputs);
    var s := MqttRun(targetOf, NEW_SESSION, inputs).value;
    assert "" + BytesOf(inputs) == BytesOf(inputs);
    ConsumeConserves(EMPTY_RECEIVER, BytesOf(inputs));
    FlattenConcat(Dispatched(s.calls), s.queue);
  }

  lemma FlattenStep(received: string, chunks: seq<string>)
    requires chunks != []
    ensures received + chunks[0] + Flatten(chunks[1..]) == received + Flatten(chunks)
  {
  }

  /** What is finished after part of a stream of documents is a prefix of those documents. */
  lemma FinishedIsPrefix(bytes: string, rest: string, docs: seq<string>)
    requires forall i :: 0 <= i < |docs| ==> IsDocument(docs[i])
    requires bytes + rest == Flatten(docs)
    ensures Consume(EMPTY_RECEIVER, bytes).docs <= docs
  {
    var r := Consume(EMPTY_RECEIVER, bytes);
    ConsumeConcat(EMPTY_RECEIVER, bytes, rest);
    ConsumeKeepsPrefix(r.parser, r.docs, rest);
    ConsumeDocuments([], docs);
    assert [] + docs == docs;
  }

  /** The documents of a stream that a tracking session has not dispatched yet. */
  function Left(s: Session, docs: seq<string>): seq<string>
    requires |s.calls| <= |docs|
  {
    docs[|s.calls|..]
  }

  lemma TrackedPrefix(targetOf: TargetOf, s: Session, received: string, chunk: string, rest: string, docs: seq<string>)
    requires Tracks(targetOf, s, received)
    requires forall i :: 0 <= i < |docs| ==> IsDocument(docs[i])
    requires received + chunk + rest == Flatten(docs)
    ensures Dispatched(s.calls) + Received(s, chunk).docs <= docs
  {
    TrackedReceive(targetOf, s, received, chunk);
    FinishedIsPrefix(received + chunk, rest, docs);
  }

  lemma WholeStreamIsDispatched(targetOf: TargetOf, s: Session, docs: seq<string>)
    requires Tracks(targetOf, s, Flatten(docs))
    requires forall i :: 0 <= i < |docs| ==> IsDocument(docs[i])
    ensures s.parser == FRESH_PARSER && s.queue == [] && Dispatched(s.calls) == docs
  {
    ConsumeDocuments([], docs);
    var done := Dispatched(s.calls);
    assert s.queue == [] && done + [] == done && [] + docs == docs;
    assert done + s.queue == [] + docs;
  }

  /** What is left of a stream is what this chunk releases and what is left after it. */
  lemma LeftSplits(targetOf: TargetOf, s: Session, chunk: string, docs: seq<string>)
    requires Dispatched(s.calls) + Received(s, chunk).docs <= docs
    ensures var r := Received(s, chunk);
            var later := docs[|s.calls| + |r.docs|..];
            && Left(s, docs) == r.docs + later
            && (Dispatchable(targetOf, s.callback, Left(s, docs)) <==>
                  && Dispatchable(targetOf, s.callback, r.docs)
                  && Dispatchable(targetOf, CallbackAfter(targetOf, s.callback, r.docs), later))
            && (Dispatchable(targetOf, s.callback, Left(s, docs)) ==>
                  CallbackAfter(targetOf, s.callback, Left(s, docs))
                  == CallbackAfter(targetOf, CallbackAfter(targetOf, s.callback, r.docs), later))
  {
    var r := Received(s, chunk);
    var later := docs[|s.calls| + |r.docs|..];
    assert Left(s, docs) == r.docs + later;
    DispatchableConcat(targetOf, s.callback, r.docs, later);
  }

  /** A run over the rest of a stream returns iff what is left can be dispatched as a whole, and then
      it leaves the callback that the whole leaves. */
  lemma {:induction false} RunReturnsIff(targetOf: TargetOf, s: Session, received: string, chunks: seq<string>,
                                         docs: seq<string>)
    requires Tracks(targetOf, s, received)
    requires forall i :: 0 <= i < |docs| ==> IsDocument(docs[i])
    requires received + Flatten(chunks) == Flatten(docs)
    ensures |s.calls| <= |docs|
    ensures MqttRun(targetOf, s, Chunks(chunks)).Some? <==> Dispatchable(targetOf, s.callback, Left(s, docs))
    ensures MqttRun(targetOf, s, Chunks(chunks)).Some?
        ==> MqttRun(targetOf, s, Chunks(chunks)).value.callback == CallbackAfter(targetOf, s.callback, Left(s, docs))
    decreases chunks
  {
    if chunks == [] {
      assert received == Flatten(docs);
      WholeStreamIsDispatched(targetOf, s, docs);
      assert Left(s, docs) == [];
    } else {
      FlattenStep(received, chunks);
      TrackedPrefix(targetOf, s, received, chunks[0], Flatten(chunks[1..]), docs);
      assert Chunks(chunks)[0] == Chunk(chunks[0]) && Chunks(chunks)[1..] == Chunks(chunks[1..]);
      LeftSplits(targetOf, s, chunks[0], docs);
      if Returns(targetOf, s, chunks[0]) {
        MqttReceiveTracks(targetOf, s, received, chunks[0]);
        RunReturnsIff(targetOf, MqttReceive(targetOf, s, chunks[0]), received + chunks[0], chunks[1..], docs);
      }
    }
  }

  function SerializeAll(objects: seq<Value>): (docs: seq<string>)
    ensures |docs| == |objects|
  {
    seq(|objects|, i requires 0 <= i < |objects| => Serialize(objects[i]))
  }

  /** A session that is between two documents and has dispatched nothing yet. */
  function SessionWith(cb: Callback): Session {
    NEW_SESSION.(callback := cb)
  }

  /** Chunk independence of SessionMQTT: whether the session survives a stream of JSON objects, and
      what it does, depends on the objects alone and not on how they are cut. It survives iff every
      target is handled and no message meets a callback whose request is already answered; then every
      object is dispatched exactly once, in order, to the handler of its target, and nothing is left
      queued or half parsed. */
  lemma MqttChunkIndependence(targetOf: TargetOf, cb: Callback, objects: seq<Value>, chunks: seq<string>)
    requires forall i :: 0 <= i < |objects| ==> objects[i].Object?
    requires Flatten(chunks) == Flatten(SerializeAll(objects))
    ensures var docs := SerializeAll(objects);
            Dispatchable(targetOf, cb, docs) <==> AllHandled(targetOf, docs) && Bears(cb, Messages(targetOf, docs))
    ensures var docs := SerializeAll(objects);
            MqttRun(targetOf, SessionWith(cb), Chunks(chunks))
            == if !Dispatchable(targetOf, cb, docs) then None
               else Some(Session(FRESH_PARSER, [], CallbackAfter(targetOf, cb, docs), MqttCalls(targetOf, docs)))
  {
    var docs := SerializeAll(objects);
    var s0 := SessionWith(cb);
    forall i | 0 <= i < |docs| ensures IsDocument(docs[i]) {
      SerializedObjectIsDocument(objects[i]);
    }
    assert "" + Flatten(chunks) == Flatten(docs) && Left(s0, docs) == docs;
    RunReturnsIff(targetOf, s0, "", chunks, docs);
    DispatchableIff(targetOf, cb, docs);
    if MqttRun(targetOf, s0, Chunks(chunks)).Some? {
      MqttRunTracks(targetOf, s0, "", Chunks(chunks));
      BytesOfChunks(chunks);
      var s := MqttRun(targetOf, s0, Chunks(chunks)).value;
      WholeStreamIsDispatched(targetOf, s, docs);
      CallsAreDetermined(targetOf, s.calls, docs);
    }
  }

  lemma {:induction false} BytesOfChunks(chunks: seq<string>)
    ensures BytesOf(Chunks(chunks)) == Flatten(chunks)
    decreases chunks
  {
    if chunks != [] {
      BytesOfChunks(chunks[1..]);
      assert Chunks(chunks)[1..] == Chunks(chunks[1..]);
    }
  }

  lemma CallsAreDetermined(targetOf: TargetOf, calls: seq<Call>, docs: seq<string>)
    requires RightHandlers(targetOf, calls) && Dispatched(calls) == docs && AllHandled(targetOf, docs)
    ensures calls == MqttCalls(targetOf, docs)
  {
    forall i | 0 <= i < |docs| ensures calls[i] == MqttCalls(targetOf, docs)[i] {
      assert calls[i].doc == Dispatched(calls)[i];
    }
  }

  // ------------------------------------------------------------------ SessionMarusia's batches

  /** The queues that a run releases, one for each chunk that ends at a document's end. */
  function Batches(r: Receiver, chunks: seq<string>): seq<seq<string>>
    decreases chunks
  {
    if chunks == [] then []
    else
      var r' := Consume(r, chunks[0]);
      if r'.parser == FRESH_PARSER then [r'.docs] + Batches(EMPTY_RECEIVER, chunks[1..])
      else Batches(r', chunks[1..])
  }

  function Fronts(batches: seq<seq<string>>): (fronts: seq<string>)
    requires forall i :: 0 <= i < |batches| ==> batches[i] != []
  {
    seq(|batches|, i requires 0 <= i < |batches| => batches[i][0])
  }

  lemma {:induction false} BatchesFlatten(r: Receiver, chunks: seq<string>)
    requires BetweenCalls(r.parser) && (r.parser == FRESH_PARSER ==> r.docs == [])
    requires forall i :: 0 <= i < |chunks| ==> chunks[i] != ""
    ensures Consume(r, Flatten(chunks)).parser == FRESH_PARSER
        ==> Flatten(Batches(r, chunks)) == Consume(r, Flatten(chunks)).docs
    ensures forall i :: 0 <= i < |Batches(r, chunks)| ==> Batches(r, chunks)[i] != []
    decreases chunks
  {
    if chunks != [] {
      var r' := Consume(r, chunks[0]);
      var rest := Flatten(chunks[1..]);
      ConsumeConcat(r, chunks[0], rest);
      ConsumeStaysBetweenCalls(r, chunks[0]);
      ConsumeConserves(r, chunks[0]);
      if r'.parser == FRESH_PARSER {
        assert r'.docs != [] by {
          assert Flatten(r'.docs) + "" != [];
        }
        BatchesFlatten(EMPTY_RECEIVER, chunks[1..]);
        ConsumeKeepsPrefix(FRESH_PARSER, r'.docs, rest);
        assert Batches(r, chunks)[1..] == Batches(EMPTY_RECEIVER, chunks[1..]);
      } else {
        BatchesFlatten(r', chunks[1..]);
      }
    }
  }

  /** Whatever the dispatching, the batches that a receive check releases are, one after the other,
      exactly the objects sent, however the stream was cut; none is empty and nothing stays behind. */
  lemma BatchesAreTheObjects(objects: seq<Value>, chunks: seq<string>)
    requires forall i :: 0 <= i < |objects| ==> objects[i].Object?
    requires forall i :: 0 <= i < |chunks| ==> chunks[i] != ""
    requires Flatten(chunks) == Flatten(SerializeAll(objects))
    ensures Flatten(Batches(EMPTY_RECEIVER, chunks)) == SerializeAll(objects)
    ensures Consume(EMPTY_RECEIVER, Flatten(chunks)).parser == FRESH_PARSER
    ensures forall i :: 0 <= i < |Batches(EMPTY_RECEIVER, chunks)| ==> Batches(EMPTY_RECEIVER, chunks)[i] != []
  {
    var docs := SerializeAll(objects);
    forall i | 0 <= i < |docs| ensures IsDocument(docs[i]) {
      SerializedObjectIsDocument(objects[i]);
    }
    ConsumeDocuments([], docs);
    assert [] + docs == docs;
    BatchesFlatten(EMPTY_RECEIVER, chunks);
  }

  lemma {:induction false} MarusiaCallsConcat(targetOf: TargetOf, a: seq<string>, b: seq<string>)
    ensures MarusiaCalls(targetOf, a + b) == MarusiaCalls(targetOf, a) + MarusiaCalls(targetOf, b)
    decreases a
  {
    if a == [] {
      assert a + b == b;
    } else {
      assert (a + b)[0] == a[0] && (a + b)[1..] == a[1..] + b;
      MarusiaCallsConcat(targetOf, a[1..], b);
    }
  }

  lemma BatchesAreNotEmpty(r: Receiver, chunks: seq<string>)
    requires BetweenCalls(r.parser) && (r.parser == FRESH_PARSER ==> r.docs == [])
    requires forall i :: 0 <= i < |chunks| ==> chunks[i] != ""
    ensures forall i :: 0 <= i < |Batches(r, chunks)| ==> Batches(r, chunks)[i] != []
  {
    BatchesFlatten(r, chunks);
  }

  lemma {:induction false} CallsAreRight(targetOf: TargetOf, docs: seq<string>)
    ensures RightHandlers(targetOf, MarusiaCalls(targetOf, docs))
    decreases docs
  {
    if docs != [] {
      CallsAreRight(targetOf, docs[1..]);
    }
  }

  /** SessionMarusia gives the front document of each batch to the handler that its target asks for, if
      there is one, and no other document to any. */
  lemma {:induction false} MarusiaDispatchesFronts(targetOf: TargetOf, s: Session, chunks: seq<string>)
    requires BetweenCalls(s.parser) && (s.parser == FRESH_PARSER ==> s.queue == [])
    requires forall i :: 0 <= i < |chunks| ==> chunks[i] != ""
    ensures var batches := Batches(Receiver(s.parser, s.queue), chunks);
            forall i :: 0 <= i < |batches| ==> batches[i] != []
    ensures var fronts := Fronts(Batches(Receiver(s.parser, s.queue), chunks));
            && MarusiaRun(targetOf, s, chunks).calls == s.calls + MarusiaCalls(targetOf, fronts)
            && RightHandlers(targetOf, MarusiaCalls(targetOf, fronts))
    decreases chunks
  {
    BatchesAreNotEmpty(Receiver(s.parser, s.queue), chunks);
    CallsAreRight(targetOf, Fronts(Batches(Receiver(s.parser, s.queue), chunks)));
    if chunks == [] {
      assert s.calls + [] == s.calls;
    } else {
      var s' := MarusiaReceive(targetOf, s, chunks[0]);
      ConsumeStaysBetweenCalls(Receiver(s.parser, s.queue), chunks[0]);
      MarusiaDispatchesFronts(targetOf, s', chunks[1..]);
      MarusiaStep(targetOf, s, chunks);
    }
  }

  /** One chunk moves a front from those to come to the calls, or none. */
  lemma MarusiaStep(targetOf: TargetOf, s: Session, chunks: seq<string>)
    requires chunks != []
    requires var batches := Batches(Receiver(s.parser, s.queue), chunks);
             forall i :: 0 <= i < |batches| ==> batches[i] != []
    ensures var s' := MarusiaReceive(targetOf, s, chunks[0]);
            var later := Batches(Receiver(s'.parser, s'.queue), chunks[1..]);
            && (forall i :: 0 <= i < |later| ==> later[i] != [])
            && s'.calls + MarusiaCalls(targetOf, Fronts(later))
               == s.calls + MarusiaCalls(targetOf, Fronts(Batches(Receiver(s.parser, s.queue), chunks)))
  {
    var received := Received(s, chunks[0]);
    if received.parser == FRESH_PARSER {
      var later := Batches(EMPTY_RECEIVER, chunks[1..]);
      assert Batches(Receiver(s.parser, s.queue), chunks) == [received.docs] + later;
      FrontIsDispatched(targetOf, received.docs, later);
      assert s.calls + MarusiaCalls(targetOf, received.docs[..1]) + MarusiaCalls(targetOf, Fronts(later))
          == s.calls + (MarusiaCalls(targetOf, received.docs[..1]) + MarusiaCalls(targetOf, Fronts(later)));
    }
  }

  lemma FrontIsDispatched(targetOf: TargetOf, first: seq<string>, later: seq<seq<string>>)
    requires forall i :: 0 <= i < |[first] + later| ==> ([first] + later)[i] != []
    ensures first != [] && forall i :: 0 <= i < |later| ==> later[i] != []
    ensures MarusiaCalls(targetOf, Fronts([first] + later))
         == MarusiaCalls(targetOf, first[..1]) + MarusiaCalls(targetOf, Fronts(later))
  {
    assert ([first] + later)[0] == first;
    assert forall i :: 0 <= i < |later| ==> later[i] == ([first] + later)[i + 1];
    assert Fronts([first] + later) == first[..1] + Fronts(later);
    MarusiaCallsConcat(targetOf, first[..1], Fronts(later));
  }

  predicate NoneHasHandler(targetOf: TargetOf, docs: seq<string>) {
    forall i :: 0 <= i < |docs| ==> !IsForMarusia(targetOf(docs[i]))
  }

  /** In no batch does a document behind the first have a handler. */
  predicate NothingIsLost(targetOf: TargetOf, batches: seq<seq<string>>)
    requires forall i :: 0 <= i < |batches| ==> batches[i] != []
  {
    forall i :: 0 <= i < |batches| ==> NoneHasHandler(targetOf, batches[i][1..])
  }

  /** SessionMarusia makes all the calls that a stream of objects asks for iff in each batch only the
      first document has a handler; whatever else a batch holds is thrown away. */
  lemma MarusiaDispatchesAllIff(targetOf: TargetOf, objects: seq<Value>, chunks: seq<string>)
    requires forall i :: 0 <= i < |objects| ==> objects[i].Object?
    requires forall i :: 0 <= i < |chunks| ==> chunks[i] != ""
    requires Flatten(chunks) == Flatten(SerializeAll(objects))
    ensures forall i :: 0 <= i < |Batches(EMPTY_RECEIVER, chunks)| ==> Batches(EMPTY_RECEIVER, chunks)[i] != []
    ensures MarusiaRun(targetOf, NEW_SESSION, chunks).calls == MarusiaCalls(targetOf, SerializeAll(objects))
       <==> NothingIsLost(targetOf, Batches(EMPTY_RECEIVER, chunks))
  {
    BatchesAreTheObjects(objects, chunks);
    MarusiaDispatchesFronts(targetOf, NEW_SESSION, chunks);
    FrontsAreAllIff(targetOf, Batches(EMPTY_RECEIVER, chunks));
  }

  /** The failing input: an answer behind a ping answer in one receive never reaches a handler. */
  lemma AnswerBehindPingIsDropped(targetOf: TargetOf, ping: Value, answer: Value)
    requires ping.Object? && answer.Object? && targetOf(Serialize(ping)) == Some("ping")
    ensures MarusiaReceive(targetOf, NEW_SESSION, Serialize(ping) + Serialize(answer))
         == NEW_SESSION.(calls := [Call(AnalizePing, Serialize(ping))])
  {
    var first, second := Serialize(ping), Serialize(answer);
    SerializedObjectIsDocument(ping);
    SerializedObjectIsDocument(answer);
    TwoDocuments(first, second);
    assert [first, second][..1] == [first] && [first][1..] == [];
    assert MarusiaCalls(targetOf, [first]) == [Call(AnalizePing, first)] + MarusiaCalls(targetOf, []);
  }

  lemma TwoDocuments(first: string, second: string)
    requires IsDocument(first) && IsDocument(second)
    ensures Consume(EMPTY_RECEIVER, first + second) == Receiver(FRESH_PARSER, [first, second])
  {
    ConsumeConcat(EMPTY_RECEIVER, first, second);
    ConsumeDocument("", Fresh, first, []);
    ConsumeDocument("", Fresh, second, [first]);
    assert "" + first == first && "" + second == second;
    assert [] + [first] == [first] && [first] + [second] == [first, second];
  }

  lemma {:induction false} NoCallsIff(targetOf: TargetOf, docs: seq<string>)
    ensures MarusiaCalls(targetOf, docs) == [] <==> NoneHasHandler(targetOf, docs)
    decreases docs
  {
    if docs != [] {
      NoCallsIff(targetOf, docs[1..]);
      assert docs == [docs[0]] + docs[1..];
    }
  }

  lemma {:induction false} FrontsAreAllIff(targetOf: TargetOf, batches: seq<seq<string>>)
    requires forall i :: 0 <= i < |batches| ==> batches[i] != []
    ensures |MarusiaCalls(targetOf, Fronts(batches))| <= |MarusiaCalls(targetOf, Flatten(batches))|
    ensures |MarusiaCalls(targetOf, Fronts(batches))| == |MarusiaCalls(targetOf, Flatten(batches))|
        ==> NothingIsLost(targetOf, batches)
    ensures NothingIsLost(targetOf, batches)
        ==> MarusiaCalls(targetOf, Fronts(batches)) == MarusiaCalls(targetOf, Flatten(batches))
    decreases batches
  {
    if batches != [] {
      var front, behind, later := [batches[0][0]], batches[0][1..], batches[1..];
      FrontsAreAllIff(targetOf, later);
      NoCallsIff(targetOf, behind);
      assert batches[0] == front + behind && Fronts(batches) == front + Fronts(later);
      MarusiaCallsConcat(targetOf, front, behind);
      MarusiaCallsConcat(targetOf, front, Fronts(later));
      MarusiaCallsConcat(targetOf, batches[0], Flatten(later));
      assert batches == [batches[0]] + later;
      assert NothingIsLost(targetOf, batches) <==> NoneHasHandler(targetOf, behind) && NothingIsLost(targetOf, later);
    }
  }

  // ------------------------------------------------------------------ the real buffer and offset loop

  /** The C string at the start of a text: everything before the first NUL. */
  function CString(s: string): string
    decreases s
  {
    if s == "" || s[0] == '\0' then "" else [s[0]] + CString(s[1..])
  }

  lemma {:induction false} CStringOfTerminated(s: string, n: nat)
    requires n < |s| && NulFree(s[..n]) && s[n] == '\0'
    ensures CString(s) == s[..n]
    decreases n
  {
    if n > 0 {
      assert s[0] == s[..n][0] && s[..n][1..] == s[1..][..n - 1];
      CStringOfTerminated(s[1..], n - 1);
      assert s[..n] == [s[0]] + s[..n][1..];
    }
  }

  lemma SliceJoin<T>(s: seq<T>, i: nat, n: nat)
    requires i + n <= |s|
    ensures s[..i] + s[i..][..n] == s[..i + n]
  {
  }

  /** The receive side of `worker_server::Session`; MSWorker's receive check is an identical copy. */
  class ReceiveSession {
    const buf: array<char>
    var parser: Parser
    var queue: seq<string>
    var callback: Callback
    var calls: seq<Call>
    const targetOf: TargetOf

    constructor (targetOf: TargetOf)
      ensures Valid() && fresh(buf) && this.targetOf == targetOf
      ensures Idle() && Model() == NEW_SESSION
    {
      this.targetOf := targetOf;
      buf := new char[BUF_SIZE + 1](_ => '\0');
      parser := FRESH_PARSER;
      queue := [];
      callback := Default;
      calls := [];
    }

    ghost predicate Valid()
      reads this
    {
      buf.Length == BUF_SIZE + 1 && BetweenCalls(parser)
    }

    /** Between two receives the whole buffer, except the terminator slot, is zero. */
    ghost predicate Idle()
      requires Valid()
      reads this, buf
    {
      forall i :: 0 <= i < BUF_SIZE ==> buf[i] == '\0'
    }

    /** A receive of `n` bytes has just been written at the start of the zeroed buffer. */
    ghost predicate Holds(n: nat)
      requires Valid()
      reads this, buf
    {
      n < BUF_SIZE && NulFree(buf[..n]) && forall i :: n <= i < BUF_SIZE ==> buf[i] == '\0'
    }

    function Model(): Session
      reads this
    {
      Session(parser, queue, callback, calls)
    }

    /** The operating system's part of a receive. */
    method Deliver(bytes: string)
      requires Valid() && Idle() && |bytes| < BUF_SIZE && NulFree(bytes)
      modifies buf
      ensures Valid() && Holds(|bytes|) && buf[..|bytes|] == bytes
    {
      forall i | 0 <= i < |bytes| {
        buf[i] := bytes[i];
      }
    }

    /** Zeroes the buffer, all but its terminator slot. */
    method ClearBuffer()
      requires Valid()
      modifies buf
      ensures Valid() && Idle()
    {
      forall i | 0 <= i < BUF_SIZE {
        buf[i] := '\0';
      }
    }

    /** The offset-advancing receive loop. `ok` is the SUCCESS status; on failure another receive
        is started by the code, and what was queued so far stays queued. */
    method ReceiveCheck(count: nat) returns (ok: bool)
      requires Valid() && 0 < count && Holds(count)
      modifies this`parser, this`queue, buf
      ensures Valid() && Idle()
      ensures Receiver(parser, queue) == old(Received(Model(), buf[..count]))
      ensures ok <==> parser == FRESH_PARSER
    {
      var written := 0;
      ghost var bytes := buf[..count];
      ghost var start := Receiver(parser, queue);
      while written < count
        invariant 0 <= written <= count && Valid() && buf[..] == old(buf[..])
        invariant bytes == buf[..count]
        invariant Receiver(parser, queue) == Consume(start, bytes[..written])
        invariant written > 0 ==> parser == FRESH_PARSER
        decreases count - written
      {
        ghost var rest := bytes[written..];
        assert CString(buf[written..BUF_SIZE]) == rest by {
          assert buf[written..BUF_SIZE][..count - written] == rest;
          CStringOfTerminated(buf[written..BUF_SIZE], count - written);
        }
        var (p, n) := WriteSome(parser, CString(buf[written..BUF_SIZE]));
        WriteSomeRefines(parser, queue, rest);
        assert n <= |rest|;
        SliceJoin(bytes, written, n);
        ConsumeConcat(start, bytes[..written], rest[..n]);
        parser := p;
        if !parser.scan.Done? {
          assert bytes[..count] == bytes;
          ConsumeStaysBetweenCalls(start, bytes);
          ClearBuffer();
          return false;
        }
        queue := queue + [parser.text];
        parser := FRESH_PARSER;
        written := written + n;
      }
      assert bytes[..count] == bytes;
      ClearBuffer();
      return true;
    }

    /** The part of `startCommand` that this side sees: the one callback slot is overwritten. */
    method InstallCallback(cb: Callback)
      modifies this`callback
      ensures callback == cb
    {
      callback := cb;
    }

    /** `__mqttMessage`: the document is popped only once the callback has returned. */
    method MqttMessageCommand()
      requires queue != [] && callback != ForRequest(false)
      modifies this`queue, this`callback, this`calls
      ensures queue == old(queue)[1..] && calls == old(calls) + [Call(MqttMessage, old(queue)[0])]
      ensures callback == if old(callback).ForRequest? then ForRequest(false) else old(callback)
    {
      if callback.ForRequest? {
        callback := ForRequest(false);
      }
      calls := calls + [Call(MqttMessage, queue[0])];
      queue := queue[1..];
    }

    /** One document at the front that can be dispatched. */
    method DispatchFront()
      requires queue != [] && Handle(targetOf, callback, queue[0]).Some?
      modifies this`queue, this`callback, this`calls
      ensures queue == old(queue)[1..]
      ensures MqttHandler(targetOf(old(queue)[0])).Some?
      ensures calls == old(calls) + [Call(MqttHandler(targetOf(old(queue)[0])).value, old(queue)[0])]
      ensures callback == Handle(targetOf, old(callback), old(queue)[0]).value.1
    {
      var front := queue[0];
      var target := targetOf(front);
      if target == Some("ping") {
        calls := calls + [Call(AnalizePing, front)];
        queue := queue[1..];
      } else if target == Some("mqtt_message") {
        MqttMessageCommand();
      } else if target == Some("connect") {
        calls := calls + [Call(Autorization, front)];
        queue := queue[1..];
      }
    }

    /** SessionMQTT's dispatch loop, on the queues on which DispatchLoopEndsIff says that it ends. */
    method CommandAnalize()
      requires AllHandled(targetOf, queue) && Bears(callback, Messages(targetOf, queue))
      modifies this`queue, this`callback, this`calls
      ensures queue == []
      ensures calls == old(calls) + MqttCalls(targetOf, old(queue))
      ensures Dispatchable(targetOf, old(callback), old(queue))
      ensures callback == CallbackAfter(targetOf, old(callback), old(queue))
    {
      ghost var all, cb := queue, callback;
      DispatchableIff(targetOf, callback, queue);
      ghost var k := 0;
      while |queue| > 0
        invariant 0 <= k <= |all| && queue == all[k..]
        invariant calls == old(calls) + MqttCalls(targetOf, all)[..k]
        invariant Dispatchable(targetOf, callback, queue)
        invariant CallbackAfter(targetOf, callback, queue) == CallbackAfter(targetOf, cb, all)
        decreases |queue|
      {
        assert queue[0] == all[k] && queue[1..] == all[k + 1..];
        assert MqttCalls(targetOf, all)[..k + 1] == MqttCalls(targetOf, all)[..k] + [MqttCalls(targetOf, all)[k]];
        DispatchFront();
        k := k + 1;
      }
    }

    /** SessionMarusia's dispatch: one look at the front document, then the queue is emptied. */
    method MarusiaCommandAnalize()
      requires queue != []
      modifies this`queue, this`calls
      ensures queue == []
      ensures calls == old(calls) + MarusiaCalls(targetOf, old(queue)[..1])
    {
      var front := queue[0];
      var target := targetOf(front);
      if target == Some("ping") {
        calls := calls + [Call(AnalizePing, front)];
      } else if target == Some("static_message") {
        calls := calls + [Call(StaticMessage, front)];
      } else if target == Some("move_lift") {
        calls := calls + [Call(MoveLift, front)];
      } else if target == Some("connect") {
        calls := calls + [Call(Autorization, front)];
      }
      assert queue[..1] == [front] && MarusiaCalls(targetOf, [front][1..]) == [];
      queue := [];
    }

    /** The receive completion handler of SessionMQTT. */
    method ReceiveCommand(count: nat)
      requires Valid() && 0 < count && Holds(count)
      requires Returns(targetOf, Model(), buf[..count])
      modifies this`parser, this`queue, this`callback, this`calls, buf
      ensures Valid() && Idle()
      ensures Model() == old(MqttReceive(targetOf, Model(), buf[..count]))
    {
      var ok := ReceiveCheck(count);
      if !ok {
        return;
      }
      DispatchableIff(targetOf, callback, queue);
      CommandAnalize();
      queue := [];
    }

    /** The receive completion handler of SessionMarusia. */
    method MarusiaReceiveCommand(count: nat)
      requires Valid() && 0 < count && Holds(count)
      requires parser == FRESH_PARSER ==> queue == []
      modifies this`parser, this`queue, this`calls, buf
      ensures Valid() && Idle()
      ensures Model() == old(MarusiaReceive(targetOf, Model(), buf[..count]))
    {
      ConsumeConserves(Receiver(parser, queue), buf[..count]);
      var ok := ReceiveCheck(count);
      if !ok {
        return;
      }
      MarusiaCommandAnalize();
      queue := [];
    }
  }

  lemma {:induction false} FlattenNulFree(parts: seq<string>)
    ensures NulFree(Flatten(parts)) <==> forall i :: 0 <= i < |parts| ==> NulFree(parts[i])
  {
    if parts != [] {
      FlattenNulFree(parts[1..]);
      if forall i :: 0 <= i < |parts| ==> NulFree(parts[i]) {
        forall i | 0 <= i < |parts[1..]| ensures NulFree(parts[1..][i]) {
          assert parts[1..][i] == parts[i + 1];
        }
        assert NulFree(parts[0]);
      } else {
        var i :| 0 <= i < |parts| && !NulFree(parts[i]);
        assert i > 0 ==> parts[1..][i - 1] == parts[i];
      }
    }
  }

  /** The class driven over a whole stream of objects, cut into any receives of 1 to 2047 bytes, with
      any callback installed that bears the messages among them. */
  method ReceiveObjects(session: ReceiveSession, cb: Callback, ghost objects: seq<Value>, chunks: seq<string>)
    requires session.Valid() && session.Idle() && session.Model() == NEW_SESSION
    requires forall i :: 0 <= i < |objects| ==> objects[i].Object?
    requires var docs := SerializeAll(objects);
             AllHandled(session.targetOf, docs) && Bears(cb, Messages(session.targetOf, docs))
    requires forall i :: 0 <= i < |chunks| ==> 0 < |chunks[i]| < BUF_SIZE
    requires Flatten(chunks) == Flatten(SerializeAll(objects))
    modifies session, session.buf
    ensures session.Valid() && session.Idle()
    ensures session.calls == MqttCalls(session.targetOf, SerializeAll(objects))
    ensures session.queue == [] && session.parser == FRESH_PARSER
    ensures Dispatchable(session.targetOf, cb, SerializeAll(objects))
    ensures session.callback == CallbackAfter(session.targetOf, cb, SerializeAll(objects))
  {
    MqttChunkIndependence(session.targetOf, cb, objects, chunks);
    forall i | 0 <= i < |objects| ensures NulFree(SerializeAll(objects)[i]) {
      SerializedHasNoNul(objects[i]);
    }
    FlattenNulFree(SerializeAll(objects));
    FlattenNulFree(chunks);
    ghost var goal := MqttRun(session.targetOf, SessionWith(cb), Chunks(chunks));
    session.InstallCallback(cb);
    for i := 0 to |chunks|
      invariant session.Valid() && session.Idle()
      invariant MqttRun(session.targetOf, session.Model(), Chunks(chunks[i..])) == goal
    {
      assert chunks[i..][0] == chunks[i] && Chunks(chunks[i..])[1..] == Chunks(chunks[i + 1..]);
      session.Deliver(chunks[i]);
      session.ReceiveCommand(|chunks[i]|);
    }
  }
}
