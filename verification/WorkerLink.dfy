/** The MQTT worker's connection to the main server over time: batches of commands that arrive while
    replies are still going out, over one send buffer. */
module WorkerLink {
  import opened Common
  import opened Broker
  import opened LiftWorker
  import Framing
  import Json
  import PartialSend

  /** Where the worker gets when it handles documents one by one and sends each reply whole. */
  function Ideal(descriptors: map<string, string>, worker: string, sessions: seq<BrokerSession>,
                 docs: seq<Doc>): (seq<BrokerSession>, string)
    requires QuotedValues(descriptors)
  {
    var w := OneByOne(descriptors, [], sessions, docs);
    (w.sessions, Framing.Flatten(ReplyTexts(worker, w.sent)))
  }

  // ------------------------------------------------------------------ receives and sends in between

  /** The worker's end of its connection: the sends, how many receives are outstanding, and the lifts. */
  datatype Link = Link(sends: PartialSend.Overlap, armed: nat, sessions: seq<BrokerSession>)

  /** Once the connect request is out one receive is outstanding. */
  function Connected(sessions: seq<BrokerSession>): Link {
    Link(PartialSend.IDLE, 1, sessions)
  }

  /** A receive releases a batch, or a send completes. A receive that ends inside a document is started
      again at once and changes nothing here. */
  datatype LinkEvent = Batch(docs: seq<Doc>) | Sent(c: PartialSend.Completion)

  predicate CanHappen(descriptors: map<string, string>, l: Link, e: LinkEvent) {
    match e
    case Batch(docs) => l.armed > 0 && l.sends.Running? && Returns(descriptors, docs)
    case Sent(c) => PartialSend.CanFinish(l.sends, c)
  }

  function AfterLoop(descriptors: map<string, string>, sessions: seq<BrokerSession>, docs: seq<Doc>): Worker
    requires QuotedValues(descriptors)
  {
    Rounds(descriptors, Worker(docs, [], sessions), |docs| + 1).0
  }

  /** A batch uses up one receive; a connect answer starts another, and so does a finished send. */
  function LinkStep(descriptors: map<string, string>, worker: string, l: Link, e: LinkEvent): Link
    requires QuotedValues(descriptors) && CanHappen(descriptors, l, e)
  {
    match e
    case Batch(docs) =>
      var w := AfterLoop(descriptors, l.sessions, docs);
      Link(PartialSend.HandOverAll(l.sends, ReplyTexts(worker, w.sent)),
           l.armed - 1 + ConnectAnswers(HandledPart(docs)), w.sessions)
    case Sent(c) =>
      l.(sends := PartialSend.Finish(l.sends, c),
         armed := l.armed + if l.sends.counter + c.k == |l.sends.buf| then 1 else 0)
  }

  predicate IsLinkRun(descriptors: map<string, string>, worker: string, l: Link, events: seq<LinkEvent>)
    requires QuotedValues(descriptors)
    decreases events
  {
    events == []
    || (CanHappen(descriptors, l, events[0])
        && IsLinkRun(descriptors, worker, LinkStep(descriptors, worker, l, events[0]), events[1..]))
  }

  function LinkRun(descriptors: map<string, string>, worker: string, l: Link, events: seq<LinkEvent>): Link
    requires QuotedValues(descriptors) && IsLinkRun(descriptors, worker, l, events)
    decreases events
  {
    if events == [] then l
    else LinkRun(descriptors, worker, LinkStep(descriptors, worker, l, events[0]), events[1..])
  }

  function BatchesOf(events: seq<LinkEvent>): seq<seq<Doc>> {
    if events == [] then []
    else (if events[0].Batch? then [events[0].docs] else []) + BatchesOf(events[1..])
  }

  lemma BatchesStep(events: seq<LinkEvent>)
    requires events != []
    ensures events[0].Sent? ==> BatchesOf(events) == BatchesOf(events[1..])
    ensures events[0].Batch? ==>
              && BatchesOf(events) != []
              && BatchesOf(events)[0] == events[0].docs && BatchesOf(events)[1..] == BatchesOf(events[1..])
  {
  }

  /** The documents that the dispatch loops handle, batch after batch. */
  function AllParts(batches: seq<seq<Doc>>): seq<Doc> {
    if batches == [] then [] else HandledPart(batches[0]) + AllParts(batches[1..])
  }

  /** No reply is handed over while another one is outstanding. */
  predicate Uncrossed(descriptors: map<string, string>, worker: string, l: Link, events: seq<LinkEvent>)
    requires QuotedValues(descriptors) && IsLinkRun(descriptors, worker, l, events)
    decreases events
  {
    events == []
    || ((events[0].Batch? ==> Fits(l, events[0].docs))
        && Uncrossed(descriptors, worker, LinkStep(descriptors, worker, l, events[0]), events[1..]))
  }

  /** This batch's replies meet none that is outstanding, and not each other. */
  predicate Fits(l: Link, docs: seq<Doc>)
    requires l.sends.Running?
  {
    var n := Replying(HandledPart(docs));
    n == 0 || (n == 1 && l.sends.outstanding == [])
  }

  /** The run as the send buffer sees it. */
  function SendsOf(descriptors: map<string, string>, worker: string, sessions: seq<BrokerSession>,
                   events: seq<LinkEvent>): seq<PartialSend.SendEvent>
    requires QuotedValues(descriptors)
    decreases events
  {
    if events == [] then []
    else match events[0]
      case Sent(c) => [PartialSend.Completes(c)] + SendsOf(descriptors, worker, sessions, events[1..])
      case Batch(docs) =>
        var w := AfterLoop(descriptors, sessions, docs);
        PartialSend.HandsAll(ReplyTexts(worker, w.sent)) + SendsOf(descriptors, worker, w.sessions, events[1..])
  }

  /** One batch through the loop: one reply for each replied-to document, and the lifts as one by one. */
  lemma AfterLoopIs(descriptors: map<string, string>, sessions: seq<BrokerSession>, docs: seq<Doc>)
    requires QuotedValues(descriptors) && Returns(descriptors, docs)
    ensures var w := AfterLoop(descriptors, sessions, docs);
            var ideal := OneByOne(descriptors, [], sessions, HandledPart(docs));
            w.sent == ideal.sent && w.sessions == ideal.sessions && |w.sent| == Replying(HandledPart(docs))
  {
    LoopIsOneByOne(descriptors, Worker(docs, [], sessions));
    HandledPartIsHandled(descriptors, docs);
    OneReplyEach(descriptors, [], sessions, HandledPart(docs));
  }

  lemma BatchProjects(descriptors: map<string, string>, worker: string, l: Link, docs: seq<Doc>,
                      rest: seq<PartialSend.SendEvent>)
    requires QuotedValues(descriptors) && CanHappen(descriptors, l, Batch(docs))
    ensures var l1 := LinkStep(descriptors, worker, l, Batch(docs));
            var hands := PartialSend.HandsAll(ReplyTexts(worker, AfterLoop(descriptors, l.sessions, docs).sent));
            && (PartialSend.IsSendRun(l.sends, hands + rest) <==> PartialSend.IsSendRun(l1.sends, rest))
            && (PartialSend.IsSendRun(l1.sends, rest) ==>
                 && PartialSend.SendRun(l.sends, hands + rest) == PartialSend.SendRun(l1.sends, rest)
                 && (PartialSend.FindsIdle(l.sends, hands + rest)
                     <==> Fits(l, docs) && PartialSend.FindsIdle(l1.sends, rest)))
  {
    AfterLoopIs(descriptors, l.sessions, docs);
    PartialSend.HandsAllRun(l.sends, ReplyTexts(worker, AfterLoop(descriptors, l.sessions, docs).sent), rest);
  }

  lemma {:induction false} LinkProjects(descriptors: map<string, string>, worker: string, l: Link,
                                        events: seq<LinkEvent>)
    requires QuotedValues(descriptors) && IsLinkRun(descriptors, worker, l, events)
    ensures var sends := SendsOf(descriptors, worker, l.sessions, events);
            && PartialSend.IsSendRun(l.sends, sends)
            && PartialSend.SendRun(l.sends, sends) == LinkRun(descriptors, worker, l, events).sends
            && (PartialSend.FindsIdle(l.sends, sends) <==> Uncrossed(descriptors, worker, l, events))
    decreases events
  {
    if events != [] {
      var l1 := LinkStep(descriptors, worker, l, events[0]);
      LinkProjects(descriptors, worker, l1, events[1..]);
      var rest := SendsOf(descriptors, worker, l1.sessions, events[1..]);
      match events[0]
      case Batch(docs) => BatchProjects(descriptors, worker, l, docs, rest);
      case Sent(c) =>
        var sends := [PartialSend.Completes(c)] + rest;
        assert sends[0] == PartialSend.Completes(c) && sends[1..] == rest;
    }
  }

  /** The lifts, and the replies handed over, are those of handling the documents one by one. */
  lemma {:induction false} LinkIsOneByOne(descriptors: map<string, string>, worker: string, l: Link,
                                          events: seq<LinkEvent>)
    requires QuotedValues(descriptors) && IsLinkRun(descriptors, worker, l, events)
    ensures var w := OneByOne(descriptors, [], l.sessions, AllParts(BatchesOf(events)));
            && LinkRun(descriptors, worker, l, events).sessions == w.sessions
            && PartialSend.Handed(SendsOf(descriptors, worker, l.sessions, events)) == ReplyTexts(worker, w.sent)
    decreases events
  {
    if events != [] {
      var l1 := LinkStep(descriptors, worker, l, events[0]);
      LinkIsOneByOne(descriptors, worker, l1, events[1..]);
      var rest := SendsOf(descriptors, worker, l1.sessions, events[1..]);
      BatchesStep(events);
      match events[0]
      case Sent(c) =>
        var sends := [PartialSend.Completes(c)] + rest;
        assert sends[0] == PartialSend.Completes(c) && sends[1..] == rest;
      case Batch(docs) =>
        var later := AllParts(BatchesOf(events[1..]));
        AfterLoopIs(descriptors, l.sessions, docs);
        var texts := ReplyTexts(worker, AfterLoop(descriptors, l.sessions, docs).sent);
        PartialSend.HandedAll(texts, rest);
        OneByOneParts(descriptors, worker, l.sessions, HandledPart(docs), later);
    }
  }

  lemma OneByOneParts(descriptors: map<string, string>, worker: string, sessions: seq<BrokerSession>,
                      a: seq<Doc>, b: seq<Doc>)
    requires QuotedValues(descriptors)
    ensures var first := OneByOne(descriptors, [], sessions, a);
            var rest := OneByOne(descriptors, [], first.sessions, b);
            var both := OneByOne(descriptors, [], sessions, a + b);
            && both.sessions == rest.sessions && both.sent == first.sent + rest.sent
            && ReplyTexts(worker, both.sent) == ReplyTexts(worker, first.sent) + ReplyTexts(worker, rest.sent)
  {
    var first := OneByOne(descriptors, [], sessions, a);
    OneByOneConcat(descriptors, [], sessions, a, b);
    SentBefore(descriptors, first.sent, first.sessions, b);
  }

  /** Over any interleaving of batches and send completions that ends: the commands reach the lifts as if
      handled one by one, and the main server gets every reply whole and in order, iff no reply is handed
      over while another one is outstanding. Otherwise the replies overrun the send buffer. */
  lemma WorkerRunIsIdealIff(descriptors: map<string, string>, worker: string, sessions: seq<BrokerSession>,
                            events: seq<LinkEvent>)
    requires QuotedValues(descriptors) && IsLinkRun(descriptors, worker, Connected(sessions), events)
    requires PartialSend.Ended(LinkRun(descriptors, worker, Connected(sessions), events).sends)
    ensures var l := LinkRun(descriptors, worker, Connected(sessions), events);
            var (lifts, wire) := Ideal(descriptors, worker, sessions, AllParts(BatchesOf(events)));
            if Uncrossed(descriptors, worker, Connected(sessions), events)
            then l.sends == PartialSend.IDLE.(wire := wire) && l.sessions == lifts
            else l.sends.Overran?
  {
    LinkProjects(descriptors, worker, Connected(sessions), events);
    LinkIsOneByOne(descriptors, worker, Connected(sessions), events);
    PartialSend.SendsAreIntactIff(SendsOf(descriptors, worker, sessions, events));
  }

  // ------------------------------------------------------------------ how much stays outstanding

  /** How many receives and sends a batch starts. */
  function Starts(docs: seq<Doc>): nat {
    Replying(HandledPart(docs)) + ConnectAnswers(HandledPart(docs))
  }

  /** What is outstanding after these batches, receives and sends together, if `n` was before: each batch
      uses up one receive. */
  function OutstandingAfter(n: int, batches: seq<seq<Doc>>): int
    decreases batches
  {
    if batches == [] then n else OutstandingAfter(n - 1 + Starts(batches[0]), batches[1..])
  }

  predicate IsClean(l: Link) {
    l.sends.Running? && PartialSend.Clean(l.sends, PartialSend.AllOf(l.sends))
  }

  /** Receives and sends outstanding. */
  function Outstanding(l: Link): nat
    requires l.sends.Running?
  {
    l.armed + |l.sends.outstanding|
  }

  lemma StepStaysClean(descriptors: map<string, string>, worker: string, l: Link, e: LinkEvent)
    requires QuotedValues(descriptors) && CanHappen(descriptors, l, e) && IsClean(l)
    requires e.Batch? ==> Fits(l, e.docs)
    ensures var l1 := LinkStep(descriptors, worker, l, e);
            && IsClean(l1)
            && Outstanding(l1) == Outstanding(l) + (if e.Batch? then Starts(e.docs) - 1 else 0)
            && |l1.sends.outstanding| <= 1
            && (e.Batch? && Replying(HandledPart(e.docs)) == 0 ==> |l1.sends.outstanding| == |l.sends.outstanding|)
  {
    match e
    case Sent(c) => SendStaysClean(descriptors, worker, l, c);
    case Batch(docs) => BatchStaysClean(descriptors, worker, l, docs);
  }

  lemma SendStaysClean(descriptors: map<string, string>, worker: string, l: Link, c: PartialSend.Completion)
    requires QuotedValues(descriptors) && CanHappen(descriptors, l, Sent(c)) && IsClean(l)
    ensures var l1 := LinkStep(descriptors, worker, l, Sent(c));
            && IsClean(l1) && Outstanding(l1) == Outstanding(l) && |l1.sends.outstanding| <= 1
            && (|l1.sends.outstanding| == 1 ==> |l.sends.outstanding| == 1 && l1.armed == l.armed)
  {
    var all := PartialSend.AllOf(l.sends);
    PartialSend.FinishStaysClean(l.sends, c, all);
    PartialSend.CleanMeansAllOf(PartialSend.Finish(l.sends, c), all);
  }

  lemma BatchStaysClean(descriptors: map<string, string>, worker: string, l: Link, docs: seq<Doc>)
    requires QuotedValues(descriptors) && CanHappen(descriptors, l, Batch(docs)) && IsClean(l) && Fits(l, docs)
    ensures var l1 := LinkStep(descriptors, worker, l, Batch(docs));
            && IsClean(l1) && Outstanding(l1) == Outstanding(l) + Starts(docs) - 1
            && |l1.sends.outstanding| == |l.sends.outstanding| + Replying(HandledPart(docs)) <= 1
  {
    var all := PartialSend.AllOf(l.sends);
    AfterLoopIs(descriptors, l.sessions, docs);
    var texts := ReplyTexts(worker, AfterLoop(descriptors, l.sessions, docs).sent);
    if |texts| == 1 {
      PartialSend.HandOverStaysClean(l.sends, texts[0], all);
      assert PartialSend.HandOverAll(l.sends, texts) == PartialSend.HandOver(l.sends, texts[0]);
      PartialSend.CleanMeansAllOf(PartialSend.HandOver(l.sends, texts[0]), all + texts[0]);
    }
  }

  lemma OutstandingStep(n: int, events: seq<LinkEvent>)
    requires events != []
    ensures OutstandingAfter(n, BatchesOf(events))
         == OutstandingAfter(n + (if events[0].Batch? then Starts(events[0].docs) - 1 else 0), BatchesOf(events[1..]))
  {
    BatchesStep(events);
  }

  /** Conservation: over every run in which no reply meets another, receives and sends outstanding are
      together what the batches say, however sends and batches interleave. */
  lemma {:induction false} OutstandingIsConserved(descriptors: map<string, string>, worker: string, l: Link,
                                                  events: seq<LinkEvent>)
    requires QuotedValues(descriptors) && IsLinkRun(descriptors, worker, l, events) && IsClean(l)
    requires Uncrossed(descriptors, worker, l, events)
    ensures var l' := LinkRun(descriptors, worker, l, events);
            IsClean(l') && Outstanding(l') == OutstandingAfter(Outstanding(l), BatchesOf(events))
    decreases events
  {
    if events != [] {
      var l1 := LinkStep(descriptors, worker, l, events[0]);
      StepStaysClean(descriptors, worker, l, events[0]);
      OutstandingStep(Outstanding(l), events);
      OutstandingIsConserved(descriptors, worker, l1, events[1..]);
    }
  }

  /** The worker never hears anything again: nothing can happen any more. */
  ghost predicate IsSilent(descriptors: map<string, string>, l: Link) {
    forall e :: !CanHappen(descriptors, l, e)
  }

  /** It falls silent iff the batches have used up what was outstanding: a batch of nothing but documents
      that start neither a send nor a receive costs one receive. */
  lemma WorkerFallsSilentIff(descriptors: map<string, string>, worker: string, sessions: seq<BrokerSession>,
                             events: seq<LinkEvent>)
    requires QuotedValues(descriptors) && IsLinkRun(descriptors, worker, Connected(sessions), events)
    requires Uncrossed(descriptors, worker, Connected(sessions), events)
    ensures IsSilent(descriptors, LinkRun(descriptors, worker, Connected(sessions), events))
       <==> OutstandingAfter(1, BatchesOf(events)) == 0
  {
    OutstandingIsConserved(descriptors, worker, Connected(sessions), events);
    var l := LinkRun(descriptors, worker, Connected(sessions), events);
    if l.armed > 0 {
      assert CanHappen(descriptors, l, Batch([]));
    }
    if |l.sends.outstanding| > 0 {
      assert CanHappen(descriptors, l, Sent(PartialSend.Completion(0, 1)));
    }
  }

  /** The least such run: one document without a target, alone in its batch. */
  lemma TargetlessDocumentSilences(descriptors: map<string, string>, worker: string, sessions: seq<BrokerSession>)
    requires QuotedValues(descriptors)
    ensures var run := [Batch([NoTarget])];
            && IsLinkRun(descriptors, worker, Connected(sessions), run)
            && IsSilent(descriptors, LinkRun(descriptors, worker, Connected(sessions), run))
  {
    var run := [Batch([NoTarget])];
    var l1 := LinkStep(descriptors, worker, Connected(sessions), run[0]);
    assert run[1..] == [] && IsLinkRun(descriptors, worker, l1, run[1..]);
    assert HandledPart([NoTarget]) == [];
    AfterLoopIs(descriptors, sessions, [NoTarget]);
    assert l1 == Link(PartialSend.IDLE, 0, l1.sessions);
    assert LinkRun(descriptors, worker, Connected(sessions), run) == LinkRun(descriptors, worker, l1, run[1..]);
  }

  // ------------------------------------------------------------------ which streams are safe

  /** Whatever the timing, no reply meets another: `n` receives and sends are outstanding, and `waiting`
      says that a reply may be among them while a receive is, too. */
  predicate Safe(n: nat, waiting: bool, batches: seq<seq<Doc>>)
    decreases batches
  {
    batches == [] || n == 0 ||
    (var replies := Replying(HandledPart(batches[0]));
     var n' := n - 1 + Starts(batches[0]);
     && replies <= 1 && !(replies == 1 && waiting)
     && Safe(n', (replies == 1 || waiting) && n' >= 2, batches[1..]))
  }

  /** The next batch of a safe stream fits, and leaves a safe stream. */
  lemma SafeStep(descriptors: map<string, string>, worker: string, l: Link, waiting: bool, batches: seq<seq<Doc>>)
    requires QuotedValues(descriptors) && IsClean(l) && batches != []
    requires CanHappen(descriptors, l, Batch(batches[0]))
    requires |l.sends.outstanding| == 1 && l.armed > 0 ==> waiting
    requires Safe(Outstanding(l), waiting, batches)
    ensures Fits(l, batches[0])
    ensures var l1 := LinkStep(descriptors, worker, l, Batch(batches[0]));
            var waits := (Replying(HandledPart(batches[0])) == 1 || waiting) && Outstanding(l1) >= 2;
            && IsClean(l1) && Safe(Outstanding(l1), waits, batches[1..])
            && (|l1.sends.outstanding| == 1 && l1.armed > 0 ==> waits)
  {
    BatchStaysClean(descriptors, worker, l, batches[0]);
  }

  lemma {:induction false} SafeIsUncrossed(descriptors: map<string, string>, worker: string, l: Link, waiting: bool,
                                           batches: seq<seq<Doc>>, events: seq<LinkEvent>)
    requires QuotedValues(descriptors) && IsLinkRun(descriptors, worker, l, events) && IsClean(l)
    requires |l.sends.outstanding| == 1 && l.armed > 0 ==> waiting
    requires Safe(Outstanding(l), waiting, batches) && BatchesOf(events) <= batches
    ensures Uncrossed(descriptors, worker, l, events)
    decreases events
  {
    if events != [] {
      var e := events[0];
      var l1 := LinkStep(descriptors, worker, l, e);
      BatchesStep(events);
      if e.Batch? {
        assert e == Batch(batches[0]) && BatchesOf(events[1..]) <= batches[1..];
        SafeStep(descriptors, worker, l, waiting, batches);
        var waits := (Replying(HandledPart(batches[0])) == 1 || waiting) && Outstanding(l1) >= 2;
        SafeIsUncrossed(descriptors, worker, l1, waits, batches[1..], events[1..]);
      } else {
        SendStaysClean(descriptors, worker, l, e.c);
        SafeIsUncrossed(descriptors, worker, l1, waiting, batches, events[1..]);
      }
    }
  }

  lemma Prepended(descriptors: map<string, string>, worker: string, l: Link, e: LinkEvent, rest: seq<LinkEvent>)
    requires QuotedValues(descriptors) && CanHappen(descriptors, l, e)
    requires IsLinkRun(descriptors, worker, LinkStep(descriptors, worker, l, e), rest)
    ensures IsLinkRun(descriptors, worker, l, [e] + rest)
    ensures Uncrossed(descriptors, worker, l, [e] + rest)
        ==> (e.Batch? ==> Fits(l, e.docs)) && Uncrossed(descriptors, worker, LinkStep(descriptors, worker, l, e), rest)
    ensures BatchesOf([e] + rest) == (if e.Batch? then [e.docs] else []) + BatchesOf(rest)
  {
    var events := [e] + rest;
    assert events[0] == e && events[1..] == rest;
  }

  lemma PrefixStep(b: seq<Doc>, some: seq<seq<Doc>>, batches: seq<seq<Doc>>)
    requires batches != [] && b == batches[0] && some <= batches[1..]
    ensures [b] + some <= batches && [b] + [] <= batches
  {
    assert batches == [b] + batches[1..];
  }

  /** The timing that brings out a crossing: sends complete only when nothing else can happen. */
  lemma {:induction false} UnsafeCanCross(descriptors: map<string, string>, worker: string, l: Link, waiting: bool,
                                          batches: seq<seq<Doc>>) returns (events: seq<LinkEvent>)
    requires QuotedValues(descriptors) && IsClean(l)
    requires forall i :: 0 <= i < |batches| ==> Returns(descriptors, batches[i])
    requires waiting <==> |l.sends.outstanding| == 1 && l.armed > 0
    requires !Safe(l.armed + |l.sends.outstanding|, waiting, batches)
    ensures IsLinkRun(descriptors, worker, l, events) && BatchesOf(events) <= batches
    ensures !Uncrossed(descriptors, worker, l, events)
    decreases batches, if l.armed > 0 then 0 else 1
  {
    if l.armed == 0 {
      var e := Sent(PartialSend.Completion(0, |l.sends.outstanding[0]|));
      LastSendArms(descriptors, worker, l);
      var rest := UnsafeCanCross(descriptors, worker, LinkStep(descriptors, worker, l, e), waiting, batches);
      events := [e] + rest;
      Prepended(descriptors, worker, l, e, rest);
    } else {
      var e := Batch(batches[0]);
      if !Fits(l, batches[0]) {
        events := [e] + [];
        Prepended(descriptors, worker, l, e, []);
        PrefixStep(batches[0], [], batches);
      } else {
        UnsafeStep(descriptors, worker, l, waiting, batches);
        var l1 := LinkStep(descriptors, worker, l, e);
        var waits := (Replying(HandledPart(batches[0])) == 1 || waiting) && Outstanding(l1) >= 2;
        var rest := UnsafeCanCross(descriptors, worker, l1, waits, batches[1..]);
        events := [e] + rest;
        Prepended(descriptors, worker, l, e, rest);
        PrefixStep(batches[0], BatchesOf(rest), batches);
      }
    }
  }

  /** With no receive outstanding the one send completes, and starts a receive. */
  lemma LastSendArms(descriptors: map<string, string>, worker: string, l: Link)
    requires QuotedValues(descriptors) && IsClean(l) && l.armed == 0 && |l.sends.outstanding| == 1
    ensures var e := Sent(PartialSend.Completion(0, |l.sends.outstanding[0]|));
            && CanHappen(descriptors, l, e)
            && var l1 := LinkStep(descriptors, worker, l, e);
               IsClean(l1) && l1.armed == 1 && l1.sends.outstanding == []
  {
    SendStaysClean(descriptors, worker, l, PartialSend.Completion(0, |l.sends.outstanding[0]|));
  }

  /** A batch of an unsafe stream that fits leaves an unsafe stream. */
  lemma UnsafeStep(descriptors: map<string, string>, worker: string, l: Link, waiting: bool, batches: seq<seq<Doc>>)
    requires QuotedValues(descriptors) && IsClean(l) && batches != []
    requires CanHappen(descriptors, l, Batch(batches[0])) && Fits(l, batches[0])
    requires waiting <==> |l.sends.outstanding| == 1 && l.armed > 0
    requires !Safe(Outstanding(l), waiting, batches)
    ensures var l1 := LinkStep(descriptors, worker, l, Batch(batches[0]));
            var waits := (Replying(HandledPart(batches[0])) == 1 || waiting) && Outstanding(l1) >= 2;
            && IsClean(l1) && !Safe(Outstanding(l1), waits, batches[1..])
            && (waits <==> |l1.sends.outstanding| == 1 && l1.armed > 0)
  {
    BatchStaysClean(descriptors, worker, l, batches[0]);
  }

  /** Exactly for the safe streams no timing makes replies cross. */
  lemma SafeIff(descriptors: map<string, string>, worker: string, sessions: seq<BrokerSession>, batches: seq<seq<Doc>>)
    requires QuotedValues(descriptors) && forall i :: 0 <= i < |batches| ==> Returns(descriptors, batches[i])
    ensures (forall events ::
              IsLinkRun(descriptors, worker, Connected(sessions), events) && BatchesOf(events) <= batches
              ==> Uncrossed(descriptors, worker, Connected(sessions), events))
       <==> Safe(1, false, batches)
  {
    var l := Connected(sessions);
    if Safe(1, false, batches) {
      forall events | IsLinkRun(descriptors, worker, l, events) && BatchesOf(events) <= batches
        ensures Uncrossed(descriptors, worker, l, events)
      {
        SafeIsUncrossed(descriptors, worker, l, false, batches, events);
      }
    } else {
      var events := UnsafeCanCross(descriptors, worker, l, false, batches);
    }
  }

  /** Batches that start one send or one receive at most are safe. */
  lemma {:induction false} OneStartEachIsSafe(n: nat, batches: seq<seq<Doc>>)
    requires n <= 1 && forall i :: 0 <= i < |batches| ==> Starts(batches[i]) <= 1
    ensures Safe(n, false, batches)
    decreases batches
  {
    if batches != [] && n == 1 {
      OneStartEachIsSafe(Starts(batches[0]), batches[1..]);
    }
  }

  /** The failing input: no batch holds two documents that are replied to, but a connect answer shares
      one with a ping, which leaves a receive outstanding beside the reply. The next ping's reply is
      handed over before that reply is out; when both are, the buffer is overrun. */
  lemma ConnectAnswerLetsRepliesCross(descriptors: map<string, string>, worker: string, sessions: seq<BrokerSession>)
    requires QuotedValues(descriptors)
    ensures var run := [Batch([ConnectAnswer, Ping])] + [Batch([Ping])];
            && !Safe(1, false, BatchesOf(run))
            && IsLinkRun(descriptors, worker, Connected(sessions), run)
            && !Uncrossed(descriptors, worker, Connected(sessions), run)
            && var text := Json.Serialize(ReplyObject(worker, PingReply));
               var sends := LinkRun(descriptors, worker, Connected(sessions), run).sends;
               var c := PartialSend.Completion(0, |text|);
               && PartialSend.CanFinish(sends, c) && PartialSend.CanFinish(PartialSend.Finish(sends, c), c)
               && PartialSend.Finish(PartialSend.Finish(sends, c), c).Overran?
  {
    var l := Connected(sessions);
    var text := Json.Serialize(ReplyObject(worker, PingReply));
    var first, second := Batch([ConnectAnswer, Ping]), Batch([Ping]);
    PingBatches(descriptors, worker, sessions);
    var l1 := LinkStep(descriptors, worker, l, first);
    assert l1 == Link(PartialSend.HandOver(PartialSend.IDLE, text), 1, sessions);
    var l2 := LinkStep(descriptors, worker, l1, second);
    assert l2.sends == PartialSend.HandOver(l1.sends, text);
    PartialSend.TwoTextsOverrun(PartialSend.IDLE, text, text);
    OneEvent(descriptors, worker, l1, second);
    assert !Uncrossed(descriptors, worker, l1, [second]) by {
      assert !Fits(l1, [Ping]);
    }
    Prepended(descriptors, worker, l, first, [second]);
    assert ([first] + [second])[1..] == [second];
    UnsafePings();
  }

  lemma OneEvent(descriptors: map<string, string>, worker: string, l: Link, e: LinkEvent)
    requires QuotedValues(descriptors) && CanHappen(descriptors, l, e)
    ensures IsLinkRun(descriptors, worker, l, [e])
    ensures LinkRun(descriptors, worker, l, [e]) == LinkStep(descriptors, worker, l, e)
    ensures Uncrossed(descriptors, worker, l, [e]) ==> e.Batch? ==> Fits(l, e.docs)
  {
    var rest := [e][1..];
    assert rest == [] && IsLinkRun(descriptors, worker, LinkStep(descriptors, worker, l, e), rest);
  }

  lemma UnsafePings()
    ensures var run := [Batch([ConnectAnswer, Ping])] + [Batch([Ping])];
            !Safe(1, false, BatchesOf(run))
  {
    var run := [Batch([ConnectAnswer, Ping])] + [Batch([Ping])];
    BatchesStep(run);
    assert run[1..] == [Batch([Ping])];
    BatchesStep(run[1..]);
    var batches := BatchesOf(run);
    assert batches[0] == [ConnectAnswer, Ping] && batches[1..] == BatchesOf(run[1..]);
    assert [ConnectAnswer, Ping][1..] == [Ping] && [Ping][1..] == [];
    assert HandledPart([Ping]) == [Ping] && HandledPart([ConnectAnswer, Ping]) == [ConnectAnswer, Ping];
    assert Replying([Ping]) == 1 && ConnectAnswers([Ping]) == 0;
    assert Starts([ConnectAnswer, Ping]) == 2;
    assert !Safe(2, true, batches[1..]);
  }

  lemma PingBatches(descriptors: map<string, string>, worker: string, sessions: seq<BrokerSession>)
    requires QuotedValues(descriptors)
    ensures var texts := [Json.Serialize(ReplyObject(worker, PingReply))];
            && (forall docs :: docs == [Ping] || docs == [ConnectAnswer, Ping] ==>
                 && Returns(descriptors, docs) && HandledPart(docs) == docs && Replying(docs) == 1
                 && AfterLoop(descriptors, sessions, docs).sessions == sessions
                 && ReplyTexts(worker, AfterLoop(descriptors, sessions, docs).sent) == texts)
            && ConnectAnswers([Ping]) == 0 && ConnectAnswers([ConnectAnswer, Ping]) == 1
  {
    assert [ConnectAnswer, Ping][1..] == [Ping] && [Ping][1..] == [];
    forall docs | docs == [Ping] || docs == [ConnectAnswer, Ping]
      ensures AfterLoop(descriptors, sessions, docs).sent == [PingReply]
      ensures Returns(descriptors, docs) && HandledPart(docs) == docs
      ensures AfterLoop(descriptors, sessions, docs).sessions == sessions && Replying(docs) == 1
    {
      assert HandledPart([Ping]) == [Ping];
      assert OneByOne(descriptors, [], sessions, [Ping]) == Worker([], [PingReply], sessions);
      AfterLoopIs(descriptors, sessions, docs);
    }
  }

  // ------------------------------------------------------------------ whole streams

  function ReadBatches(read: Read, batches: seq<seq<string>>): (r: seq<seq<Doc>>)
    ensures |r| == |batches|
  {
    seq(|batches|, i requires 0 <= i < |batches| => ReadAll(read, batches[i]))
  }

  lemma HandledParts(descriptors: map<string, string>, a: seq<Doc>, b: seq<Doc>)
    requires AllHandled(descriptors, a + b)
    ensures AllHandled(descriptors, a) && AllHandled(descriptors, b)
  {
    assert forall i :: 0 <= i < |a| ==> a[i] == (a + b)[i];
    assert forall i :: 0 <= i < |b| ==> b[i] == (a + b)[|a| + i];
  }

  lemma ReadParts(read: Read, a: seq<string>, b: seq<string>)
    ensures ReadAll(read, a + b) == ReadAll(read, a) + ReadAll(read, b)
  {
  }

  lemma {:induction false} PartsOfHandledBatches(descriptors: map<string, string>, read: Read,
                                                 batches: seq<seq<string>>)
    requires AllHandled(descriptors, ReadAll(read, Framing.Flatten(batches)))
    ensures AllParts(ReadBatches(read, batches)) == ReadAll(read, Framing.Flatten(batches))
    ensures forall i :: 0 <= i < |batches| ==> Returns(descriptors, ReadBatches(read, batches)[i])
    decreases batches
  {
    if batches != [] {
      var first, later := ReadAll(read, batches[0]), ReadAll(read, Framing.Flatten(batches[1..]));
      ReadParts(read, batches[0], Framing.Flatten(batches[1..]));
      HandledParts(descriptors, first, later);
      HandledPartIsHandled(descriptors, first);
      PartsOfHandledBatches(descriptors, read, batches[1..]);
      assert ReadBatches(read, batches)[1..] == ReadBatches(read, batches[1..]);
      assert ReadBatches(read, batches) == [first] + ReadBatches(read, batches[1..]);
    }
  }

  /** Chunk independence of MSWorker. A stream of handled commands is cut into receives, and batches and
      send completions interleave in any way, until all is done or the buffer is overrun. The commands
      reach the lifts as if handled one by one, and the main server gets each reply whole and in order,
      iff no reply is handed over while another is outstanding; the batches that the cutting makes rule
      that out, whatever the timing, iff they are safe. */
  lemma WorkerChunkIndependenceIff(descriptors: map<string, string>, worker: string, read: Read,
                                   sessions: seq<BrokerSession>, 
                                   objects: seq<Json.Value>, chunks: seq<string>, events: seq<LinkEvent>)
    requires QuotedValues(descriptors)
    requires forall i :: 0 <= i < |objects| ==> objects[i].Object?
    requires AllHandled(descriptors, ReadAll(read, Framing.SerializeAll(objects)))
    requires forall i :: 0 <= i < |chunks| ==> chunks[i] != ""
    requires Framing.Flatten(chunks) == Framing.Flatten(Framing.SerializeAll(objects))
    requires IsLinkRun(descriptors, worker, Connected(sessions), events)
    requires PartialSend.Ended(LinkRun(descriptors, worker, Connected(sessions), events).sends)
    requires var batches := ReadBatches(read, Framing.Batches(Framing.EMPTY_RECEIVER, chunks));
             && BatchesOf(events) <= batches
             && (LinkRun(descriptors, worker, Connected(sessions), events).sends.Running?
                 ==> BatchesOf(events) == batches)
    ensures var l := LinkRun(descriptors, worker, Connected(sessions), events);
            var (lifts, wire) := Ideal(descriptors, worker, sessions, ReadAll(read, Framing.SerializeAll(objects)));
            if Uncrossed(descriptors, worker, Connected(sessions), events)
            then l.sends == PartialSend.IDLE.(wire := wire) && l.sessions == lifts
            else l.sends.Overran?
    ensures Safe(1, false, ReadBatches(read, Framing.Batches(Framing.EMPTY_RECEIVER, chunks)))
       <==> forall es :: IsLinkRun(descriptors, worker, Connected(sessions), es)
                         && BatchesOf(es) <= ReadBatches(read, Framing.Batches(Framing.EMPTY_RECEIVER, chunks))
              ==> Uncrossed(descriptors, worker, Connected(sessions), es)
  {
    var batches := Framing.Batches(Framing.EMPTY_RECEIVER, chunks);
    Framing.BatchesAreTheObjects(objects, chunks);
    PartsOfHandledBatches(descriptors, read, batches);
    WorkerRunIsIdealIff(descriptors, worker, sessions, events);
    SafeIff(descriptors, worker, sessions, ReadBatches(read, batches));
  }

  // ------------------------------------------------------------------ the objects

  /** One released batch through the worker's loop and into its send buffer. */
  method ServeBatch(worker: MSWorker, sender: PartialSend.BufferSender, name: string, docs: seq<Doc>)
    requires QuotedValues(worker.descriptors) && Returns(worker.descriptors, docs)
    requires worker.armed > 0 && !sender.overrun
    modifies worker, worker.broker, sender
    ensures var before := old(Link(sender.Model(), worker.armed, worker.broker.sessions));
            Link(sender.Model(), worker.armed, worker.broker.sessions)
            == LinkStep(worker.descriptors, name, before, Batch(docs))
  {
    ghost var sends := sender.Model();
    worker.armed := worker.armed - 1;
    worker.queue, worker.sent := docs, [];
    worker.CommandAnalize();
    var replies := worker.sent;
    ghost var texts := ReplyTexts(name, replies);
    for i := 0 to |replies|
      invariant worker.sent == replies && !sender.overrun
      invariant worker.armed == old(worker.armed) - 1 + ConnectAnswers(HandledPart(docs))
      invariant worker.broker.sessions == AfterLoop(worker.descriptors, old(worker.broker.sessions), docs).sessions
      invariant sender.Model() == PartialSend.HandOverAll(sends, texts[..i])
    {
      assert texts[..i + 1] == texts[..i] + [texts[i]];
      sender.Respond(Json.Serialize(ReplyObject(name, replies[i])));
    }
    assert texts[..|replies|] == texts;
  }

  method ServeEvent(worker: MSWorker, sender: PartialSend.BufferSender, name: string, e: LinkEvent)
    requires QuotedValues(worker.descriptors)
    requires CanHappen(worker.descriptors, Link(sender.Model(), worker.armed, worker.broker.sessions), e)
    modifies worker, worker.broker, sender
    ensures var before := old(Link(sender.Model(), worker.armed, worker.broker.sessions));
            Link(sender.Model(), worker.armed, worker.broker.sessions)
            == LinkStep(worker.descriptors, name, before, e)
  {
    match e {
      case Batch(docs) => ServeBatch(worker, sender, name, docs);
      case Sent(c) =>
        var done := sender.SendCommand(c);
        if done {
          worker.armed := worker.armed + 1;
        }
    }
  }

  /** The worker and its send buffer driven over any interleaving that ends: the lifts and the main server
      see what handling the commands one by one gives them, iff no reply meets another. */
  method ServeStream(worker: MSWorker, sender: PartialSend.BufferSender, name: string, events: seq<LinkEvent>)
    requires QuotedValues(worker.descriptors) && worker.armed == 1 && sender.Model() == PartialSend.IDLE
    requires IsLinkRun(worker.descriptors, name, Connected(worker.broker.sessions), events)
    requires PartialSend.Ended(LinkRun(worker.descriptors, name, Connected(worker.broker.sessions), events).sends)
    modifies worker, worker.broker, sender
    ensures var uncrossed := Uncrossed(worker.descriptors, name, old(Connected(worker.broker.sessions)), events);
            && (sender.overrun <==> !uncrossed)
            && (uncrossed ==>
                  (worker.broker.sessions, sender.wire)
                  == Ideal(worker.descriptors, name, old(worker.broker.sessions), AllParts(BatchesOf(events))))
  {
    ghost var d, start := worker.descriptors, Connected(worker.broker.sessions);
    for i := 0 to |events|
      invariant IsLinkRun(d, name, Link(sender.Model(), worker.armed, worker.broker.sessions), events[i..])
      invariant LinkRun(d, name, Link(sender.Model(), worker.armed, worker.broker.sessions), events[i..])
             == LinkRun(d, name, start, events)
    {
      assert events[i..][0] == events[i] && events[i..][1..] == events[i + 1..];
      ServeEvent(worker, sender, name, events[i]);
    }
    WorkerRunIsIdealIff(d, name, start.sessions, events);
  }
}
