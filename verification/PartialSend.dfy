/** Sending a buffer through partial writes. The count of bytes already sent is a function-local
    static, so every session of the same class shares it. */
module PartialSend {
  import opened Framing

  /** One session's outstanding send, together with the shared counter. The slice that the operating
      system holds is `buf[offset..]`; `wire` is what it has put on the connection. */
  datatype Send =
    | Sending(buf: string, offset: nat, counter: nat, wire: string)
    | Sent(counter: nat, wire: string)
    | Overrun(counter: nat, wire: string)

  /** The first call: the whole buffer is handed over, whatever the counter holds. */
  function Begin(buf: string, counter: nat): Send {
    Sending(buf, 0, counter, "")
  }

  /** A completion that reports k bytes: add to the counter, compare with the buffer's size, and send
      the rest from the counter on. Past the end the size difference wraps round: an overrun. */
  function Complete(s: Send, k: nat): Send
    requires s.Sending? && 0 < k <= |s.buf| - s.offset
  {
    var wire := s.wire + s.buf[s.offset..s.offset + k];
    var counter := s.counter + k;
    if counter == |s.buf| then Sent(0, wire)
    else if counter > |s.buf| then Overrun(counter, wire)
    else Sending(s.buf, counter, counter, wire)
  }

  /** The counts are positive, none exceeds what was handed over, and they stop when the send does. */
  predicate Possible(s: Send, counts: seq<nat>)
    decreases counts
  {
    counts == [] || (s.Sending? && 0 < counts[0] <= |s.buf| - s.offset && Possible(Complete(s, counts[0]), counts[1..]))
  }

  function Run(s: Send, counts: seq<nat>): Send
    requires Possible(s, counts)
    decreases counts
  {
    if counts == [] then s else Run(Complete(s, counts[0]), counts[1..])
  }

  /** Bytes that still have to go out: the termination measure of a send. */
  function Remaining(s: Send): nat {
    if s.Sending? && s.offset <= |s.buf| then |s.buf| - s.offset else 0
  }

  /** The state of a send that is going well: the wire holds exactly what the counter says. */
  predicate Sound(s: Send, buf: string) {
    match s
    case Sending(b, offset, counter, wire) => b == buf && offset == counter < |buf| && wire == buf[..offset]
    case Sent(counter, wire) => counter == 0 && wire == buf
    case Overrun(_, _) => false
  }

  lemma {:induction false} SoundRun(s: Send, buf: string, counts: seq<nat>)
    requires Sound(s, buf) && Possible(s, counts)
    ensures Sound(Run(s, counts), buf)
    ensures |counts| <= Remaining(s) - Remaining(Run(s, counts))
    decreases counts
  {
    if counts != [] {
      var k := counts[0];
      assert buf[..s.offset] + buf[s.offset..s.offset + k] == buf[..s.offset + k];
      assert buf[..|buf|] == buf;
      SoundRun(Complete(s, k), buf, counts[1..]);
    }
  }

  /** A send that starts at counter 0 never overruns; while it runs the wire is a prefix of the
      buffer, and when it ends the wire is the whole buffer and the counter is back at 0. It ends
      after at most as many completions as the buffer has bytes. */
  lemma SendFromZeroDelivers(buf: string, counts: seq<nat>)
    requires buf != "" && Possible(Begin(buf, 0), counts)
    ensures var s := Run(Begin(buf, 0), counts);
            && !s.Overrun?
            && s.wire <= buf
            && (s.Sent? ==> s.wire == buf && s.counter == 0)
            && |counts| <= |buf|
  {
    SoundRun(Begin(buf, 0), buf, counts);
  }

  lemma {:induction false} WireGrows(s: Send, counts: seq<nat>)
    requires Possible(s, counts)
    ensures s.wire <= Run(s, counts).wire
    ensures s.Sending? && s.offset == s.counter ==> |Run(s, counts).wire| <= |s.wire| + Remaining(s)
    ensures !s.Sending? ==> counts == []
    decreases counts
  {
    if counts != [] {
      WireGrows(Complete(s, counts[0]), counts[1..]);
    }
  }

  /** A finished send put exactly its buffer on the wire iff the shared counter was 0 when it began:
      a counter left over by another session always loses or repeats bytes. */
  lemma SendIsExactIff(buf: string, counter: nat, counts: seq<nat>)
    requires buf != "" && Possible(Begin(buf, counter), counts)
    requires !Run(Begin(buf, counter), counts).Sending?
    ensures (Run(Begin(buf, counter), counts).Sent? && Run(Begin(buf, counter), counts).wire == buf)
       <==> counter == 0
  {
    if counter == 0 {
      SendFromZeroDelivers(buf, counts);
    } else {
      var first := Complete(Begin(buf, counter), counts[0]);
      WireGrows(first, counts[1..]);
      assert first.Sending? ==> |first.wire| + Remaining(first) == |buf| - counter;
      assert first.Sent? ==> |first.wire| == |buf| - counter;
    }
  }

  /** One send of some session: its buffer and the partial counts that completed it. */
  datatype Job = Job(buf: string, counts: seq<nat>)

  /** Sends of any number of sessions that do not overlap, one after the other over the one shared
      counter; the wires in order, or nothing once a send did not finish. */
  function RunJobs(counter: nat, jobs: seq<Job>): seq<string>
    decreases jobs
  {
    if jobs == [] then []
    else if !Possible(Begin(jobs[0].buf, counter), jobs[0].counts) then []
    else
      var s := Run(Begin(jobs[0].buf, counter), jobs[0].counts);
      if s.Sent? then [s.wire] + RunJobs(s.counter, jobs[1..]) else []
  }

  predicate Finishes(job: Job) {
    && job.buf != "" && Possible(Begin(job.buf, 0), job.counts)
    && !Run(Begin(job.buf, 0), job.counts).Sending?
  }

  /** Sends that do not overlap all arrive whole, each session's wire being its own buffer. */
  lemma {:induction false} SequentialSendsDeliver(jobs: seq<Job>)
    requires forall i :: 0 <= i < |jobs| ==> Finishes(jobs[i])
    ensures RunJobs(0, jobs) == seq(|jobs|, i requires 0 <= i < |jobs| => jobs[i].buf)
    decreases jobs
  {
    if jobs != [] {
      assert Finishes(jobs[0]);
      SendFromZeroDelivers(jobs[0].buf, jobs[0].counts);
      forall i | 0 <= i < |jobs[1..]| ensures Finishes(jobs[1..][i]) {
        assert jobs[1..][i] == jobs[i + 1];
      }
      SequentialSendsDeliver(jobs[1..]);
    }
  }

  /** A session that dies between two partial writes leaves the counter where it was, and then the
      next send of any session that finishes is not exact. */
  lemma AbandonedSendSpoilsTheNext(first: string, counts: seq<nat>, next: string, counts': seq<nat>)
    requires first != "" && counts != [] && Possible(Begin(first, 0), counts)
    requires Run(Begin(first, 0), counts).Sending?
    requires next != "" && Possible(Begin(next, Run(Begin(first, 0), counts).counter), counts')
    requires !Run(Begin(next, Run(Begin(first, 0), counts).counter), counts').Sending?
    ensures var s := Run(Begin(next, Run(Begin(first, 0), counts).counter), counts');
            !(s.Sent? && s.wire == next)
  {
    var s := Run(Begin(first, 0), counts);
    SoundRun(Begin(first, 0), first, counts);
    SendIsExactIff(next, s.counter, counts');
  }

  // ------------------------------------------------------------------ sends that do overlap

  /** A session has one send buffer: every text overwrites it and is handed over, whether or not
      earlier ones are still outstanding, and all completions share the counter. `outstanding` holds
      the slices handed over, as they were at that moment. */
  datatype Overlap =
    | Running(buf: string, counter: nat, outstanding: seq<string>, wire: string)
    | Overran(wire: string)

  const IDLE := Running("", 0, [], "")

  function HandOver(o: Overlap, text: string): Overlap
    requires o.Running?
  {
    Running(text, o.counter, o.outstanding + [text], o.wire)
  }

  /** The completion of outstanding send number `i` with `k` bytes written. */
  datatype Completion = Completion(i: nat, k: nat)

  predicate CanFinish(o: Overlap, c: Completion) {
    o.Running? && c.i < |o.outstanding| && 0 < c.k <= |o.outstanding[c.i]|
  }

  function Without<T>(s: seq<T>, i: nat): seq<T>
    requires i < |s|
  {
    s[..i] + s[i + 1..]
  }

  /** The counter is compared with the size of the buffer as it is now, whichever send completed. */
  function Finish(o: Overlap, c: Completion): Overlap
    requires CanFinish(o, c)
  {
    var wire := o.wire + o.outstanding[c.i][..c.k];
    var counter := o.counter + c.k;
    var others := Without(o.outstanding, c.i);
    if counter == |o.buf| then Running("", 0, others, wire)
    else if counter > |o.buf| then Overran(wire)
    else Running(o.buf, counter, others + [o.buf[counter..]], wire)
  }

  /** Nothing is outstanding any more, or the code has run past the end of its buffer. */
  predicate Ended(o: Overlap) {
    o.Running? ==> o.outstanding == []
  }

  datatype SendEvent = Hands(text: string) | Completes(c: Completion)

  /** Texts are serialised objects, so none is empty. */
  predicate CanSend(o: Overlap, e: SendEvent) {
    match e
    case Hands(text) => o.Running? && text != ""
    case Completes(c) => CanFinish(o, c)
  }

  function SendStep(o: Overlap, e: SendEvent): Overlap
    requires CanSend(o, e)
  {
    match e
    case Hands(text) => HandOver(o, text)
    case Completes(c) => Finish(o, c)
  }

  predicate IsSendRun(o: Overlap, events: seq<SendEvent>)
    decreases events
  {
    events == [] || (CanSend(o, events[0]) && IsSendRun(SendStep(o, events[0]), events[1..]))
  }

  function SendRun(o: Overlap, events: seq<SendEvent>): Overlap
    requires IsSendRun(o, events)
    decreases events
  {
    if events == [] then o else SendRun(SendStep(o, events[0]), events[1..])
  }

  function Handed(events: seq<SendEvent>): seq<string> {
    if events == [] then []
    else (if events[0].Hands? then [events[0].text] else []) + Handed(events[1..])
  }

  /** Every text finds nothing outstanding when it is handed over. */
  predicate FindsIdle(o: Overlap, events: seq<SendEvent>)
    requires IsSendRun(o, events)
    decreases events
  {
    events == []
    || ((events[0].Hands? ==> o.outstanding == []) && FindsIdle(SendStep(o, events[0]), events[1..]))
  }

  /** All is well: at most one send is outstanding, and what it still has to write completes `all`. */
  predicate Clean(o: Overlap, all: string) {
    || o == IDLE.(wire := all)
    || (o.Running? && o.counter < |o.buf| && o.outstanding == [o.buf[o.counter..]]
        && o.wire + o.buf[o.counter..] == all)
  }

  /** What is on the wire and what is still to be written. */
  function AllOf(o: Overlap): string
    requires o.Running?
  {
    o.wire + if o.outstanding == [] then "" else o.outstanding[0]
  }

  lemma CleanMeansAllOf(o: Overlap, all: string)
    requires Clean(o, all)
    ensures AllOf(o) == all
  {
  }

  /** Two sends are outstanding, or one while buffer and counter are cleared already. From here every
      way to the end runs past the end of the buffer. */
  predicate Crossed(o: Overlap) {
    o.Running? ==>
      || |o.outstanding| >= 2
      || (|o.outstanding| == 1 && o.counter == 0 && o.buf == "")
  }

  lemma FinishStaysClean(o: Overlap, c: Completion, all: string)
    requires Clean(o, all) && CanFinish(o, c)
    ensures Clean(Finish(o, c), all)
  {
    var out := o.outstanding[0];
    assert c.i == 0 && Without(o.outstanding, 0) == [] && out[..c.k] + out[c.k..] == out;
    assert o.wire + (out[..c.k] + out[c.k..]) == o.wire + out[..c.k] + out[c.k..];
    assert out[c.k..] == o.buf[o.counter + c.k..];
  }

  lemma HandOverStaysClean(o: Overlap, text: string, all: string)
    requires Clean(o, all) && o.outstanding == [] && text != ""
    ensures Clean(HandOver(o, text), all + text)
  {
    assert text[0..] == text && [] + [text] == [text];
  }

  lemma FinishStaysCrossed(o: Overlap, c: Completion)
    requires Crossed(o) && CanFinish(o, c)
    ensures Crossed(Finish(o, c))
    ensures o.buf == "" || o.counter >= |o.buf| ==> Finish(o, c).Overran?
  {
    assert |Without(o.outstanding, c.i)| == |o.outstanding| - 1;
  }

  lemma {:induction false} CrossedRun(o: Overlap, events: seq<SendEvent>)
    requires Crossed(o) && IsSendRun(o, events)
    ensures Crossed(SendRun(o, events))
    decreases events
  {
    if events != [] {
      if events[0].Completes? {
        FinishStaysCrossed(o, events[0].c);
      }
      CrossedRun(SendStep(o, events[0]), events[1..]);
    }
  }

  lemma HandedStep(all: string, events: seq<SendEvent>)
    requires events != []
    ensures all + Flatten(Handed(events))
         == all + (if events[0].Hands? then events[0].text else "") + Flatten(Handed(events[1..]))
  {
    if events[0].Hands? {
      assert Handed(events)[1..] == Handed(events[1..]);
      Associative(all, events[0].text, Flatten(Handed(events[1..])));
    } else {
      assert all + "" == all && [] + Handed(events[1..]) == Handed(events[1..]);
    }
  }

  lemma {:induction false} CleanRun(o: Overlap, all: string, events: seq<SendEvent>)
    requires Clean(o, all) && IsSendRun(o, events)
    ensures if FindsIdle(o, events) then Clean(SendRun(o, events), all + Flatten(Handed(events)))
            else Crossed(SendRun(o, events))
    decreases events
  {
    if events == [] {
      assert all + Flatten(Handed(events)) == all;
    } else {
      HandedStep(all, events);
      var o1 := SendStep(o, events[0]);
      match events[0]
      case Completes(c) =>
        FinishStaysClean(o, c, all);
        assert all + "" == all;
        CleanRun(o1, all, events[1..]);
      case Hands(text) =>
        if o.outstanding == [] {
          HandOverStaysClean(o, text, all);
          CleanRun(o1, all + text, events[1..]);
        } else {
          CrossedRun(o1, events[1..]);
        }
    }
  }

  /** Over any interleaving of hand-overs and completions that ends, partial writes or not and whichever
      send completes first: the wire is all texts, whole and in order, iff every text found nothing
      outstanding when it was handed over. Otherwise the code runs past the end of its buffer. */
  lemma SendsAreIntactIff(events: seq<SendEvent>)
    requires IsSendRun(IDLE, events) && Ended(SendRun(IDLE, events))
    ensures SendRun(IDLE, events)
         == if FindsIdle(IDLE, events) then IDLE.(wire := Flatten(Handed(events)))
            else Overran(SendRun(IDLE, events).wire)
  {
    CleanRun(IDLE, "", events);
    assert "" + Flatten(Handed(events)) == Flatten(Handed(events));
  }

  // ------------------------------------------------------------------ the replies of one batch

  predicate NonEmpty(texts: seq<string>) {
    forall i :: 0 <= i < |texts| ==> texts[i] != ""
  }

  function HandsAll(texts: seq<string>): seq<SendEvent> {
    seq(|texts|, i requires 0 <= i < |texts| => Hands(texts[i]))
  }

  function CompletesAll(cs: seq<Completion>): seq<SendEvent> {
    seq(|cs|, i requires 0 <= i < |cs| => Completes(cs[i]))
  }

  /** Texts handed over one after the other, before any completion. */
  function HandOverAll(o: Overlap, texts: seq<string>): Overlap
    requires o.Running?
  {
    if texts == [] then o
    else Running(texts[|texts| - 1], o.counter, o.outstanding + texts, o.wire)
  }

  lemma {:induction false} HandsAllRun(o: Overlap, texts: seq<string>, rest: seq<SendEvent>)
    requires o.Running? && NonEmpty(texts)
    ensures IsSendRun(o, HandsAll(texts) + rest) <==> IsSendRun(HandOverAll(o, texts), rest)
    ensures IsSendRun(o, HandsAll(texts) + rest)
        ==> SendRun(o, HandsAll(texts) + rest) == SendRun(HandOverAll(o, texts), rest)
    ensures IsSendRun(o, HandsAll(texts) + rest)
        ==> (FindsIdle(o, HandsAll(texts) + rest)
             <==> (texts == [] || (|texts| == 1 && o.outstanding == [])) && FindsIdle(HandOverAll(o, texts), rest))
    decreases texts
  {
    var events := HandsAll(texts) + rest;
    if texts == [] {
      assert events == rest;
    } else {
      var o1 := HandOver(o, texts[0]);
      assert events[0] == Hands(texts[0]) && events[1..] == HandsAll(texts[1..]) + rest;
      HandsAllRun(o1, texts[1..], rest);
      assert HandOverAll(o1, texts[1..]) == HandOverAll(o, texts) by {
        assert o.outstanding + [texts[0]] + texts[1..] == o.outstanding + texts;
      }
    }
  }

  lemma {:induction false} CompletionsFindIdle(o: Overlap, cs: seq<Completion>)
    requires IsSendRun(o, CompletesAll(cs))
    ensures FindsIdle(o, CompletesAll(cs)) && Handed(CompletesAll(cs)) == []
    ensures Crossed(o)
        ==> |cs| <= if o.Overran? then 0 else (if o.counter < |o.buf| then |o.buf| - o.counter else 0) + 1
    decreases cs
  {
    if cs != [] {
      assert CompletesAll(cs)[1..] == CompletesAll(cs[1..]);
      if Crossed(o) {
        FinishStaysCrossed(o, cs[0]);
      }
      CompletionsFindIdle(Finish(o, cs[0]), cs[1..]);
    }
  }

  lemma {:induction false} HandedAll(texts: seq<string>, rest: seq<SendEvent>)
    ensures Handed(HandsAll(texts) + rest) == texts + Handed(rest)
    decreases texts
  {
    var events := HandsAll(texts) + rest;
    if texts == [] {
      assert events == rest;
    } else {
      assert events[0] == Hands(texts[0]) && events[1..] == HandsAll(texts[1..]) + rest;
      HandedAll(texts[1..], rest);
    }
  }

  /** In particular the replies of one batch, all handed over before the first completion, go out intact
      iff there is at most one; two or more overrun after at most as many completions as the last reply
      has bytes and one more. */
  lemma BatchIsIntactIff(replies: seq<string>, cs: seq<Completion>)
    requires NonEmpty(replies) && IsSendRun(IDLE, HandsAll(replies) + CompletesAll(cs))
    requires Ended(SendRun(IDLE, HandsAll(replies) + CompletesAll(cs)))
    ensures var o := SendRun(IDLE, HandsAll(replies) + CompletesAll(cs));
            && o == (if |replies| <= 1 then IDLE.(wire := Flatten(replies)) else Overran(o.wire))
            && (|replies| > 1 ==> |cs| <= |replies[|replies| - 1]| + 1)
  {
    SendsAreIntactIff(HandsAll(replies) + CompletesAll(cs));
    HandsAllRun(IDLE, replies, CompletesAll(cs));
    HandedAll(replies, CompletesAll(cs));
    CompletionsFindIdle(HandOverAll(IDLE, replies), cs);
    assert replies + [] == replies;
  }

  /** A live session of the main server is no different: a command that is started while its ping is
      still outstanding overruns the buffer that they share. */
  lemma CommandDuringPingOverruns(ping: string, command: string, cs: seq<Completion>)
    requires ping != "" && command != "" && IsSendRun(IDLE, HandsAll([ping, command]) + CompletesAll(cs))
    requires Ended(SendRun(IDLE, HandsAll([ping, command]) + CompletesAll(cs)))
    ensures SendRun(IDLE, HandsAll([ping, command]) + CompletesAll(cs)).Overran?
  {
    BatchIsIntactIff([ping, command], cs);
  }

  /** The failing input: two texts of the same length, the second handed over before the first is
      out, each written whole. The first completion finds the counter equal to the buffer's size and
      clears both; the second one then finds more bytes sent than the empty buffer holds. */
  lemma TwoTextsOverrun(o: Overlap, first: string, second: string)
    requires o.Running? && o.outstanding == [] && o.counter == 0 && first != "" && |first| == |second|
    ensures var o2 := HandOver(HandOver(o, first), second);
            var c, c' := Completion(0, |first|), Completion(0, |second|);
            && CanFinish(o2, c) && CanFinish(Finish(o2, c), c')
            && Finish(Finish(o2, c), c') == Overran(o.wire + first + second)
  {
    var o2 := HandOver(HandOver(o, first), second);
    assert o2.outstanding == [first, second];
    assert Without([first, second], 0) == [second] && first[..|first|] == first && second[..|second|] == second;
    assert Finish(o2, Completion(0, |first|)) == Running("", 0, [second], o.wire + first);
  }

  // ------------------------------------------------------------------ the handlers themselves

  /** The function-local `static size_t temp_send_byte`. */
  class SendCounter {
    var temp: nat

    constructor ()
      ensures temp == 0
    {
      temp := 0;
    }
  }

  class Sender {
    const counter: SendCounter
    var bufSend: string
    var offset: nat       // where the slice handed to the operating system starts
    var sending: bool
    var overrun: bool
    var wire: string
    var isLive: bool
    var closed: bool

    constructor (counter: SendCounter)
      ensures this.counter == counter && !sending && !overrun && isLive && !closed && wire == ""
    {
      this.counter := counter;
      bufSend, offset, sending, overrun, wire, isLive, closed := "", 0, false, false, "", true, false;
    }

    function Model(): Send
      reads this, counter
    {
      if overrun then Overrun(counter.temp, wire)
      else if sending then Sending(bufSend, offset, counter.temp, wire)
      else Sent(counter.temp, wire)
    }

    method AsyncSend(buf: string)
      requires !sending && !overrun && buf != ""
      modifies this
      ensures Model() == Begin(buf, counter.temp)
      ensures isLive == old(isLive) && closed == old(closed)
    {
      bufSend, offset, sending, wire := buf, 0, true, "";
    }

    /** `_sendCheck`: true when the whole buffer is out. */
    method SendCheck(count: nat) returns (done: bool)
      requires sending && !overrun && 0 < count <= |bufSend| - offset
      modifies this`offset, this`wire, this`overrun, this`sending, counter
      ensures counter.temp == old(counter.temp) + count
      ensures wire == old(wire + bufSend[offset..offset + count])
      ensures done <==> counter.temp == |bufSend|
      ensures overrun <==> counter.temp > |bufSend|
      ensures sending <==> !done && !overrun
      ensures sending ==> offset == counter.temp
    {
      wire := wire + bufSend[offset..offset + count];
      counter.temp := counter.temp + count;
      sending := false;
      if |bufSend| != counter.temp {
        if counter.temp > |bufSend| {
          overrun := true;
        } else {
          offset := counter.temp;
          sending := true;
        }
        return false;
      }
      return true;
    }

    /** `_sendCommand` on a completion without an error. */
    method SendCommand(count: nat)
      requires sending && !overrun && 0 < count <= |bufSend| - offset
      modifies this, counter
      ensures isLive == old(isLive)
      ensures old(isLive) ==> Model() == old(Complete(Model(), count)) && closed == old(closed)
      ensures !old(isLive) ==> closed && !sending && counter.temp == old(counter.temp)
    {
      if !isLive {
        closed := true;
        sending := false;
        return;
      }
      var done := SendCheck(count);
      if !done {
        return;
      }
      counter.temp := 0;
      bufSend := "";
    }
  }

  /** One whole send driven through the handlers, for any split that completes it: the wire is the
      buffer, and the shared counter is left ready for whichever session sends next. */
  method SendWhole(s: Sender, buf: string, counts: seq<nat>)
    requires s.isLive && !s.sending && !s.overrun && s.counter.temp == 0
    requires Finishes(Job(buf, counts))
    modifies s, s.counter
    ensures s.wire == buf && s.counter.temp == 0 && !s.sending && !s.overrun && s.isLive
    ensures s.closed == old(s.closed)
  {
    SendFromZeroDelivers(buf, counts);
    s.AsyncSend(buf);
    for i := 0 to |counts|
      invariant Possible(s.Model(), counts[i..])
      invariant Run(s.Model(), counts[i..]) == Run(Begin(buf, 0), counts)
      invariant s.isLive && s.closed == old(s.closed)
    {
      assert counts[i..][0] == counts[i] && counts[i..][1..] == counts[i + 1..];
      assert s.Model().Sending?;
      s.SendCommand(counts[i]);
    }
    assert s.Model() == Sent(0, buf);
  }

  // ------------------------------------------------------------------ one buffer, many sends

  /** The sending side of an MSWorker, of which a worker process has one, so that the shared counter is
      a field of it. A session of the main server has the same buffer for ping, connect answer and
      command. */
  class BufferSender {
    var bufSend: string
    var tempSendByte: nat
    var outstanding: seq<string>
    var overrun: bool
    var wire: string

    constructor ()
      ensures Model() == IDLE
    {
      bufSend, tempSendByte, outstanding, overrun, wire := "", 0, [], false, "";
    }

    function Model(): Overlap
      reads this
    {
      if overrun then Overran(wire) else Running(bufSend, tempSendByte, outstanding, wire)
    }

    /** Every reply of the worker ends like this. */
    method Respond(text: string)
      requires !overrun
      modifies this
      ensures Model() == HandOver(old(Model()), text)
    {
      bufSend := text;
      outstanding := outstanding + [bufSend];
    }

    /** The completion handler `__sendCommand` without an error, for any of the outstanding sends; true
        when it takes the buffer for sent. */
    method SendCommand(c: Completion) returns (done: bool)
      requires CanFinish(Model(), c)
      modifies this
      ensures Model() == Finish(old(Model()), c)
      ensures done <==> old(tempSendByte) + c.k == |old(bufSend)|
    {
      wire := wire + outstanding[c.i][..c.k];
      outstanding := outstanding[..c.i] + outstanding[c.i + 1..];
      tempSendByte := tempSendByte + c.k;
      if |bufSend| != tempSendByte {
        if tempSendByte > |bufSend| {
          overrun := true;
        } else {
          outstanding := outstanding + [bufSend[tempSendByte..]];
        }
        return false;
      }
      tempSendByte := 0;
      bufSend := "";
      return true;
    }
  }

  /** Any interleaving driven through the handlers: intact iff every text finds nothing outstanding. */
  method SendAll(s: BufferSender, events: seq<SendEvent>)
    requires s.Model() == IDLE && IsSendRun(IDLE, events) && Ended(SendRun(IDLE, events))
    modifies s
    ensures FindsIdle(IDLE, events) ==> s.Model() == IDLE.(wire := Flatten(Handed(events)))
    ensures s.overrun <==> !FindsIdle(IDLE, events)
  {
    for i := 0 to |events|
      invariant IsSendRun(s.Model(), events[i..])
      invariant SendRun(s.Model(), events[i..]) == SendRun(IDLE, events)
    {
      assert events[i..][0] == events[i] && events[i..][1..] == events[i + 1..];
      match events[i] {
        case Hands(text) => s.Respond(text);
        case Completes(c) => var _ := s.SendCommand(c);
      }
    }
    SendsAreIntactIff(events);
  }
}
