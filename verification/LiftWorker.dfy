/** The MQTT worker's side towards the main server: its dispatch loop, the move command, and the
    refresh of its lift-block tables. */
module LiftWorker {
  import opened Common
  import opened Broker
  import Framing
  import Json
  import JsonReader
  import PartialSend

  // ------------------------------------------------------------------ refreshing the tables

  type Columns = map<string, seq<string>>

  datatype Tables = Tables(
    liftBlocks: Option<Columns>,
    descriptors: map<string, string>,
    passwords: map<string, string>)

  /** The map that walking two columns in step builds: later rows overwrite earlier ones. */
  function Zip(keys: seq<string>, values: seq<string>): map<string, string>
    requires |values| >= |keys|
    decreases keys
  {
    if keys == [] then map[]
    else
      var n := |keys| - 1;
      Zip(keys[..n], values)[keys[n] := values[n]]
  }

  predicate IsLastRow(keys: seq<string>, key: string, i: nat) {
    i < |keys| && keys[i] == key && forall j :: i < j < |keys| ==> keys[j] != key
  }

  /** Zipping gives each key the value of its last row, and has no other keys. */
  lemma {:induction false} ZipTakesLastRow(keys: seq<string>, values: seq<string>)
    requires |values| >= |keys|
    ensures forall key :: key in Zip(keys, values) <==> key in keys
    ensures forall key, i: nat :: IsLastRow(keys, key, i) ==> Zip(keys, values)[key] == values[i]
    decreases keys
  {
    if keys != [] {
      var n := |keys| - 1;
      ZipTakesLastRow(keys[..n], values);
      assert keys == keys[..n] + [keys[n]];
      forall key, i: nat | IsLastRow(keys, key, i)
        ensures key in Zip(keys, values) && Zip(keys, values)[key] == values[i]
      {
        if i < n {
          assert key != keys[n];
          assert IsLastRow(keys[..n], key, i);
        }
      }
    }
  }

  predicate HasColumns(columns: Columns) {
    "Id" in columns && "Descriptor" in columns && "Login" in columns && "Password" in columns
  }

  /** The columns that the refresh walks in step are as long as the id column. */
  predicate InStep(data: map<string, Columns>) {
    "LiftBlocks" in data && HasColumns(data["LiftBlocks"]) ==>
      var columns := data["LiftBlocks"];
      |columns["Id"]| == |columns["Descriptor"]| == |columns["Login"]| == |columns["Password"]|
  }

  /** `__updateData`; the flag is false when it throws. */
  function Refresh(t: Tables, data: map<string, Columns>): (Tables, bool)
    requires InStep(data)
  {
    if "LiftBlocks" !in data then (t, false)
    else
      var columns := data["LiftBlocks"];
      if !HasColumns(columns) then (t.(liftBlocks := Some(columns)), false)
      else
        var descriptors := Zip(columns["Id"], columns["Descriptor"]);
        (Tables(Some(columns), descriptors, Zip(columns["Login"], columns["Password"])), true)
  }

  /** Both maps change or neither does; they change iff the table and all four of its columns are
      there, and then they are the last-row-wins zips of the columns, whatever they held before. */
  lemma RefreshIsAllOrNothing(t: Tables, data: map<string, Columns>)
    requires InStep(data)
    ensures var (t', ok) := Refresh(t, data);
            && (ok <==> "LiftBlocks" in data && HasColumns(data["LiftBlocks"]))
            && (!ok ==> t'.descriptors == t.descriptors && t'.passwords == t.passwords)
            && (ok ==>
                 var columns := data["LiftBlocks"];
                 && (forall key :: key in t'.descriptors <==> key in columns["Id"])
                 && (forall key :: key in t'.passwords <==> key in columns["Login"])
                 && (forall key, i: nat :: IsLastRow(columns["Id"], key, i)
                       ==> t'.descriptors[key] == columns["Descriptor"][i])
                 && (forall key, i: nat :: IsLastRow(columns["Login"], key, i)
                       ==> t'.passwords[key] == columns["Password"][i]))
  {
    if "LiftBlocks" in data && HasColumns(data["LiftBlocks"]) {
      var columns := data["LiftBlocks"];
      ZipTakesLastRow(columns["Id"], columns["Descriptor"]);
      ZipTakesLastRow(columns["Login"], columns["Password"]);
    }
  }

  class MQTTWorker {
    var liftBlocks: Option<Columns>
    var descriptors: map<string, string>
    var passwords: map<string, string>

    constructor ()
      ensures Model() == Tables(None, map[], map[])
    {
      liftBlocks, descriptors, passwords := None, map[], map[];
    }

    function Model(): Tables
      reads this
    {
      Tables(liftBlocks, descriptors, passwords)
    }

    method UpdateData(data: map<string, Columns>) returns (ok: bool)
      requires InStep(data)
      modifies this
      ensures (Model(), ok) == Refresh(old(Model()), data)
    {
      if "LiftBlocks" !in data {
        return false;
      }
      var columns := data["LiftBlocks"];
      liftBlocks := Some(columns);
      if "Id" !in columns || "Descriptor" !in columns || "Login" !in columns || "Password" !in columns {
        return false;
      }
      var ids, logins := columns["Id"], columns["Login"];
      var newDescriptors: map<string, string> := map[];
      var newPasswords: map<string, string> := map[];
      for i := 0 to |ids|
        invariant liftBlocks == Some(columns)
        invariant descriptors == old(descriptors) && passwords == old(passwords)
        invariant newDescriptors == Zip(ids[..i], columns["Descriptor"])
        invariant newPasswords == Zip(logins[..i], columns["Password"])
      {
        assert ids[..i + 1][..i] == ids[..i] && logins[..i + 1][..i] == logins[..i];
        newDescriptors := newDescriptors[ids[i] := columns["Descriptor"][i]];
        newPasswords := newPasswords[logins[i] := columns["Password"][i]];
      }
      assert ids[..|ids|] == ids && logins[..|ids|] == logins;
      descriptors := newDescriptors;
      passwords := newPasswords;
      return true;
    }
  }

  // ------------------------------------------------------------------ the dispatch loop

  datatype Doc =
    | Ping
    | Disconnect
    | ConnectAnswer            // an accepting one
    | MoveLift(station: string, block: string, floor: string)
    | OtherTarget
    | NoTarget

  datatype Reply =
    | PingReply
    | DisconnectReply
    | MoveReply(station: string, success: bool)
    | BlockUnknown(station: string)

  datatype Worker = Worker(queue: seq<Doc>, sent: seq<Reply>, sessions: seq<BrokerSession>)

  /** `substr(1, size - 2)`: what stands between the first and the last character. */
  function Inner(s: string): string
    requires |s| >= 2
  {
    s[1..|s| - 1]
  }

  /** Every stored descriptor is a quoted text, as the database client delivers it. */
  predicate QuotedValues(descriptors: map<string, string>) {
    forall block :: block in descriptors ==> |descriptors[block]| >= 2
  }

  function SetCommand(d: string, floor: string): Message {
    Message("LU" + d + "/set/cmd", "{\"cmdlft\":[1," + floor + "]}")
  }

  function Move(sessions: seq<BrokerSession>, d: string, doc: Doc): (seq<BrokerSession>, Reply)
    requires doc.MoveLift?
  {
    var found := FirstNamed(sessions, d) < |sessions|;
    (Publish(sessions, d, SetCommand(d, doc.floor)), MoveReply(doc.station, found))
  }

  /** One round of the loop, and whether the loop goes on. A move for an unknown block sends a failure
      and leaves the document where it is; so does an unknown target, without sending anything. A
      document without a target leaves the loop. */
  function Round(descriptors: map<string, string>, w: Worker): (Worker, bool)
    requires QuotedValues(descriptors)
  {
    if w.queue == [] then (w, false)
    else match w.queue[0]
      case Ping => (w.(queue := w.queue[1..], sent := w.sent + [PingReply]), true)
      case Disconnect => (w.(queue := w.queue[1..], sent := w.sent + [DisconnectReply]), true)
      case ConnectAnswer => (w.(queue := w.queue[1..]), true)
      case OtherTarget => (w, true)
      case NoTarget => (w, false)
      case MoveLift(station, block, floor) =>
        if block !in descriptors then (w.(sent := w.sent + [BlockUnknown(station)]), true)
        else
          var (sessions, reply) := Move(w.sessions, Inner(descriptors[block]), w.queue[0]);
          (Worker(w.queue[1..], w.sent + [reply], sessions), true)
  }

  /** The loop after n rounds; the flag says whether it is still going. */
  function Rounds(descriptors: map<string, string>, w: Worker, n: nat): (Worker, bool)
    requires QuotedValues(descriptors)
    decreases n
  {
    if n == 0 then (w, w.queue != [])
    else
      var (w1, goes) := Round(descriptors, w);
      if goes then Rounds(descriptors, w1, n - 1) else (w1, false)
  }

  predicate Handled(descriptors: map<string, string>, doc: Doc) {
    match doc
    case OtherTarget => false
    case NoTarget => false
    case MoveLift(_, block, _) => block in descriptors
    case _ => true
  }

  /** Everything up to the first document without a target, or to the end, is handled. */
  predicate Returns(descriptors: map<string, string>, queue: seq<Doc>)
    decreases queue
  {
    queue == [] || queue[0].NoTarget? || (Handled(descriptors, queue[0]) && Returns(descriptors, queue[1..]))
  }

  /** The loop ends iff every document before the first targetless one has a known target and, if it
      is a move, names a known lift block. */
  lemma WorkerLoopEndsIff(descriptors: map<string, string>, w: Worker)
    requires QuotedValues(descriptors)
    ensures (exists n: nat :: !Rounds(descriptors, w, n).1) <==> Returns(descriptors, w.queue)
  {
    if Returns(descriptors, w.queue) {
      LoopEnds(descriptors, w);
      assert !Rounds(descriptors, w, |w.queue| + 1).1;
    } else {
      forall n: nat ensures Rounds(descriptors, w, n).1 {
        LoopGoesOn(descriptors, w, n);
      }
    }
  }

  lemma {:induction false} LoopEnds(descriptors: map<string, string>, w: Worker)
    requires QuotedValues(descriptors) && Returns(descriptors, w.queue)
    ensures !Rounds(descriptors, w, |w.queue| + 1).1
    decreases w.queue
  {
    if w.queue != [] && !w.queue[0].NoTarget? {
      LoopEnds(descriptors, Round(descriptors, w).0);
    }
  }

  lemma {:induction false} LoopGoesOn(descriptors: map<string, string>, w: Worker, n: nat)
    requires QuotedValues(descriptors) && !Returns(descriptors, w.queue)
    ensures Rounds(descriptors, w, n).1
    decreases n
  {
    if n > 0 {
      LoopGoesOn(descriptors, Round(descriptors, w).0, n - 1);
    }
  }

  function Repeat<T>(x: T, n: nat): seq<T> {
    if n == 0 then [] else [x] + Repeat(x, n - 1)
  }

  /** A move for an unknown lift block is answered with a failure in every round, without end. */
  lemma {:induction false} UnknownBlockIsRefusedForEver(descriptors: map<string, string>, w: Worker, n: nat)
    requires QuotedValues(descriptors) && w.queue != [] && w.queue[0].MoveLift? && w.queue[0].block !in descriptors
    ensures Rounds(descriptors, w, n) == (w.(sent := w.sent + Repeat(BlockUnknown(w.queue[0].station), n)), true)
    decreases n
  {
    var refusal := BlockUnknown(w.queue[0].station);
    if n == 0 {
      assert w.sent + [] == w.sent;
    } else {
      UnknownBlockIsRefusedForEver(descriptors, w.(sent := w.sent + [refusal]), n - 1);
      assert w.sent + [refusal] + Repeat(refusal, n - 1) == w.sent + ([refusal] + Repeat(refusal, n - 1));
    }
  }

  // ------------------------------------------------------------------ whole streams of commands

  predicate AllHandled(descriptors: map<string, string>, docs: seq<Doc>) {
    forall i :: 0 <= i < |docs| ==> Handled(descriptors, docs[i])
  }

  /** Handling documents one after the other, each from a queue of its own. */
  function OneByOne(descriptors: map<string, string>, sent: seq<Reply>, sessions: seq<BrokerSession>,
                    docs: seq<Doc>): Worker
    requires QuotedValues(descriptors)
    decreases docs
  {
    if docs == [] then Worker([], sent, sessions)
    else
      var w := Round(descriptors, Worker([docs[0]], sent, sessions)).0;
      OneByOne(descriptors, w.sent, w.sessions, docs[1..])
  }

  /** What the dispatch loop handles of a queue: everything before the first targetless document. */
  function HandledPart(docs: seq<Doc>): seq<Doc> {
    if docs == [] || docs[0].NoTarget? then [] else [docs[0]] + HandledPart(docs[1..])
  }

  lemma {:induction false} HandledPartIsHandled(descriptors: map<string, string>, docs: seq<Doc>)
    ensures Returns(descriptors, docs) ==> AllHandled(descriptors, HandledPart(docs))
    ensures AllHandled(descriptors, docs) ==> HandledPart(docs) == docs && Returns(descriptors, docs)
    decreases docs
  {
    if docs != [] && !docs[0].NoTarget? {
      assert docs == [docs[0]] + docs[1..];
      HandledPartIsHandled(descriptors, docs[1..]);
    } else if docs != [] {
      assert !Handled(descriptors, docs[0]);
    }
  }

  lemma {:induction false} LoopIsOneByOne(descriptors: map<string, string>, w: Worker)
    requires QuotedValues(descriptors) && Returns(descriptors, w.queue)
    ensures var w' := Rounds(descriptors, w, |w.queue| + 1).0;
            var ideal := OneByOne(descriptors, w.sent, w.sessions, HandledPart(w.queue));
            w'.sent == ideal.sent && w'.sessions == ideal.sessions
    decreases w.queue
  {
    if w.queue != [] && !w.queue[0].NoTarget? {
      var w1 := Round(descriptors, w).0;
      var alone := Round(descriptors, Worker([w.queue[0]], w.sent, w.sessions)).0;
      assert Handled(descriptors, w.queue[0]);
      assert w1.queue == w.queue[1..] && w1.sent == alone.sent && w1.sessions == alone.sessions;
      assert HandledPart(w.queue)[1..] == HandledPart(w1.queue);
      LoopIsOneByOne(descriptors, w1);
    }
  }

  lemma {:induction false} OneByOneConcat(descriptors: map<string, string>, sent: seq<Reply>,
                                          sessions: seq<BrokerSession>, a: seq<Doc>, b: seq<Doc>)
    requires QuotedValues(descriptors)
    ensures var w := OneByOne(descriptors, sent, sessions, a);
            OneByOne(descriptors, sent, sessions, a + b) == OneByOne(descriptors, w.sent, w.sessions, b)
    decreases a
  {
    if a == [] {
      assert a + b == b;
    } else {
      assert (a + b)[0] == a[0] && (a + b)[1..] == a[1..] + b;
      var w := Round(descriptors, Worker([a[0]], sent, sessions)).0;
      OneByOneConcat(descriptors, w.sent, w.sessions, a[1..], b);
    }
  }

  /** Reading a finished document's members. */
  type Read = string -> Doc

  function ReadAll(read: Read, docs: seq<string>): (r: seq<Doc>)
    ensures |r| == |docs|
  {
    seq(|docs|, i requires 0 <= i < |docs| => read(docs[i]))
  }

  /** What was sent before plays no part in what is sent now. */
  lemma {:induction false} SentBefore(descriptors: map<string, string>, sent: seq<Reply>,
                                      sessions: seq<BrokerSession>, docs: seq<Doc>)
    requires QuotedValues(descriptors)
    ensures var w := OneByOne(descriptors, [], sessions, docs);
            OneByOne(descriptors, sent, sessions, docs) == w.(sent := sent + w.sent)
    decreases docs
  {
    if docs == [] {
      assert sent + [] == sent;
    } else {
      var w1 := Round(descriptors, Worker([docs[0]], [], sessions)).0;
      SentBefore(descriptors, w1.sent, w1.sessions, docs[1..]);
      SentBefore(descriptors, sent + w1.sent, w1.sessions, docs[1..]);
      assert Round(descriptors, Worker([docs[0]], sent, sessions)).0 == w1.(sent := sent + w1.sent) by {
        assert sent + [] == sent;
      }
      var rest := OneByOne(descriptors, [], w1.sessions, docs[1..]).sent;
      assert sent + w1.sent + rest == sent + (w1.sent + rest);
    }
  }

  // ------------------------------------------------------------------ replies on the wire

  function Text(key: string, text: string): Json.Member {
    Json.Member(key, Json.String(text))
  }

  function Envelope(worker: string, target: string, response: seq<Json.Member>): Json.Value {
    Json.Object([Text("sender", worker), Text("target", target), Json.Member("response", Json.Object(response))])
  }

  /** The message that the formatter builds for a reply. */
  function ReplyObject(worker: string, reply: Reply): Json.Value {
    match reply
    case PingReply => Envelope(worker, "ping", [Text("status", "success")])
    case DisconnectReply => Envelope(worker, "disconnect", [Text("status", "success")])
    case MoveReply(station, true) =>
      Envelope(worker, "mqtt_message", [Text("station_id", station), Text("status", "success")])
    case MoveReply(station, false) =>
      Envelope(worker, "mqtt_message", [Text("station_id", station), Text("status", "fail"), Text("message", "")])
    case BlockUnknown(station) =>
      Envelope(worker, "mqtt_message",
               [Text("station_id", station), Text("status", "fail"), Text("message", "LU not found")])
  }

  predicate Says(v: Json.Value, path: seq<string>, text: string) {
    JsonReader.TextAt(v, path) == Some(text)
  }

  /** What a reader of the reply's members finds: who sent it, which kind of command it answers, and for
      a move whose station it was and whether a lift was reached. */
  lemma RepliesSayWhatHappened(worker: string, reply: Reply)
    ensures var v := ReplyObject(worker, reply);
            && Says(v, ["sender"], worker)
            && match reply
               case PingReply => Says(v, ["target"], "ping") && Says(v, ["response", "status"], "success")
               case DisconnectReply => Says(v, ["target"], "disconnect") && Says(v, ["response", "status"], "success")
               case MoveReply(station, found) =>
                 && Says(v, ["target"], "mqtt_message") && Says(v, ["response", "station_id"], station)
                 && Says(v, ["response", "status"], if found then "success" else "fail")
               case BlockUnknown(station) =>
                 && Says(v, ["target"], "mqtt_message") && Says(v, ["response", "station_id"], station)
                 && Says(v, ["response", "status"], "fail") && Says(v, ["response", "message"], "LU not found")
  {
    match reply
    case PingReply => EnvelopeSays(worker, "ping", STATUS_ONLY, 0, "status", "success");
    case DisconnectReply => EnvelopeSays(worker, "disconnect", STATUS_ONLY, 0, "status", "success");
    case MoveReply(station, found) => MoveReplySays(worker, station, found);
    case BlockUnknown(station) =>
      var response := [Text("station_id", station), Text("status", "fail"), Text("message", "LU not found")];
      EnvelopeSays(worker, "mqtt_message", response, 0, "station_id", station);
      EnvelopeSays(worker, "mqtt_message", response, 1, "status", "fail");
      EnvelopeSays(worker, "mqtt_message", response, 2, "message", "LU not found");
  }

  const STATUS_ONLY := [Text("status", "success")]

  lemma MoveReplySays(worker: string, station: string, found: bool)
    ensures var v := ReplyObject(worker, MoveReply(station, found));
            && Says(v, ["sender"], worker) && Says(v, ["target"], "mqtt_message")
            && Says(v, ["response", "station_id"], station)
            && Says(v, ["response", "status"], if found then "success" else "fail")
  {
    if found {
      var response := [Text("station_id", station), Text("status", "success")];
      EnvelopeSays(worker, "mqtt_message", response, 0, "station_id", station);
      EnvelopeSays(worker, "mqtt_message", response, 1, "status", "success");
    } else {
      var response := [Text("station_id", station), Text("status", "fail"), Text("message", "")];
      EnvelopeSays(worker, "mqtt_message", response, 0, "station_id", station);
      EnvelopeSays(worker, "mqtt_message", response, 1, "status", "fail");
    }
  }

  lemma EnvelopeSays(worker: string, target: string, response: seq<Json.Member>, k: nat, key: string, text: string)
    requires k < |response| && response[k] == Text(key, text)
    requires forall i :: 0 <= i < k ==> response[i].key != key
    ensures var v := Envelope(worker, target, response);
            Says(v, ["sender"], worker) && Says(v, ["target"], target) && Says(v, ["response", key], text)
  {
    var members := Envelope(worker, target, response).members;
    JsonReader.TextIs(members, 0, "sender", worker);
    JsonReader.TextIs(members, 1, "target", target);
    JsonReader.TextIs(response, k, key, text);
    JsonReader.InnerPath(members, 2, "response", [key]);
    assert ["response"] + [key] == ["response", key];
  }

  /** Every document that is replied to gets the reply of its kind, in order; a move's is about its own
      station. */
  predicate Answers(docs: seq<Doc>, replies: seq<Reply>)
    decreases docs
  {
    if docs == [] then replies == []
    else if !IsReplying(docs[0]) then Answers(docs[1..], replies)
    else
      && replies != [] && Answers(docs[1..], replies[1..])
      && match docs[0]
         case Ping => replies[0] == PingReply
         case Disconnect => replies[0] == DisconnectReply
         case MoveLift(station, _, _) => replies[0].MoveReply? && replies[0].station == station
         case _ => true
  }

  lemma {:induction false} HandledDocsAreAnswered(descriptors: map<string, string>, sessions: seq<BrokerSession>,
                                                  docs: seq<Doc>)
    requires QuotedValues(descriptors) && AllHandled(descriptors, docs)
    ensures Answers(docs, OneByOne(descriptors, [], sessions, docs).sent)
    decreases docs
  {
    if docs != [] {
      assert Handled(descriptors, docs[0]);
      var w := Round(descriptors, Worker([docs[0]], [], sessions)).0;
      HandledDocsAreAnswered(descriptors, w.sessions, docs[1..]);
      SentBefore(descriptors, w.sent, w.sessions, docs[1..]);
      var rest := OneByOne(descriptors, [], w.sessions, docs[1..]).sent;
      assert |w.sent| == 1 ==> (w.sent + rest)[1..] == rest;
      assert w.sent == [] ==> w.sent + rest == rest;
    }
  }

  function ReplyTexts(worker: string, replies: seq<Reply>): (texts: seq<string>)
    ensures |texts| == |replies| && PartialSend.NonEmpty(texts)
  {
    seq(|replies|, i requires 0 <= i < |replies| => Json.Serialize(ReplyObject(worker, replies[i])))
  }

  predicate IsReplying(doc: Doc) {
    doc.Ping? || doc.Disconnect? || doc.MoveLift?
  }

  function Replying(docs: seq<Doc>): nat {
    if docs == [] then 0 else (if IsReplying(docs[0]) then 1 else 0) + Replying(docs[1..])
  }

  /** An accepting connect answer starts another receive. */
  function ConnectAnswers(docs: seq<Doc>): nat {
    if docs == [] then 0 else (if docs[0].ConnectAnswer? then 1 else 0) + ConnectAnswers(docs[1..])
  }

  lemma ConnectAnswersStep(docs: seq<Doc>)
    requires docs != [] && !docs[0].NoTarget?
    ensures ConnectAnswers(HandledPart(docs))
         == (if docs[0].ConnectAnswer? then 1 else 0) + ConnectAnswers(HandledPart(docs[1..]))
  {
    assert HandledPart(docs)[1..] == HandledPart(docs[1..]);
  }

  lemma {:induction false} OneReplyEach(descriptors: map<string, string>, sent: seq<Reply>,
                                        sessions: seq<BrokerSession>, docs: seq<Doc>)
    requires QuotedValues(descriptors) && AllHandled(descriptors, docs)
    ensures |OneByOne(descriptors, sent, sessions, docs).sent| == |sent| + Replying(docs)
    decreases docs
  {
    if docs != [] {
      assert Handled(descriptors, docs[0]);
      var w := Round(descriptors, Worker([docs[0]], sent, sessions)).0;
      OneReplyEach(descriptors, w.sent, w.sessions, docs[1..]);
    }
  }

  // ------------------------------------------------------------------ one move

  predicate IsNamed(sessions: seq<BrokerSession>, d: string) {
    exists i :: 0 <= i < |sessions| && sessions[i].name == d
  }

  /** Over every history of the broker, a move for a known block with a non-empty descriptor sends
      exactly one response, with the same station id; it says success iff some session now has that
      name, and then exactly one message, to that lift's topic, goes to the first such session, which
      is not a closed one, and to no other. */
  lemma MoveIsDelivered(logins: set<string>, events: seq<Event>, descriptors: map<string, string>, doc: Doc,
                        sent: seq<Reply>)
    requires IsRun(logins, [], events) && QuotedValues(descriptors)
    requires doc.MoveLift? && doc.block in descriptors && |descriptors[doc.block]| > 2
    ensures var sessions := Run(logins, [], events);
            var d := Inner(descriptors[doc.block]);
            var k := FirstNamed(sessions, d);
            var (w, goes) := Rounds(descriptors, Worker([doc], sent, sessions), 1);
            && w.queue == [] && !goes
            && w.sent == sent + [MoveReply(doc.station, IsNamed(sessions, d))]
            && |w.sessions| == |sessions|
            && (forall i :: 0 <= i < |sessions| && !(IsNamed(sessions, d) && i == k) ==> w.sessions[i] == sessions[i])
            && (IsNamed(sessions, d) ==>
                 && k < |sessions| && !sessions[k].closed
                 && w.sessions[k] == sessions[k].(published := sessions[k].published + [SetCommand(d, doc.floor)]))
  {
    var sessions := Run(logins, [], events);
    var d := Inner(descriptors[doc.block]);
    HistoriesKeepClosedNameless(logins, [], events);
    var k := FirstNamed(sessions, d);
    if IsNamed(sessions, d) {
      var i :| 0 <= i < |sessions| && sessions[i].name == d;
      assert k <= i;
      assert sessions[k].name != "";
    }
    var w1 := Round(descriptors, Worker([doc], sent, sessions)).0;
    assert w1.queue == [];
    assert Rounds(descriptors, Worker([doc], sent, sessions), 1) == Rounds(descriptors, w1, 0);
  }

  /** In every history a publish reaches a closed session only for the empty descriptor. */
  lemma ClosedSessionIsReachedOnlyByEmptyName(logins: set<string>, events: seq<Event>, d: string)
    requires IsRun(logins, [], events)
    ensures var sessions := Run(logins, [], events);
            var k := FirstNamed(sessions, d);
            k < |sessions| && sessions[k].closed ==> d == ""
  {
    HistoriesKeepClosedNameless(logins, [], events);
  }

  /** And for that one it can: once a first lift has gone, a block whose descriptor is empty is
      "moved" successfully by publishing to the closed session. */
  lemma EmptyDescriptorReachesAClosedSession(logins: set<string>, m: Message)
    ensures var events := [Accepted, Closes(0)];
            && IsRun(logins, [], events)
            && var sessions := Run(logins, [], events);
               FirstNamed(sessions, "") == 0 && |sessions| == 1 && sessions[0].closed
  {
    var s1 := Step(logins, [], Accepted);
    var s2 := Step(logins, s1, Closes(0));
    assert s1 == [NEW_SESSION] && s2 == [Close(NEW_SESSION)];
    assert [Accepted, Closes(0)][1..] == [Closes(0)] && [Closes(0)][1..] == [];
    assert IsRun(logins, s1, [Closes(0)]) && Run(logins, s1, [Closes(0)]) == Run(logins, s2, []);
  }

  // ------------------------------------------------------------------ the class

  class MSWorker {
    const broker: MQTTBroker
    const descriptors: map<string, string>
    var queue: seq<Doc>
    var sent: seq<Reply>      // the replies handed over
    var armed: nat            // the receives outstanding

    /** As it is once the connect request is out. */
    constructor (broker: MQTTBroker, descriptors: map<string, string>)
      ensures this.broker == broker && this.descriptors == descriptors && queue == [] && sent == [] && armed == 1
    {
      this.broker, this.descriptors, queue, sent, armed := broker, descriptors, [], [], 1;
    }

    function Model(): Worker
      reads this, broker
    {
      Worker(queue, sent, broker.sessions)
    }

    /** `MQTTWorker::moveLift`, called back from the dispatch loop, with `responseMove`. */
    method PublishMove(descriptor: string, floor: string, station: string)
      requires |descriptor| >= 2
      modifies this`sent, broker
      ensures broker.sessions == Publish(old(broker.sessions), Inner(descriptor), SetCommand(Inner(descriptor), floor))
      ensures var found := FirstNamed(old(broker.sessions), Inner(descriptor)) < |old(broker.sessions)|;
              sent == old(sent) + [MoveReply(station, found)]
    {
      var d := Inner(descriptor);
      var found := broker.PublishTo(d, SetCommand(d, floor));
      if found {
        sent := sent + [MoveReply(station, true)];
      } else {
        sent := sent + [MoveReply(station, false)];
      }
    }

    /** The dispatch loop, on queues on which it returns at all; the queue is emptied behind it. */
    method CommandAnalize()
      requires QuotedValues(descriptors) && Returns(descriptors, queue)
      modifies this, broker
      ensures queue == []
      ensures armed == old(armed) + ConnectAnswers(HandledPart(old(queue)))
      ensures var w := old(Rounds(descriptors, Model(), |queue| + 1)).0;
              sent == w.sent && broker.sessions == w.sessions
    {
      ghost var start := Model();
      ghost var n := |queue| + 1;
      while |queue| > 0
        invariant Returns(descriptors, queue)
        invariant armed + ConnectAnswers(HandledPart(queue)) == old(armed) + ConnectAnswers(HandledPart(start.queue))
        invariant Rounds(descriptors, Model(), |queue| + 1).0.sent == Rounds(descriptors, start, n).0.sent
        invariant Rounds(descriptors, Model(), |queue| + 1).0.sessions == Rounds(descriptors, start, n).0.sessions
        decreases |queue|
      {
        if !queue[0].NoTarget? {
          ConnectAnswersStep(queue);
        }
        match queue[0] {
          case Ping =>
            queue := queue[1..];
            sent := sent + [PingReply];
          case Disconnect =>
            queue := queue[1..];
            sent := sent + [DisconnectReply];
          case ConnectAnswer =>
            armed := armed + 1;
            queue := queue[1..];
          case MoveLift(station, block, floor) =>
            PublishMove(descriptors[block], floor, station);
            queue := queue[1..];
          case NoTarget =>
            break;
        }
      }
      queue := [];
    }
  }
}
