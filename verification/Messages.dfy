/** The messages that carry a voice request to a lift and back, as the formatter builds them and as the
    service at the other end reads them. */
module Messages {
  import opened Common
  import opened Json
  import opened JsonReader
  import opened LiftWorker
  import Https
  import TextWorker

  // ------------------------------------------------------------------ building

  function Message(sender: string, target: string, kind: string, content: seq<Member>): Value {
    Object([Text("sender", sender), Text("target", target), Member(kind, Object(content))])
  }

  /** What is shown and what is spoken; the conversation goes on. */
  function Spoken(text: string): Value {
    Object([Text("text", text), Text("tts", text), Member("end_session", Bool(false))])
  }

  function MqttCommand(block: string, floor: int): Member {
    Member("mqtt_command", Object([Text("lb_id", block), Text("value", Decimal(floor))]))
  }

  /** The text worker's answer. */
  function AnswerObject(sender: string, station: string, answer: TextWorker.Answer): Value {
    match answer
    case Static(text) =>
      Message(sender, "static_message", "response",
              [Text("station_id", station), Member("response_body", Spoken(text))])
    case Move(text, block, floor) =>
      Message(sender, "move_lift", "response",
              [Text("station_id", station), Member("response_body", Spoken(text)), MqttCommand(block, floor)])
  }

  /** The main server's command to an MQTT worker. */
  function CommandObject(sender: string, c: Https.MoveCommand): Value {
    Message(sender, "move_lift", "request", [Text("station_id", c.station), MqttCommand(c.block, c.floor)])
  }

  // ------------------------------------------------------------------ reading

  /** What the main server makes of a text worker's answer. */
  function TextAnswerIn(v: Value): Https.TextAnswer {
    match TextAt(v, ["target"])
    case Some("static_message") =>
      (match TextAt(v, ["response", "response_body", "text"])
       case Some(text) => Https.StaticMessage(text)
       case None => Https.OtherAnswer)
    case Some("move_lift") =>
      (match (TextAt(v, ["response", "station_id"]), TextAt(v, ["response", "mqtt_command", "value"]),
              TextAt(v, ["response", "mqtt_command", "lb_id"]))
       case (Some(station), Some(value), Some(block)) => Https.MoveLift(station, block, Stoi(value))
       case _ => Https.OtherAnswer)
    case Some("application_not_found") => Https.NotFoundAnswer
    case _ => Https.OtherAnswer
  }

  /** What the main server makes of an MQTT worker's reply: any status but "success" is a failure, and
      without a status something else went wrong. */
  function MqttAnswerIn(v: Value): Https.MqttAnswer {
    if TextAt(v, ["target"]) != Some("mqtt_message") then Https.OtherMqttAnswer
    else match At(v, "response")
      case None => Https.OtherMqttAnswer
      case Some(response) =>
        match At(response, "status")
        case None => Https.OtherMqttAnswer
        case Some(status) => Https.Moved(status == String("success"))
  }

  /** What an MQTT worker makes of a document of the main server. */
  function DocIn(v: Value): Doc {
    match At(v, "target")
    case None => NoTarget
    case Some(String("ping")) => Ping
    case Some(String("disconnect")) => Disconnect
    case Some(String("connect")) => ConnectAnswer
    case Some(String("move_lift")) =>
      (match (TextAt(v, ["request", "station_id"]), TextAt(v, ["request", "mqtt_command", "lb_id"]),
              TextAt(v, ["request", "mqtt_command", "value"]))
       case (Some(station), Some(block), Some(floor)) => MoveLift(station, block, floor)
       case _ => NoTarget)
    case Some(_) => OtherTarget
  }

  // ------------------------------------------------------------------ from the wire

  /** The same of a finished document. */
  function TextAnswerOf(doc: string): Https.TextAnswer {
    match ReadDocument(doc) case None => Https.OtherAnswer case Some(v) => TextAnswerIn(v)
  }

  function MqttAnswerOf(doc: string): Https.MqttAnswer {
    match ReadDocument(doc) case None => Https.OtherMqttAnswer case Some(v) => MqttAnswerIn(v)
  }

  function DocOf(doc: string): Doc {
    match ReadDocument(doc) case None => NoTarget case Some(v) => DocIn(v)
  }

  // ------------------------------------------------------------------ what is written is understood

  lemma Target(sender: string, target: string, kind: string, content: seq<Member>)
    ensures var v := Message(sender, target, kind, content);
            TextAt(v, ["target"]) == Some(target) && At(v, "target") == Some(String(target))
  {
    TextIs(Message(sender, target, kind, content).members, 1, "target", target);
    AtIs(Message(sender, target, kind, content).members, 1, "target");
  }

  lemma Inside(sender: string, target: string, kind: string, content: seq<Member>, path: seq<string>)
    requires kind != "sender" && kind != "target"
    ensures TextAt(Message(sender, target, kind, content), [kind] + path) == TextAt(Object(content), path)
  {
    InnerPath(Message(sender, target, kind, content).members, 2, kind, path);
  }

  lemma CommandSays(block: string, floor: int)
    ensures TextAt(MqttCommand(block, floor).value, ["lb_id"]) == Some(block)
    ensures TextAt(MqttCommand(block, floor).value, ["value"]) == Some(Decimal(floor))
  {
    var members := MqttCommand(block, floor).value.members;
    TextIs(members, 0, "lb_id", block);
    TextIs(members, 1, "value", Decimal(floor));
  }

  /** Station, block and floor of a message that carries a lift command as member k. */
  lemma LiftCommandIsRead(sender: string, kind: string, content: seq<Member>, k: nat, station: string, block: string,
                          floor: int)
    requires kind != "sender" && kind != "target"
    requires 0 < k < |content| && content[0] == Text("station_id", station) && content[k] == MqttCommand(block, floor)
    requires forall i :: 0 <= i < k ==> content[i].key != "mqtt_command"
    ensures var v := Message(sender, "move_lift", kind, content);
            && TextAt(v, [kind, "station_id"]) == Some(station)
            && TextAt(v, [kind, "mqtt_command", "lb_id"]) == Some(block)
            && TextAt(v, [kind, "mqtt_command", "value"]) == Some(Decimal(floor))
  {
    TextIs(content, 0, "station_id", station);
    Inside(sender, "move_lift", kind, content, ["station_id"]);
    assert [kind] + ["station_id"] == [kind, "station_id"];
    CommandSays(block, floor);
    CommandPath(sender, kind, content, k, "lb_id");
    CommandPath(sender, kind, content, k, "value");
  }

  lemma CommandPath(sender: string, kind: string, content: seq<Member>, k: nat, key: string)
    requires kind != "sender" && kind != "target" && k < |content| && content[k].key == "mqtt_command"
    requires forall i :: 0 <= i < k ==> content[i].key != "mqtt_command"
    ensures TextAt(Message(sender, "move_lift", kind, content), [kind, "mqtt_command", key])
         == TextAt(content[k].value, [key])
  {
    InnerPath(content, k, "mqtt_command", [key]);
    Inside(sender, "move_lift", kind, content, ["mqtt_command"] + [key]);
    assert [kind] + (["mqtt_command"] + [key]) == [kind, "mqtt_command", key];
  }

  lemma SpokenIsRead(sender: string, station: string, text: string)
    ensures var v := AnswerObject(sender, station, TextWorker.Static(text));
            TextAt(v, ["response", "response_body", "text"]) == Some(text)
  {
    var content := [Text("station_id", station), Member("response_body", Spoken(text))];
    TextIs(Spoken(text).members, 0, "text", text);
    InnerPath(content, 1, "response_body", ["text"]);
    Inside(sender, "static_message", "response", content, ["response_body"] + ["text"]);
    assert ["response"] + (["response_body"] + ["text"]) == ["response", "response_body", "text"];
  }

  /** The main server reads a text worker's answer as it was meant; a floor is an `int`. */
  lemma AnswerIsUnderstood(sender: string, station: string, answer: TextWorker.Answer)
    requires answer.Move? ==> FitsInt(answer.floor)
    ensures TextAnswerIn(AnswerObject(sender, station, answer))
         == match answer
            case Static(text) => Https.StaticMessage(text)
            case Move(_, block, floor) => Https.MoveLift(station, block, Some(floor))
  {
    match answer
    case Static(text) =>
      SpokenIsRead(sender, station, text);
      var content := [Text("station_id", station), Member("response_body", Spoken(text))];
      Target(sender, "static_message", "response", content);
    case Move(text, block, floor) =>
      var content := [Text("station_id", station), Member("response_body", Spoken(text)), MqttCommand(block, floor)];
      Target(sender, "move_lift", "response", content);
      LiftCommandIsRead(sender, "response", content, 2, station, block, floor);
      DecimalIsRead(floor);
  }

  /** The MQTT worker reads the main server's command as it was meant. */
  lemma CommandIsUnderstood(sender: string, c: Https.MoveCommand)
    ensures DocIn(CommandObject(sender, c)) == MoveLift(c.station, c.block, Decimal(c.floor))
  {
    var content := [Text("station_id", c.station), MqttCommand(c.block, c.floor)];
    Target(sender, "move_lift", "request", content);
    LiftCommandIsRead(sender, "request", content, 1, c.station, c.block, c.floor);
  }

  /** The main server reads the MQTT worker's reply to a move as what happened: success iff a lift was
      reached. */
  lemma ReplyIsUnderstood(worker: string, reply: Reply)
    requires reply.MoveReply? || reply.BlockUnknown?
    ensures MqttAnswerIn(ReplyObject(worker, reply)) == Https.Moved(reply.MoveReply? && reply.success)
  {
    var v := ReplyObject(worker, reply);
    RepliesSayWhatHappened(worker, reply);
    AtIs(v.members, 2, "response");
    AtIs(v.members[2].value.members, 1, "status");
  }
}
