/** The database client: three queues set by `setQuerys`, three flags, and a connect, query*,
    disconnect conversation that ends in one callback. Messages are modelled as values; sockets are
    events. */
module ClientDb {
  import opened Common
  import Json

  /** A column name with its serialised values, and a table name with its columns. */
  type Table = map<string, seq<string>>
  type Data = map<string, Table>

  datatype Request =
    | ConnectRequest
    | QueryRequest(fields: seq<string>, query: string)
    | DisconnectRequest

  datatype Reply =
    | ConnectReply(success: bool)
    | QueryReply(columns: map<string, seq<string>>)
    | DisconnectReply(success: bool)

  /** One query as it was asked. */
  datatype Ask = Ask(table: string, fields: seq<string>, query: string)

  datatype Client = Client(
    tables: seq<string>,
    fields: seq<seq<string>>,
    conds: seq<string>,
    condFlag: bool,
    connected: bool,
    disconnecting: bool,
    tableSent: string,
    fieldsSent: seq<string>,
    resp: Data,
    open: bool,
    outbox: Option<Request>,   // the request that is out and not yet answered
    asked: seq<Ask>,           // the queries sent since the last setQuerys
    callbacks: seq<Data>)      // what the callback was given, call by call

  const NEW_CLIENT :=
    Client([], [], [], false, false, false, "", [], map[], false, None, [], [])

  // ------------------------------------------------------------------ query text and decoding

  /** SELECT, the fields joined by ", ", FROM, the table, and the condition if there is one. */
  function QueryText(fields: seq<string>, table: string, cond: Option<string>): string
    requires fields != []
  {
    "SELECT " + Join(fields, ", ") + " FROM " + table + (if cond.Some? then " " + cond.value else "")
  }

  function Quoted(cells: seq<string>): (r: seq<string>)
    ensures |r| == |cells|
  {
    seq(|cells|, j requires 0 <= j < |cells| => Json.Serialize(Json.String(cells[j])))
  }

  /** A reply's requested columns as a table of serialised values; None when one is missing. */
  function Decode(fields: seq<string>, columns: map<string, seq<string>>): Option<Table> {
    if forall f :: f in fields ==> f in columns
    then Some(map f | f in fields :: Quoted(columns[f]))
    else None
  }

  // ------------------------------------------------------------------ the handlers as functions

  predicate QueuesFit(tables: seq<string>, fields: seq<seq<string>>) {
    |tables| == |fields| && forall i :: 0 <= i < |fields| ==> fields[i] != []
  }

  /** What the code relies on when it reads the fronts of its queues. */
  predicate Inv(c: Client) {
    QueuesFit(c.tables, c.fields) && (c.condFlag ==> c.conds != [])
  }

  function Stop(c: Client): Client {
    c.(open := false, outbox := None)
  }

  function Start(c: Client): Client {
    c.(connected := false, disconnecting := false, open := true, outbox := None)
  }

  /** Conditions are only taken over when there are any; when there are too many or too few the flag
      keeps its old value. */
  function SetQuerys(c: Client, tables: seq<string>, fields: seq<seq<string>>, conds: seq<string>): (c': Client)
    requires Inv(c) && QueuesFit(tables, fields)
    ensures Inv(c')
    ensures conds != [] && |conds| != |tables| ==> !c'.open && c'.outbox.None?
  {
    var c1 := c.(tables := tables, fields := fields, asked := []);
    if conds == [] then c1
    else if |conds| != |tables| then Stop(c1.(conds := conds))
    else c1.(conds := conds, condFlag := true)
  }

  function NextCondition(c: Client): Option<string> {
    if c.condFlag && c.conds != [] then Some(c.conds[0]) else None
  }

  function QueryGenerator(c: Client): (c': Client)
    requires Inv(c)
    ensures Inv(c')
  {
    if c.disconnecting then Stop(c.(callbacks := c.callbacks + [c.resp]))
    else if c.tables == [] then c.(outbox := Some(DisconnectRequest))
    else
      var query := QueryText(c.fields[0], c.tables[0], NextCondition(c));
      var conds := if c.condFlag then c.conds[1..] else c.conds;
      c.(tables := c.tables[1..], fields := c.fields[1..],
         tableSent := c.tables[0], fieldsSent := c.fields[0],
         conds := conds, condFlag := c.condFlag && conds != [],
         asked := c.asked + [Ask(c.tables[0], c.fields[0], query)],
         outbox := Some(QueryRequest(c.fields[0], query)))
  }

  function CheckConnect(c: Client, error: bool): (c': Client)
    requires Inv(c)
    ensures Inv(c')
  {
    if error then Start(Stop(c))
    else if c.connected then QueryGenerator(c)
    else if c.disconnecting then Stop(c)
    else c.(outbox := Some(ConnectRequest))
  }

  function CommandAnalize(c: Client, reply: Reply): (c': Client)
    requires Inv(c)
    ensures Inv(c')
  {
    match reply
    case ConnectReply(true) => CheckConnect(c.(connected := true, disconnecting := false), false)
    case ConnectReply(false) => CheckConnect(c.(disconnecting := true), false)
    case DisconnectReply(success) => CheckConnect(c.(disconnecting := success), false)
    case QueryReply(columns) =>
      var table := Decode(c.fieldsSent, columns);
      CheckConnect(if table.Some? then c.(resp := c.resp[c.tableSent := table.value]) else c, false)
  }

  // ------------------------------------------------------------------ runs with faults

  datatype Event =
    | Restart                       // start() called from outside
    | Shutdown                      // stop() called from outside
    | Connected(error: bool)
    | SendFailed
    | ReceiveFailed
    | Received(reply: Reply)

  function Step(c: Client, e: Event): (c': Client)
    requires Inv(c)
    ensures Inv(c')
  {
    match e
    case Restart => Start(c)
    case Shutdown => Stop(c)
    case Connected(error) => CheckConnect(c, error)
    case SendFailed => Start(Stop(c))
    case ReceiveFailed => Start(Stop(c))
    case Received(reply) => CommandAnalize(c.(outbox := None), reply)
  }

  function Run(c: Client, events: seq<Event>): (c': Client)
    requires Inv(c)
    ensures Inv(c')
    decreases events
  {
    if events == [] then c else Run(Step(c, events[0]), events[1..])
  }

  /** The conditions that the queries after a `setQuerys` will carry: the new ones when they match the
      tables in number; otherwise, when the flag is still up from before, the new ones all the same,
      or the old ones when there are no new ones. */
  function Conditions(c: Client, tables: seq<string>, conds: seq<string>): seq<string> {
    if conds != [] && |conds| == |tables| then conds
    else if !c.condFlag then []
    else if conds == [] then c.conds
    else conds
  }

  function CondAt(conds: seq<string>, i: nat): Option<string> {
    if i < |conds| then Some(conds[i]) else None
  }

  /** The i-th query that a `setQuerys` leads to. */
  function Planned(tables: seq<string>, fields: seq<seq<string>>, conds: seq<string>, i: nat): Ask
    requires QueuesFit(tables, fields) && i < |tables|
  {
    Ask(tables[i], fields[i], QueryText(fields[i], tables[i], CondAt(conds, i)))
  }

  function Plan(tables: seq<string>, fields: seq<seq<string>>, conds: seq<string>): (plan: seq<Ask>)
    requires QueuesFit(tables, fields)
    ensures |plan| == |tables|
  {
    seq(|tables|, i requires 0 <= i < |tables| => Planned(tables, fields, conds, i))
  }

  /** Asked so far, followed by still queued, is the plan; the conditions left are those of the
      tables left. */
  ghost predicate OnPlan(c: Client, tables: seq<string>, fields: seq<seq<string>>, conds: seq<string>)
    requires QueuesFit(tables, fields)
  {
    var n := |c.asked|;
    && Inv(c)
    && n <= |tables|
    && c.asked == Plan(tables, fields, conds)[..n]
    && c.tables == tables[n..]
    && c.fields == fields[n..]
    && (c.condFlag <==> n < |conds|)
    && (c.condFlag ==> c.conds == conds[n..])
  }

  lemma QueryGeneratorOnPlan(c: Client, tables: seq<string>, fields: seq<seq<string>>, conds: seq<string>)
    requires QueuesFit(tables, fields) && OnPlan(c, tables, fields, conds)
    ensures OnPlan(QueryGenerator(c), tables, fields, conds)
  {
    var n := |c.asked|;
    var plan := Plan(tables, fields, conds);
    if !c.disconnecting && c.tables != [] {
      assert c.tables[0] == tables[n] && c.fields[0] == fields[n];
      assert plan[..n + 1] == plan[..n] + [Planned(tables, fields, conds, n)];
      assert c.condFlag ==> c.conds[0] == conds[n] && c.conds[1..] == conds[n + 1..];
    }
  }

  lemma CheckConnectOnPlan(c: Client, error: bool, tables: seq<string>, fields: seq<seq<string>>, conds: seq<string>)
    requires QueuesFit(tables, fields) && OnPlan(c, tables, fields, conds)
    ensures OnPlan(CheckConnect(c, error), tables, fields, conds)
  {
    if !error && c.connected {
      QueryGeneratorOnPlan(c, tables, fields, conds);
    }
  }

  /** The state in which a reply has been noted and `__checkConnect` is about to run. */
  function Noted(c: Client, reply: Reply): (c': Client)
    requires Inv(c)
    ensures c'.tables == c.tables && c'.fields == c.fields && c'.asked == c.asked
    ensures c'.conds == c.conds && c'.condFlag == c.condFlag
    ensures CommandAnalize(c, reply) == CheckConnect(c', false)
  {
    match reply
    case ConnectReply(success) =>
      if success then c.(connected := true, disconnecting := false) else c.(disconnecting := true)
    case DisconnectReply(success) => c.(disconnecting := success)
    case QueryReply(columns) =>
      var table := Decode(c.fieldsSent, columns);
      if table.Some? then c.(resp := c.resp[c.tableSent := table.value]) else c
  }

  lemma StepOnPlan(c: Client, e: Event, tables: seq<string>, fields: seq<seq<string>>, conds: seq<string>)
    requires QueuesFit(tables, fields) && OnPlan(c, tables, fields, conds)
    ensures OnPlan(Step(c, e), tables, fields, conds)
  {
    match e
    case Connected(error) => CheckConnectOnPlan(c, error, tables, fields, conds);
    case Received(reply) => CheckConnectOnPlan(Noted(c.(outbox := None), reply), false, tables, fields, conds);
    case _ =>
  }

  lemma {:induction false} RunOnPlan(c: Client, events: seq<Event>, tables: seq<string>, fields: seq<seq<string>>,
                                     conds: seq<string>)
    requires QueuesFit(tables, fields) && OnPlan(c, tables, fields, conds)
    ensures OnPlan(Run(c, events), tables, fields, conds)
    decreases events
  {
    if events != [] {
      StepOnPlan(c, events[0], tables, fields, conds);
      RunOnPlan(Step(c, events[0]), events[1..], tables, fields, conds);
    }
  }

  lemma SetQuerysOnPlan(c: Client, tables: seq<string>, fields: seq<seq<string>>, conds: seq<string>)
    requires Inv(c) && QueuesFit(tables, fields)
    ensures OnPlan(SetQuerys(c, tables, fields, conds), tables, fields, Conditions(c, tables, conds))
  {
  }

  /** Query conservation across faults. From any `setQuerys` on, through any interleaving of
      restarts, shutdowns, connection, send and receive errors and replies of any kind, the queries
      asked are a prefix of the plan and the queues hold exactly the rest of it: each table is asked
      at most once, in order, with its own fields and its own condition. */
  lemma QueriesAreConserved(c: Client, tables: seq<string>, fields: seq<seq<string>>, conds: seq<string>,
                            events: seq<Event>)
    requires Inv(c) && QueuesFit(tables, fields)
    ensures var c' := Run(SetQuerys(c, tables, fields, conds), events);
            var n := |c'.asked|;
            && n <= |tables|
            && c'.asked == Plan(tables, fields, Conditions(c, tables, conds))[..n]
            && c'.tables == tables[n..] && c'.fields == fields[n..]
  {
    SetQuerysOnPlan(c, tables, fields, conds);
    RunOnPlan(SetQuerys(c, tables, fields, conds), events, tables, fields, Conditions(c, tables, conds));
  }

  /** Condition alignment. With one condition for each table, the flag is up iff tables are left, the
      queue of conditions is then as long as that of the tables and not empty, and query i carries
      condition i. */
  lemma ConditionsAreAligned(c: Client, tables: seq<string>, fields: seq<seq<string>>, conds: seq<string>,
                             events: seq<Event>)
    requires Inv(c) && QueuesFit(tables, fields) && conds != [] && |conds| == |tables|
    ensures var c' := Run(SetQuerys(c, tables, fields, conds), events);
            && (c'.condFlag <==> c'.tables != [])
            && (c'.condFlag ==> |c'.conds| == |c'.tables| > 0)
            && |c'.asked| <= |tables|
            && forall i :: 0 <= i < |c'.asked| ==>
                 c'.asked[i] == Ask(tables[i], fields[i], QueryText(fields[i], tables[i], Some(conds[i])))
  {
    SetQuerysOnPlan(c, tables, fields, conds);
    RunOnPlan(SetQuerys(c, tables, fields, conds), events, tables, fields, conds);
    var c' := Run(SetQuerys(c, tables, fields, conds), events);
    forall i | 0 <= i < |c'.asked|
      ensures c'.asked[i] == Ask(tables[i], fields[i], QueryText(fields[i], tables[i], Some(conds[i])))
    {
      assert Plan(tables, fields, conds)[..|c'.asked|][i] == Planned(tables, fields, conds, i);
    }
  }

  /** The queries asked so far are the plain ones, without conditions. */
  predicate AsksPlainly(c: Client, tables: seq<string>, fields: seq<seq<string>>)
    requires QueuesFit(tables, fields)
  {
    forall i :: 0 <= i < |c.asked| && i < |tables| ==>
      c.asked[i] == Ask(tables[i], fields[i], QueryText(fields[i], tables[i], None))
  }

  /** A fetch that is set up without conditions asks without conditions, whatever happens to it, iff the
      flag is not still up from an earlier fetch that stopped half way. */
  lemma NoConditionsIff(c: Client, tables: seq<string>, fields: seq<seq<string>>)
    requires Inv(c) && QueuesFit(tables, fields) && tables != []
    ensures (forall events: seq<Event> :: AsksPlainly(Run(SetQuerys(c, tables, fields, []), events), tables, fields))
       <==> !c.condFlag
  {
    if c.condFlag {
      FirstQueryUsesTheOldCondition(c, tables, fields);
    } else {
      forall events: seq<Event> ensures AsksPlainly(Run(SetQuerys(c, tables, fields, []), events), tables, fields) {
        QueriesAreConserved(c, tables, fields, [], events);
        var asked := Run(SetQuerys(c, tables, fields, []), events).asked;
        assert forall i :: 0 <= i < |asked| ==> asked[i] == Planned(tables, fields, [], i);
      }
    }
  }

  lemma FirstQueryUsesTheOldCondition(c: Client, tables: seq<string>, fields: seq<seq<string>>)
    requires Inv(c) && QueuesFit(tables, fields) && tables != [] && c.condFlag
    ensures var events := [Restart, Connected(false), Received(ConnectReply(true))];
            var c' := Run(SetQuerys(c, tables, fields, []), events);
            && c'.asked == [Ask(tables[0], fields[0], QueryText(fields[0], tables[0], Some(c.conds[0])))]
            && !AsksPlainly(c', tables, fields)
  {
    var s := SetQuerys(c, tables, fields, []);
    RunThree(s, Restart, Connected(false), Received(ConnectReply(true)));
    var s2 := Step(Step(s, Restart), Connected(false));
    assert s2.tables == tables && s2.condFlag && s2.conds == c.conds;
    var c' := Step(s2, Received(ConnectReply(true)));
    var plain := QueryText(fields[0], tables[0], None);
    assert c'.asked == [] + [Ask(tables[0], fields[0], QueryText(fields[0], tables[0], Some(c.conds[0])))];
    assert |c'.asked[0].query| == |plain| + |" " + c.conds[0]|;
  }

  /** Such a leftover flag is reachable: a fetch of two tables whose first query fails leaves the
      second condition behind, and the next fetch, set up without conditions, uses it. */
  lemma LeftoverConditionIsUsed(a: string, b: string, f: string, condA: string, condB: string)
    ensures var first := SetQuerys(NEW_CLIENT, [a, b], [[f], [f]], [condA, condB]);
            var login := [Restart, Connected(false), Received(ConnectReply(true))];
            var failed := Run(first, login + [Received(DisconnectReply(true))]);
            var again := Run(SetQuerys(failed, [a], [[f]], []), login);
            && failed.callbacks == [map[]]
            && again.asked == [Ask(a, [f], QueryText([f], a, Some(condB)))]
  {
    var first := SetQuerys(NEW_CLIENT, [a, b], [[f], [f]], [condA, condB]);
    var s1 := Step(Step(first, Restart), Connected(false));
    var s2 := Step(s1, Received(ConnectReply(true)));
    assert s2.conds == [condB] && s2.condFlag;
    var s3 := Step(s2, Received(DisconnectReply(true)));
    assert s3.callbacks == [map[]];
    RunFour(first, Restart, Connected(false), Received(ConnectReply(true)), Received(DisconnectReply(true)));
    var login := [Restart, Connected(false), Received(ConnectReply(true))];
    assert login + [Received(DisconnectReply(true))]
        == [Restart, Connected(false), Received(ConnectReply(true)), Received(DisconnectReply(true))];
    var t0 := SetQuerys(s3, [a], [[f]], []);
    var t1 := Step(Step(t0, Restart), Connected(false));
    var t2 := Step(t1, Received(ConnectReply(true)));
    RunThree(t0, Restart, Connected(false), Received(ConnectReply(true)));
  }

  lemma RunThree(s: Client, a: Event, b: Event, c: Event)
    requires Inv(s)
    ensures Run(s, [a, b, c]) == Step(Step(Step(s, a), b), c)
  {
    assert [a, b, c][1..] == [b, c] && [b, c][1..] == [c] && [c][1..] == [];
    assert Run(Step(Step(s, a), b), [c]) == Run(Step(Step(Step(s, a), b), c), []);
  }

  lemma RunFour(s: Client, a: Event, b: Event, c: Event, d: Event)
    requires Inv(s)
    ensures Run(s, [a, b, c, d]) == Step(Step(Step(Step(s, a), b), c), d)
  {
    assert [a, b, c, d][1..] == [b, c, d];
    RunThree(Step(s, a), b, c, d);
  }

  /** With all queries answered, the service's goodbye decides: a success calls back and closes, anything
      else makes the client say goodbye again. */
  lemma GoodbyeDecides(c: Client, success: bool)
    requires Inv(c) && c.connected && c.tables == []
    ensures var c' := Step(c, Received(DisconnectReply(success)));
            if success then c'.callbacks == c.callbacks + [c.resp] && !c'.open && c'.outbox.None?
            else c'.callbacks == c.callbacks && c'.open == c.open && c'.outbox == Some(DisconnectRequest)
  {
  }

  // ------------------------------------------------------------------ what a query text says

  /** A query as its text can be read: columns, table and condition. */
  datatype Query = Query(fields: seq<string>, table: string, cond: Option<string>)

  /** Names of tables and columns. */
  predicate IsName(s: string) {
    s != "" && ',' !in s && ' ' !in s
  }

  predicate AreNames(names: seq<string>) {
    forall i :: 0 <= i < |names| ==> IsName(names[i])
  }

  /** The text to the first space, and what stands behind that space if there is one. */
  function CutAtSpace(s: string): (string, Option<string>) {
    var k := FirstWhere(s, c => c == ' ');
    if k < |s| then (s[..k], Some(s[k + 1..])) else (s, None)
  }

  /** A list of words in which every one but the last ends in a comma, and the text behind it. */
  function ReadNames(s: string): Option<(seq<string>, string)>
    decreases |s|
  {
    var (word, behind) := CutAtSpace(s);
    if word == "" || behind.None? then None
    else if word[|word| - 1] != ',' then Some(([word], behind.value))
    else match ReadNames(behind.value)
      case None => None
      case Some((names, rest)) => Some(([word[..|word| - 1]] + names, rest))
  }

  /** What stands behind a word that the text starts with. */
  function Behind(word: string, s: string): Option<string> {
    if word <= s then Some(s[|word|..]) else None
  }

  function ReadTable(fields: seq<string>, s: string): Option<Query> {
    match Behind("FROM ", s)
    case None => None
    case Some(rest) => var (table, cond) := CutAtSpace(rest); Some(Query(fields, table, cond))
  }

  function ReadColumns(s: string): Option<Query> {
    match ReadNames(s)
    case None => None
    case Some((fields, rest)) => ReadTable(fields, rest)
  }

  /** SELECT, column names, FROM, a table's name, and perhaps a condition. */
  function ReadQuery(s: string): Option<Query> {
    match Behind("SELECT ", s)
    case None => None
    case Some(rest) => ReadColumns(rest)
  }

  lemma CutWord(word: string, rest: string)
    requires ' ' !in word
    ensures CutAtSpace(word + " " + rest) == (word, Some(rest))
  {
    var s := word + " " + rest;
    assert s[|word|] == ' ' && s[..|word|] == word && s[|word| + 1..] == rest;
  }

  lemma CutLast(word: string)
    requires ' ' !in word
    ensures CutAtSpace(word) == (word, None)
  {
  }

  lemma {:induction false} NamesAreRead(names: seq<string>, rest: string)
    requires names != [] && AreNames(names)
    ensures ReadNames(Join(names, ", ") + " " + rest) == Some((names, rest))
  {
    if |names| == 1 {
      assert names[0][|names[0]| - 1] in names[0];
      CutWord(names[0], rest);
      assert names == [names[0]];
    } else {
      var word, later := names[0] + ",", Join(names[1..], ", ") + " " + rest;
      assert Join(names, ", ") + " " + rest == word + " " + later by {
        assert names[0] + ", " == word + " ";
        assert (word + " " + Join(names[1..], ", ")) + " " + rest == word + " " + later;
      }
      CutWord(word, later);
      NamesAreRead(names[1..], rest);
      assert word[..|word| - 1] == names[0] && names == [names[0]] + names[1..];
    }
  }

  function Tail(cond: Option<string>): string {
    if cond.Some? then " " + cond.value else ""
  }

  lemma TableIsCut(table: string, cond: Option<string>)
    requires ' ' !in table
    ensures CutAtSpace(table + Tail(cond)) == (table, cond)
  {
    match cond
    case None => NothingBehind(table); CutLast(table);
    case Some(text) => SpaceBetween(table, text); CutWord(table, text);
  }

  lemma NothingBehind(table: string)
    ensures table + Tail(None) == table
  {
  }

  lemma SpaceBetween(table: string, text: string)
    ensures table + Tail(Some(text)) == table + " " + text
  {
  }

  lemma TableIsRead(fields: seq<string>, table: string, cond: Option<string>)
    requires IsName(table)
    ensures ReadTable(fields, "FROM " + (table + Tail(cond))) == Some(Query(fields, table, cond))
  {
    LastPart("FROM ", table + Tail(cond));
    TableIsCut(table, cond);
  }

  /** The text of a query reads as the columns, the table and the condition it was built from. */
  lemma QueryIsReadBack(fields: seq<string>, table: string, cond: Option<string>)
    requires fields != [] && AreNames(fields) && IsName(table)
    ensures ReadQuery(QueryText(fields, table, cond)) == Some(Query(fields, table, cond))
  {
    var list, last := Join(fields, ", "), "FROM " + (table + Tail(cond));
    QueryParts(list, table, Tail(cond));
    LastPart("SELECT ", list + " " + last);
    NamesAreRead(fields, last);
    TableIsRead(fields, table, cond);
  }

  lemma QueryParts(list: string, table: string, behind: string)
    ensures "SELECT " + list + " FROM " + table + behind == "SELECT " + (list + " " + ("FROM " + (table + behind)))
  {
    assert " FROM " == " " + "FROM ";
  }

  lemma LastPart(head: string, tail: string)
    ensures Behind(head, head + tail) == Some(tail)
  {
  }

  /** In every run, through all faults, the text of each query that goes out reads as exactly the columns
      and the table it was set up with, and its own condition or none. */
  lemma AskedQueriesSayWhatIsMeant(c: Client, tables: seq<string>, fields: seq<seq<string>>, conds: seq<string>,
                                   events: seq<Event>)
    requires Inv(c) && QueuesFit(tables, fields) && AreNames(tables)
    requires forall i :: 0 <= i < |fields| ==> AreNames(fields[i])
    ensures var asked := Run(SetQuerys(c, tables, fields, conds), events).asked;
            && |asked| <= |tables|
            && forall i :: 0 <= i < |asked| ==>
                 ReadQuery(asked[i].query) == Some(Query(fields[i], tables[i], CondAt(Conditions(c, tables, conds), i)))
  {
    QueriesAreConserved(c, tables, fields, conds, events);
    var asked, cs := Run(SetQuerys(c, tables, fields, conds), events).asked, Conditions(c, tables, conds);
    forall i | 0 <= i < |asked|
      ensures ReadQuery(asked[i].query) == Some(Query(fields[i], tables[i], CondAt(cs, i)))
    {
      assert asked[i] == Planned(tables, fields, cs, i);
      QueryIsReadBack(fields[i], tables[i], CondAt(cs, i));
    }
  }

  // ------------------------------------------------------------------ the class

  class ClientDB {
    var tables: seq<string>
    var fields: seq<seq<string>>
    var conds: seq<string>
    var condFlag: bool
    var connected: bool
    var disconnecting: bool
    var tableSent: string
    var fieldsSent: seq<string>
    var resp: Data
    var open: bool
    var outbox: Option<Request>
    var asked: seq<Ask>
    var callbacks: seq<Data>

    constructor ()
      ensures Model() == NEW_CLIENT
    {
      tables, fields, conds, condFlag, connected, disconnecting := [], [], [], false, false, false;
      tableSent, fieldsSent, resp, open, outbox, asked, callbacks := "", [], map[], false, None, [], [];
    }

    function Model(): Client
      reads this
    {
      Client(tables, fields, conds, condFlag, connected, disconnecting, tableSent, fieldsSent, resp,
             open, outbox, asked, callbacks)
    }

    function Condition(): Option<string>
      reads this
    {
      if condFlag && conds != [] then Some(conds[0]) else None
    }

    method StopClient()
      modifies this
      ensures Model() == Stop(old(Model()))
    {
      open, outbox := false, None;
    }

    method StartClient()
      modifies this
      ensures Model() == Start(old(Model()))
    {
      connected, disconnecting := false, false;
      open, outbox := true, None;
    }

    method SetAllQuerys(newTables: seq<string>, newFields: seq<seq<string>>, newConds: seq<string>)
      requires Inv(Model()) && QueuesFit(newTables, newFields)
      modifies this
      ensures Model() == SetQuerys(old(Model()), newTables, newFields, newConds)
    {
      tables, fields, asked := newTables, newFields, [];
      if newConds != [] {
        conds := newConds;
        if |conds| != |tables| {
          StopClient();
        } else {
          condFlag := true;
        }
      }
    }

    /** The text of a query, built field by field. */
    method BuildQuery() returns (query: string)
      requires fieldsSent != [] && (condFlag ==> conds != [])
      modifies this`conds, this`condFlag
      ensures query == QueryText(fieldsSent, tableSent, old(Condition()))
      ensures conds == old(if condFlag then conds[1..] else conds)
      ensures condFlag == (old(condFlag) && conds != [])
    {
      query := "SELECT ";
      ghost var n := |fieldsSent|;
      for i := 0 to |fieldsSent| - 1
        invariant query + Join(fieldsSent[i..], ", ") == "SELECT " + Join(fieldsSent, ", ")
      {
        assert fieldsSent[i..][0] == fieldsSent[i] && fieldsSent[i..][1..] == fieldsSent[i + 1..];
        ghost var rest := Join(fieldsSent[i + 1..], ", ");
        assert query + (fieldsSent[i] + ", " + rest) == query + (fieldsSent[i] + ", ") + rest;
        query := query + (fieldsSent[i] + ", ");
      }
      query := query + fieldsSent[|fieldsSent| - 1];
      query := query + (" FROM " + tableSent);
      ghost var plain := query;
      if condFlag {
        query := query + " ";
        query := query + conds[0];
        assert query == plain + (" " + conds[0]);
        conds := conds[1..];
        if conds == [] {
          condFlag := false;
        }
      }
      assert plain == "SELECT " + Join(fieldsSent, ", ") + " FROM " + tableSent;
    }

    method PopTable()
      requires QueuesFit(tables, fields) && tables != []
      modifies this`tables, this`fields, this`tableSent, this`fieldsSent
      ensures tables == old(tables)[1..] && fields == old(fields)[1..]
      ensures tableSent == old(tables)[0] && fieldsSent == old(fields)[0] && fieldsSent != []
    {
      tableSent := tables[0];
      fieldsSent := fields[0];
      tables := tables[1..];
      fields := fields[1..];
    }

    /** Pop the next table with its fields and condition, and send the query. */
    method AskNext()
      requires Inv(Model()) && tables != []
      modifies this`tables, this`fields, this`tableSent, this`fieldsSent, this`conds, this`condFlag
      modifies this`asked, this`outbox
      ensures tables == old(tables)[1..] && fields == old(fields)[1..]
      ensures tableSent == old(tables)[0] && fieldsSent == old(fields)[0]
      ensures conds == old(if condFlag then conds[1..] else conds)
      ensures condFlag == (old(condFlag) && conds != [])
      ensures var query := QueryText(fieldsSent, tableSent, old(Condition()));
              && asked == old(asked) + [Ask(tableSent, fieldsSent, query)]
              && outbox == Some(QueryRequest(fieldsSent, query))
    {
      PopTable();
      var query := BuildQuery();
      asked := asked + [Ask(tableSent, fieldsSent, query)];
      outbox := Some(QueryRequest(fieldsSent, query));
    }

    method GenerateQuery()
      requires Inv(Model())
      modifies this
      ensures Model() == QueryGenerator(old(Model()))
    {
      if !disconnecting {
        if tables != [] {
          AskNext();
        } else {
          outbox := Some(DisconnectRequest);
        }
      } else {
        callbacks := callbacks + [resp];
        StopClient();
      }
    }

    method HandleConnected(error: bool)
      requires Inv(Model())
      modifies this
      ensures Model() == CheckConnect(old(Model()), error)
    {
      if error {
        StopClient();
        StartClient();
        return;
      }
      if !connected {
        if disconnecting {
          StopClient();
        } else {
          outbox := Some(ConnectRequest);
        }
      } else {
        GenerateQuery();
      }
    }

    /** The decoding loops; None where the code catches a missing column. */
    method DecodeColumns(columns: map<string, seq<string>>) returns (table: Option<Table>)
      ensures table == Decode(fieldsSent, columns)
    {
      var buf: Table := map[];
      for i := 0 to |fieldsSent|
        invariant forall f :: f in fieldsSent[..i] ==> f in columns
        invariant buf == map f | f in fieldsSent[..i] && f in columns :: Quoted(columns[f])
      {
        var field := fieldsSent[i];
        assert fieldsSent[..i + 1] == fieldsSent[..i] + [field];
        if field !in columns {
          return None;
        }
        var values := SerializeCells(columns[field]);
        buf := buf[field := values];
      }
      assert fieldsSent[..|fieldsSent|] == fieldsSent;
      table := Some(buf);
      assert buf == map f | f in fieldsSent :: Quoted(columns[f]);
    }

    method SerializeCells(cells: seq<string>) returns (values: seq<string>)
      ensures values == Quoted(cells)
    {
      values := [];
      for j := 0 to |cells|
        invariant values == Quoted(cells[..j])
      {
        values := values + [Json.Serialize(Json.String(cells[j]))];
        assert cells[..j + 1] == cells[..j] + [cells[j]];
      }
      assert cells[..|cells|] == cells;
    }

    method HandleReply(reply: Reply)
      requires Inv(Model())
      modifies this
      ensures Model() == Step(old(Model()), Received(reply))
    {
      outbox := None;
      match reply {
        case ConnectReply(success) =>
          if !success {
            disconnecting := true;
          } else {
            connected := true;
            disconnecting := false;
          }
        case DisconnectReply(success) =>
          disconnecting := success;
        case QueryReply(columns) =>
          var table := DecodeColumns(columns);
          if table.Some? {
            resp := resp[tableSent := table.value];
          }
      }
      HandleConnected(false);
    }
  }
}
