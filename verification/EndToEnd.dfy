/** Results that span several services: from a database row to the lift it describes, through fetch,
    refresh, broker and move command; the tables that routing uses; from a voice request to the lift,
    every message read from the wire; and what an unknown lift block does to the main server.
    What holds this chain together is a quoting convention. The database client stores every cell as
    serialised JSON text, so ids and descriptors carry their quotes through all tables; the move
    command takes them off again just before it publishes. */
module EndToEnd {
  import opened Common
  import Json
  import ClientDb
  import DataBase
  import Fetch
  import Broker
  import LiftWorker
  import Routing
  import Https
  import Framing
  import TextWorker
  import TextTables
  import Messages
  import JsonReader

  const FIELDS := ["Id", "Descriptor", "Login", "Password"]

  /** The one query of the MQTT worker. */
  function BlocksQuery(cond: string): ClientDb.Ask {
    ClientDb.Ask("LiftBlocks", FIELDS, ClientDb.QueryText(FIELDS, "LiftBlocks", Some(cond)))
  }

  /** The lift-block rows: ids all different, descriptors not empty, no text that needs an escape. */
  predicate PlainRows(rows: seq<seq<string>>) {
    && (forall j :: 0 <= j < |rows| ==> |rows[j]| == 4)
    && (forall j, k :: 0 <= j < |rows| && 0 <= k < 4 ==> Json.NeedsNoEscape(rows[j][k]))
    && (forall i, j :: 0 <= i < j < |rows| ==> rows[i][0] != rows[j][0])
    && (forall j :: 0 <= j < |rows| ==> rows[j][1] != "")
  }

  /** The first and last character of a cell, its quotes, go, and nothing else. */
  lemma InnerUndoesQuote(d: string)
    ensures |Json.Quote(d)| >= 2 && LiftWorker.Inner(Json.Quote(d)) == Json.EscapeText(d)
    ensures Json.NeedsNoEscape(d) ==> |Json.Quote(d)| == |d| + 2 && LiftWorker.Inner(Json.Quote(d)) == d
  {
    if Json.NeedsNoEscape(d) {
      Json.QuoteOfPlainText(d);
    }
  }

  /** What the fetch of the MQTT worker hands to its refresh. */
  ghost function Fetched(sql: DataBase.Sql, cond: string): seq<ClientDb.Data>
    requires Fetch.SoundEngine(sql)
  {
    var c := ClientDb.SetQuerys(ClientDb.NEW_CLIENT, ["LiftBlocks"], [FIELDS], [cond]);
    Fetch.Exchange(Fetch.Begin(c), sql, true).callbacks
  }

  lemma FetchedBlocks(sql: DataBase.Sql, cond: string)
    requires Fetch.SoundEngine(sql) && Fetch.Good(sql, BlocksQuery(cond))
    ensures var data := Fetched(sql, cond);
            && |data| == 1 && data[0].Keys == {"LiftBlocks"}
            && Fetch.IsTableOf(data[0]["LiftBlocks"], sql, BlocksQuery(cond))
  {
    var plan := ClientDb.Plan(["LiftBlocks"], [FIELDS], [cond]);
    assert plan == [BlocksQuery(cond)];
    assert plan[..1] == plan;
    Fetch.FreshFetchDelivers(sql, ["LiftBlocks"], [FIELDS], [cond], 1);
    var data := Fetched(sql, cond)[0];
    assert plan[0].table in data;
    assert forall t :: t in data ==> t == "LiftBlocks";
  }

  /** The k-th column of the delivered table is the quoted k-th cell of every row. */
  predicate IsQuotedColumn(column: seq<string>, rows: seq<seq<string>>, k: nat)
    requires forall j :: 0 <= j < |rows| ==> k < |rows[j]|
  {
    |column| == |rows| && forall j :: 0 <= j < |rows| ==> column[j] == Json.Quote(rows[j][k])
  }

  predicate IsQuotedTable(columns: LiftWorker.Columns, rows: seq<seq<string>>)
    requires forall j :: 0 <= j < |rows| ==> |rows[j]| == 4
  {
    && LiftWorker.HasColumns(columns)
    && IsQuotedColumn(columns["Id"], rows, 0) && IsQuotedColumn(columns["Descriptor"], rows, 1)
    && IsQuotedColumn(columns["Login"], rows, 2) && IsQuotedColumn(columns["Password"], rows, 3)
  }

  /** The tables that a refresh from these rows leaves behind. */
  predicate ServesRows(t: LiftWorker.Tables, rows: seq<seq<string>>)
    requires forall j :: 0 <= j < |rows| ==> |rows[j]| == 4
  {
    && LiftWorker.QuotedValues(t.descriptors)
    && (forall j :: 0 <= j < |rows| ==>
          Json.Quote(rows[j][0]) in t.descriptors
          && t.descriptors[Json.Quote(rows[j][0])] == Json.Quote(rows[j][1]))
    && (forall j :: 0 <= j < |rows| ==> Json.Quote(rows[j][2]) in t.passwords)
  }

  lemma RowIsServed(columns: LiftWorker.Columns, rows: seq<seq<string>>, j: nat)
    requires PlainRows(rows) && IsQuotedTable(columns, rows) && j < |rows|
    ensures var descriptors := LiftWorker.Zip(columns["Id"], columns["Descriptor"]);
            && columns["Id"][j] in descriptors && descriptors[columns["Id"][j]] == columns["Descriptor"][j]
            && |columns["Descriptor"][j]| >= 2
            && columns["Login"][j] in LiftWorker.Zip(columns["Login"], columns["Password"])
  {
    LiftWorker.ZipTakesLastRow(columns["Id"], columns["Descriptor"]);
    LiftWorker.ZipTakesLastRow(columns["Login"], columns["Password"]);
    RowIsLast(rows, columns["Id"], j);
    InnerUndoesQuote(rows[j][1]);
  }

  lemma RefreshOfRows(data: ClientDb.Data, rows: seq<seq<string>>, before: LiftWorker.Tables)
    requires PlainRows(rows) && "LiftBlocks" in data && IsQuotedTable(data["LiftBlocks"], rows)
    ensures LiftWorker.InStep(data)
    ensures LiftWorker.Refresh(before, data).1 && ServesRows(LiftWorker.Refresh(before, data).0, rows)
  {
    var columns := data["LiftBlocks"];
    var t := LiftWorker.Refresh(before, data).0;
    forall j | 0 <= j < |rows|
      ensures columns["Id"][j] in t.descriptors && t.descriptors[columns["Id"][j]] == columns["Descriptor"][j]
      ensures |columns["Descriptor"][j]| >= 2 && columns["Login"][j] in t.passwords
    {
      RowIsServed(columns, rows, j);
    }
    LiftWorker.ZipTakesLastRow(columns["Id"], columns["Descriptor"]);
    forall block | block in t.descriptors ensures |t.descriptors[block]| >= 2 {
      var j :| 0 <= j < |columns["Id"]| && columns["Id"][j] == block;
    }
  }

  /** After fetch and refresh, each lift block's quoted id leads to its quoted descriptor, and every
      quoted login may connect. */
  lemma RefreshedTables(sql: DataBase.Sql, cond: string, before: LiftWorker.Tables)
    requires Fetch.SoundEngine(sql) && Fetch.Good(sql, BlocksQuery(cond))
    requires PlainRows(sql(BlocksQuery(cond).query).rows)
    ensures |Fetched(sql, cond)| == 1 && LiftWorker.InStep(Fetched(sql, cond)[0])
    ensures var (t, ok) := LiftWorker.Refresh(before, Fetched(sql, cond)[0]);
            ok && ServesRows(t, sql(BlocksQuery(cond).query).rows)
  {
    var rows := sql(BlocksQuery(cond).query).rows;
    FetchedBlocks(sql, cond);
    var data := Fetched(sql, cond)[0];
    TableIsQuoted(data["LiftBlocks"], sql, cond);
    RefreshOfRows(data, rows, before);
  }

  lemma TableIsQuoted(table: ClientDb.Table, sql: DataBase.Sql, cond: string)
    requires Fetch.Good(sql, BlocksQuery(cond)) && Fetch.IsTableOf(table, sql, BlocksQuery(cond))
    ensures IsQuotedTable(table, sql(BlocksQuery(cond).query).rows)
  {
    var fields := BlocksQuery(cond).fields;
    assert fields[0] == "Id" && fields[1] == "Descriptor" && fields[2] == "Login" && fields[3] == "Password";
  }

  lemma RowIsLast(rows: seq<seq<string>>, ids: seq<string>, j: nat)
    requires PlainRows(rows) && |ids| == |rows| && j < |rows|
    requires forall i :: 0 <= i < |rows| ==> ids[i] == Json.Quote(rows[i][0])
    ensures LiftWorker.IsLastRow(ids, Json.Quote(rows[j][0]), j)
  {
    forall i | j < i < |ids| ensures ids[i] != Json.Quote(rows[j][0]) {
      if ids[i] == Json.Quote(rows[j][0]) {
        Json.QuoteIsInjective(rows[i][0], rows[j][0]);
      }
    }
  }

  /** A lift that has logged in with a login of the database and names itself `LKDS_LU<d> ...`, and
      whose connection has not been touched since, is reachable under <d>. */
  lemma ConnectedLiftIsNamed(logins: set<string>, before: seq<Broker.Event>, after: seq<Broker.Event>, i: nat,
                             username: string, d: string, rest: string)
    requires Broker.Authorized(logins, username) && ' ' !in d
    requires |Broker.SEARCH_PHRASE + d + " " + rest| < Broker.MAX_CLIENT_ID
    requires var connects := Broker.Connects(i, username, Broker.SEARCH_PHRASE + d + " " + rest);
             Broker.IsRun(logins, [], before + ([connects] + after))
    requires forall k :: 0 <= k < |after| ==> !Broker.Touches(after[k], i)
    ensures var connects := Broker.Connects(i, username, Broker.SEARCH_PHRASE + d + " " + rest);
            LiftWorker.IsNamed(Broker.Run(logins, [], before + ([connects] + after)), d)
  {
    var connects := Broker.Connects(i, username, Broker.SEARCH_PHRASE + d + " " + rest);
    Broker.RunConcat(logins, [], before, [connects] + after);
    var s0 := Broker.Run(logins, [], before);
    assert ([connects] + after)[0] == connects && ([connects] + after)[1..] == after;
    var s1 := Broker.Step(logins, s0, connects);
    Broker.LiftIsNamedByDescriptor(d, rest);
    assert s1[i].name == d;
    Broker.UntouchedKeepsName(logins, s1, after, i);
  }

  /** Exactly one message more, on exactly one session, and nothing else changed. */
  predicate OnlyPublishes(before: seq<Broker.BrokerSession>, after: seq<Broker.BrokerSession>, k: nat,
                          m: Broker.Message) {
    && k < |before| && !before[k].closed
    && after == before[k := before[k].(published := before[k].published + [m])]
  }

  /** This move sends exactly one response, a success for its own station, and publishes its floor once,
      to the topic of this descriptor. */
  predicate MovesOnce(descriptors: map<string, string>, sessions: seq<Broker.BrokerSession>, doc: LiftWorker.Doc,
                      d: string, sent: seq<LiftWorker.Reply>)
    requires LiftWorker.QuotedValues(descriptors) && doc.MoveLift?
  {
    var (w, goes) := LiftWorker.Rounds(descriptors, LiftWorker.Worker([doc], sent, sessions), 1);
    && !goes && w.queue == []
    && w.sent == sent + [LiftWorker.MoveReply(doc.station, true)]
    && OnlyPublishes(sessions, w.sessions, Broker.FirstNamed(sessions, d),
                     Broker.Message("LU" + d + "/set/cmd", "{\"cmdlft\":[1," + doc.floor + "]}"))
  }

  lemma MoveReachesNamedLift(t: LiftWorker.Tables, rows: seq<seq<string>>, j: nat, events: seq<Broker.Event>,
                             station: string, floor: string, sent: seq<LiftWorker.Reply>)
    requires PlainRows(rows) && ServesRows(t, rows) && j < |rows|
    requires Broker.IsRun(t.passwords.Keys, [], events)
    requires LiftWorker.IsNamed(Broker.Run(t.passwords.Keys, [], events), rows[j][1])
    ensures MovesOnce(t.descriptors, Broker.Run(t.passwords.Keys, [], events),
                      LiftWorker.MoveLift(station, Json.Quote(rows[j][0]), floor), rows[j][1], sent)
  {
    var d := rows[j][1];
    InnerUndoesQuote(d);
    var doc := LiftWorker.MoveLift(station, Json.Quote(rows[j][0]), floor);
    LiftWorker.MoveIsDelivered(t.passwords.Keys, events, t.descriptors, doc, sent);
  }

  /** The whole chain. Fetch the lift blocks and refresh from them; let a lift connect under a login of
      the database and the client id `LKDS_LU<d> ...`, among any other broker events. Then a move command
      for the block whose descriptor is <d>, given by its quoted id, sends exactly one response, a
      success for its own station, and publishes the floor command once, to the topic of exactly that
      descriptor. */
  lemma MoveReachesTheLiftOfTheRow(
    sql: DataBase.Sql, cond: string, old_: LiftWorker.Tables, t: LiftWorker.Tables, rows: seq<seq<string>>,
    j: nat, m: nat, before: seq<Broker.Event>, after: seq<Broker.Event>, i: nat, rest: string,
    station: string, floor: string, sent: seq<LiftWorker.Reply>)
    requires Fetch.SoundEngine(sql) && Fetch.Good(sql, BlocksQuery(cond))
    requires rows == sql(BlocksQuery(cond).query).rows && PlainRows(rows) && j < |rows| && m < |rows|
    requires |Fetched(sql, cond)| == 1 && LiftWorker.InStep(Fetched(sql, cond)[0])
    requires t == LiftWorker.Refresh(old_, Fetched(sql, cond)[0]).0
    requires ' ' !in rows[j][1] && |Broker.SEARCH_PHRASE + rows[j][1] + " " + rest| < Broker.MAX_CLIENT_ID
    requires var connects := Broker.Connects(i, rows[m][2], Broker.SEARCH_PHRASE + rows[j][1] + " " + rest);
             Broker.IsRun(t.passwords.Keys, [], before + ([connects] + after))
    requires forall k :: 0 <= k < |after| ==> !Broker.Touches(after[k], i)
    ensures var d := rows[j][1];
            var connects := Broker.Connects(i, rows[m][2], Broker.SEARCH_PHRASE + d + " " + rest);
            var sessions := Broker.Run(t.passwords.Keys, [], before + ([connects] + after));
            && LiftWorker.QuotedValues(t.descriptors)
            && MovesOnce(t.descriptors, sessions, LiftWorker.MoveLift(station, Json.Quote(rows[j][0]), floor), d, sent)
  {
    var d := rows[j][1];
    RefreshedTables(sql, cond, old_);
    assert ServesRows(t, rows);
    Json.QuoteOfPlainText(rows[m][2]);
    var connects := Broker.Connects(i, rows[m][2], Broker.SEARCH_PHRASE + d + " " + rest);
    ConnectedLiftIsNamed(t.passwords.Keys, before, after, i, rows[m][2], d, rest);
    MoveReachesNamedLift(t, rows, j, before + ([connects] + after), station, floor, sent);
  }

  // ------------------------------------------------------------------ the main server's tables

  const MAIN_TABLES := ["WorkerMarussia", "WorkerLU", "MarussiaStation", "LiftBlocks"]
  const MAIN_FIELDS := [["Id"], ["Id", "Address", "Port"], STATION_FIELDS, BLOCK_FIELDS]
  const STATION_FIELDS := ["ApplicationId", "WorkerId", "SecondWorkerId", "LiftBlockId"]
  const BLOCK_FIELDS := ["Id", "WorkerLuId", "SecondWorkerLuId", "Descriptor"]
  const MAIN_CONDITIONS := ["", "", "", ""]

  function MainPlan(): seq<ClientDb.Ask> {
    ClientDb.Plan(MAIN_TABLES, MAIN_FIELDS, MAIN_CONDITIONS)
  }

  /** Every query of the main server succeeds with rows, and ids of stations and blocks differ. */
  predicate MainQueriesGood(sql: DataBase.Sql) {
    && (forall i :: 0 <= i < 4 ==> Fetch.Good(sql, MainPlan()[i]))
    && PlainIds(sql(MainPlan()[2].query).rows)
    && PlainIds(sql(MainPlan()[3].query).rows)
  }

  predicate PlainIds(rows: seq<seq<string>>) {
    && (forall j :: 0 <= j < |rows| ==> rows[j] != [] && Json.NeedsNoEscape(rows[j][0]))
    && (forall i, j :: 0 <= i < j < |rows| ==> rows[i][0] != rows[j][0])
  }

  ghost function MainData(sql: DataBase.Sql): seq<ClientDb.Data>
    requires Fetch.SoundEngine(sql)
  {
    var c := ClientDb.SetQuerys(ClientDb.NEW_CLIENT, MAIN_TABLES, MAIN_FIELDS, MAIN_CONDITIONS);
    Fetch.Exchange(Fetch.Begin(c), sql, true).callbacks
  }

  /** The columns that routing reads are there. */
  predicate HasRoutingColumns(data: ClientDb.Data) {
    && "MarussiaStation" in data && "LiftBlocks" in data
    && (forall f :: f in STATION_FIELDS ==> f in data["MarussiaStation"])
    && (forall f :: f in BLOCK_FIELDS ==> f in data["LiftBlocks"])
  }

  function StationsOf(t: ClientDb.Table): Routing.Stations
    requires forall f :: f in STATION_FIELDS ==> f in t
  {
    Routing.Stations(Fetch.Col(t, STATION_FIELDS, 0), Fetch.Col(t, STATION_FIELDS, 1),
                     Fetch.Col(t, STATION_FIELDS, 2), Fetch.Col(t, STATION_FIELDS, 3))
  }

  function BlocksOf(t: ClientDb.Table): Routing.Blocks
    requires forall f :: f in BLOCK_FIELDS ==> f in t
  {
    Routing.Blocks(Fetch.Col(t, BLOCK_FIELDS, 0), Fetch.Col(t, BLOCK_FIELDS, 1), Fetch.Col(t, BLOCK_FIELDS, 2))
  }

  lemma QuotedIdsAreUnique(column: seq<string>, rows: seq<seq<string>>)
    requires PlainIds(rows) && |column| == |rows|
    requires forall j :: 0 <= j < |rows| ==> column[j] == Json.Quote(rows[j][0])
    ensures Distinct(column)
  {
    forall i, j | 0 <= i < j < |column| ensures column[i] != column[j] {
      if column[i] == column[j] {
        Json.QuoteIsInjective(rows[i][0], rows[j][0]);
      }
    }
  }

  /** The main server's fetch delivers tables that routing can use as they are: all columns it reads
      are there, parallel columns are equally long, no first row is missing, and the id columns are
      unique; so its indexing stays in range and its cached lookups are complete. */
  lemma FetchedTablesAreRoutable(sql: DataBase.Sql)
    requires Fetch.SoundEngine(sql) && MainQueriesGood(sql)
    ensures |MainData(sql)| == 1 && HasRoutingColumns(MainData(sql)[0])
    ensures var data := MainData(sql)[0];
            var st := StationsOf(data["MarussiaStation"]);
            var bl := BlocksOf(data["LiftBlocks"]);
            && Https.InRange(Https.NEW_HTTP, st, bl)
            && Distinct(st.applicationId) && Distinct(bl.id)
  {
    var plan := MainPlan();
    assert plan[..4] == plan;
    Fetch.FreshFetchDelivers(sql, MAIN_TABLES, MAIN_FIELDS, MAIN_CONDITIONS, 4);
    var data := MainData(sql)[0];
    assert plan[2].table == "MarussiaStation" && plan[2].fields == STATION_FIELDS;
    assert plan[3].table == "LiftBlocks" && plan[3].fields == BLOCK_FIELDS;
    ColumnsOfTable(data["MarussiaStation"], sql, plan[2]);
    ColumnsOfTable(data["LiftBlocks"], sql, plan[3]);
  }

  lemma ColumnsOfTable(table: ClientDb.Table, sql: DataBase.Sql, ask: ClientDb.Ask)
    requires Fetch.Good(sql, ask) && Fetch.IsTableOf(table, sql, ask)
    requires |ask.fields| > 0 && PlainIds(sql(ask.query).rows)
    ensures forall f :: f in ask.fields ==> f in table
    ensures forall k :: 0 <= k < |ask.fields| ==> |Fetch.Col(table, ask.fields, k)| == |sql(ask.query).rows| > 0
    ensures Distinct(Fetch.Col(table, ask.fields, 0))
  {
    QuotedIdsAreUnique(Fetch.Col(table, ask.fields, 0), sql(ask.query).rows);
  }

  // ------------------------------------------------------------------ the main server's tables by name

  /** The four queries of the main server have answers; their conditions are empty texts. */
  predicate MainDatabase(db: Fetch.Database) {
    forall i :: 0 <= i < 4 ==> Fetch.CanAnswer(db, MAIN_TABLES[i], MAIN_FIELDS[i], Some(""))
  }

  predicate MirrorsStations(st: Routing.Stations, rows: TextTables.Rows) {
    && TextTables.HasCell(rows, "ApplicationId") && Fetch.IsQuotedField(st.applicationId, rows, "ApplicationId")
    && TextTables.HasCell(rows, "WorkerId") && Fetch.IsQuotedField(st.workerId, rows, "WorkerId")
    && TextTables.HasCell(rows, "SecondWorkerId") && Fetch.IsQuotedField(st.secondWorkerId, rows, "SecondWorkerId")
    && TextTables.HasCell(rows, "LiftBlockId") && Fetch.IsQuotedField(st.liftBlockId, rows, "LiftBlockId")
  }

  predicate MirrorsBlocks(bl: Routing.Blocks, rows: TextTables.Rows) {
    && TextTables.HasCell(rows, "Id") && Fetch.IsQuotedField(bl.id, rows, "Id")
    && TextTables.HasCell(rows, "WorkerLuId") && Fetch.IsQuotedField(bl.workerLuId, rows, "WorkerLuId")
    && TextTables.HasCell(rows, "SecondWorkerLuId")
    && Fetch.IsQuotedField(bl.secondWorkerLuId, rows, "SecondWorkerLuId")
  }

  /** Each column that routing reads holds the quoted cells of the column of the database that it is named
      after. */
  lemma RoutingMirrorsTheDatabase(sql: DataBase.Sql, db: Fetch.Database)
    requires Fetch.IsEngineOver(sql, db) && MainDatabase(db)
    ensures |MainData(sql)| == 1 && HasRoutingColumns(MainData(sql)[0])
    ensures MirrorsStations(StationsOf(MainData(sql)[0]["MarussiaStation"]), db("MarussiaStation", Some("")))
    ensures MirrorsBlocks(BlocksOf(MainData(sql)[0]["LiftBlocks"]), db("LiftBlocks", Some("")))
  {
    MainIsFetched(sql, db);
    var data := MainData(sql)[0];
    var stations, blocks := db("MarussiaStation", Some("")), db("LiftBlocks", Some(""));
    forall i | 0 <= i < 4 ensures TextTables.IsMirrored(data["MarussiaStation"], stations, STATION_FIELDS[i]) {
      TextTables.FieldIsMirrored(data["MarussiaStation"], stations, STATION_FIELDS, i);
    }
    forall i | 0 <= i < 4 ensures TextTables.IsMirrored(data["LiftBlocks"], blocks, BLOCK_FIELDS[i]) {
      TextTables.FieldIsMirrored(data["LiftBlocks"], blocks, BLOCK_FIELDS, i);
    }
    NamedColumns(data, stations, blocks);
  }

  lemma NamedColumns(data: ClientDb.Data, stations: TextTables.Rows, blocks: TextTables.Rows)
    requires "MarussiaStation" in data && "LiftBlocks" in data
    requires forall i :: 0 <= i < 4 ==> TextTables.IsMirrored(data["MarussiaStation"], stations, STATION_FIELDS[i])
    requires forall i :: 0 <= i < 4 ==> TextTables.IsMirrored(data["LiftBlocks"], blocks, BLOCK_FIELDS[i])
    ensures HasRoutingColumns(data)
    ensures MirrorsStations(StationsOf(data["MarussiaStation"]), stations)
    ensures MirrorsBlocks(BlocksOf(data["LiftBlocks"]), blocks)
  {
    assert STATION_FIELDS[0] == "ApplicationId" && STATION_FIELDS[1] == "WorkerId";
    assert STATION_FIELDS[2] == "SecondWorkerId" && STATION_FIELDS[3] == "LiftBlockId";
    assert BLOCK_FIELDS[0] == "Id" && BLOCK_FIELDS[1] == "WorkerLuId";
    assert BLOCK_FIELDS[2] == "SecondWorkerLuId" && BLOCK_FIELDS[3] == "Descriptor";
  }

  lemma MainIsFetched(sql: DataBase.Sql, db: Fetch.Database)
    requires Fetch.IsEngineOver(sql, db) && MainDatabase(db)
    ensures |MainData(sql)| == 1
    ensures var data := MainData(sql)[0];
            && "MarussiaStation" in data
            && Fetch.IsFetched(data["MarussiaStation"], db("MarussiaStation", Some("")), STATION_FIELDS)
            && "LiftBlocks" in data
            && Fetch.IsFetched(data["LiftBlocks"], db("LiftBlocks", Some("")), BLOCK_FIELDS)
  {
    forall i | 0 <= i < |MAIN_TABLES|
      ensures Fetch.CanAnswer(db, MAIN_TABLES[i], MAIN_FIELDS[i], ClientDb.CondAt(MAIN_CONDITIONS, i))
    {
      assert MAIN_CONDITIONS[i] == "";
    }
    Fetch.DatabaseIsFetched(sql, db, MAIN_TABLES, MAIN_FIELDS, MAIN_CONDITIONS);
    var data := MainData(sql)[0];
    assert MAIN_TABLES[2] == "MarussiaStation" && MAIN_FIELDS[2] == STATION_FIELDS;
    assert MAIN_TABLES[3] == "LiftBlocks" && MAIN_FIELDS[3] == BLOCK_FIELDS;
    assert ClientDb.CondAt(MAIN_CONDITIONS, 2) == Some("") && ClientDb.CondAt(MAIN_CONDITIONS, 3) == Some("");
  }

  /** A session whose id is one of these two of a row, in its quoted form. */
  predicate IsOneOf(id: string, row: map<string, string>, first: string, second: string)
    requires first in row && second in row
  {
    id == Json.Quote(row[first]) || id == Json.Quote(row[second])
  }

  predicate PlainStationRows(stations: TextTables.Rows, blocks: TextTables.Rows) {
    && TextTables.PlainField(stations, "ApplicationId") && TextTables.PlainField(stations, "LiftBlockId")
    && TextTables.PlainField(blocks, "Id")
  }

  /** These positions lead along the rows of the database: the station's row, a text worker named in it, the
      row of its lift block, and an MQTT worker named in that. */
  predicate LeadsAlong(app: string, stations: TextTables.Rows, blocks: TextTables.Rows, text: seq<Routing.Worker>,
                       mqtt: seq<Routing.Worker>, p: Routing.Positions)
    requires TextTables.HasCell(stations, "ApplicationId") && TextTables.HasCell(stations, "WorkerId")
    requires TextTables.HasCell(stations, "SecondWorkerId") && TextTables.HasCell(stations, "LiftBlockId")
    requires TextTables.HasCell(blocks, "Id") && TextTables.HasCell(blocks, "WorkerLuId")
    requires TextTables.HasCell(blocks, "SecondWorkerLuId")
  {
    && p.station < |stations| && p.block < |blocks| && p.textWorker < |text| && p.mqttWorker < |mqtt|
    && stations[p.station]["ApplicationId"] == app
    && IsOneOf(text[p.textWorker].id, stations[p.station], "WorkerId", "SecondWorkerId")
    && blocks[p.block]["Id"] == stations[p.station]["LiftBlockId"]
    && IsOneOf(mqtt[p.mqttWorker].id, blocks[p.block], "WorkerLuId", "SecondWorkerLuId")
  }

  /** On fetched tables a position is a route iff it leads along the rows of the database. */
  lemma RouteLeadsAlongRows(app: string, st: Routing.Stations, bl: Routing.Blocks, stations: TextTables.Rows,
                            blocks: TextTables.Rows, text: seq<Routing.Worker>, mqtt: seq<Routing.Worker>,
                            p: Routing.Positions)
    requires MirrorsStations(st, stations) && MirrorsBlocks(bl, blocks) && PlainStationRows(stations, blocks)
    requires Json.NeedsNoEscape(app)
    ensures Routing.Rectangular(st, bl)
    ensures Routing.IsRoute(app, st, bl, text, mqtt, p) <==> LeadsAlong(app, stations, blocks, text, mqtt, p)
  {
    Json.QuoteOfPlainText(app);
    if p.station < |stations| {
      TextTables.SameCell(st.applicationId, stations, "ApplicationId", p.station, app);
      if p.block < |blocks| {
        TextTables.SameCell(bl.id, blocks, "Id", p.block, stations[p.station]["LiftBlockId"]);
      }
    }
  }

  // ------------------------------------------------------------------ the same, from the database's columns

  type Rows = TextTables.Rows

  /** The rows that a worker's condition selects. */
  predicate PlainBlocks(blocks: Rows) {
    && TextTables.PlainField(blocks, "Id") && TextTables.PlainField(blocks, "Descriptor")
    && TextTables.PlainField(blocks, "Login") && TextTables.PlainField(blocks, "Password")
    && (forall i, j :: 0 <= i < j < |blocks| ==> blocks[i]["Id"] != blocks[j]["Id"])
    && (forall j :: 0 <= j < |blocks| ==> blocks[j]["Descriptor"] != "")
  }

  lemma BlocksAreAnswered(sql: DataBase.Sql, db: Fetch.Database, cond: string)
    requires Fetch.IsEngineOver(sql, db) && Fetch.CanAnswer(db, "LiftBlocks", FIELDS, Some(cond))
    ensures Fetch.Good(sql, BlocksQuery(cond))
    ensures sql(BlocksQuery(cond).query).rows == Fetch.Cells(db("LiftBlocks", Some(cond)), FIELDS)
  {
    Fetch.AskIsAnswered(sql, db, "LiftBlocks", FIELDS, Some(cond));
  }

  lemma CellsOfBlocks(blocks: Rows)
    requires PlainBlocks(blocks)
    ensures Fetch.HasColumns(blocks, FIELDS) && PlainRows(Fetch.Cells(blocks, FIELDS))
    ensures forall j :: 0 <= j < |blocks| ==>
              Fetch.Cells(blocks, FIELDS)[j]
              == [blocks[j]["Id"], blocks[j]["Descriptor"], blocks[j]["Login"], blocks[j]["Password"]]
  {
    assert FIELDS[0] == "Id" && FIELDS[1] == "Descriptor" && FIELDS[2] == "Login" && FIELDS[3] == "Password";
  }

  /** The condition under which an MQTT worker asks for its own lift blocks and those it stands in for. */
  function OwnBlocks(id: string): string {
    "WHERE WorkerLuId = \"" + id + "\" OR SecondWorkerLuId = \"" + id + "\""
  }

  lemma TwoJoined()
    ensures Join(["Login", "Password"], ", ") == "Login, Password"
  {
    JoinMore("Login", ["Password"], ", ");
    assert ["Login"] + ["Password"] == ["Login", "Password"];
    assert "Login" + ", " + "Password" == "Login, Password";
  }

  lemma ThreeJoined()
    ensures Join(["Descriptor", "Login", "Password"], ", ") == "Descriptor, Login, Password"
  {
    TwoJoined();
    JoinMore("Descriptor", ["Login", "Password"], ", ");
    assert ["Descriptor"] + ["Login", "Password"] == ["Descriptor", "Login", "Password"];
    assert "Descriptor" + ", " + "Login, Password" == "Descriptor, Login, Password";
  }

  lemma FieldsJoined()
    ensures Join(FIELDS, ", ") == "Id, Descriptor, Login, Password"
  {
    ThreeJoined();
    JoinMore("Id", ["Descriptor", "Login", "Password"], ", ");
    assert ["Id"] + ["Descriptor", "Login", "Password"] == FIELDS;
    IdAndRest();
  }

  lemma IdAndRest()
    ensures "Id" + ", " + "Descriptor, Login, Password" == "Id, Descriptor, Login, Password"
  {
    assert "Id" + ", " == "Id, ";
    assert "Id, " + "Descriptor, Login, Password" == "Id, Descriptor, Login, Password";
  }

  lemma QueryHead()
    ensures "SELECT " + "Id, Descriptor, Login, Password" + " FROM " + "LiftBlocks"
         == "SELECT Id, Descriptor, Login, Password FROM LiftBlocks"
  {
    assert "SELECT " + "Id, Descriptor, Login, Password" == "SELECT Id, Descriptor, Login, Password";
    assert "SELECT Id, Descriptor, Login, Password" + " FROM " == "SELECT Id, Descriptor, Login, Password FROM ";
    assert "SELECT Id, Descriptor, Login, Password FROM " + "LiftBlocks"
        == "SELECT Id, Descriptor, Login, Password FROM LiftBlocks";
  }

  /** The text of the MQTT worker's query. */
  lemma BlocksQueryText(id: string)
    ensures BlocksQuery(OwnBlocks(id)).query
         == "SELECT Id, Descriptor, Login, Password FROM LiftBlocks"
            + (" " + ("WHERE WorkerLuId = \"" + id + "\" OR SecondWorkerLuId = \"" + id + "\""))
  {
    FieldsJoined();
    QueryHead();
  }

  /** Event x is a lift's login with this name, calling itself `LKDS_LU<d> ...`; nothing touches its
      connection from then on. */
  ghost predicate LiftHasLoggedIn(logins: set<string>, events: seq<Broker.Event>, x: nat, i: nat, login: string,
                                  d: string, rest: string) {
    && Broker.IsRun(logins, [], events) && x < |events|
    && events[x] == Broker.Connects(i, login, Broker.SEARCH_PHRASE + d + " " + rest)
    && ' ' !in d && |Broker.SEARCH_PHRASE + d + " " + rest| < Broker.MAX_CLIENT_ID
    && forall y :: x < y < |events| ==> !Broker.Touches(events[y], i)
  }

  lemma AroundLogin(events: seq<Broker.Event>, x: nat)
    requires x < |events|
    ensures events == events[..x] + ([events[x]] + events[x + 1..])
  {
  }

  /** The tables of an MQTT worker that has fetched from this database and refreshed. */
  ghost predicate HasRefreshed(t: LiftWorker.Tables, sql: DataBase.Sql, cond: string) {
    && Fetch.SoundEngine(sql)
    && |Fetched(sql, cond)| == 1 && LiftWorker.InStep(Fetched(sql, cond)[0])
    && exists earlier :: t == LiftWorker.Refresh(earlier, Fetched(sql, cond)[0]).0
  }

  /** From a row of the database to the lift: a move for the quoted id of row m reaches the lift that has
      logged in and calls itself by the descriptor of that row. */
  lemma MoveReachesTheLiftOfTheBlock(
    sql: DataBase.Sql, db: Fetch.Database, cond: string, t: LiftWorker.Tables, blocks: Rows, m: nat, u: nat,
    events: seq<Broker.Event>, x: nat, i: nat, rest: string, station: string, floor: string,
    sent: seq<LiftWorker.Reply>)
    requires Fetch.IsEngineOver(sql, db) && Fetch.CanAnswer(db, "LiftBlocks", FIELDS, Some(cond))
    requires blocks == db("LiftBlocks", Some(cond)) && PlainBlocks(blocks) && m < |blocks| && u < |blocks|
    requires HasRefreshed(t, sql, cond)
    requires LiftHasLoggedIn(t.passwords.Keys, events, x, i, blocks[u]["Login"], blocks[m]["Descriptor"], rest)
    ensures LiftWorker.QuotedValues(t.descriptors)
    ensures MovesOnce(t.descriptors, Broker.Run(t.passwords.Keys, [], events),
                      LiftWorker.MoveLift(station, Json.Quote(blocks[m]["Id"]), floor), blocks[m]["Descriptor"], sent)
  {
    BlocksAreAnswered(sql, db, cond);
    CellsOfBlocks(blocks);
    AroundLogin(events, x);
    var earlier :| t == LiftWorker.Refresh(earlier, Fetched(sql, cond)[0]).0;
    MoveReachesTheLiftOfTheRow(sql, cond, earlier, t, Fetch.Cells(blocks, FIELDS), m, u, events[..x], events[x + 1..],
                               i, rest, station, floor, sent);
  }

  // ------------------------------------------------------------------ from the voice to the lift

  /** The text worker's answer as the main server reads it from the wire; the request takes it in. */
  function Moving(h: Https.Http, mqtt: seq<Routing.Worker>, worker: string, station: string,
                  answer: TextWorker.Answer): Https.Http {
    Https.Step(h, Https.FromText(Messages.TextAnswerOf(Json.Serialize(Messages.AnswerObject(worker, station, answer))),
                                 mqtt))
  }

  /** A request's command as the MQTT worker reads it from the wire. */
  function OnTheWire(server: string, c: Https.MoveCommand): LiftWorker.Doc {
    Messages.DocOf(Json.Serialize(Messages.CommandObject(server, c)))
  }

  /** The MQTT worker's reply as the main server reads it; the request takes it in. */
  function Told(h: Https.Http, worker: string, reply: LiftWorker.Reply): Https.Http {
    Https.Step(h, Https.FromMqtt(Messages.MqttAnswerOf(Json.Serialize(LiftWorker.ReplyObject(worker, reply)))))
  }

  /** The names that the services give themselves as senders. */
  datatype Names = Names(server: string, text: string, mqtt: string)

  /** For this answer of the text worker the request sends one command, to the position that it saved.
      What that worker reads publishes the floor once, to the topic of this descriptor, and its reply gives
      the request its one response: the lift is on its way. */
  predicate LiftComes(h: Https.Http, mqtt: seq<Routing.Worker>, names: Names, station: string,
                      answer: TextWorker.Answer, descriptors: map<string, string>,
                      sessions: seq<Broker.BrokerSession>, d: string, floor: int, sent: seq<LiftWorker.Reply>)
    requires h.body.Some? && LiftWorker.QuotedValues(descriptors)
  {
    var moving := Moving(h, mqtt, names.text, station, answer);
    && moving.responses == h.responses && |moving.moveCommands| == |h.moveCommands| + 1
    && var command := moving.moveCommands[|h.moveCommands|];
       var doc := OnTheWire(names.server, command);
       && command.worker == h.pos.mqttWorker
       && doc.MoveLift? && doc.station == station && doc.floor == Decimal(floor)
       && MovesOnce(descriptors, sessions, doc, d, sent)
       && var (w, _) := LiftWorker.Rounds(descriptors, LiftWorker.Worker([doc], sent, sessions), 1);
          var final := Told(moving, names.mqtt, w.sent[|sent|]);
          IsServed(h, final)
  }

  /** One response more, that the lift was sent, for the request that was open. */
  predicate IsServed(h: Https.Http, final: Https.Http)
    requires h.body.Some?
  {
    && |final.responses| == |h.responses| + 1 && final.responses[..|h.responses|] == h.responses
    && Https.Echoes(final.responses[|h.responses|], h.body.value)
    && final.responses[|h.responses|].content == Https.AskMore
  }

  lemma AnswerIsTakenIn(h: Https.Http, mqtt: seq<Routing.Worker>, worker: string, station: string, text: string,
                        block: string, n: int)
    requires h.pos.mqttWorker < |mqtt| && mqtt[h.pos.mqttWorker].live && FitsInt(n)
    ensures Moving(h, mqtt, worker, station, TextWorker.Move(text, block, n))
         == h.(moveCommands := h.moveCommands + [Https.MoveCommand(h.pos.mqttWorker, station, block, n)])
  {
    Messages.AnswerIsUnderstood(worker, station, TextWorker.Move(text, block, n));
    JsonReader.DocumentIsReadBack(Messages.AnswerObject(worker, station, TextWorker.Move(text, block, n)));
  }

  lemma CommandArrives(server: string, c: Https.MoveCommand)
    ensures OnTheWire(server, c) == LiftWorker.MoveLift(c.station, c.block, Decimal(c.floor))
  {
    Messages.CommandIsUnderstood(server, c);
    JsonReader.DocumentIsReadBack(Messages.CommandObject(server, c));
  }

  lemma SuccessIsPassedOn(h: Https.Http, worker: string, station: string)
    requires h.body.Some?
    ensures IsServed(h, Told(h, worker, LiftWorker.MoveReply(station, true)))
  {
    var reply := LiftWorker.MoveReply(station, true);
    Messages.ReplyIsUnderstood(worker, reply);
    JsonReader.DocumentIsReadBack(LiftWorker.ReplyObject(worker, reply));
    var e := Https.FromMqtt(Https.Moved(true));
    assert [e][1..] == [] && Https.Run(h, [e]) == Https.Run(Https.Step(h, e), []);
    Https.OpenRunAnswersOnceIff(h, [e]);
  }

  lemma MoveBringsTheLift(h: Https.Http, mqtt: seq<Routing.Worker>, names: Names, station: string, text: string,
                          block: string, n: int, descriptors: map<string, string>,
                          sessions: seq<Broker.BrokerSession>, d: string, sent: seq<LiftWorker.Reply>)
    requires h.body.Some? && h.pos.mqttWorker < |mqtt| && mqtt[h.pos.mqttWorker].live && FitsInt(n)
    requires LiftWorker.QuotedValues(descriptors)
    requires MovesOnce(descriptors, sessions, LiftWorker.MoveLift(station, block, Decimal(n)), d, sent)
    ensures LiftComes(h, mqtt, names, station, TextWorker.Move(text, block, n), descriptors, sessions, d, n, sent)
  {
    AnswerIsTakenIn(h, mqtt, names.text, station, text, block, n);
    var command := Https.MoveCommand(h.pos.mqttWorker, station, block, n);
    CommandArrives(names.server, command);
    var moving := h.(moveCommands := h.moveCommands + [command]);
    SuccessIsPassedOn(moving, names.mqtt, station);
  }

  /** The words of a request ask for a lift, one of them is a floor word and the one that is selected, and
      the search for that floor meets nothing that it cannot read. */
  ghost predicate AsksForFloor(k: TextWorker.Knowledge, houses: Rows, house: string, complex: string,
                               words: seq<string>, word: string)
    requires TextTables.PlainHouses(houses)
  {
    && TextTables.NamesALift(k, words) && word in k.floors
    && (exists i: nat, m: nat :: TextWorker.IsSelected(k.roots, words, i, m) && words[m] == word)
    && !TextTables.FloorIsUnreadable(houses, k.parse, house, complex, k.floors[word])
  }

  /** The whole way, from the rows of one database to the lift. A lift has logged in and calls itself by the
      descriptor of row m of the lift blocks; the request's station is row j, and its lift block is that of
      row m. The text worker answers the request's words by the rows, as AnswerRequest does. Then every
      message is read at its other end as it was meant, the floor of the word is published once, to the
      topic of the descriptor, and the request gets one response, with its own ids. */
  lemma VoiceReachesTheLift(
    sql: DataBase.Sql, db: Fetch.Database, cond: string, t: LiftWorker.Tables, blocks: Rows, m: nat, u: nat,
    events: seq<Broker.Event>, x: nat, i: nat, rest: string, sent: seq<LiftWorker.Reply>,
    k: TextWorker.Knowledge, stations: Rows, houses: Rows, phrases: Rows, j: nat, words: seq<string>, word: string,
    command: string, answer: Option<TextWorker.Answer>,
    h: Https.Http, mqtt: seq<Routing.Worker>, names: Names)
    // the MQTT worker and the lift
    requires Fetch.IsEngineOver(sql, db) && Fetch.CanAnswer(db, "LiftBlocks", FIELDS, Some(cond))
    requires blocks == db("LiftBlocks", Some(cond)) && PlainBlocks(blocks) && m < |blocks| && u < |blocks|
    requires HasRefreshed(t, sql, cond)
    requires LiftHasLoggedIn(t.passwords.Keys, events, x, i, blocks[u]["Login"], blocks[m]["Descriptor"], rest)
    // the text worker and its answer
    requires stations == db("MarussiaStation", None) && houses == db("House", None)
    requires phrases == db("StaticPhrases", None)
    requires TextTables.PlainStations(stations) && TextTables.PlainHouses(houses) && TextTables.PlainPhrases(phrases)
    requires j < |stations| && stations[j]["LiftBlockId"] == blocks[m]["Id"]
    requires TextTables.AnswersByRows(k, stations, houses, phrases, j, words, command, answer)
    requires AsksForFloor(k, houses, stations[j]["HouseNum"], stations[j]["HouseComplexId"], words, word)
    requires FitsInt(k.floors[word])
    // the request
    requires h.body.Some? && h.pos.mqttWorker < |mqtt| && mqtt[h.pos.mqttWorker].live
    ensures LiftWorker.QuotedValues(t.descriptors) && answer.Some?
    ensures LiftComes(h, mqtt, names, Json.Quote(stations[j]["ApplicationId"]), answer.value, t.descriptors,
                      Broker.Run(t.passwords.Keys, [], events), blocks[m]["Descriptor"], k.floors[word], sent)
  {
    var house, complex := stations[j]["HouseNum"], stations[j]["HouseComplexId"];
    var station, n := Json.Quote(stations[j]["ApplicationId"]), k.floors[word];
    var a: nat, b: nat :| TextWorker.IsSelected(k.roots, words, a, b) && words[b] == word;
    assert answer == TextTables.FloorAnswer(k, houses, house, complex, word, blocks[m]["Id"]);
    var move := answer.value;
    MoveReachesTheLiftOfTheBlock(sql, db, cond, t, blocks, m, u, events, x, i, rest, station, Decimal(n), sent);
    MoveBringsTheLift(h, mqtt, names, station, move.text, move.liftBlock, n, t.descriptors,
                      Broker.Run(t.passwords.Keys, [], events), blocks[m]["Descriptor"], sent);
  }

  // ------------------------------------------------------------------ an unknown lift block

  /** What a session of the main server holds while this request waits for its move. */
  function SlotOf(h: Https.Http): Framing.Callback {
    Framing.ForRequest(h.body.Some?)
  }

  /** The callback that the dispatch loop of a SessionMQTT runs is that of the HTTPS session: it stays
      at a message iff the callback throws, and holds the request's new state otherwise. */
  lemma SlotFollowsTheRequest(h: Https.Http, answer: Https.MqttAnswer, targetOf: Framing.TargetOf, doc: string)
    requires targetOf(doc) == Some("mqtt_message")
    ensures Framing.Handle(targetOf, SlotOf(h), doc)
         == if Https.Throws(h, Https.FromMqtt(answer)) then None
            else Some((Framing.MqttMessage, SlotOf(Https.Step(h, Https.FromMqtt(answer)))))
  {
  }

  lemma {:induction false} RepeatIsConstant<T>(x: T, n: nat)
    ensures |LiftWorker.Repeat(x, n)| == n && forall i :: 0 <= i < n ==> LiftWorker.Repeat(x, n)[i] == x
    decreases n
  {
    if n > 0 {
      RepeatIsConstant(x, n - 1);
    }
  }

  lemma {:induction false} AllAreMessages(targetOf: Framing.TargetOf, docs: seq<string>)
    requires forall i :: 0 <= i < |docs| ==> targetOf(docs[i]) == Some("mqtt_message")
    ensures Framing.Messages(targetOf, docs) == |docs| && Framing.AllHandled(targetOf, docs)
    decreases docs
  {
    if docs != [] {
      AllAreMessages(targetOf, docs[1..]);
    }
  }

  /** The main server reads a reply to a move as a message. */
  lemma RepliesAreMessages(worker: string, reply: LiftWorker.Reply)
    requires reply.MoveReply? || reply.BlockUnknown?
    ensures JsonReader.TargetIn(Json.Serialize(LiftWorker.ReplyObject(worker, reply))) == Some("mqtt_message")
  {
    JsonReader.DocumentIsReadBack(LiftWorker.ReplyObject(worker, reply));
    LiftWorker.RepliesSayWhatHappened(worker, reply);
  }

  /** Composed: a request waits for its move, the MQTT worker does not know the lift block, and the main
      server has received the refusals of the first n rounds of the worker's dispatch loop, cut in any
      way. The first one answers the request; from the second on the main server's own dispatch loop
      never returns. And since the worker refuses for ever, the second one comes. */
  lemma UnknownBlockHangsTheMainServerIff(h: Https.Http, descriptors: map<string, string>, w: LiftWorker.Worker, n: nat,
                                          worker: string, chunks: seq<string>)
    requires h.body.Some?
    requires LiftWorker.QuotedValues(descriptors) && w.queue != []
    requires w.queue[0].MoveLift? && w.queue[0].block !in descriptors
    requires var (w', goes) := LiftWorker.Rounds(descriptors, w, n);
             && |w.sent| <= |w'.sent|
             && Framing.Flatten(chunks) == Framing.Flatten(LiftWorker.ReplyTexts(worker, w'.sent[|w.sent|..]))
    ensures LiftWorker.Rounds(descriptors, w, n).1
    ensures Framing.MqttRun(JsonReader.TargetIn, Framing.SessionWith(SlotOf(h)), Framing.Chunks(chunks)) == None
       <==> n >= 2
  {
    var refusal := LiftWorker.BlockUnknown(w.queue[0].station);
    LiftWorker.UnknownBlockIsRefusedForEver(descriptors, w, n);
    RepeatIsConstant(refusal, n);
    var replies := LiftWorker.Rounds(descriptors, w, n).0.sent[|w.sent|..];
    assert replies == LiftWorker.Repeat(refusal, n);
    var objects := seq(n, i => LiftWorker.ReplyObject(worker, refusal));
    assert Framing.SerializeAll(objects) == LiftWorker.ReplyTexts(worker, replies);
    RepliesAreMessages(worker, refusal);
    AllAreMessages(JsonReader.TargetIn, Framing.SerializeAll(objects));
    Framing.MqttChunkIndependence(JsonReader.TargetIn, SlotOf(h), objects, chunks);
  }
}
