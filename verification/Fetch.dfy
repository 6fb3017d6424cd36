/** The database client and the database service run together: what one fetch delivers. */
module Fetch {
  import opened Common
  import opened ClientDb
  import opened DataBase
  import Json

  // ------------------------------------------------------------------ the composed system

  /** Every query that the plan can lead to reaches a sound engine. */
  ghost predicate SoundEngine(sql: Sql) {
    forall query :: EngineIsSound(sql, query)
  }

  /** What is out fits the client's flags: nothing but a connect goes out before the connect is
      answered. */
  predicate Coherent(c: Client) {
    && Inv(c)
    && (c.outbox.Some? ==> !c.disconnecting && (c.outbox.value.ConnectRequest? <==> !c.connected))
  }

  function Measure(c: Client): nat {
    if c.outbox.None? then 0
    else match c.outbox.value
      case ConnectRequest => 2 * |c.tables| + 3
      case QueryRequest(_, _) => 2 * |c.tables| + 2
      case DisconnectRequest => 1
  }

  /** Exchange request and reply until the client has nothing out any more, or the service died. That
      this is a function at all says that every fault-free fetch terminates. */
  ghost function Exchange(c: Client, sql: Sql, accepts: bool): (c': Client)
    requires Coherent(c) && SoundEngine(sql)
    ensures Coherent(c')
    decreases Measure(c)
  {
    if c.outbox.None? then c
    else
      var reply := Serve(sql, accepts, c.outbox.value);
      if reply.None? then c else Exchange(Step(c, Received(reply.value)), sql, accepts)
  }

  /** A started client whose connection has just been made. */
  function Begin(c: Client): Client
    requires Inv(c)
  {
    Step(Step(c, Restart), Connected(false))
  }

  // ------------------------------------------------------------------ what a good query delivers

  /** The engine answers this query with at least one row of just the requested columns. */
  predicate Good(sql: Sql, ask: Ask) {
    && sql(ask.query).Rows?
    && sql(ask.query).columns == ask.fields
    && sql(ask.query).rows != []
    && WellShaped(ask.fields, sql(ask.query).rows)
  }

  /** The table that a good query is meant to deliver: for each field, that field of every row, as
      JSON strings, in row order. */
  ghost predicate IsTableOf(table: Table, sql: Sql, ask: Ask)
    requires Good(sql, ask)
  {
    var rows := sql(ask.query).rows;
    && table.Keys == (set f | f in ask.fields)
    && forall k :: 0 <= k < |ask.fields| ==>
         && |table[ask.fields[k]]| == |rows|
         && forall j :: 0 <= j < |rows| ==> table[ask.fields[k]][j] == Json.Quote(rows[j][k])
  }

  function Delivered(sql: Sql, ask: Ask): (table: Table)
    requires Good(sql, ask)
  {
    var answer := PivotRows(map[], ask.fields, sql(ask.query).rows);
    map f | f in ask.fields && f in answer :: Quoted(answer[f])
  }

  lemma DeliveredIsTable(sql: Sql, ask: Ask)
    requires Good(sql, ask)
    ensures IsTableOf(Delivered(sql, ask), sql, ask)
  {
    PivotGivesColumns(ask.fields, sql(ask.query).rows);
  }

  /** A good query's answer is taken in whole: the table is stored under its name. */
  lemma GoodQueryIsStored(sql: Sql, accepts: bool, ask: Ask)
    requires Good(sql, ask)
    ensures var reply := Serve(sql, accepts, QueryRequest(ask.fields, ask.query));
            && reply.Some? && reply.value.QueryReply?
            && Decode(ask.fields, reply.value.columns) == Some(Delivered(sql, ask))
  {
    PivotGivesColumns(ask.fields, sql(ask.query).rows);
    var answer := PivotRows(map[], ask.fields, sql(ask.query).rows);
    var reply := Serve(sql, accepts, QueryRequest(ask.fields, ask.query));
    var table := Decode(ask.fields, reply.value.columns);
    assert table.value == Delivered(sql, ask);
  }

  /** The data after the tables of these queries were stored one after the other. */
  function Store(sql: Sql, base: Data, asks: seq<Ask>): Data
    requires forall i :: 0 <= i < |asks| ==> Good(sql, asks[i])
    decreases asks
  {
    if asks == [] then base
    else Store(sql, base[asks[0].table := Delivered(sql, asks[0])], asks[1..])
  }

  /** The queries up to the k-th are good, and the k-th, if there is one, fails in SQL. */
  predicate FailsFirstAt(sql: Sql, plan: seq<Ask>, k: nat) {
    && k <= |plan|
    && (forall i :: 0 <= i < k ==> Good(sql, plan[i]))
    && (k < |plan| ==> sql(plan[k].query).SqlError?)
  }

  // ------------------------------------------------------------------ the run

  /** The client has just sent query n of the plan (or the goodbye, when n is the plan's length). */
  ghost predicate Asking(c: Client, plan: seq<Ask>, n: nat)
  {
    && Coherent(c) && c.connected && !c.disconnecting && c.outbox.Some?
    && n <= |plan|
    && if n == |plan| then
         c.outbox == Some(DisconnectRequest) && c.tables == [] && c.asked == plan
       else
         && c.outbox == Some(QueryRequest(plan[n].fields, plan[n].query))
         && c.tableSent == plan[n].table && c.fieldsSent == plan[n].fields
         && c.asked == plan[..n + 1]
  }

  lemma GenerateAsks(c: Client, tables: seq<string>, fields: seq<seq<string>>, conds: seq<string>, n: nat)
    requires QueuesFit(tables, fields) && OnPlan(c, tables, fields, conds)
    requires n == |c.asked| && c.connected && !c.disconnecting
    ensures Asking(QueryGenerator(c), Plan(tables, fields, conds), n)
    ensures QueryGenerator(c).resp == c.resp && QueryGenerator(c).callbacks == c.callbacks
    ensures OnPlan(QueryGenerator(c), tables, fields, conds)
  {
    QueryGeneratorOnPlan(c, tables, fields, conds);
    var c' := QueryGenerator(c);
    var plan := Plan(tables, fields, conds);
    if n < |tables| {
      assert c'.asked[n] == plan[..n + 1][n] == plan[n];
    } else {
      assert plan[..n] == plan;
    }
  }

  /** One good query: its table is stored and the next query is out. */
  lemma GoodStep(c: Client, sql: Sql, tables: seq<string>, fields: seq<seq<string>>, conds: seq<string>, n: nat)
    requires SoundEngine(sql) && QueuesFit(tables, fields) && OnPlan(c, tables, fields, conds)
    requires n < |tables| && Asking(c, Plan(tables, fields, conds), n)
    requires Good(sql, Plan(tables, fields, conds)[n])
    ensures var ask := Plan(tables, fields, conds)[n];
            var reply := Serve(sql, true, c.outbox.value);
            && reply.Some?
            && var c1 := Step(c, Received(reply.value));
               && OnPlan(c1, tables, fields, conds) && Asking(c1, Plan(tables, fields, conds), n + 1)
               && c1.resp == c.resp[ask.table := Delivered(sql, ask)] && c1.callbacks == c.callbacks
               && Exchange(c, sql, true) == Exchange(c1, sql, true)
  {
    var ask := Plan(tables, fields, conds)[n];
    GoodQueryIsStored(sql, true, ask);
    var reply := Serve(sql, true, c.outbox.value).value;
    var c0 := c.(outbox := None, resp := c.resp[ask.table := Delivered(sql, ask)]);
    assert Step(c, Received(reply)) == QueryGenerator(c0);
    GenerateAsks(c0, tables, fields, conds, n + 1);
  }

  /** The goodbye, the client's own or the service's after an SQL error, ends the exchange with one
      callback. */
  lemma GoodbyeStep(c: Client, sql: Sql)
    requires Coherent(c) && SoundEngine(sql) && c.connected && !c.disconnecting && c.outbox.Some?
    requires Serve(sql, true, c.outbox.value) == Some(DisconnectReply(true))
    ensures var c' := Exchange(c, sql, true);
            c' == Stop(c.(disconnecting := true, callbacks := c.callbacks + [c.resp]))
  {
    var c1 := Step(c, Received(DisconnectReply(true)));
    assert c1.outbox.None?;
  }

  lemma StoreStep(sql: Sql, data: Data, plan: seq<Ask>, n: nat, k: nat)
    requires n < k <= |plan| && forall i :: n <= i < k ==> Good(sql, plan[i])
    ensures Store(sql, data, plan[n..k]) == Store(sql, data[plan[n].table := Delivered(sql, plan[n])], plan[n + 1..k])
  {
    assert plan[n..k][0] == plan[n] && plan[n..k][1..] == plan[n + 1..k];
  }

  /** From query n on, the exchange stores the tables up to the first failure and then calls back
      once with them. */
  lemma {:induction false} ExchangeFrom(c: Client, sql: Sql, tables: seq<string>, fields: seq<seq<string>>,
                                        conds: seq<string>, n: nat, k: nat)
    requires SoundEngine(sql) && QueuesFit(tables, fields) && OnPlan(c, tables, fields, conds)
    requires Asking(c, Plan(tables, fields, conds), n)
    requires FailsFirstAt(sql, Plan(tables, fields, conds), k) && n <= k
    ensures var plan := Plan(tables, fields, conds);
            var c' := Exchange(c, sql, true);
            && c'.outbox.None? && !c'.open
            && c'.callbacks == c.callbacks + [Store(sql, c.resp, plan[n..k])]
            && c'.asked == plan[..if k < |plan| then k + 1 else k]
    decreases k - n
  {
    var plan := Plan(tables, fields, conds);
    if n == k {
      GoodbyeStep(c, sql);
      assert plan[n..k] == [];
      assert plan[..|plan|] == plan;
    } else {
      GoodStep(c, sql, tables, fields, conds, n);
      var c1 := Step(c, Received(Serve(sql, true, c.outbox.value).value));
      ExchangeFrom(c1, sql, tables, fields, conds, n + 1, k);
      StoreStep(sql, c.resp, plan, n, k);
    }
  }

  /** Fetch correctness of the composed system, for any client, however used before: the exchange
      ends, the callback is called exactly once, and it is given what the client held before with the
      tables of exactly those queries stored that come before the first failing one. */
  lemma FetchDelivers(c: Client, sql: Sql, tables: seq<string>, fields: seq<seq<string>>, conds: seq<string>, k: nat)
    requires Inv(c) && QueuesFit(tables, fields) && SoundEngine(sql)
    requires FailsFirstAt(sql, Plan(tables, fields, Conditions(c, tables, conds)), k)
    ensures var plan := Plan(tables, fields, Conditions(c, tables, conds));
            var c' := Exchange(Begin(SetQuerys(c, tables, fields, conds)), sql, true);
            && c'.outbox.None? && !c'.open
            && c'.callbacks == c.callbacks + [Store(sql, c.resp, plan[..k])]
            && c'.asked == plan[..if k < |plan| then k + 1 else k]
  {
    SetQuerysOnPlan(c, tables, fields, conds);
    FetchFromHere(SetQuerys(c, tables, fields, conds), sql, tables, fields, Conditions(c, tables, conds), k);
    var plan := Plan(tables, fields, Conditions(c, tables, conds));
    assert plan[0..k] == plan[..k];
  }

  lemma FetchFromHere(c: Client, sql: Sql, tables: seq<string>, fields: seq<seq<string>>, conds: seq<string>, k: nat)
    requires QueuesFit(tables, fields) && SoundEngine(sql) && OnPlan(c, tables, fields, conds) && |c.asked| <= k
    requires FailsFirstAt(sql, Plan(tables, fields, conds), k)
    ensures var plan := Plan(tables, fields, conds);
            var c' := Exchange(Begin(c), sql, true);
            && c'.outbox.None? && !c'.open
            && c'.callbacks == c.callbacks + [Store(sql, c.resp, plan[|c.asked|..k])]
            && c'.asked == plan[..if k < |plan| then k + 1 else k]
  {
    var c1 := LoggedIn(c);
    LoginStep(c, sql);
    GenerateAsks(c1, tables, fields, conds, |c.asked|);
    ExchangeFrom(QueryGenerator(c1), sql, tables, fields, conds, |c.asked|, k);
  }

  /** A fault of the connection, at whatever point of a fetch: the client starts again by itself, and once
      it is connected it asks just the queries that are still queued and calls back once. What it had
      stored stays; only the query that was out when the fault came is lost. */
  lemma FetchGoesOnAfterAFault(c: Client, sql: Sql, tables: seq<string>, fields: seq<seq<string>>, conds: seq<string>,
                               events: seq<Event>, fault: Event, k: nat)
    requires Inv(c) && QueuesFit(tables, fields) && SoundEngine(sql)
    requires fault == Connected(true) || fault.SendFailed? || fault.ReceiveFailed?
    requires FailsFirstAt(sql, Plan(tables, fields, Conditions(c, tables, conds)), k)
    requires |ClientDb.Run(SetQuerys(c, tables, fields, conds), events).asked| <= k
    ensures var plan := Plan(tables, fields, Conditions(c, tables, conds));
            var before := ClientDb.Run(SetQuerys(c, tables, fields, conds), events);
            var again := Step(before, fault);
            && again.open && again.outbox.None? && again.resp == before.resp && again.callbacks == before.callbacks
            && Coherent(Step(again, Connected(false)))
            && var after := Exchange(Step(again, Connected(false)), sql, true);
               && after.callbacks == before.callbacks + [Store(sql, before.resp, plan[|before.asked|..k])]
               && !after.open
  {
    SetQuerysOnPlan(c, tables, fields, conds);
    RunOnPlan(SetQuerys(c, tables, fields, conds), events, tables, fields, Conditions(c, tables, conds));
    var before := ClientDb.Run(SetQuerys(c, tables, fields, conds), events);
    FetchFromHere(before, sql, tables, fields, Conditions(c, tables, conds), k);
    assert Step(Step(before, fault), Connected(false)) == Begin(before);
  }

  /** The client just before its first query. */
  function LoggedIn(c: Client): (c': Client)
    requires Inv(c)
    ensures Inv(c')
  {
    c.(open := true, outbox := None, connected := true, disconnecting := false)
  }

  /** An accepted login leads straight to the first query. */
  lemma LoginStep(c: Client, sql: Sql)
    requires Inv(c) && SoundEngine(sql)
    ensures Coherent(Begin(c)) && Coherent(QueryGenerator(LoggedIn(c)))
    ensures Exchange(Begin(c), sql, true) == Exchange(QueryGenerator(LoggedIn(c)), sql, true)
  {
    var c2 := Begin(c);
    assert c2.outbox == Some(ConnectRequest);
    assert Step(c2, Received(ConnectReply(true))) == QueryGenerator(LoggedIn(c));
  }

  /** A rejected login ends the exchange with no query and no callback. */
  lemma RejectedFetchCallsNothing(c: Client, sql: Sql, tables: seq<string>, fields: seq<seq<string>>,
                                  conds: seq<string>)
    requires Inv(c) && QueuesFit(tables, fields) && SoundEngine(sql)
    ensures var c' := Exchange(Begin(SetQuerys(c, tables, fields, conds)), sql, false);
            c'.outbox.None? && !c'.open && c'.callbacks == c.callbacks && c'.asked == []
  {
    var c2 := Begin(SetQuerys(c, tables, fields, conds));
    var c3 := Step(c2, Received(ConnectReply(false)));
    assert c3.outbox.None?;
  }

  // ------------------------------------------------------------------ what the stored data holds

  predicate DifferentTables(asks: seq<Ask>) {
    forall i, j :: 0 <= i < j < |asks| ==> asks[i].table != asks[j].table
  }

  predicate IsAsked(asks: seq<Ask>, table: string) {
    exists i :: 0 <= i < |asks| && asks[i].table == table
  }

  lemma {:induction false} StoreKeys(sql: Sql, base: Data, asks: seq<Ask>, table: string)
    requires forall i :: 0 <= i < |asks| ==> Good(sql, asks[i])
    ensures table in Store(sql, base, asks) <==> table in base || IsAsked(asks, table)
    ensures table in base && !IsAsked(asks, table) ==> Store(sql, base, asks)[table] == base[table]
    decreases asks
  {
    if asks != [] {
      StoreKeys(sql, base[asks[0].table := Delivered(sql, asks[0])], asks[1..], table);
      assert IsAsked(asks, table) <==> asks[0].table == table || IsAsked(asks[1..], table) by {
        assert asks == [asks[0]] + asks[1..];
      }
    }
  }

  lemma {:induction false} StoreAt(sql: Sql, base: Data, asks: seq<Ask>, i: nat)
    requires forall i :: 0 <= i < |asks| ==> Good(sql, asks[i])
    requires DifferentTables(asks) && i < |asks|
    ensures asks[i].table in Store(sql, base, asks)
    ensures Store(sql, base, asks)[asks[i].table] == Delivered(sql, asks[i])
    decreases asks
  {
    var next := base[asks[0].table := Delivered(sql, asks[0])];
    assert forall j :: 0 <= j < |asks[1..]| ==> asks[1..][j] == asks[j + 1];
    if i == 0 {
      StoreKeys(sql, next, asks[1..], asks[0].table);
    } else {
      StoreAt(sql, next, asks[1..], i - 1);
    }
  }

  /** `data` holds this query's table as its rows say. */
  ghost predicate HoldsTable(data: Data, sql: Sql, ask: Ask)
    requires Good(sql, ask)
  {
    ask.table in data && IsTableOf(data[ask.table], sql, ask)
  }

  /** `data` holds just these tables. */
  ghost predicate HoldsTables(data: Data, sql: Sql, asks: seq<Ask>)
    requires forall i :: 0 <= i < |asks| ==> Good(sql, asks[i])
  {
    && (forall i :: 0 <= i < |asks| ==> HoldsTable(data, sql, asks[i]))
    && (forall table :: table in data ==> IsAsked(asks, table))
  }

  lemma StoreHoldsTable(sql: Sql, asks: seq<Ask>, i: nat)
    requires forall i :: 0 <= i < |asks| ==> Good(sql, asks[i])
    requires DifferentTables(asks) && i < |asks|
    ensures HoldsTable(Store(sql, map[], asks), sql, asks[i])
  {
    StoreAt(sql, map[], asks, i);
    DeliveredIsTable(sql, asks[i]);
  }

  lemma StoreHoldsOnly(sql: Sql, asks: seq<Ask>, data: Data)
    requires forall i :: 0 <= i < |asks| ==> Good(sql, asks[i])
    requires data == Store(sql, map[], asks)
    ensures forall table :: table in data ==> IsAsked(asks, table)
  {
    forall table | table in data ensures IsAsked(asks, table) {
      StoreKeys(sql, map[], asks, table);
    }
  }

  lemma StoreHoldsTables(sql: Sql, asks: seq<Ask>, data: Data)
    requires forall i :: 0 <= i < |asks| ==> Good(sql, asks[i])
    requires DifferentTables(asks) && data == Store(sql, map[], asks)
    ensures HoldsTables(data, sql, asks)
  {
    StoreHoldsOnly(sql, asks, data);
    forall i | 0 <= i < |asks| ensures HoldsTable(data, sql, asks[i]) {
      StoreHoldsTable(sql, asks, i);
    }
  }

  /** For a fresh client and n different tables of which query k is the first to fail (or none is, when
      k = n): the callback fires exactly once, with exactly the first k tables, and in each of them
      every field holds the JSON-quoted field of every row, in order; so all columns of a table have
      the same length, the number of its rows. */
  lemma FreshFetchDelivers(sql: Sql, tables: seq<string>, fields: seq<seq<string>>, conds: seq<string>, k: nat)
    requires QueuesFit(tables, fields) && SoundEngine(sql) && Distinct(tables)
    requires FailsFirstAt(sql, Plan(tables, fields, Conditions(NEW_CLIENT, tables, conds)), k)
    ensures var plan := Plan(tables, fields, Conditions(NEW_CLIENT, tables, conds));
            var c := Exchange(Begin(SetQuerys(NEW_CLIENT, tables, fields, conds)), sql, true);
            |c.callbacks| == 1 && HoldsTables(c.callbacks[0], sql, plan[..k])
  {
    var plan := Plan(tables, fields, Conditions(NEW_CLIENT, tables, conds));
    FetchDelivers(NEW_CLIENT, sql, tables, fields, conds, k);
    assert DifferentTables(plan[..k]) by {
      assert forall i :: 0 <= i < k ==> plan[..k][i].table == tables[i];
    }
    StoreHoldsTables(sql, plan[..k], Store(sql, map[], plan[..k]));
  }

  /** Rectangularity: any two columns of a delivered table have the same length, so an index that is
      good for one column is good for all of them. */
  lemma DeliveredTablesAreRectangular(sql: Sql, ask: Ask, table: Table, f: string, g: string)
    requires Good(sql, ask) && IsTableOf(table, sql, ask)
    requires f in ask.fields && g in ask.fields
    ensures f in table && g in table && |table[f]| == |table[g]| == |sql(ask.query).rows| > 0
  {
    var i :| 0 <= i < |ask.fields| && ask.fields[i] == f;
    var j :| 0 <= j < |ask.fields| && ask.fields[j] == g;
  }

  // ------------------------------------------------------------------ an engine over a database

  /** The rows of a table that meet a condition: each gives the columns their cells. */
  type Database = (string, Option<string>) -> seq<map<string, string>>

  predicate HasColumns(rows: seq<map<string, string>>, fields: seq<string>) {
    forall j, k :: 0 <= j < |rows| && 0 <= k < |fields| ==> fields[k] in rows[j]
  }

  function Cells(rows: seq<map<string, string>>, fields: seq<string>): (cells: seq<seq<string>>)
    requires HasColumns(rows, fields)
    ensures |cells| == |rows|
  {
    seq(|rows|, j requires 0 <= j < |rows| =>
      seq(|fields|, k requires 0 <= k < |fields| => rows[j][fields[k]]))
  }

  /** The engine answers a query by what its text says: the columns that it names, in that order, of the
      rows of the table that meet the condition. */
  ghost predicate IsEngineOver(sql: Sql, db: Database) {
    && SoundEngine(sql)
    && forall query, q :: ReadQuery(query) == Some(q) && HasColumns(db(q.table, q.cond), q.fields)
         ==> sql(query) == Rows(q.fields, Cells(db(q.table, q.cond), q.fields))
  }

  /** The database can answer these queries: names that can be read, different columns, all of them
      there, and at least one row. */
  predicate CanAnswer(db: Database, table: string, fields: seq<string>, cond: Option<string>) {
    && IsName(table) && fields != [] && AreNames(fields) && Distinct(fields)
    && db(table, cond) != [] && HasColumns(db(table, cond), fields)
  }

  lemma AskIsAnswered(sql: Sql, db: Database, table: string, fields: seq<string>, cond: Option<string>)
    requires IsEngineOver(sql, db) && CanAnswer(db, table, fields, cond)
    ensures var query := QueryText(fields, table, cond);
            && Good(sql, Ask(table, fields, query))
            && sql(query) == Rows(fields, Cells(db(table, cond), fields))
  {
    QueryIsReadBack(fields, table, cond);
  }

  /** This column holds the quoted cells of this field of all rows, in order. */
  predicate IsQuotedField(column: seq<string>, rows: seq<map<string, string>>, field: string)
    requires forall j :: 0 <= j < |rows| ==> field in rows[j]
  {
    |column| == |rows| && forall j :: 0 <= j < |rows| ==> column[j] == Json.Quote(rows[j][field])
  }

  /** `table` is what these rows of the database are meant to become. */
  predicate IsFetched(table: Table, rows: seq<map<string, string>>, fields: seq<string>) {
    && HasColumns(rows, fields)
    && forall k :: 0 <= k < |fields| ==> fields[k] in table && IsQuotedField(table[fields[k]], rows, fields[k])
  }

  lemma AnswerIsFetched(sql: Sql, db: Database, data: Data, table: string, fields: seq<string>, cond: Option<string>)
    requires IsEngineOver(sql, db) && CanAnswer(db, table, fields, cond)
    requires Good(sql, Ask(table, fields, QueryText(fields, table, cond)))
    requires HoldsTable(data, sql, Ask(table, fields, QueryText(fields, table, cond)))
    ensures table in data && IsFetched(data[table], db(table, cond), fields)
  {
    AskIsAnswered(sql, db, table, fields, cond);
    var ask := Ask(table, fields, QueryText(fields, table, cond));
    var rows := db(table, cond);
    forall k | 0 <= k < |fields|
      ensures fields[k] in data[table] && IsQuotedField(data[table][fields[k]], rows, fields[k])
    {
      assert ask.fields[k] == fields[k];
    }
  }

  /** Fetch correctness down to the database. A fresh client that asks for different tables gets, in one
      call, every table it asked for, and in it for every column the quoted cells of that column of all
      rows that meet the table's own condition. Nothing is assumed of a query but what its text says. */
  lemma DatabaseIsFetched(sql: Sql, db: Database, tables: seq<string>, fields: seq<seq<string>>, conds: seq<string>)
    requires IsEngineOver(sql, db) && QueuesFit(tables, fields) && Distinct(tables)
    requires conds == [] || |conds| == |tables|
    requires forall i :: 0 <= i < |tables| ==> CanAnswer(db, tables[i], fields[i], CondAt(conds, i))
    ensures var callbacks := Exchange(Begin(SetQuerys(NEW_CLIENT, tables, fields, conds)), sql, true).callbacks;
            && |callbacks| == 1
            && forall i :: 0 <= i < |tables| ==>
                 && tables[i] in callbacks[0]
                 && IsFetched(callbacks[0][tables[i]], db(tables[i], CondAt(conds, i)), fields[i])
  {
    var cs := Conditions(NEW_CLIENT, tables, conds);
    var plan := Plan(tables, fields, cs);
    forall i | 0 <= i < |tables| ensures Good(sql, plan[i]) {
      AskIsAnswered(sql, db, tables[i], fields[i], CondAt(conds, i));
    }
    FreshFetchDelivers(sql, tables, fields, conds, |tables|);
    assert plan[..|tables|] == plan;
    var data := Exchange(Begin(SetQuerys(NEW_CLIENT, tables, fields, conds)), sql, true).callbacks[0];
    forall i | 0 <= i < |tables|
      ensures tables[i] in data && IsFetched(data[tables[i]], db(tables[i], CondAt(conds, i)), fields[i])
    {
      assert HoldsTable(data, sql, plan[i]);
      AnswerIsFetched(sql, db, data, tables[i], fields[i], CondAt(conds, i));
    }
  }

  /** The k-th of these columns of a table. */
  function Col(t: Table, fields: seq<string>, k: nat): seq<string>
    requires k < |fields| && forall f :: f in fields ==> f in t
  {
    t[fields[k]]
  }

  // ------------------------------------------------------------------ fetching through faults

  /** Either a fault or restart at the client, or the service's answer to what is out. */
  datatype NetEvent = Fault(e: Event) | Answer

  ghost predicate NetEnabled(c: Client, sql: Sql, e: NetEvent)
    requires SoundEngine(sql)
  {
    match e
    case Fault(f) => !f.Received?
    case Answer => c.outbox.Some? && Serve(sql, true, c.outbox.value).Some?
  }

  ghost function NetStep(c: Client, sql: Sql, e: NetEvent): (c': Client)
    requires Inv(c) && SoundEngine(sql) && NetEnabled(c, sql, e)
    ensures Inv(c')
  {
    match e
    case Fault(f) => Step(c, f)
    case Answer => Step(c, Received(Serve(sql, true, c.outbox.value).value))
  }

  ghost predicate IsNetRun(c: Client, sql: Sql, events: seq<NetEvent>)
    requires Inv(c) && SoundEngine(sql)
    decreases events
  {
    events == [] || (NetEnabled(c, sql, events[0]) && IsNetRun(NetStep(c, sql, events[0]), sql, events[1..]))
  }

  ghost function NetRun(c: Client, sql: Sql, events: seq<NetEvent>): (c': Client)
    requires Inv(c) && SoundEngine(sql) && IsNetRun(c, sql, events)
    ensures Inv(c')
    decreases events
  {
    if events == [] then c else NetRun(NetStep(c, sql, events[0]), sql, events[1..])
  }

  /** A query for which the service throws: it asks for columns and has no rows. */
  predicate Rowless(sql: Sql, ask: Ask) {
    sql(ask.query).Rows? && sql(ask.query).rows == [] && ask.fields != []
  }

  /** A query that is answered with rows at all is answered with rows of just its columns. */
  predicate GoodOrUnanswered(sql: Sql, ask: Ask) {
    Good(sql, ask) || sql(ask.query).SqlError? || Rowless(sql, ask)
  }

  lemma RowlessIsNotAnswered(sql: Sql, accepts: bool, ask: Ask)
    requires SoundEngine(sql) && Rowless(sql, ask)
    ensures Serve(sql, accepts, QueryRequest(ask.fields, ask.query)).None?
  {
    assert ask.fields[0] in ask.fields && ask.fields[0] !in PivotRows(map[], sql(ask.query).columns, []);
  }

  ghost predicate IsAnswerTo(table: Table, name: string, sql: Sql, ask: Ask) {
    ask.table == name && Good(sql, ask) && table == Delivered(sql, ask)
  }

  /** Every table is either an old one, untouched, or the true answer to a query that was asked. */
  ghost predicate Truthful(data: Data, base: Data, sql: Sql, asked: seq<Ask>) {
    forall t :: t in data ==>
      || (t in base && data[t] == base[t])
      || exists i :: 0 <= i < |asked| && IsAnswerTo(data[t], t, sql, asked[i])
  }

  ghost predicate Honest(c: Client, base: Client, sql: Sql) {
    && Truthful(c.resp, base.resp, sql, c.asked)
    && base.callbacks <= c.callbacks
    && (forall i :: |base.callbacks| <= i < |c.callbacks| ==> Truthful(c.callbacks[i], base.resp, sql, c.asked))
    && (forall i :: 0 <= i < |c.asked| ==> GoodOrUnanswered(sql, c.asked[i]))
  }

  /** The query that is out is the last one asked, and its name and fields are remembered. */
  predicate Remembers(c: Client) {
    c.outbox.Some? && c.outbox.value.QueryRequest? ==>
      c.asked != [] && c.asked[|c.asked| - 1] == Ask(c.tableSent, c.fieldsSent, c.outbox.value.query)
      && c.outbox.value.fields == c.fieldsSent
  }

  lemma TruthfulLonger(data: Data, base: Data, sql: Sql, asked: seq<Ask>, ask: Ask)
    requires Truthful(data, base, sql, asked)
    ensures Truthful(data, base, sql, asked + [ask])
  {
    forall t | t in data && !(t in base && data[t] == base[t])
      ensures exists i :: 0 <= i < |asked + [ask]| && IsAnswerTo(data[t], t, sql, (asked + [ask])[i])
    {
      var i :| 0 <= i < |asked| && IsAnswerTo(data[t], t, sql, asked[i]);
      assert (asked + [ask])[i] == asked[i];
    }
  }

  lemma AskingStaysHonest(c: Client, c': Client, base: Client, sql: Sql, ask: Ask)
    requires Honest(c, base, sql) && GoodOrUnanswered(sql, ask)
    requires c'.asked == c.asked + [ask] && c'.resp == c.resp && c'.callbacks == c.callbacks
    ensures Honest(c', base, sql)
  {
    TruthfulLonger(c.resp, base.resp, sql, c.asked, ask);
    forall i | |base.callbacks| <= i < |c.callbacks| ensures Truthful(c.callbacks[i], base.resp, sql, c'.asked) {
      TruthfulLonger(c.callbacks[i], base.resp, sql, c.asked, ask);
    }
  }

  lemma GeneratorStaysHonest(c: Client, base: Client, sql: Sql, tables: seq<string>, fields: seq<seq<string>>,
                             conds: seq<string>)
    requires QueuesFit(tables, fields) && OnPlan(c, tables, fields, conds) && Honest(c, base, sql)
    requires forall i :: 0 <= i < |tables| ==> GoodOrUnanswered(sql, Plan(tables, fields, conds)[i])
    ensures Honest(QueryGenerator(c), base, sql) && Remembers(QueryGenerator(c))
  {
    if !c.disconnecting && c.tables != [] {
      QueryGeneratorOnPlan(c, tables, fields, conds);
      var n := |c.asked|;
      AskingStaysHonest(c, QueryGenerator(c), base, sql, Plan(tables, fields, conds)[n]);
    }
  }

  lemma StoringStaysTruthful(data: Data, base: Data, sql: Sql, asked: seq<Ask>, ask: Ask)
    requires Truthful(data, base, sql, asked) && ask in asked && Good(sql, ask)
    ensures Truthful(data[ask.table := Delivered(sql, ask)], base, sql, asked)
  {
    var data' := data[ask.table := Delivered(sql, ask)];
    forall t | t in data' && !(t in base && data'[t] == base[t])
      ensures exists i :: 0 <= i < |asked| && IsAnswerTo(data'[t], t, sql, asked[i])
    {
      if t == ask.table {
        var i :| 0 <= i < |asked| && asked[i] == ask;
        assert IsAnswerTo(data'[t], t, sql, asked[i]);
      } else {
        var i :| 0 <= i < |asked| && IsAnswerTo(data[t], t, sql, asked[i]);
      }
    }
  }

  /** Taking in the service's answer to a query keeps the data truthful. */
  lemma AnswerStaysHonest(c: Client, base: Client, sql: Sql, reply: Reply)
    requires SoundEngine(sql) && Inv(c) && Honest(c, base, sql) && Remembers(c)
    requires c.outbox.Some? && Serve(sql, true, c.outbox.value) == Some(reply)
    ensures Honest(Noted(c.(outbox := None), reply), base, sql)
  {
    if c.outbox.value.QueryRequest? && reply.QueryReply? {
      var ask := c.asked[|c.asked| - 1];
      assert !Rowless(sql, ask) by {
        if Rowless(sql, ask) { RowlessIsNotAnswered(sql, true, ask); }
      }
      assert Good(sql, ask);
      GoodQueryIsStored(sql, true, ask);
      StoringStaysTruthful(c.resp, base.resp, sql, c.asked, ask);
    }
  }

  lemma CheckConnectStaysHonest(c: Client, error: bool, base: Client, sql: Sql, tables: seq<string>,
                                fields: seq<seq<string>>, conds: seq<string>)
    requires QueuesFit(tables, fields) && OnPlan(c, tables, fields, conds) && Honest(c, base, sql)
    requires forall i :: 0 <= i < |tables| ==> GoodOrUnanswered(sql, Plan(tables, fields, conds)[i])
    ensures Honest(CheckConnect(c, error), base, sql) && Remembers(CheckConnect(c, error))
    ensures OnPlan(CheckConnect(c, error), tables, fields, conds)
  {
    CheckConnectOnPlan(c, error, tables, fields, conds);
    if !error && c.connected {
      GeneratorStaysHonest(c, base, sql, tables, fields, conds);
    }
  }

  lemma ReplyStaysHonest(c: Client, reply: Reply, base: Client, sql: Sql, tables: seq<string>,
                         fields: seq<seq<string>>, conds: seq<string>)
    requires SoundEngine(sql) && QueuesFit(tables, fields) && OnPlan(c, tables, fields, conds)
    requires Honest(c, base, sql) && Remembers(c)
    requires c.outbox.Some? && Serve(sql, true, c.outbox.value) == Some(reply)
    requires forall i :: 0 <= i < |tables| ==> GoodOrUnanswered(sql, Plan(tables, fields, conds)[i])
    ensures var c' := CommandAnalize(c.(outbox := None), reply);
            Honest(c', base, sql) && Remembers(c') && OnPlan(c', tables, fields, conds)
  {
    var noted := Noted(c.(outbox := None), reply);
    AnswerStaysHonest(c, base, sql, reply);
    assert OnPlan(noted, tables, fields, conds);
    CheckConnectStaysHonest(noted, false, base, sql, tables, fields, conds);
  }

  lemma FaultStaysHonest(c: Client, f: Event, base: Client, sql: Sql, tables: seq<string>, fields: seq<seq<string>>,
                         conds: seq<string>)
    requires QueuesFit(tables, fields) && OnPlan(c, tables, fields, conds) && Honest(c, base, sql) && !f.Received?
    requires forall i :: 0 <= i < |tables| ==> GoodOrUnanswered(sql, Plan(tables, fields, conds)[i])
    ensures Honest(Step(c, f), base, sql) && Remembers(Step(c, f)) && OnPlan(Step(c, f), tables, fields, conds)
  {
    if f.Connected? {
      CheckConnectStaysHonest(c, f.error, base, sql, tables, fields, conds);
    } else {
      var c' := Step(c, f);
      StepOnPlan(c, f, tables, fields, conds);
      assert c'.outbox.None? && c'.resp == c.resp && c'.asked == c.asked && c'.callbacks == c.callbacks;
    }
  }

  lemma NetStepStaysHonest(c: Client, base: Client, sql: Sql, e: NetEvent, tables: seq<string>,
                           fields: seq<seq<string>>, conds: seq<string>)
    requires SoundEngine(sql) && QueuesFit(tables, fields) && OnPlan(c, tables, fields, conds)
    requires Honest(c, base, sql) && Remembers(c) && NetEnabled(c, sql, e)
    requires forall i :: 0 <= i < |tables| ==> GoodOrUnanswered(sql, Plan(tables, fields, conds)[i])
    ensures Honest(NetStep(c, sql, e), base, sql) && Remembers(NetStep(c, sql, e))
    ensures OnPlan(NetStep(c, sql, e), tables, fields, conds)
  {
    match e
    case Answer =>
      ReplyStaysHonest(c, Serve(sql, true, c.outbox.value).value, base, sql, tables, fields, conds);
    case Fault(f) => FaultStaysHonest(c, f, base, sql, tables, fields, conds);
  }

  lemma {:induction false} NetRunStaysHonest(c: Client, base: Client, sql: Sql, events: seq<NetEvent>,
                                             tables: seq<string>, fields: seq<seq<string>>, conds: seq<string>)
    requires SoundEngine(sql) && QueuesFit(tables, fields) && OnPlan(c, tables, fields, conds)
    requires Honest(c, base, sql) && Remembers(c) && IsNetRun(c, sql, events)
    requires forall i :: 0 <= i < |tables| ==> GoodOrUnanswered(sql, Plan(tables, fields, conds)[i])
    ensures Honest(NetRun(c, sql, events), base, sql)
    decreases events
  {
    if events != [] {
      NetStepStaysHonest(c, base, sql, events[0], tables, fields, conds);
      NetRunStaysHonest(NetStep(c, sql, events[0]), base, sql, events[1..], tables, fields, conds);
    }
  }

  /** Faults lose tables but never falsify them. Through any interleaving of connection, send and
      receive errors, restarts, shutdowns and answers of the service, whatever a callback is given holds
      only tables from before this fetch, unchanged, and true answers to queries of this fetch, each
      stored under its own name. */
  lemma FaultyFetchNeverFalsifies(c: Client, sql: Sql, events: seq<NetEvent>, tables: seq<string>,
                                  fields: seq<seq<string>>, conds: seq<string>)
    requires Inv(c) && QueuesFit(tables, fields) && SoundEngine(sql) && c.outbox.None?
    requires forall i :: 0 <= i < |tables| ==>
               GoodOrUnanswered(sql, Plan(tables, fields, Conditions(c, tables, conds))[i])
    requires IsNetRun(SetQuerys(c, tables, fields, conds), sql, events)
    ensures var c' := NetRun(SetQuerys(c, tables, fields, conds), sql, events);
            && c.callbacks <= c'.callbacks
            && forall i :: |c.callbacks| <= i < |c'.callbacks| ==> Truthful(c'.callbacks[i], c.resp, sql, c'.asked)
  {
    SetQuerysOnPlan(c, tables, fields, conds);
    var c1 := SetQuerys(c, tables, fields, conds);
    NetRunStaysHonest(c1, c, sql, events, tables, fields, Conditions(c, tables, conds));
  }

  // ------------------------------------------------------------------ the two classes together

  lemma ExchangeStep(c: Client, sql: Sql, accepts: bool)
    requires Coherent(c) && SoundEngine(sql) && c.outbox.Some?
    requires Serve(sql, accepts, c.outbox.value).Some?
    ensures var reply := Serve(sql, accepts, c.outbox.value).value;
            var c' := Step(c, Received(reply));
            && Coherent(c') && Measure(c') < Measure(c)
            && Exchange(c, sql, accepts) == Exchange(c', sql, accepts)
            && (reply.DisconnectReply? || reply == ConnectReply(false) ==> c'.outbox.None?)
  {
  }

  /** The client object and the service object exchanging messages. */
  method FetchAll(client: ClientDB, service: DataBaseService, tables: seq<string>, fields: seq<seq<string>>,
                  conds: seq<string>)
    requires Inv(client.Model()) && QueuesFit(tables, fields)
    requires service.open && !service.wrongConnect && SoundEngine(service.sql)
    modifies client, service
    ensures client.Model()
         == Exchange(Begin(SetQuerys(old(client.Model()), tables, fields, conds)), service.sql, service.accepts)
  {
    client.SetAllQuerys(tables, fields, conds);
    client.StartClient();
    client.HandleConnected(false);
    ghost var c := client.Model();
    ghost var goal := Exchange(c, service.sql, service.accepts);
    while client.outbox.Some?
      invariant c == client.Model() && Coherent(c)
      invariant Exchange(c, service.sql, service.accepts) == goal
      invariant client.outbox.Some? ==> service.open && !service.wrongConnect
      decreases Measure(c)
    {
      var reply := service.WaitCommand(client.outbox.value);
      assert client.Model() == c;
      if reply.None? {
        return;
      }
      ExchangeStep(c, service.sql, service.accepts);
      client.HandleReply(reply.value);
      c := Step(c, Received(reply.value));
    }
  }
}
