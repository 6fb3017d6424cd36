/** The database service at message level: it runs one SQL text per query, turns the rows that the
    engine delivers into columns, and keeps only the requested columns in its answer. */
module DataBase {
  import opened Common
  import opened ClientDb

  /** What the SQL engine makes of a query text: an error, or named columns and rows of cells. */
  datatype SqlResult = SqlError | Rows(columns: seq<string>, rows: seq<seq<string>>)

  type Sql = string -> SqlResult

  type Answer = map<string, seq<string>>

  /** Columns have different names and every row has one cell for each column. */
  predicate WellShaped(columns: seq<string>, rows: seq<seq<string>>) {
    Distinct(columns) && forall j :: 0 <= j < |rows| ==> |rows[j]| == |columns|
  }

  /** The k-th column of a list of rows: the reference for the pivot. */
  function Column(rows: seq<seq<string>>, k: nat): (cells: seq<string>)
    requires forall j :: 0 <= j < |rows| ==> k < |rows[j]|
    ensures |cells| == |rows|
  {
    seq(|rows|, j requires 0 <= j < |rows| => rows[j][k])
  }

  // ------------------------------------------------------------------ the pivot

  function CellsOf(answer: Answer, name: string): seq<string> {
    if name in answer then answer[name] else []
  }

  function PivotRow(answer: Answer, columns: seq<string>, row: seq<string>): Answer
    requires |row| == |columns|
    decreases columns
  {
    if columns == [] then answer
    else PivotRow(answer[columns[0] := CellsOf(answer, columns[0]) + [row[0]]], columns[1..], row[1..])
  }

  function PivotRows(answer: Answer, columns: seq<string>, rows: seq<seq<string>>): Answer
    requires forall j :: 0 <= j < |rows| ==> |rows[j]| == |columns|
    decreases rows
  {
    if rows == [] then answer else PivotRows(PivotRow(answer, columns, rows[0]), columns, rows[1..])
  }

  lemma {:induction false} PivotRowAppends(answer: Answer, columns: seq<string>, row: seq<string>)
    requires |row| == |columns| && Distinct(columns)
    ensures var r := PivotRow(answer, columns, row);
            && (forall c :: c in r <==> c in answer || c in columns)
            && (forall c :: c in answer && c !in columns ==> r[c] == answer[c])
            && (forall k :: 0 <= k < |columns| ==> r[columns[k]] == CellsOf(answer, columns[k]) + [row[k]])
    decreases columns
  {
    if columns != [] {
      var next := answer[columns[0] := CellsOf(answer, columns[0]) + [row[0]]];
      assert columns == [columns[0]] + columns[1..];
      assert columns[0] !in columns[1..];
      PivotRowAppends(next, columns[1..], row[1..]);
      var r := PivotRow(answer, columns, row);
      forall k | 0 <= k < |columns| ensures r[columns[k]] == CellsOf(answer, columns[k]) + [row[k]] {
        if k > 0 {
          assert columns[1..][k - 1] == columns[k] && row[1..][k - 1] == row[k];
        }
      }
    }
  }

  lemma ColumnStep(cells: seq<string>, rows: seq<seq<string>>, k: nat)
    requires rows != [] && forall j :: 0 <= j < |rows| ==> k < |rows[j]|
    ensures cells + [rows[0][k]] + Column(rows[1..], k) == cells + Column(rows, k)
    ensures rows[1..] == [] ==> cells + [rows[0][k]] == cells + Column(rows, k)
  {
  }

  lemma {:induction false} PivotRowsAppends(answer: Answer, columns: seq<string>, rows: seq<seq<string>>)
    requires WellShaped(columns, rows)
    ensures var r := PivotRows(answer, columns, rows);
            && (forall c :: c in r <==> c in answer || (rows != [] && c in columns))
            && (forall k :: 0 <= k < |columns| && rows != [] ==>
                  r[columns[k]] == CellsOf(answer, columns[k]) + Column(rows, k))
    decreases rows
  {
    if rows != [] {
      var next := PivotRow(answer, columns, rows[0]);
      PivotRowAppends(answer, columns, rows[0]);
      PivotRowsAppends(next, columns, rows[1..]);
      var r := PivotRows(answer, columns, rows);
      forall k | 0 <= k < |columns| ensures r[columns[k]] == CellsOf(answer, columns[k]) + Column(rows, k) {
        ColumnStep(CellsOf(answer, columns[k]), rows, k);
      }
    }
  }

  /** Pivoting rows gives, for every column, that column's cells in row order; no rows at all give no
      columns at all. */
  lemma PivotGivesColumns(columns: seq<string>, rows: seq<seq<string>>)
    requires WellShaped(columns, rows)
    ensures var answer := PivotRows(map[], columns, rows);
            && (forall c :: c in answer <==> rows != [] && c in columns)
            && (forall k :: 0 <= k < |columns| && rows != [] ==> answer[columns[k]] == Column(rows, k))
  {
    PivotRowsAppends(map[], columns, rows);
    assert forall cells: seq<string> :: [] + cells == cells;
  }

  // ------------------------------------------------------------------ answering one request

  /** The service's answer; None when the projection throws, which no handler catches. */
  function Serve(sql: Sql, accepts: bool, request: Request): Option<Reply>
    requires request.QueryRequest? ==> EngineIsSound(sql, request.query)
  {
    match request
    case ConnectRequest => Some(ConnectReply(accepts))
    case DisconnectRequest => Some(DisconnectReply(true))
    case QueryRequest(fields, query) =>
      match sql(query)
      case SqlError => Some(DisconnectReply(true))
      case Rows(columns, rows) =>
        var answer := PivotRows(map[], columns, rows);
        if forall f :: f in fields ==> f in answer
        then Some(QueryReply(map f | f in fields :: answer[f]))
        else None
  }

  /** The engine delivers rows as wide as its list of column names. */
  predicate EngineIsSound(sql: Sql, query: string) {
    sql(query).Rows? ==> forall j :: 0 <= j < |sql(query).rows| ==> |sql(query).rows[j]| == |sql(query).columns|
  }

  /** A query that the engine accepts is answered iff the result has at least one row and holds every
      requested column: an empty result makes the service throw. */
  lemma QueryIsAnsweredIff(sql: Sql, accepts: bool, fields: seq<string>, query: string)
    requires sql(query).Rows? && WellShaped(sql(query).columns, sql(query).rows) && fields != []
    ensures Serve(sql, accepts, QueryRequest(fields, query)).Some?
       <==> sql(query).rows != [] && forall f :: f in fields ==> f in sql(query).columns
  {
    PivotGivesColumns(sql(query).columns, sql(query).rows);
    assert fields[0] in fields;
  }

  // ------------------------------------------------------------------ the class

  class DataBaseService {
    const sql: Sql
    const accepts: bool
    var answer: Answer
    var wrongConnect: bool
    var open: bool

    constructor (sql: Sql, accepts: bool)
      ensures this.sql == sql && this.accepts == accepts && open && !wrongConnect && answer == map[]
    {
      this.sql, this.accepts := sql, accepts;
      answer, wrongConnect, open := map[], false, true;
    }

    /** The engine's callback: one row, added cell by cell to the answer. */
    method Connection(columns: seq<string>, row: seq<string>)
      requires |row| == |columns|
      modifies this`answer
      ensures answer == PivotRow(old(answer), columns, row)
    {
      for i := 0 to |columns|
        invariant PivotRow(answer, columns[i..], row[i..]) == PivotRow(old(answer), columns, row)
      {
        var cells := [];
        if columns[i] in answer {
          cells := answer[columns[i]];
        }
        cells := cells + [row[i]];
        assert columns[i..][0] == columns[i] && columns[i..][1..] == columns[i + 1..];
        assert row[i..][0] == row[i] && row[i..][1..] == row[i + 1..];
        assert cells == CellsOf(answer, columns[i]) + [row[i]];
        answer := answer[columns[i] := cells];
      }
    }

    /** Run the query, then keep the requested columns. None: the column lookup throws. */
    method MakeQuery(fields: seq<string>, query: string) returns (reply: Option<Reply>)
      requires EngineIsSound(sql, query)
      modifies this
      ensures reply == Serve(sql, accepts, QueryRequest(fields, query))
      ensures wrongConnect == (old(wrongConnect) || sql(query).SqlError?) && open == old(open)
    {
      answer := map[];
      var result := sql(query);
      match result {
        case SqlError =>
          reply := MakeDisconnect();
        case Rows(columns, rows) =>
          for j := 0 to |rows|
            invariant PivotRows(answer, columns, rows[j..]) == PivotRows(map[], columns, rows)
            invariant wrongConnect == old(wrongConnect) && open == old(open)
          {
            assert rows[j..][0] == rows[j] && rows[j..][1..] == rows[j + 1..];
            Connection(columns, rows[j]);
          }
          var response := Project(fields);
          if response.None? {
            return None;
          }
          assert response.value == map f | f in fields :: answer[f];
          reply := Some(QueryReply(response.value));
      }
    }

    /** Keep the requested columns; None when one is missing. */
    method Project(fields: seq<string>) returns (response: Option<Answer>)
      ensures response.Some? <==> forall f :: f in fields ==> f in answer
      ensures response.Some? ==> response.value == map f | f in fields && f in answer :: answer[f]
    {
      var columns: Answer := map[];
      for i := 0 to |fields|
        invariant forall f :: f in fields[..i] ==> f in answer
        invariant columns == map f | f in fields[..i] && f in answer :: answer[f]
      {
        assert fields[..i + 1] == fields[..i] + [fields[i]];
        if fields[i] !in answer {
          return None;
        }
        columns := columns[fields[i] := answer[fields[i]]];
      }
      assert fields[..|fields|] == fields;
      response := Some(columns);
    }

    method MakeDisconnect() returns (reply: Option<Reply>)
      modifies this`wrongConnect
      ensures reply == Some(DisconnectReply(true)) && wrongConnect
    {
      wrongConnect := true;
      reply := Some(DisconnectReply(true));
    }

    /** One request in, one answer out, and the connection closed behind a goodbye. */
    method WaitCommand(request: Request) returns (reply: Option<Reply>)
      requires open && !wrongConnect
      requires request.QueryRequest? ==> EngineIsSound(sql, request.query)
      modifies this
      ensures reply == Serve(sql, accepts, request)
      ensures reply.Some? ==> (open <==> !reply.value.DisconnectReply? && reply != Some(ConnectReply(false)))
      ensures !wrongConnect
    {
      match request {
        case ConnectRequest =>
          wrongConnect := !accepts;
          reply := Some(ConnectReply(accepts));
        case DisconnectRequest =>
          reply := MakeDisconnect();
        case QueryRequest(fields, query) =>
          reply := MakeQuery(fields, query);
      }
      if wrongConnect {
        wrongConnect := false;
        open := false;
      }
    }
  }
}
