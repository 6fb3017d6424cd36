/** How the HTTPS front end finds the workers for a request: four chained lookups, each of which
    first tries the position that it saved last time. */
module Routing {
  import opened Common

  /** The parallel columns of the two tables, and the worker sessions' ids. */
  datatype Stations = Stations(
    applicationId: seq<string>,
    workerId: seq<string>,
    secondWorkerId: seq<string>,
    liftBlockId: seq<string>)

  datatype Blocks = Blocks(id: seq<string>, workerLuId: seq<string>, secondWorkerLuId: seq<string>)

  datatype Worker = Worker(id: string, live: bool)

  /** The saved positions: station row, text worker, lift-block row, MQTT worker. */
  datatype Positions = Positions(station: nat, textWorker: nat, block: nat, mqttWorker: nat)

  datatype Outcome = Unavailable | NotFound | Start

  predicate Rectangular(st: Stations, bl: Blocks) {
    && |st.applicationId| == |st.workerId| == |st.secondWorkerId| == |st.liftBlockId|
    && |bl.id| == |bl.workerLuId| == |bl.secondWorkerLuId|
  }

  // ------------------------------------------------------------------ cached lookups

  predicate Serves(w: Worker, first: string, second: string) {
    w.id == first || w.id == second
  }

  /** The least index of a key; the length when it is absent. */
  function FirstIndex(column: seq<string>, key: string): (k: nat)
    ensures k <= |column|
    ensures k < |column| ==> column[k] == key
    ensures forall i :: 0 <= i < k ==> column[i] != key
  {
    FirstWhere(column, cell => cell == key)
  }

  function FirstWorker(workers: seq<Worker>, first: string, second: string): (k: nat)
    ensures k <= |workers|
    ensures k < |workers| ==> Serves(workers[k], first, second)
    ensures forall i :: 0 <= i < k ==> !Serves(workers[i], first, second)
  {
    FirstWhere(workers, w => Serves(w, first, second))
  }

  function CachedIndex(column: seq<string>, key: string, pos: nat): (k: nat)
    requires pos < |column|
    ensures k <= |column|
  {
    if column[pos] == key then pos else FirstIndex(column, key)
  }

  function CachedWorker(workers: seq<Worker>, first: string, second: string, pos: nat): (k: nat)
    ensures k <= |workers|
  {
    if pos < |workers| && Serves(workers[pos], first, second) then pos else FirstWorker(workers, first, second)
  }

  /** The four lookups in the code's order; each failure leaves its own position past the end. */
  function Route(app: string, st: Stations, bl: Blocks, text: seq<Worker>, mqtt: seq<Worker>,
                 p: Positions): (Outcome, Positions)
    requires Rectangular(st, bl)
    requires p.station < |st.applicationId| && p.block < |bl.id|
  {
    if text == [] then (Unavailable, p)
    else
      var row := CachedIndex(st.applicationId, QuotedId(app), p.station);
      var p1 := p.(station := row);
      if row == |st.applicationId| then (NotFound, p1)
      else
        var i := CachedWorker(text, st.workerId[row], st.secondWorkerId[row], p.textWorker);
        var p2 := p1.(textWorker := i);
        if i == |text| then (Unavailable, p2)
        else
          var b := CachedIndex(bl.id, st.liftBlockId[row], p.block);
          var p3 := p2.(block := b);
          if b == |bl.id| then (NotFound, p3)
          else
            var j := CachedWorker(mqtt, bl.workerLuId[b], bl.secondWorkerLuId[b], p.mqttWorker);
            (if j == |mqtt| then Unavailable else Start, p3.(mqttWorker := j))
  }

  // ------------------------------------------------------------------ the plain meaning

  predicate StationRow(app: string, st: Stations, row: nat) {
    row < |st.applicationId| && st.applicationId[row] == QuotedId(app)
  }

  predicate TextWorkerFor(st: Stations, bl: Blocks, text: seq<Worker>, row: nat, i: nat)
    requires Rectangular(st, bl) && row < |st.applicationId|
  {
    i < |text| && Serves(text[i], st.workerId[row], st.secondWorkerId[row])
  }

  predicate BlockRow(st: Stations, bl: Blocks, row: nat, b: nat)
    requires Rectangular(st, bl) && row < |st.applicationId|
  {
    b < |bl.id| && bl.id[b] == st.liftBlockId[row]
  }

  predicate MqttWorkerFor(st: Stations, bl: Blocks, mqtt: seq<Worker>, b: nat, j: nat)
    requires Rectangular(st, bl) && b < |bl.id|
  {
    j < |mqtt| && Serves(mqtt[j], bl.workerLuId[b], bl.secondWorkerLuId[b])
  }

  /** These positions are a station row, a text worker of it, its lift-block row and an MQTT worker
      of that. */
  predicate IsRoute(app: string, st: Stations, bl: Blocks, text: seq<Worker>, mqtt: seq<Worker>, p: Positions)
    requires Rectangular(st, bl)
  {
    && StationRow(app, st, p.station)
    && TextWorkerFor(st, bl, text, p.station, p.textWorker)
    && BlockRow(st, bl, p.station, p.block)
    && MqttWorkerFor(st, bl, mqtt, p.block, p.mqttWorker)
  }

  /** Soundness needs nothing of the tables: when the command is started, the saved positions are a
      route, wherever they pointed before. */
  lemma StartedPositionsAreARoute(app: string, st: Stations, bl: Blocks, text: seq<Worker>, mqtt: seq<Worker>,
                                  p: Positions)
    requires Rectangular(st, bl) && p.station < |st.applicationId| && p.block < |bl.id|
    ensures Route(app, st, bl, text, mqtt, p).0 == Start
        ==> IsRoute(app, st, bl, text, mqtt, Route(app, st, bl, text, mqtt, p).1)
  {
  }

  /** With unique id columns, the cached search finds a route iff there is one, and otherwise answers
      exactly as the plain nested lookup does: "not found" when the station or its lift block is
      unknown, "unavailable" when a worker is missing before that. The saved positions have no
      influence on the outcome. */
  lemma RoutingIsSoundAndComplete(app: string, st: Stations, bl: Blocks, text: seq<Worker>, mqtt: seq<Worker>,
                                  p: Positions)
    requires Rectangular(st, bl) && p.station < |st.applicationId| && p.block < |bl.id|
    requires Distinct(st.applicationId) && Distinct(bl.id)
    ensures var (outcome, p') := Route(app, st, bl, text, mqtt, p);
            && (outcome == Start <==> exists q :: IsRoute(app, st, bl, text, mqtt, q))
            && (outcome == Start ==> IsRoute(app, st, bl, text, mqtt, p'))
            && (outcome == NotFound <==> text != [] && (NoStation(app, st) || NoBlock(app, st, bl, text)))
  {
    var (outcome, p') := Route(app, st, bl, text, mqtt, p);
    StartedPositionsAreARoute(app, st, bl, text, mqtt, p);
    if exists q :: IsRoute(app, st, bl, text, mqtt, q) {
      var q :| IsRoute(app, st, bl, text, mqtt, q);
      RouteIsFound(app, st, bl, text, mqtt, p, q);
    }
    NotFoundIff(app, st, bl, text, mqtt, p);
  }

  predicate NoStation(app: string, st: Stations) {
    forall row :: 0 <= row < |st.applicationId| ==> !StationRow(app, st, row)
  }

  /** The station and a text worker for it are there, but its lift block is not in the table. */
  ghost predicate NoBlock(app: string, st: Stations, bl: Blocks, text: seq<Worker>)
    requires Rectangular(st, bl)
  {
    exists row: nat, i: nat ::
      && StationRow(app, st, row) && TextWorkerFor(st, bl, text, row, i)
      && forall b :: 0 <= b < |bl.id| ==> !BlockRow(st, bl, row, b)
  }

  lemma NotFoundIff(app: string, st: Stations, bl: Blocks, text: seq<Worker>, mqtt: seq<Worker>, p: Positions)
    requires Rectangular(st, bl) && p.station < |st.applicationId| && p.block < |bl.id|
    requires Distinct(st.applicationId) && Distinct(bl.id)
    ensures Route(app, st, bl, text, mqtt, p).0 == NotFound
       <==> text != [] && (NoStation(app, st) || NoBlock(app, st, bl, text))
  {
    var (outcome, p') := Route(app, st, bl, text, mqtt, p);
    if outcome == NotFound && p'.station < |st.applicationId| {
      assert StationRow(app, st, p'.station) && TextWorkerFor(st, bl, text, p'.station, p'.textWorker);
      assert forall b :: 0 <= b < |bl.id| ==> !BlockRow(st, bl, p'.station, b);
    }
    if text != [] && NoBlock(app, st, bl, text) {
      var row: nat, i: nat :|
        && StationRow(app, st, row) && TextWorkerFor(st, bl, text, row, i)
        && forall b :: 0 <= b < |bl.id| ==> !BlockRow(st, bl, row, b);
      assert p'.station == row;
      assert Serves(text[i], st.workerId[row], st.secondWorkerId[row]);
      assert p'.textWorker < |text|;
      forall b | 0 <= b < |bl.id| ensures bl.id[b] != st.liftBlockId[row] {
        assert !BlockRow(st, bl, row, b);
      }
      assert p'.block == |bl.id|;
    }
    if text != [] && NoStation(app, st) {
      assert !(p'.station < |st.applicationId| && StationRow(app, st, p'.station));
    }
  }

  lemma RouteIsFound(app: string, st: Stations, bl: Blocks, text: seq<Worker>, mqtt: seq<Worker>, p: Positions,
                     q: Positions)
    requires Rectangular(st, bl) && p.station < |st.applicationId| && p.block < |bl.id|
    requires Distinct(st.applicationId) && Distinct(bl.id) && IsRoute(app, st, bl, text, mqtt, q)
    ensures Route(app, st, bl, text, mqtt, p).0 == Start
    ensures Route(app, st, bl, text, mqtt, p).1.station == q.station
    ensures Route(app, st, bl, text, mqtt, p).1.block == q.block
  {
    var (outcome, p') := Route(app, st, bl, text, mqtt, p);
    assert p'.station == q.station;
    assert Serves(text[q.textWorker], st.workerId[q.station], st.secondWorkerId[q.station]);
    assert p'.textWorker < |text|;
    assert p'.block == q.block;
    assert Serves(mqtt[q.mqttWorker], bl.workerLuId[q.block], bl.secondWorkerLuId[q.block]);
  }

  // ------------------------------------------------------------------ repeated ids

  const FRESH := Positions(0, 0, 0, 0)

  /** A session serves one request, and its saved positions are all 0 by then. From there routing finds
      a route iff there is one over the first row of the station and the first row of its lift block:
      later rows with the same id are never looked at. */
  lemma FreshRoutingStartsIff(app: string, st: Stations, bl: Blocks, text: seq<Worker>, mqtt: seq<Worker>)
    requires Rectangular(st, bl) && |st.applicationId| > 0 && |bl.id| > 0
    ensures Route(app, st, bl, text, mqtt, FRESH).0 == Start
       <==> exists q :: IsRoute(app, st, bl, text, mqtt, q) && OverFirstRows(app, st, bl, q)
  {
    var (outcome, p') := Route(app, st, bl, text, mqtt, FRESH);
    StartedPositionsAreARoute(app, st, bl, text, mqtt, FRESH);
    if outcome == Start {
      assert IsRoute(app, st, bl, text, mqtt, p') && OverFirstRows(app, st, bl, p');
    }
    if q :| IsRoute(app, st, bl, text, mqtt, q) && OverFirstRows(app, st, bl, q) {
      FirstRowsStart(app, st, bl, text, mqtt, q);
    }
  }

  lemma FirstRowsStart(app: string, st: Stations, bl: Blocks, text: seq<Worker>, mqtt: seq<Worker>, q: Positions)
    requires Rectangular(st, bl) && |st.applicationId| > 0 && |bl.id| > 0
    requires IsRoute(app, st, bl, text, mqtt, q) && OverFirstRows(app, st, bl, q)
    ensures Route(app, st, bl, text, mqtt, FRESH).0 == Start
  {
    var p' := Route(app, st, bl, text, mqtt, FRESH).1;
    assert Serves(text[q.textWorker], st.workerId[q.station], st.secondWorkerId[q.station]);
    assert p'.station == q.station && p'.textWorker < |text|;
    assert Serves(mqtt[q.mqttWorker], bl.workerLuId[q.block], bl.secondWorkerLuId[q.block]);
  }

  predicate OverFirstRows(app: string, st: Stations, bl: Blocks, q: Positions)
    requires Rectangular(st, bl)
  {
    && q.station == FirstIndex(st.applicationId, QuotedId(app))
    && q.station < |st.applicationId| && q.block == FirstIndex(bl.id, st.liftBlockId[q.station])
  }

  /** The failing input: the station's first row names workers that are not there. Its second row
      makes a route, but the request is told that the service is unavailable. */
  lemma DuplicateStationHidesTheRoute(app: string, w: string, b: string, other: string)
    requires other != w
    ensures var id := QuotedId(app);
            var st := Stations([id, id], [other, w], [other, w], [b, b]);
            var bl := Blocks([b], [w], [w]);
            var workers := [Worker(w, true)];
            && IsRoute(app, st, bl, workers, workers, Positions(1, 0, 0, 0))
            && Route(app, st, bl, workers, workers, FRESH).0 == Unavailable
  {
    assert FirstWorker([Worker(w, true)], other, other) == 1;
  }

  /** This row leads somewhere: to a text worker, and to lift-block rows that each have an MQTT worker. */
  ghost predicate RowServed(st: Stations, bl: Blocks, text: seq<Worker>, mqtt: seq<Worker>, row: nat)
    requires Rectangular(st, bl) && row < |st.applicationId|
  {
    && (exists i: nat :: TextWorkerFor(st, bl, text, row, i))
    && (exists b: nat :: BlockRow(st, bl, row, b))
    && (forall b: nat :: BlockRow(st, bl, row, b) ==> exists j: nat :: MqttWorkerFor(st, bl, mqtt, b, j))
  }

  ghost predicate AllRowsServed(app: string, st: Stations, bl: Blocks, text: seq<Worker>, mqtt: seq<Worker>)
    requires Rectangular(st, bl)
  {
    forall row: nat :: StationRow(app, st, row) ==> RowServed(st, bl, text, mqtt, row)
  }

  ghost predicate StartsFromEverywhere(app: string, st: Stations, bl: Blocks, text: seq<Worker>, mqtt: seq<Worker>)
    requires Rectangular(st, bl)
  {
    forall p: Positions :: p.station < |st.applicationId| && p.block < |bl.id|
      ==> Route(app, st, bl, text, mqtt, p).0 == Start
  }

  /** The command is started from wherever the saved positions point iff the station has a row and all
      of its rows are served. */
  lemma StartsFromEverywhereIff(app: string, st: Stations, bl: Blocks, text: seq<Worker>, mqtt: seq<Worker>)
    requires Rectangular(st, bl) && |st.applicationId| > 0 && |bl.id| > 0
    ensures StartsFromEverywhere(app, st, bl, text, mqtt)
       <==> !NoStation(app, st) && AllRowsServed(app, st, bl, text, mqtt)
  {
    if StartsFromEverywhere(app, st, bl, text, mqtt) {
      StartedStationHasARow(app, st, bl, text, mqtt);
      forall row: nat | StationRow(app, st, row) ensures RowServed(st, bl, text, mqtt, row) {
        StartedRowIsServed(app, st, bl, text, mqtt, row);
      }
    }
    if !NoStation(app, st) && AllRowsServed(app, st, bl, text, mqtt) {
      forall p: Positions | p.station < |st.applicationId| && p.block < |bl.id|
        ensures Route(app, st, bl, text, mqtt, p).0 == Start
      {
        ServedRowsStart(app, st, bl, text, mqtt, p);
      }
    }
  }

  lemma StartedStationHasARow(app: string, st: Stations, bl: Blocks, text: seq<Worker>, mqtt: seq<Worker>)
    requires Rectangular(st, bl) && |st.applicationId| > 0 && |bl.id| > 0
    requires StartsFromEverywhere(app, st, bl, text, mqtt)
    ensures !NoStation(app, st)
  {
    assert Route(app, st, bl, text, mqtt, FRESH).0 == Start;
    StartedPositionsAreARoute(app, st, bl, text, mqtt, FRESH);
    assert StationRow(app, st, Route(app, st, bl, text, mqtt, FRESH).1.station);
  }

  lemma StartedRowIsServed(app: string, st: Stations, bl: Blocks, text: seq<Worker>, mqtt: seq<Worker>, row: nat)
    requires Rectangular(st, bl) && |bl.id| > 0 && StationRow(app, st, row)
    requires StartsFromEverywhere(app, st, bl, text, mqtt)
    ensures RowServed(st, bl, text, mqtt, row)
  {
    StartFromRow(app, st, bl, text, mqtt, row, 0);
    forall b: nat | BlockRow(st, bl, row, b) ensures exists j: nat :: MqttWorkerFor(st, bl, mqtt, b, j) {
      StartFromRow(app, st, bl, text, mqtt, row, b);
    }
  }

  lemma StartFromRow(app: string, st: Stations, bl: Blocks, text: seq<Worker>, mqtt: seq<Worker>, row: nat, b: nat)
    requires Rectangular(st, bl) && StationRow(app, st, row) && b < |bl.id|
    requires StartsFromEverywhere(app, st, bl, text, mqtt)
    ensures exists i: nat :: TextWorkerFor(st, bl, text, row, i)
    ensures exists b': nat :: BlockRow(st, bl, row, b')
    ensures BlockRow(st, bl, row, b) ==> exists j: nat :: MqttWorkerFor(st, bl, mqtt, b, j)
  {
    var p := Positions(row, 0, b, 0);
    assert Route(app, st, bl, text, mqtt, p).0 == Start;
    StartedPositionsAreARoute(app, st, bl, text, mqtt, p);
    var p' := Route(app, st, bl, text, mqtt, p).1;
    assert p'.station == row;
    assert TextWorkerFor(st, bl, text, row, p'.textWorker) && BlockRow(st, bl, row, p'.block);
    if BlockRow(st, bl, row, b) {
      assert p'.block == b && MqttWorkerFor(st, bl, mqtt, b, p'.mqttWorker);
    }
  }

  lemma ServedRowsStart(app: string, st: Stations, bl: Blocks, text: seq<Worker>, mqtt: seq<Worker>, p: Positions)
    requires Rectangular(st, bl) && p.station < |st.applicationId| && p.block < |bl.id|
    requires !NoStation(app, st) && AllRowsServed(app, st, bl, text, mqtt)
    ensures Route(app, st, bl, text, mqtt, p).0 == Start
  {
    var (outcome, p') := Route(app, st, bl, text, mqtt, p);
    var row := p'.station;
    var known :| 0 <= known < |st.applicationId| && StationRow(app, st, known);
    assert RowServed(st, bl, text, mqtt, known);
    var i: nat :| TextWorkerFor(st, bl, text, known, i);
    assert text != [] && StationRow(app, st, row);
    assert RowServed(st, bl, text, mqtt, row);
    var i': nat :| TextWorkerFor(st, bl, text, row, i');
    assert Serves(text[i'], st.workerId[row], st.secondWorkerId[row]) && p'.textWorker < |text|;
    var b: nat :| BlockRow(st, bl, row, b);
    assert BlockRow(st, bl, row, p'.block);
    var j: nat :| MqttWorkerFor(st, bl, mqtt, p'.block, j);
    assert Serves(mqtt[j], bl.workerLuId[p'.block], bl.secondWorkerLuId[p'.block]);
  }
}
