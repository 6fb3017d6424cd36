/** The text worker on the tables that it has fetched: places, floors, phrases and words in terms of the
    rows of the database. Cells, words and commands reach it as serialised texts, with their quotes. */
module TextTables {
  import opened Common
  import opened ClientDb
  import opened DataBase
  import opened Fetch
  import Json
  import TextWorker

  const TEXT_TABLES := ["MarussiaStation", "House", "StaticPhrases"]
  const TEXT_FIELDS := [PLACE_FIELDS, HOUSE_FIELDS, PHRASE_FIELDS]
  const PLACE_FIELDS := ["ApplicationId", "HouseComplexId", "HouseNum", "LiftBlockId"]
  const HOUSE_FIELDS := ["TopFloor", "BottomFloor", "NullFloor", "HouseNumber", "HousingComplexId"]
  const PHRASE_FIELDS := ["HouseComplexId", "HouseNum", "KeyWords", "Response"]

  /** The text worker asks without conditions. */
  function TextPlan(): seq<Ask> {
    Plan(TEXT_TABLES, TEXT_FIELDS, [])
  }

  ghost function TextData(sql: Sql): seq<Data>
    requires SoundEngine(sql)
  {
    var c := SetQuerys(NEW_CLIENT, TEXT_TABLES, TEXT_FIELDS, []);
    Exchange(Begin(c), sql, true).callbacks
  }

  predicate HasTextColumns(data: Data) {
    && "MarussiaStation" in data && "House" in data && "StaticPhrases" in data
    && (forall f :: f in PLACE_FIELDS ==> f in data["MarussiaStation"])
    && (forall f :: f in HOUSE_FIELDS ==> f in data["House"])
    && (forall f :: f in PHRASE_FIELDS ==> f in data["StaticPhrases"])
  }

  /** What the text worker knows after a fetch; its words and texts do not come from the database. */
  function Informed(k: TextWorker.Knowledge, data: Data): TextWorker.Knowledge
    requires HasTextColumns(data)
  {
    var s, h, p := data["MarussiaStation"], data["House"], data["StaticPhrases"];
    k.(stations := TextWorker.Stations(Col(s, PLACE_FIELDS, 0), Col(s, PLACE_FIELDS, 2),
                                       Col(s, PLACE_FIELDS, 1), Col(s, PLACE_FIELDS, 3)),
       houses := TextWorker.Houses(Col(h, HOUSE_FIELDS, 3), Col(h, HOUSE_FIELDS, 4),
                                   Col(h, HOUSE_FIELDS, 0), Col(h, HOUSE_FIELDS, 1), Col(h, HOUSE_FIELDS, 2)),
       phrases := TextWorker.Phrases(Col(p, PHRASE_FIELDS, 1), Col(p, PHRASE_FIELDS, 0),
                                     Col(p, PHRASE_FIELDS, 2), Col(p, PHRASE_FIELDS, 3)))
  }

  lemma TextTablesArrive(sql: Sql)
    requires SoundEngine(sql) && forall i :: 0 <= i < 3 ==> Good(sql, TextPlan()[i])
    ensures |TextData(sql)| == 1
    ensures forall i :: 0 <= i < 3 ==> HoldsTable(TextData(sql)[0], sql, TextPlan()[i])
  {
    var plan := TextPlan();
    assert plan[..3] == plan;
    FreshFetchDelivers(sql, TEXT_TABLES, TEXT_FIELDS, [], 3);
  }

  lemma TextAsks()
    ensures var plan := TextPlan();
            && plan[0].table == "MarussiaStation" && plan[0].fields == PLACE_FIELDS
            && plan[1].table == "House" && plan[1].fields == HOUSE_FIELDS
            && plan[2].table == "StaticPhrases" && plan[2].fields == PHRASE_FIELDS
  {
  }

  /** The text worker's fetch delivers tables whose parallel columns are equally long, so its loops,
      which walk one column and index the others, stay in range. */
  lemma FetchedTablesAreSearchable(sql: Sql, k: TextWorker.Knowledge)
    requires SoundEngine(sql) && forall i :: 0 <= i < 3 ==> Good(sql, TextPlan()[i])
    ensures |TextData(sql)| == 1 && HasTextColumns(TextData(sql)[0])
    ensures TextWorker.Rectangular(Informed(k, TextData(sql)[0]))
  {
    TextTablesArrive(sql);
    TextAsks();
    var data, plan := TextData(sql)[0], TextPlan();
    assert forall i :: 0 <= i < 3 ==> HoldsTable(data, sql, plan[i]);
    ColumnsAreEquallyLong(data["MarussiaStation"], sql, plan[0]);
    ColumnsAreEquallyLong(data["House"], sql, plan[1]);
    ColumnsAreEquallyLong(data["StaticPhrases"], sql, plan[2]);
  }

  lemma ColumnsAreEquallyLong(table: Table, sql: Sql, ask: Ask)
    requires Good(sql, ask) && IsTableOf(table, sql, ask)
    ensures forall f :: f in ask.fields ==> f in table
    ensures forall k :: 0 <= k < |ask.fields| ==> |Col(table, ask.fields, k)| == |sql(ask.query).rows|
  {
  }

  // ------------------------------------------------------------------ the rows behind the tables

  type Rows = seq<map<string, string>>

  /** The three queries of the text worker have answers. */
  predicate TextDatabase(db: Database) {
    forall i :: 0 <= i < 3 ==> CanAnswer(db, TEXT_TABLES[i], TEXT_FIELDS[i], None)
  }

  predicate Mirrors(k: TextWorker.Knowledge, stations: Rows, houses: Rows, phrases: Rows) {
    && HasColumns(stations, PLACE_FIELDS) && HasColumns(houses, HOUSE_FIELDS) && HasColumns(phrases, PHRASE_FIELDS)
    && HasCell(stations, "ApplicationId") && IsQuotedField(k.stations.applicationId, stations, "ApplicationId")
    && HasCell(stations, "HouseNum") && IsQuotedField(k.stations.house, stations, "HouseNum")
    && HasCell(stations, "HouseComplexId") && IsQuotedField(k.stations.complex, stations, "HouseComplexId")
    && HasCell(stations, "LiftBlockId") && IsQuotedField(k.stations.liftBlock, stations, "LiftBlockId")
    && HasCell(houses, "HouseNumber") && IsQuotedField(k.houses.house, houses, "HouseNumber")
    && HasCell(houses, "HousingComplexId") && IsQuotedField(k.houses.complex, houses, "HousingComplexId")
    && HasCell(houses, "TopFloor") && IsQuotedField(k.houses.top, houses, "TopFloor")
    && HasCell(houses, "BottomFloor") && IsQuotedField(k.houses.bottom, houses, "BottomFloor")
    && HasCell(houses, "NullFloor") && IsQuotedField(k.houses.nullFloor, houses, "NullFloor")
    && HasCell(phrases, "HouseNum") && IsQuotedField(k.phrases.house, phrases, "HouseNum")
    && HasCell(phrases, "HouseComplexId") && IsQuotedField(k.phrases.complex, phrases, "HouseComplexId")
    && HasCell(phrases, "KeyWords") && IsQuotedField(k.phrases.keyWords, phrases, "KeyWords")
    && HasCell(phrases, "Response") && IsQuotedField(k.phrases.response, phrases, "Response")
  }

  predicate HasCell(rows: Rows, field: string) {
    forall j :: 0 <= j < |rows| ==> field in rows[j]
  }

  lemma FieldIsMirrored(table: Table, rows: Rows, fields: seq<string>, k: nat)
    requires IsFetched(table, rows, fields) && k < |fields|
    ensures HasCell(rows, fields[k]) && fields[k] in table && IsQuotedField(table[fields[k]], rows, fields[k])
  {
  }

  /** After its fetch each column that the text worker uses holds the quoted cells of the column of the
      database that it is named after. */
  lemma KnowledgeMirrorsTheDatabase(sql: Sql, db: Database, k: TextWorker.Knowledge)
    requires IsEngineOver(sql, db) && TextDatabase(db)
    ensures |TextData(sql)| == 1 && HasTextColumns(TextData(sql)[0])
    ensures var k' := Informed(k, TextData(sql)[0]);
            && TextWorker.Rectangular(k')
            && Mirrors(k', db("MarussiaStation", None), db("House", None), db("StaticPhrases", None))
  {
    TextIsFetched(sql, db);
    var data := TextData(sql)[0];
    var stations, houses, phrases := db("MarussiaStation", None), db("House", None), db("StaticPhrases", None);
    forall i | 0 <= i < 4 ensures IsMirrored(data["MarussiaStation"], stations, PLACE_FIELDS[i]) {
      FieldIsMirrored(data["MarussiaStation"], stations, PLACE_FIELDS, i);
    }
    forall i | 0 <= i < 5 ensures IsMirrored(data["House"], houses, HOUSE_FIELDS[i]) {
      FieldIsMirrored(data["House"], houses, HOUSE_FIELDS, i);
    }
    forall i | 0 <= i < 4 ensures IsMirrored(data["StaticPhrases"], phrases, PHRASE_FIELDS[i]) {
      FieldIsMirrored(data["StaticPhrases"], phrases, PHRASE_FIELDS, i);
    }
    NamedFields(data, stations, houses, phrases);
  }

  predicate IsMirrored(table: Table, rows: Rows, field: string) {
    HasCell(rows, field) && field in table && IsQuotedField(table[field], rows, field)
  }

  lemma NamedFields(data: Data, stations: Rows, houses: Rows, phrases: Rows)
    requires "MarussiaStation" in data && "House" in data && "StaticPhrases" in data
    requires forall i :: 0 <= i < 4 ==> IsMirrored(data["MarussiaStation"], stations, PLACE_FIELDS[i])
    requires forall i :: 0 <= i < 5 ==> IsMirrored(data["House"], houses, HOUSE_FIELDS[i])
    requires forall i :: 0 <= i < 4 ==> IsMirrored(data["StaticPhrases"], phrases, PHRASE_FIELDS[i])
    ensures HasTextColumns(data)
    ensures IsMirrored(data["MarussiaStation"], stations, "ApplicationId")
    ensures IsMirrored(data["MarussiaStation"], stations, "HouseComplexId")
    ensures IsMirrored(data["MarussiaStation"], stations, "HouseNum")
    ensures IsMirrored(data["MarussiaStation"], stations, "LiftBlockId")
    ensures IsMirrored(data["House"], houses, "TopFloor") && IsMirrored(data["House"], houses, "BottomFloor")
    ensures IsMirrored(data["House"], houses, "NullFloor") && IsMirrored(data["House"], houses, "HouseNumber")
    ensures IsMirrored(data["House"], houses, "HousingComplexId")
    ensures IsMirrored(data["StaticPhrases"], phrases, "HouseComplexId")
    ensures IsMirrored(data["StaticPhrases"], phrases, "HouseNum")
    ensures IsMirrored(data["StaticPhrases"], phrases, "KeyWords")
    ensures IsMirrored(data["StaticPhrases"], phrases, "Response")
  {
    assert PLACE_FIELDS[0] == "ApplicationId" && PLACE_FIELDS[1] == "HouseComplexId";
    assert PLACE_FIELDS[2] == "HouseNum" && PLACE_FIELDS[3] == "LiftBlockId";
    assert HOUSE_FIELDS[0] == "TopFloor" && HOUSE_FIELDS[1] == "BottomFloor" && HOUSE_FIELDS[2] == "NullFloor";
    assert HOUSE_FIELDS[3] == "HouseNumber" && HOUSE_FIELDS[4] == "HousingComplexId";
    assert PHRASE_FIELDS[0] == "HouseComplexId" && PHRASE_FIELDS[1] == "HouseNum";
    assert PHRASE_FIELDS[2] == "KeyWords" && PHRASE_FIELDS[3] == "Response";
  }

  lemma TextIsFetched(sql: Sql, db: Database)
    requires IsEngineOver(sql, db) && TextDatabase(db)
    ensures |TextData(sql)| == 1
    ensures forall i :: 0 <= i < 3 ==>
              TEXT_TABLES[i] in TextData(sql)[0]
              && IsFetched(TextData(sql)[0][TEXT_TABLES[i]], db(TEXT_TABLES[i], None), TEXT_FIELDS[i])
    ensures var data := TextData(sql)[0];
            && "MarussiaStation" in data
            && IsFetched(data["MarussiaStation"], db("MarussiaStation", None), PLACE_FIELDS)
            && "House" in data && IsFetched(data["House"], db("House", None), HOUSE_FIELDS)
            && "StaticPhrases" in data && IsFetched(data["StaticPhrases"], db("StaticPhrases", None), PHRASE_FIELDS)
  {
    DatabaseIsFetched(sql, db, TEXT_TABLES, TEXT_FIELDS, []);
    assert TEXT_TABLES[0] == "MarussiaStation" && TEXT_TABLES[1] == "House" && TEXT_TABLES[2] == "StaticPhrases";
    assert TEXT_FIELDS[0] == PLACE_FIELDS && TEXT_FIELDS[1] == HOUSE_FIELDS && TEXT_FIELDS[2] == PHRASE_FIELDS;
  }

  // ------------------------------------------------------------------ quotes come off again

  /** Taking the quotes out of a serialised plain text gives the text back. */
  lemma UnquoteUndoesQuote(s: string)
    requires Json.NeedsNoEscape(s)
    ensures Unquote(Json.Quote(s)) == s
  {
    Json.QuoteOfPlainText(s);
    UnquoteOne('"');
    UnquoteConcat("\"" + s, "\"");
    UnquoteConcat("\"", s);
    assert '"' !in s;
  }

  predicate PlainCells(rows: Rows, fields: seq<string>) {
    && HasColumns(rows, fields)
    && forall j, k :: 0 <= j < |rows| && 0 <= k < |fields| ==> Json.NeedsNoEscape(rows[j][fields[k]])
  }

  predicate PlainField(rows: Rows, field: string) {
    HasCell(rows, field) && forall j :: 0 <= j < |rows| ==> Json.NeedsNoEscape(rows[j][field])
  }

  /** One column against one plain text: with the quotes or without, it is the same comparison. */
  lemma SameCell(column: seq<string>, rows: Rows, field: string, j: nat, text: string)
    requires PlainField(rows, field) && IsQuotedField(column, rows, field) && j < |rows| && Json.NeedsNoEscape(text)
    ensures column[j] == Json.Quote(text) <==> rows[j][field] == text
    ensures Unquote(column[j]) == rows[j][field]
  {
    if column[j] == Json.Quote(text) {
      Json.QuoteIsInjective(rows[j][field], text);
    }
    UnquoteUndoesQuote(rows[j][field]);
  }

  // ------------------------------------------------------------------ floors

  /** The columns of the house table. */
  predicate PlainHouses(houses: Rows) {
    && PlainField(houses, "HouseNumber") && PlainField(houses, "HousingComplexId")
    && PlainField(houses, "TopFloor") && PlainField(houses, "BottomFloor") && PlainField(houses, "NullFloor")
  }

  predicate IsRowOfHouse(houses: Rows, j: nat, house: string, complex: string)
    requires PlainHouses(houses)
  {
    j < |houses| && houses[j]["HouseNumber"] == house && houses[j]["HousingComplexId"] == complex
  }

  predicate CanRead(houses: Rows, parse: TextWorker.ParseInt, j: nat)
    requires PlainHouses(houses) && j < |houses|
  {
    parse(houses[j]["TopFloor"]).Some? && parse(houses[j]["BottomFloor"]).Some?
  }

  /** The row of the database, read as numbers, has this floor: from bottom to top, and its null floor,
      which is -1 or 0. */
  predicate RowHasFloor(houses: Rows, parse: TextWorker.ParseInt, j: nat, n: int)
    requires PlainHouses(houses) && j < |houses| && CanRead(houses, parse, j)
  {
    || parse(houses[j]["BottomFloor"]).value <= n <= parse(houses[j]["TopFloor"]).value
    || n == if houses[j]["NullFloor"] == "-1" then -1 else 0
  }

  predicate HouseIsReadable(houses: Rows, parse: TextWorker.ParseInt, house: string, complex: string)
    requires PlainHouses(houses)
  {
    forall j :: 0 <= j < |houses| && IsRowOfHouse(houses, j, house, complex) ==> CanRead(houses, parse, j)
  }

  predicate HouseHasFloor(houses: Rows, parse: TextWorker.ParseInt, house: string, complex: string, n: int)
    requires PlainHouses(houses)
  {
    exists j :: 0 <= j < |houses| && IsRowOfHouse(houses, j, house, complex)
                && CanRead(houses, parse, j) && RowHasFloor(houses, parse, j, n)
  }

  /** Row j is the first of the house that cannot be read or has the floor. */
  predicate Decides(houses: Rows, parse: TextWorker.ParseInt, house: string, complex: string, n: int, j: nat)
    requires PlainHouses(houses)
  {
    && IsRowOfHouse(houses, j, house, complex)
    && (CanRead(houses, parse, j) ==> RowHasFloor(houses, parse, j, n))
    && forall i :: 0 <= i < j && IsRowOfHouse(houses, i, house, complex)
         ==> CanRead(houses, parse, i) && !RowHasFloor(houses, parse, i, n)
  }

  /** The search meets the floor before anything that it cannot read. */
  predicate FloorIsFound(houses: Rows, parse: TextWorker.ParseInt, house: string, complex: string, n: int)
    requires PlainHouses(houses)
  {
    exists j :: 0 <= j < |houses| && Decides(houses, parse, house, complex, n, j) && CanRead(houses, parse, j)
  }

  predicate FloorIsUnreadable(houses: Rows, parse: TextWorker.ParseInt, house: string, complex: string, n: int)
    requires PlainHouses(houses)
  {
    exists j :: 0 <= j < |houses| && Decides(houses, parse, house, complex, n, j) && !CanRead(houses, parse, j)
  }

  ghost predicate MirrorsHouses(t: TextWorker.Houses, houses: Rows)
    requires PlainHouses(houses)
  {
    && IsQuotedField(t.house, houses, "HouseNumber") && IsQuotedField(t.complex, houses, "HousingComplexId")
    && IsQuotedField(t.top, houses, "TopFloor") && IsQuotedField(t.bottom, houses, "BottomFloor")
    && IsQuotedField(t.nullFloor, houses, "NullFloor")
  }

  lemma HouseRow(t: TextWorker.Houses, houses: Rows, parse: TextWorker.ParseInt, j: nat, house: string, complex: string,
                 n: int)
    requires PlainHouses(houses) && MirrorsHouses(t, houses) && j < |houses|
    requires Json.NeedsNoEscape(house) && Json.NeedsNoEscape(complex)
    ensures TextWorker.RectangularHouses(t)
    ensures TextWorker.InHouse(t, Json.Quote(house), Json.Quote(complex), j)
       <==> IsRowOfHouse(houses, j, house, complex)
    ensures TextWorker.Parsable(t, parse, j) <==> CanRead(houses, parse, j)
    ensures CanRead(houses, parse, j) ==> (TextWorker.HasFloor(t, parse, j, n) <==> RowHasFloor(houses, parse, j, n))
  {
    SameCell(t.house, houses, "HouseNumber", j, house);
    SameCell(t.complex, houses, "HousingComplexId", j, complex);
    SameCell(t.top, houses, "TopFloor", j, "");
    SameCell(t.bottom, houses, "BottomFloor", j, "");
    SameCell(t.nullFloor, houses, "NullFloor", j, "");
  }

  lemma SameDecision(t: TextWorker.Houses, houses: Rows, parse: TextWorker.ParseInt, house: string, complex: string,
                     n: int, j: nat)
    requires PlainHouses(houses) && MirrorsHouses(t, houses) && j < |houses|
    requires Json.NeedsNoEscape(house) && Json.NeedsNoEscape(complex)
    ensures TextWorker.RectangularHouses(t)
    ensures TextWorker.Parsable(t, parse, j) <==> CanRead(houses, parse, j)
    ensures TextWorker.Decides(t, parse, Json.Quote(house), Json.Quote(complex), n, j)
       <==> Decides(houses, parse, house, complex, n, j)
  {
    forall i | 0 <= i <= j
      ensures TextWorker.InHouse(t, Json.Quote(house), Json.Quote(complex), i)
         <==> IsRowOfHouse(houses, i, house, complex)
      ensures TextWorker.Parsable(t, parse, i) <==> CanRead(houses, parse, i)
      ensures CanRead(houses, parse, i)
          ==> (TextWorker.HasFloor(t, parse, i, n) <==> RowHasFloor(houses, parse, i, n))
    {
      HouseRow(t, houses, parse, i, house, complex, n);
    }
  }

  /** On fetched tables the floor check answers by the rows of the database: it confirms a floor iff a row
      of the house has it and no earlier one is unreadable, and throws iff it meets an unreadable one first. */
  lemma FloorIsConfirmedIff(t: TextWorker.Houses, houses: Rows, parse: TextWorker.ParseInt, house: string,
                            complex: string, n: int)
    requires PlainHouses(houses) && MirrorsHouses(t, houses)
    requires Json.NeedsNoEscape(house) && Json.NeedsNoEscape(complex)
    ensures TextWorker.RectangularHouses(t)
    ensures TextWorker.Confirmed(t, parse, Json.Quote(house), Json.Quote(complex), n)
       <==> FloorIsFound(houses, parse, house, complex, n)
    ensures TextWorker.Unreadable(t, parse, Json.Quote(house), Json.Quote(complex), n)
       <==> FloorIsUnreadable(houses, parse, house, complex, n)
  {
    forall j | 0 <= j < |houses|
      ensures TextWorker.Parsable(t, parse, j) <==> CanRead(houses, parse, j)
      ensures TextWorker.Decides(t, parse, Json.Quote(house), Json.Quote(complex), n, j)
         <==> Decides(houses, parse, house, complex, n, j)
    {
      SameDecision(t, houses, parse, house, complex, n, j);
    }
  }

  /** Where all rows of the house can be read, a floor is found iff some row has it. */
  lemma ReadableHouseHasFloorIff(houses: Rows, parse: TextWorker.ParseInt, house: string, complex: string, n: int)
    requires PlainHouses(houses) && HouseIsReadable(houses, parse, house, complex)
    ensures !FloorIsUnreadable(houses, parse, house, complex, n)
    ensures FloorIsFound(houses, parse, house, complex, n) <==> HouseHasFloor(houses, parse, house, complex, n)
  {
    if HouseHasFloor(houses, parse, house, complex, n) {
      var j :| 0 <= j < |houses| && IsRowOfHouse(houses, j, house, complex)
               && CanRead(houses, parse, j) && RowHasFloor(houses, parse, j, n);
      FirstRowDecides(houses, parse, house, complex, n, j);
    }
  }

  lemma {:induction false} FirstRowDecides(houses: Rows, parse: TextWorker.ParseInt, house: string, complex: string,
                                           n: int, j: nat)
    requires PlainHouses(houses) && HouseIsReadable(houses, parse, house, complex) && j < |houses|
    requires IsRowOfHouse(houses, j, house, complex) && RowHasFloor(houses, parse, j, n)
    ensures FloorIsFound(houses, parse, house, complex, n)
    decreases j
  {
    if i: nat :| i < j && IsRowOfHouse(houses, i, house, complex) && RowHasFloor(houses, parse, i, n) {
      FirstRowDecides(houses, parse, house, complex, n, i);
    } else {
      assert Decides(houses, parse, house, complex, n, j);
    }
  }

  // ------------------------------------------------------------------ phrases

  predicate PlainPhrases(phrases: Rows) {
    && PlainField(phrases, "HouseNum") && PlainField(phrases, "HouseComplexId")
    && PlainField(phrases, "KeyWords") && PlainField(phrases, "Response")
  }

  ghost predicate MirrorsPhrases(t: TextWorker.Phrases, phrases: Rows)
    requires PlainPhrases(phrases)
  {
    && IsQuotedField(t.house, phrases, "HouseNum") && IsQuotedField(t.complex, phrases, "HouseComplexId")
    && IsQuotedField(t.keyWords, phrases, "KeyWords") && IsQuotedField(t.response, phrases, "Response")
  }

  /** One of the variants between the semicolons occurs in the command. */
  predicate SomeVariantOccurs(command: string, keyWords: string) {
    exists j :: 0 <= j < |Split(keyWords, ';')| && Occurs(command, Split(keyWords, ';')[j])
  }

  lemma QuotedKeyWords(command: string, keyWords: string)
    requires Json.NeedsNoEscape(keyWords)
    ensures TextWorker.Speaks(command, Json.Quote(keyWords)) <==> SomeVariantOccurs(command, keyWords)
  {
    UnquoteUndoesQuote(keyWords);
    SplitUnquotes(Json.Quote(keyWords), ';');
    var quoted, plain := Split(Json.Quote(keyWords), ';'), Split(keyWords, ';');
    assert |quoted| == |plain| && forall j :: 0 <= j < |plain| ==> plain[j] == Unquote(quoted[j]);
  }

  /** The row of the database belongs to this house and complex and has a variant that occurs. */
  predicate RowMatches(phrases: Rows, j: nat, house: string, complex: string, command: string)
    requires PlainPhrases(phrases)
  {
    && j < |phrases| && phrases[j]["HouseNum"] == house && phrases[j]["HouseComplexId"] == complex
    && SomeVariantOccurs(command, phrases[j]["KeyWords"])
  }

  /** On fetched tables a phrase matches iff its row of the database does. */
  lemma PhraseMatchesIff(t: TextWorker.Phrases, phrases: Rows, house: string, complex: string, command: string, j: nat)
    requires PlainPhrases(phrases) && MirrorsPhrases(t, phrases)
    requires Json.NeedsNoEscape(house) && Json.NeedsNoEscape(complex)
    ensures TextWorker.RectangularPhrases(t)
    ensures TextWorker.PhraseMatches(t, Json.Quote(house), Json.Quote(complex), command, j)
       <==> RowMatches(phrases, j, house, complex, command)
  {
    if j < |phrases| {
      SameCell(t.house, phrases, "HouseNum", j, house);
      SameCell(t.complex, phrases, "HouseComplexId", j, complex);
      QuotedKeyWords(command, phrases[j]["KeyWords"]);
    }
  }

  // ------------------------------------------------------------------ one request on fetched tables

  predicate PlainStations(stations: Rows) {
    && PlainField(stations, "ApplicationId") && PlainField(stations, "HouseNum")
    && PlainField(stations, "HouseComplexId") && PlainField(stations, "LiftBlockId")
  }

  predicate IsFirstRow(stations: Rows, station: string, j: nat)
    requires PlainStations(stations)
  {
    && j < |stations| && stations[j]["ApplicationId"] == station
    && forall i :: 0 <= i < j ==> stations[i]["ApplicationId"] != station
  }

  predicate PlainTexts(texts: seq<string>) {
    forall i :: 0 <= i < |texts| ==> Json.NeedsNoEscape(texts[i])
  }

  predicate NamesALift(k: TextWorker.Knowledge, words: seq<string>) {
    exists i :: 0 <= i < |words| && words[i] in k.liftWords
  }

  /** The answer to a request from the station of row j, in terms of the rows of the database. A lift
      request goes by the word that is selected, or by an empty one. Any other gets the response of the
      first matching phrase of the house, as it is stored, with its quotes; without one the fallback. */
  ghost predicate AnswersByRows(k: TextWorker.Knowledge, stations: Rows, houses: Rows, phrases: Rows, j: nat,
                                words: seq<string>, command: string, answer: Option<TextWorker.Answer>)
    requires PlainStations(stations) && PlainHouses(houses) && PlainPhrases(phrases) && j < |stations|
  {
    var house, complex := stations[j]["HouseNum"], stations[j]["HouseComplexId"];
    if NamesALift(k, words) then
      && (forall i: nat, m: nat ::
            TextWorker.IsSelected(k.roots, words, i, m)
            ==> answer == FloorAnswer(k, houses, house, complex, words[m], stations[j]["LiftBlockId"]))
      && (TextWorker.NoRootOccurs(k.roots, words) ==>
            answer == FloorAnswer(k, houses, house, complex, "", stations[j]["LiftBlockId"]))
    else
      && (forall i: nat :: IsFirstMatch(phrases, i, house, complex, command)
            ==> answer == Some(TextWorker.Static(Json.Quote(phrases[i]["Response"]))))
      && ((forall i: nat :: !RowMatches(phrases, i, house, complex, command))
            ==> answer == Some(TextWorker.Static(k.fallback)))
  }

  /** A move of this lift block to the floor of this word, with words of its own iff the floor is found;
      none for any other word, and none where the house's floors cannot be read. */
  function FloorAnswer(k: TextWorker.Knowledge, houses: Rows, house: string, complex: string, word: string,
                       block: string): Option<TextWorker.Answer>
    requires PlainHouses(houses)
  {
    if word !in k.floors || FloorIsUnreadable(houses, k.parse, house, complex, k.floors[word]) then None
    else
      var found := FloorIsFound(houses, k.parse, house, complex, k.floors[word]);
      var text := if found then k.moveBefore + word + k.moveAfter else "";
      Some(TextWorker.Move(text, Json.Quote(block), k.floors[word]))
  }

  predicate IsFirstMatch(phrases: Rows, i: nat, house: string, complex: string, command: string)
    requires PlainPhrases(phrases)
  {
    && RowMatches(phrases, i, house, complex, command)
    && forall m :: 0 <= m < i ==> !RowMatches(phrases, m, house, complex, command)
  }

  lemma QuotedWords(words: seq<string>)
    requires PlainTexts(words)
    ensures Unquoted(Quoted(words)) == words
  {
    forall i | 0 <= i < |words| ensures Unquote(Quoted(words)[i]) == words[i] {
      UnquoteUndoesQuote(words[i]);
    }
  }

  lemma MoveByRows(k: TextWorker.Knowledge, houses: Rows, house: string, complex: string, block: string, word: string,
                   answer: Option<TextWorker.Answer>)
    requires PlainHouses(houses) && MirrorsHouses(k.houses, houses) && TextWorker.Rectangular(k)
    requires Json.NeedsNoEscape(house) && Json.NeedsNoEscape(complex)
    requires var place := TextWorker.Place(Json.Quote(house), Json.Quote(complex), Json.Quote(block));
             TextWorker.AnswersMove(k, place, word, answer)
    ensures answer == FloorAnswer(k, houses, house, complex, word, block)
  {
    if word in k.floors {
      FloorIsConfirmedIff(k.houses, houses, k.parse, house, complex, k.floors[word]);
    }
  }

  lemma StationIsFound(t: TextWorker.Stations, stations: Rows, station: string, j: nat)
    requires PlainStations(stations) && IsFirstRow(stations, station, j) && TextWorker.RectangularStations(t)
    requires IsQuotedField(t.applicationId, stations, "ApplicationId") && Json.NeedsNoEscape(station)
    ensures TextWorker.IsFirstStation(t, Json.Quote(station), j)
  {
    forall i | 0 <= i <= j
      ensures t.applicationId[i] == Json.Quote(station) <==> stations[i]["ApplicationId"] == station
    {
      SameCell(t.applicationId, stations, "ApplicationId", i, station);
    }
  }

  /** The worker's handlers on a whole request: station, words and command arrive serialised. */
  method AnswerRequest(k: TextWorker.Knowledge, ghost stations: Rows, ghost houses: Rows, ghost phrases: Rows,
                       station: string, words: seq<string>, command: string)
    returns (answer: Option<TextWorker.Answer>)
    requires TextWorker.Rectangular(k) && Mirrors(k, stations, houses, phrases)
    requires PlainStations(stations) && PlainHouses(houses) && PlainPhrases(phrases)
    requires Json.NeedsNoEscape(station) && PlainTexts(words) && Json.NeedsNoEscape(command)
    ensures forall j: nat :: IsFirstRow(stations, station, j)
              ==> AnswersByRows(k, stations, houses, phrases, j, words, command, answer)
  {
    var place := TextWorker.FindPlace(k.stations, Json.Quote(station));
    answer := TextWorker.AnalizeRequest(k, place, Quoted(words), Json.Quote(command));
    QuotedWords(words);
    UnquoteUndoesQuote(command);
    forall j: nat | IsFirstRow(stations, station, j)
      ensures AnswersByRows(k, stations, houses, phrases, j, words, command, answer)
    {
      StationIsFound(k.stations, stations, station, j);
      RequestByRows(k, stations, houses, phrases, j, place, words, command, answer);
    }
  }

  /** What the contract of the worker's handler comes to on fetched tables. */
  lemma RequestByRows(k: TextWorker.Knowledge, stations: Rows, houses: Rows, phrases: Rows, j: nat,
                      place: TextWorker.Place, words: seq<string>, command: string, answer: Option<TextWorker.Answer>)
    requires TextWorker.Rectangular(k) && Mirrors(k, stations, houses, phrases)
    requires PlainStations(stations) && PlainHouses(houses) && PlainPhrases(phrases) && j < |stations|
    requires PlainTexts(words)
    requires place == TextWorker.Place(k.stations.house[j], k.stations.complex[j], k.stations.liftBlock[j])
    requires TextWorker.AsksForLift(k, Quoted(words)) ==>
               forall i: nat, m: nat :: TextWorker.IsSelected(k.roots, words, i, m)
                 ==> TextWorker.AnswersMove(k, place, words[m], answer)
    requires TextWorker.AsksForLift(k, Quoted(words)) && TextWorker.NoRootOccurs(k.roots, words)
             ==> TextWorker.AnswersMove(k, place, "", answer)
    requires !TextWorker.AsksForLift(k, Quoted(words)) ==> answer.Some? && answer.value.Static?
    requires !TextWorker.AsksForLift(k, Quoted(words)) ==>
               forall i: nat :: TextWorker.IsFirstPhrase(k.phrases, place.house, place.complex, command, i) ==>
                 answer.value.text == if k.phrases.response[i] != "" then k.phrases.response[i] else k.fallback
    requires !TextWorker.AsksForLift(k, Quoted(words))
             && (forall i: nat :: i < |k.phrases.house| ==>
                   !TextWorker.PhraseMatches(k.phrases, place.house, place.complex, command, i))
             ==> answer.value.text == k.fallback
    ensures AnswersByRows(k, stations, houses, phrases, j, words, command, answer)
  {
    var house, complex := stations[j]["HouseNum"], stations[j]["HouseComplexId"];
    QuotedWords(words);
    LiftIsNamed(k, words);
    if NamesALift(k, words) {
      forall i: nat, m: nat | TextWorker.IsSelected(k.roots, words, i, m)
        ensures answer == FloorAnswer(k, houses, house, complex, words[m], stations[j]["LiftBlockId"])
      {
        MoveByRows(k, houses, house, complex, stations[j]["LiftBlockId"], words[m], answer);
      }
      if TextWorker.NoRootOccurs(k.roots, words) {
        MoveByRows(k, houses, house, complex, stations[j]["LiftBlockId"], "", answer);
      }
    } else {
      forall i: nat
        ensures TextWorker.PhraseMatches(k.phrases, place.house, place.complex, command, i)
           <==> RowMatches(phrases, i, house, complex, command)
      {
        PhraseMatchesIff(k.phrases, phrases, house, complex, command, i);
      }
      forall i: nat | IsFirstMatch(phrases, i, house, complex, command)
        ensures answer == Some(TextWorker.Static(Json.Quote(phrases[i]["Response"])))
      {
        assert TextWorker.IsFirstPhrase(k.phrases, place.house, place.complex, command, i);
        assert k.phrases.response[i] == Json.Quote(phrases[i]["Response"]) != "";
      }
    }
  }

  lemma LiftIsNamed(k: TextWorker.Knowledge, words: seq<string>)
    requires Unquoted(Quoted(words)) == words
    ensures TextWorker.AsksForLift(k, Quoted(words)) <==> NamesALift(k, words)
  {
    assert forall i :: 0 <= i < |words| ==> Unquoted(Quoted(words))[i] == Unquote(Quoted(words)[i]);
  }
}
