/** What the text worker makes of a voice request: a floor command when a token is one of its lift
    words, otherwise the search of its phrase table. The vocabulary (lift words, number roots, floor
    words) and the library's number parser are parameters. */
module TextWorker {
  import opened Common

  type ParseInt = string -> Option<int>

  datatype Stations = Stations(
    applicationId: seq<string>,
    house: seq<string>,
    complex: seq<string>,
    liftBlock: seq<string>)

  datatype Houses = Houses(
    house: seq<string>,
    complex: seq<string>,
    top: seq<string>,
    bottom: seq<string>,
    nullFloor: seq<string>)

  datatype Phrases = Phrases(house: seq<string>, complex: seq<string>, keyWords: seq<string>, response: seq<string>)

  predicate RectangularStations(t: Stations) {
    |t.applicationId| == |t.house| == |t.complex| == |t.liftBlock|
  }

  predicate RectangularHouses(t: Houses) {
    |t.house| == |t.complex| == |t.top| == |t.bottom| == |t.nullFloor|
  }

  predicate RectangularPhrases(t: Phrases) {
    |t.house| == |t.complex| == |t.keyWords| == |t.response|
  }

  // ------------------------------------------------------------------ selecting the floor token

  /** Root i occurs in token j, no higher root occurs in any token, and root i in no later token. */
  predicate IsSelected(roots: seq<string>, tokens: seq<string>, i: nat, j: nat) {
    && i < |roots| && j < |tokens| && Occurs(tokens[j], roots[i])
    && (forall i', j' :: i < i' < |roots| && 0 <= j' < |tokens| ==> !Occurs(tokens[j'], roots[i']))
    && (forall j' :: j < j' < |tokens| ==> !Occurs(tokens[j'], roots[i]))
  }

  predicate NoRootOccurs(roots: seq<string>, tokens: seq<string>) {
    forall i, j :: 0 <= i < |roots| && 0 <= j < |tokens| ==> !Occurs(tokens[j], roots[i])
  }

  /** At most one token position is selected. */
  lemma SelectionIsUnique(roots: seq<string>, tokens: seq<string>, i: nat, j: nat, i': nat, j': nat)
    requires IsSelected(roots, tokens, i, j) && IsSelected(roots, tokens, i', j')
    ensures i == i' && j == j'
  {
  }

  method Contains(s: string, text: string) returns (found: bool)
    ensures found <==> Occurs(s, text)
  {
    var r := FindFrom(s, text, 0);
    found := r.Some?;
  }

  /** The nested loops over roots and tokens, each hit overwriting the last one. */
  method SelectToken(roots: seq<string>, tokens: seq<string>) returns (token: string)
    ensures NoRootOccurs(roots, tokens) ==> token == ""
    ensures forall i: nat, j: nat :: IsSelected(roots, tokens, i, j) ==> token == tokens[j]
    ensures NoRootOccurs(roots, tokens) || exists i: nat, j: nat :: IsSelected(roots, tokens, i, j)
  {
    token := "";
    ghost var hit := false;
    ghost var hi: nat, hj: nat := 0, 0;
    for i := 0 to |roots|
      invariant !hit ==> token == "" && NoRootOccurs(roots[..i], tokens)
      invariant hit ==> IsSelected(roots[..i], tokens, hi, hj) && token == tokens[hj]
    {
      ghost var before := hit;
      ghost var hereHit := false;
      for j := 0 to |tokens|
        invariant !hereHit ==> hit == before && forall k :: 0 <= k < j ==> !Occurs(tokens[k], roots[i])
        invariant !hereHit && !hit ==> token == "" && NoRootOccurs(roots[..i], tokens)
        invariant !hereHit && hit ==> IsSelected(roots[..i], tokens, hi, hj) && token == tokens[hj]
        invariant hereHit ==> hit && hi == i && hj < j && token == tokens[hj] && Occurs(tokens[hj], roots[i])
        invariant hereHit ==> forall k :: hj < k < j ==> !Occurs(tokens[k], roots[i])
      {
        var found := Contains(tokens[j], roots[i]);
        if found {
          token := tokens[j];
          hit, hereHit, hi, hj := true, true, i, j;
        }
      }
      assert roots[..i + 1] == roots[..i] + [roots[i]];
    }
    assert roots[..|roots|] == roots;
    if hit {
      forall i: nat, j: nat | IsSelected(roots, tokens, i, j) ensures token == tokens[j] {
        SelectionIsUnique(roots, tokens, i, j, hi, hj);
      }
    }
  }

  // ------------------------------------------------------------------ checking the floor

  predicate InHouse(t: Houses, house: string, complex: string, i: nat)
    requires RectangularHouses(t)
  {
    i < |t.house| && t.house[i] == house && t.complex[i] == complex
  }

  /** Top and bottom of a row read as numbers; the null floor is -1 or, whatever else it says, 0. */
  predicate Parsable(t: Houses, parse: ParseInt, i: nat)
    requires RectangularHouses(t) && i < |t.house|
  {
    parse(Unquote(t.top[i])).Some? && parse(Unquote(t.bottom[i])).Some?
  }

  function NullFloor(t: Houses, i: nat): int
    requires RectangularHouses(t) && i < |t.house|
  {
    if Unquote(t.nullFloor[i]) == "-1" then -1 else 0
  }

  predicate HasFloor(t: Houses, parse: ParseInt, i: nat, n: int)
    requires RectangularHouses(t) && i < |t.house| && Parsable(t, parse, i)
  {
    parse(Unquote(t.bottom[i])).value <= n <= parse(Unquote(t.top[i])).value || NullFloor(t, i) == n
  }

  /** Row i is the first of the house that either cannot be read or has the floor. */
  predicate Decides(t: Houses, parse: ParseInt, house: string, complex: string, n: int, i: nat)
    requires RectangularHouses(t)
  {
    && InHouse(t, house, complex, i)
    && (!Parsable(t, parse, i) || HasFloor(t, parse, i, n))
    && forall k: nat :: k < i && InHouse(t, house, complex, k) ==> Parsable(t, parse, k) && !HasFloor(t, parse, k, n)
  }

  predicate Confirmed(t: Houses, parse: ParseInt, house: string, complex: string, n: int)
    requires RectangularHouses(t)
  {
    exists i :: 0 <= i < |t.house| && Decides(t, parse, house, complex, n, i) && Parsable(t, parse, i)
  }

  predicate Unreadable(t: Houses, parse: ParseInt, house: string, complex: string, n: int)
    requires RectangularHouses(t)
  {
    exists i :: 0 <= i < |t.house| && Decides(t, parse, house, complex, n, i) && !Parsable(t, parse, i)
  }

  predicate HouseParsable(t: Houses, parse: ParseInt, house: string, complex: string)
    requires RectangularHouses(t)
  {
    forall i :: 0 <= i < |t.house| && InHouse(t, house, complex, i) ==> Parsable(t, parse, i)
  }

  predicate SomeRowHasFloor(t: Houses, parse: ParseInt, house: string, complex: string, n: int)
    requires RectangularHouses(t)
  {
    exists i :: 0 <= i < |t.house| && InHouse(t, house, complex, i) && Parsable(t, parse, i) && HasFloor(t, parse, i, n)
  }

  /** When the house's floor columns can be read, a floor is confirmed iff some row of the house
      includes it, by its range or as its null floor. */
  lemma ConfirmedIffSomeRowHasFloor(t: Houses, parse: ParseInt, house: string, complex: string, n: int)
    requires RectangularHouses(t) && HouseParsable(t, parse, house, complex)
    ensures !Unreadable(t, parse, house, complex, n)
    ensures Confirmed(t, parse, house, complex, n) <==> SomeRowHasFloor(t, parse, house, complex, n)
  {
    if SomeRowHasFloor(t, parse, house, complex, n) {
      var i :| 0 <= i < |t.house| && InHouse(t, house, complex, i) && Parsable(t, parse, i) && HasFloor(t, parse, i, n);
      var d := FirstWithFloor(t, parse, house, complex, n, i);
    }
  }

  lemma {:induction false} FirstWithFloor(t: Houses, parse: ParseInt, house: string, complex: string, n: int,
                                          i: nat) returns (d: nat)
    requires RectangularHouses(t) && HouseParsable(t, parse, house, complex) && i < |t.house|
    requires InHouse(t, house, complex, i) && HasFloor(t, parse, i, n)
    ensures d <= i && Decides(t, parse, house, complex, n, d)
    decreases i
  {
    if k: nat :| k < i && InHouse(t, house, complex, k) && HasFloor(t, parse, k, n) {
      d := FirstWithFloor(t, parse, house, complex, n, k);
    } else {
      d := i;
    }
  }

  /** Is floor n a floor of the house? None when a number of a deciding row cannot be read. */
  method CheckFloor(t: Houses, parse: ParseInt, house: string, complex: string, n: int) returns (r: Option<bool>)
    requires RectangularHouses(t)
    ensures r == None <==> Unreadable(t, parse, house, complex, n)
    ensures r == Some(true) <==> Confirmed(t, parse, house, complex, n)
  {
    for i := 0 to |t.house|
      invariant forall k: nat :: k < i && InHouse(t, house, complex, k)
                  ==> Parsable(t, parse, k) && !HasFloor(t, parse, k, n)
    {
      if t.house[i] == house && t.complex[i] == complex {
        var top := parse(Unquote(t.top[i]));
        if top.None? {
          assert Decides(t, parse, house, complex, n, i);
          return None;
        }
        var bottom := parse(Unquote(t.bottom[i]));
        if bottom.None? {
          assert Decides(t, parse, house, complex, n, i);
          return None;
        }
        var lowest := 0;
        if Unquote(t.nullFloor[i]) == "-1" {
          lowest := -1;
        }
        if (top.value >= n && bottom.value <= n) || lowest == n {
          assert InHouse(t, house, complex, i) && HasFloor(t, parse, i, n);
          assert Decides(t, parse, house, complex, n, i);
          return Some(true);
        }
      }
    }
    return Some(false);
  }

  // ------------------------------------------------------------------ searching the phrases

  lemma FindOneChar(s: string, c: char)
    ensures var r := FindFrom(s, [c], 0);
            && (r.Some? ==> r.value < |s| && s[r.value] == c && forall i :: 0 <= i < r.value ==> s[i] != c)
            && (r.None? ==> c !in s)
  {
    forall i | 0 <= i < |s| ensures OccursAt(s, [c], i) <==> s[i] == c {
      assert s[i..i + 1] == [s[i]];
    }
  }

  lemma CutFirstVariant(all: string, num: nat, variants: seq<string>)
    requires num < |all| && all[num] == ';' && forall i :: 0 <= i < num ==> all[i] != ';'
    ensures variants + [all[..num]] + Split(all[num + 1..], ';') == variants + Split(all, ';')
  {
    SplitAtFirst(all, ';', num);
  }

  /** The in-place cutting of a list of variants: erase up to each semicolon. */
  method SplitVariants(keyWords: string) returns (variants: seq<string>)
    ensures variants == Split(keyWords, ';')
  {
    var all := keyWords;
    variants := [];
    var num := FindFrom(all, [';'], 0);
    while num.Some?
      invariant num == FindFrom(all, [';'], 0)
      invariant variants + Split(all, ';') == Split(keyWords, ';')
      decreases |all|
    {
      var piece := all[..num.value];
      FindOneChar(all, ';');
      CutFirstVariant(all, num.value, variants);
      all := all[|piece| + 1..];
      variants := variants + [piece];
      num := FindFrom(all, [';'], 0);
    }
    FindOneChar(all, ';');
    SplitWithout(all, ';');
    variants := variants + [all];
  }

  /** One of the row's variants, without quotes, occurs in the command. */
  predicate Speaks(command: string, keyWords: string) {
    exists j :: 0 <= j < |Split(keyWords, ';')| && Occurs(command, Unquote(Split(keyWords, ';')[j]))
  }

  predicate PhraseMatches(t: Phrases, house: string, complex: string, command: string, i: nat)
    requires RectangularPhrases(t)
  {
    i < |t.house| && t.house[i] == house && t.complex[i] == complex && Speaks(command, t.keyWords[i])
  }

  predicate IsFirstPhrase(t: Phrases, house: string, complex: string, command: string, i: nat)
    requires RectangularPhrases(t)
  {
    && PhraseMatches(t, house, complex, command, i)
    && forall k :: 0 <= k < i ==> !PhraseMatches(t, house, complex, command, k)
  }

  /** The response of the first matching row; None when no row matches. */
  method FindPhrase(t: Phrases, house: string, complex: string, command: string) returns (r: Option<string>)
    requires RectangularPhrases(t)
    ensures r.Some? <==> exists i: nat :: i < |t.house| && PhraseMatches(t, house, complex, command, i)
    ensures forall i: nat :: IsFirstPhrase(t, house, complex, command, i) ==> r == Some(t.response[i])
  {
    for i := 0 to |t.keyWords|
      invariant forall k :: 0 <= k < i ==> !PhraseMatches(t, house, complex, command, k)
    {
      var variants := SplitVariants(t.keyWords[i]);
      for j := 0 to |variants|
        invariant t.house[i] == house && t.complex[i] == complex ==>
                    forall k :: 0 <= k < j ==> !Occurs(command, Unquote(variants[k]))
      {
        var found := Contains(command, Unquote(variants[j]));
        if found {
          if house == t.house[i] && complex == t.complex[i] {
            assert Speaks(command, t.keyWords[i]);
            assert IsFirstPhrase(t, house, complex, command, i);
            return Some(t.response[i]);
          }
        }
      }
      assert !PhraseMatches(t, house, complex, command, i);
    }
    return None;
  }

  // ------------------------------------------------------------------ one request

  datatype Answer =
    | Move(text: string, liftBlock: string, floor: int)
    | Static(text: string)

  /** The fixed parts of the worker: its tables, its words and its texts. */
  datatype Knowledge = Knowledge(
    stations: Stations, houses: Houses, phrases: Phrases,
    liftWords: seq<string>, roots: seq<string>, floors: map<string, int>, parse: ParseInt,
    moveBefore: string, moveAfter: string, fallback: string)

  predicate Rectangular(k: Knowledge) {
    RectangularStations(k.stations) && RectangularHouses(k.houses) && RectangularPhrases(k.phrases)
  }

  /** Where the request comes from; "-1" stands for an unknown house and complex. */
  datatype Place = Place(house: string, complex: string, liftBlock: string)

  predicate IsFirstStation(t: Stations, station: string, i: nat) {
    i < |t.applicationId| && t.applicationId[i] == station && forall k :: 0 <= k < i ==> t.applicationId[k] != station
  }

  method FindPlace(t: Stations, station: string) returns (place: Place)
    requires RectangularStations(t)
    ensures forall i: nat :: IsFirstStation(t, station, i) ==> place == Place(t.house[i], t.complex[i], t.liftBlock[i])
    ensures station !in t.applicationId ==> place == Place("-1", "-1", "")
  {
    for i := 0 to |t.applicationId|
      invariant forall k :: 0 <= k < i ==> t.applicationId[k] != station
    {
      if station == t.applicationId[i] {
        return Place(t.house[i], t.complex[i], t.liftBlock[i]);
      }
    }
    return Place("-1", "-1", "");
  }

  predicate AsksForLift(k: Knowledge, tokens: seq<string>) {
    exists i :: 0 <= i < |tokens| && Unquote(tokens[i]) in k.liftWords
  }

  /** What the answer to a lift request must be, given the selected token. The move goes out whether or
      not the house has the floor; only the text says so. */
  predicate AnswersMove(k: Knowledge, place: Place, token: string, answer: Option<Answer>)
    requires Rectangular(k)
  {
    if token !in k.floors || Unreadable(k.houses, k.parse, place.house, place.complex, k.floors[token])
    then answer == None
    else
      var n := k.floors[token];
      var confirmed := Confirmed(k.houses, k.parse, place.house, place.complex, n);
      var text := if confirmed then k.moveBefore + token + k.moveAfter else "";
      answer == Some(Move(text, place.liftBlock, n))
  }

  /** When the house's floor columns can be read and the token is a floor word, a move goes out in any
      case; its text is not empty iff some row of the house has the floor. */
  lemma MoveSpeaksIffHouseHasFloor(k: Knowledge, place: Place, token: string, answer: Option<Answer>)
    requires Rectangular(k) && AnswersMove(k, place, token, answer)
    requires token in k.floors && HouseParsable(k.houses, k.parse, place.house, place.complex)
    requires k.moveBefore + token + k.moveAfter != ""
    ensures answer.Some? && answer.value.Move?
    ensures answer.value.liftBlock == place.liftBlock && answer.value.floor == k.floors[token]
    ensures answer.value.text != "" <==> SomeRowHasFloor(k.houses, k.parse, place.house, place.complex, k.floors[token])
  {
    ConfirmedIffSomeRowHasFloor(k.houses, k.parse, place.house, place.complex, k.floors[token]);
  }

  /** A house of nine floors, and a worker that knows the word "12". */
  const NINE_FLOORS := Knowledge(
    Stations([], [], [], []), Houses(["1"], ["7"], ["9"], ["1"], ["0"]), Phrases([], [], [], []),
    ["lift"], ["1"], map["12" := 12], s => if s == "9" then Some(9) else if s == "1" then Some(1) else None,
    "Going to floor ", "", "")

  /** The failing input: asked for the twelfth of nine floors, the worker sends the move to the lift,
      without a word for the caller. */
  lemma AbsentFloorIsMovedToSilently(answer: Option<Answer>)
    requires AnswersMove(NINE_FLOORS, Place("1", "7", "block"), "12", answer)
    ensures !SomeRowHasFloor(NINE_FLOORS.houses, NINE_FLOORS.parse, "1", "7", 12)
    ensures answer == Some(Move("", "block", 12))
  {
    var t := NINE_FLOORS.houses;
    assert Unquote("9") == "9" && Unquote("1") == "1" && Unquote("0") == "0";
    assert Parsable(t, NINE_FLOORS.parse, 0) && !HasFloor(t, NINE_FLOORS.parse, 0, 12);
    ConfirmedIffSomeRowHasFloor(t, NINE_FLOORS.parse, "1", "7", 12);
  }

  /** `__analizeRequest` for a request from a known station. None: a lookup or a number parser threw,
      and nothing is answered. */
  method AnalizeRequest(k: Knowledge, place: Place, tokens: seq<string>,
                        command: string) returns (answer: Option<Answer>)
    requires Rectangular(k)
    ensures AsksForLift(k, tokens) && NoRootOccurs(k.roots, Unquoted(tokens)) ==> AnswersMove(k, place, "", answer)
    ensures AsksForLift(k, tokens) ==>
              forall i: nat, j: nat :: IsSelected(k.roots, Unquoted(tokens), i, j)
                ==> AnswersMove(k, place, Unquote(tokens[j]), answer)
    ensures !AsksForLift(k, tokens) ==> answer.Some? && answer.value.Static?
    ensures !AsksForLift(k, tokens) ==>
              forall i: nat :: IsFirstPhrase(k.phrases, place.house, place.complex, Unquote(command), i) ==>
                answer.value.text == if k.phrases.response[i] != "" then k.phrases.response[i] else k.fallback
    ensures !AsksForLift(k, tokens)
            && (forall i: nat :: i < |k.phrases.house| ==>
                  !PhraseMatches(k.phrases, place.house, place.complex, Unquote(command), i))
            ==> answer.value.text == k.fallback
  {
    var search: seq<string> := [];
    var flag := false;
    for i := 0 to |tokens|
      invariant search == Unquoted(tokens)[..i]
      invariant flag <==> exists j :: 0 <= j < i && Unquote(tokens[j]) in k.liftWords
    {
      var token := Unquote(tokens[i]);
      search := search + [token];
      for j := 0 to |k.liftWords|
        invariant flag <==> (exists m :: 0 <= m < i && Unquote(tokens[m]) in k.liftWords) || token in k.liftWords[..j]
      {
        assert k.liftWords[..j + 1] == k.liftWords[..j] + [k.liftWords[j]];
        if token == k.liftWords[j] {
          flag := true;
        }
      }
      assert k.liftWords[..|k.liftWords|] == k.liftWords;
    }
    assert search == Unquoted(tokens);
    if flag {
      answer := AnswerMove(k, place, search);
    } else {
      var phrase := FindPhrase(k.phrases, place.house, place.complex, Unquote(command));
      if phrase.Some? && phrase.value != "" {
        answer := Some(Static(phrase.value));
      } else {
        answer := Some(Static(k.fallback));
      }
    }
  }

  method AnswerMove(k: Knowledge, place: Place, search: seq<string>) returns (answer: Option<Answer>)
    requires Rectangular(k) && forall i :: 0 <= i < |search| ==> '"' !in search[i]
    ensures NoRootOccurs(k.roots, search) ==> AnswersMove(k, place, "", answer)
    ensures forall i: nat, j: nat :: IsSelected(k.roots, search, i, j) ==> AnswersMove(k, place, search[j], answer)
  {
    var selected := SelectToken(k.roots, search);
    var token := Unquote(selected);
    assert token == selected;
    if token !in k.floors {
      return None;
    }
    var n := k.floors[token];
    var found := CheckFloor(k.houses, k.parse, place.house, place.complex, n);
    if found.None? {
      return None;
    }
    var text := if found.value then k.moveBefore + selected + k.moveAfter else "";
    return Some(Move(text, place.liftBlock, n));
  }
}
