/** Reading compact JSON texts (RFC 8259, sections 3 to 7) and their members: what the services do with
    a finished document. Reading takes back what serialising wrote. */
module JsonReader {
  import opened Common
  import opened Json

  // ------------------------------------------------------------------ reading one value

  /** What was read, and the text behind it. */
  type Read<T> = Option<(T, string)>

  function HexDigit(c: char): Option<nat> {
    if '0' <= c <= '9' then Some(c as int - '0' as int)
    else if 'a' <= c <= 'f' then Some(c as int - 'a' as int + 10)
    else None
  }

  /** The character behind a backslash that is not a `u`. */
  function Escaped(c: char): Option<char> {
    match c
    case '"' => Some('"')
    case '\\' => Some('\\')
    case 'b' => Some(8 as char)
    case 'f' => Some(12 as char)
    case 'n' => Some('\n')
    case 'r' => Some('\r')
    case 't' => Some('\t')
    case _ => None
  }

  /** One character of a string, escaped or not. Of the `u` escapes only those below 0x100 occur. */
  function ReadChar(s: string): (r: Read<char>)
    ensures r.Some? ==> |r.value.1| < |s|
  {
    if s == "" || s[0] == '"' || s[0] < ' ' then None
    else if s[0] != '\\' then Some((s[0], s[1..]))
    else if |s| >= 6 && s[1] == 'u' then
      match (HexDigit(s[4]), HexDigit(s[5]))
      case (Some(high), Some(low)) =>
        if s[2..4] == "00" && 16 * high + low < 0x100 then Some(((16 * high + low) as char, s[6..])) else None
      case _ => None
    else if |s| < 2 then None
    else match Escaped(s[1])
      case Some(c) => Some((c, s[2..]))
      case None => None
  }

  /** The characters up to the closing quote. */
  function ReadText(s: string): (r: Read<string>)
    ensures r.Some? ==> |r.value.1| < |s|
    decreases |s|
  {
    if s == "" then None
    else if s[0] == '"' then Some(("", s[1..]))
    else match ReadChar(s)
      case None => None
      case Some((c, rest)) =>
        match ReadText(rest)
        case None => None
        case Some((text, rest')) => Some(([c] + text, rest'))
  }

  predicate IsNumberChar(c: char) {
    c in "+-.0123456789Ee"
  }

  function ReadNumber(s: string): (r: Read<NumberText>)
    ensures r.Some? ==> |r.value.1| < |s|
  {
    var n := FirstWhere(s, c => !IsNumberChar(c));
    if n == 0 then None
    else
      assert forall c :: c in s[..n] ==> IsNumberChar(c);
      Some((s[..n], s[n..]))
  }

  function ReadWord(s: string, word: string, v: Value): (r: Read<Value>)
    requires word != ""
    ensures r.Some? ==> |r.value.1| < |s|
  {
    if word <= s then Some((v, s[|word|..])) else None
  }

  function ReadValue(s: string): (r: Read<Value>)
    ensures r.Some? ==> |r.value.1| < |s|
    decreases |s|, 1
  {
    if s == "" then None
    else match s[0]
      case 'n' => ReadWord(s, "null", Null)
      case 't' => ReadWord(s, "true", Bool(true))
      case 'f' => ReadWord(s, "false", Bool(false))
      case '"' =>
        (match ReadText(s[1..])
         case None => None
         case Some((text, rest)) => Some((String(text), rest)))
      case '[' =>
        if |s| > 1 && s[1] == ']' then Some((Array([]), s[2..]))
        else
          (match ReadItems(s[1..])
           case None => None
           case Some((items, rest)) => Some((Array(items), rest)))
      case '{' =>
        if |s| > 1 && s[1] == '}' then Some((Object([]), s[2..]))
        else
          (match ReadMembers(s[1..])
           case None => None
           case Some((members, rest)) => Some((Object(members), rest)))
      case _ =>
        (match ReadNumber(s)
         case None => None
         case Some((text, rest)) => Some((Number(text), rest)))
  }

  /** One item or more, up to the closing bracket. */
  function ReadItems(s: string): (r: Read<seq<Value>>)
    ensures r.Some? ==> |r.value.1| < |s|
    decreases |s|, 2
  {
    match ReadValue(s)
    case None => None
    case Some((v, rest)) =>
      if rest != "" && rest[0] == ']' then Some(([v], rest[1..]))
      else if rest == "" || rest[0] != ',' then None
      else match ReadItems(rest[1..])
        case None => None
        case Some((items, rest')) => Some(([v] + items, rest'))
  }

  function ReadMember(s: string): (r: Read<Member>)
    ensures r.Some? ==> |r.value.1| < |s|
    decreases |s|, 2
  {
    if s == "" || s[0] != '"' then None
    else match ReadText(s[1..])
      case None => None
      case Some((key, rest)) =>
        if rest == "" || rest[0] != ':' then None
        else match ReadValue(rest[1..])
          case None => None
          case Some((v, rest')) => Some((Member(key, v), rest'))
  }

  function ReadMembers(s: string): (r: Read<seq<Member>>)
    ensures r.Some? ==> |r.value.1| < |s|
    decreases |s|, 3
  {
    match ReadMember(s)
    case None => None
    case Some((m, rest)) =>
      if rest != "" && rest[0] == '}' then Some(([m], rest[1..]))
      else if rest == "" || rest[0] != ',' then None
      else match ReadMembers(rest[1..])
        case None => None
        case Some((members, rest')) => Some(([m] + members, rest'))
  }

  /** A document as a whole. */
  function ReadDocument(doc: string): Option<Value> {
    match ReadValue(doc)
    case Some((v, "")) => Some(v)
    case _ => None
  }

  // ------------------------------------------------------------------ reading undoes serialising

  lemma ReadEscapedChar(c: char, rest: string)
    ensures ReadChar(EscapeChar(c) + rest) == Some((c, rest))
  {
    if |EscapeChar(c)| == 1 {
      ReadPlain(c, rest);
    } else if |EscapeChar(c)| == 2 {
      ReadShortEscape(c, EscapeChar(c)[1], rest);
    } else {
      ReadLongEscape(c as int / 16, c as int % 16, rest);
    }
  }

  lemma ReadPlain(c: char, rest: string)
    requires c != '"' && c != '\\' && c >= ' '
    ensures ReadChar([c] + rest) == Some((c, rest))
  {
    assert ([c] + rest)[1..] == rest;
  }

  lemma ReadShortEscape(c: char, e: char, rest: string)
    requires e != 'u' && Escaped(e) == Some(c)
    ensures ReadChar(['\\', e] + rest) == Some((c, rest))
  {
    assert (['\\', e] + rest)[2..] == rest;
  }

  lemma ReadLongEscape(high: nat, low: nat, rest: string)
    requires high < 2 && low < 16
    ensures ReadChar("\\u00" + [HEX[high], HEX[low]] + rest) == Some(((16 * high + low) as char, rest))
  {
    var s := "\\u00" + [HEX[high], HEX[low]] + rest;
    HexDigitIs(high);
    HexDigitIs(low);
    assert s[2..4] == "00" && s[6..] == rest && s[4] == HEX[high] && s[5] == HEX[low];
  }

  lemma HexDigitIs(k: nat)
    requires k < |HEX|
    ensures HexDigit(HEX[k]) == Some(k)
  {
    assert HEX[0] == '0' && HEX[1] == '1' && HEX[2] == '2' && HEX[3] == '3';
    assert HEX[4] == '4' && HEX[5] == '5' && HEX[6] == '6' && HEX[7] == '7';
    assert HEX[8] == '8' && HEX[9] == '9' && HEX[10] == 'a' && HEX[11] == 'b';
    assert HEX[12] == 'c' && HEX[13] == 'd' && HEX[14] == 'e' && HEX[15] == 'f';
  }

  lemma EscapedIsNoQuote(c: char)
    ensures EscapeChar(c) != "" && EscapeChar(c)[0] != '"'
  {
  }

  lemma EscapedFirst(s: string, rest: string)
    requires s != ""
    ensures EscapeText(s) + "\"" + rest == EscapeChar(s[0]) + (EscapeText(s[1..]) + "\"" + rest)
  {
  }

  lemma OneMoreChar(c: char, s: string, rest: string)
    requires s != "" && s[0] != '"'
    requires ReadChar(s) == Some((c, rest)) && ReadText(rest).Some?
    ensures ReadText(s) == Some(([c] + ReadText(rest).value.0, ReadText(rest).value.1))
  {
  }

  lemma {:induction false} ReadEscapedText(s: string, rest: string)
    ensures ReadText(EscapeText(s) + "\"" + rest) == Some((s, rest))
    decreases s
  {
    if s == "" {
      assert (EscapeText(s) + "\"" + rest)[1..] == rest;
    } else {
      var later := EscapeText(s[1..]) + "\"" + rest;
      EscapedFirst(s, rest);
      EscapedIsNoQuote(s[0]);
      ReadEscapedChar(s[0], later);
      ReadEscapedText(s[1..], rest);
      OneMoreChar(s[0], EscapeChar(s[0]) + later, later);
      assert s == [s[0]] + s[1..];
    }
  }

  lemma ReadQuoted(s: string, rest: string)
    ensures Quote(s) + rest != "" && (Quote(s) + rest)[0] == '"'
    ensures ReadText((Quote(s) + rest)[1..]) == Some((s, rest))
  {
    assert (Quote(s) + rest)[1..] == EscapeText(s) + "\"" + rest;
    ReadEscapedText(s, rest);
  }

  /** Nothing that could prolong a number follows. */
  predicate Ends(rest: string) {
    rest == "" || !IsNumberChar(rest[0])
  }

  lemma ReadNumberText(text: NumberText, rest: string)
    requires Ends(rest)
    ensures ReadNumber(text + rest) == Some((text, rest))
    ensures ReadValue(text + rest) == Some((Number(text), rest))
  {
    var s := text + rest;
    forall i | 0 <= i < |text| ensures IsNumberChar(s[i]) {
      assert s[i] in text;
    }
    assert s[..|text|] == text && s[|text|..] == rest;
    assert IsNumberChar(s[0]) && s[0] !in "ntf\"[{";
  }

  lemma ReadWordIs(word: string, v: Value, rest: string)
    requires word != ""
    ensures ReadWord(word + rest, word, v) == Some((v, rest))
  {
    assert word <= word + rest && (word + rest)[|word|..] == rest;
  }

  lemma NumberStartsWithNumberChar(text: NumberText, rest: string)
    ensures text + rest != "" && IsNumberChar((text + rest)[0])
  {
    assert text[0] in text;
  }

  /** The first character of a serialised value, which tells its kind. */
  lemma FirstChar(v: Value, rest: string)
    ensures Serialize(v) + rest != ""
    ensures (Serialize(v) + rest)[0] != ']' && (Serialize(v) + rest)[0] != '}'
  {
    if v.Number? {
      NumberStartsWithNumberChar(v.text, rest);
    }
  }

  /** Round trip: whatever stands behind it, a serialised value is read back as it was. */
  lemma {:induction false} ReadUndoesSerialize(v: Value, rest: string)
    requires Ends(rest)
    ensures ReadValue(Serialize(v) + rest) == Some((v, rest))
    decreases v, 1
  {
    match v
    case Null => ReadWordIs("null", Null, rest);
    case Bool(b) => ReadWordIs(Serialize(v), v, rest);
    case Number(text) => ReadNumberText(text, rest);
    case String(text) => ReadQuoted(text, rest);
    case Array(items) => ReadArray(items, rest);
    case Object(members) => ReadObject(members, rest);
  }

  /** What stands behind the first of several items or members. */
  function Behind(last: bool, tail: string, close: char, rest: string): string {
    if last then [close] + rest else "," + (tail + [close] + rest)
  }

  lemma BehindFirst(head: string, last: bool, tail: string, close: char, rest: string)
    requires close == ']' || close == '}'
    ensures var behind := Behind(last, tail, close, rest);
            && (if last then head else head + "," + tail) + [close] + rest == head + behind
            && Ends(behind) && behind != ""
            && (last ==> behind[0] == close && behind[1..] == rest)
            && (!last ==> behind[0] == ',' && behind[1..] == tail + [close] + rest)
  {
    if !last {
      assert head + "," + tail + [close] + rest == head + ("," + (tail + [close] + rest));
    } else {
      assert head + [close] + rest == head + ([close] + rest);
    }
  }

  lemma SplitFirst<T>(s: seq<T>)
    requires s != []
    ensures s == [s[0]] + s[1..] && (|s| == 1 ==> s == [s[0]])
  {
  }

  lemma {:induction false} ItemsAreRead(items: seq<Value>, rest: string)
    requires items != []
    ensures ReadItems(SerializeItems(items) + "]" + rest) == Some((items, rest))
    ensures (SerializeItems(items) + "]" + rest)[0] != ']'
    decreases items, 1
  {
    var head, tail := Serialize(items[0]), SerializeItems(items[1..]);
    var behind := Behind(|items| == 1, tail, ']', rest);
    SplitFirst(items);
    BehindFirst(head, |items| == 1, tail, ']', rest);
    ReadUndoesSerialize(items[0], behind);
    FirstChar(items[0], behind);
    if |items| > 1 {
      ItemsAreRead(items[1..], rest);
    }
  }

  lemma {:induction false} ReadArray(items: seq<Value>, rest: string)
    ensures ReadValue(Serialize(Array(items)) + rest) == Some((Array(items), rest))
    decreases items, 2
  {
    var body := SerializeItems(items) + "]" + rest;
    var s := "[" + body;
    assert Serialize(Array(items)) + rest == s && s[1..] == body;
    if items == [] {
      assert body == "]" + rest && s[2..] == rest;
    } else {
      ItemsAreRead(items, rest);
      assert s[1] == body[0];
    }
  }

  /** What stands behind a key. */
  function BehindKey(v: Value, rest: string): string {
    ":" + (Serialize(v) + rest)
  }

  lemma MemberParts(m: Member, rest: string)
    ensures SerializeMember(m) + rest == Quote(m.key) + BehindKey(m.value, rest)
  {
    ThreeParts(Quote(m.key), ":", Serialize(m.value), rest);
  }

  lemma ThreeParts(a: string, b: string, c: string, rest: string)
    ensures a + b + c + rest == a + (b + (c + rest))
  {
  }

  lemma ColonFirst(v: Value, rest: string)
    ensures BehindKey(v, rest) != "" && BehindKey(v, rest)[0] == ':' && BehindKey(v, rest)[1..] == Serialize(v) + rest
  {
  }

  lemma {:induction false} MemberIsRead(m: Member, rest: string)
    requires Ends(rest)
    ensures ReadMember(SerializeMember(m) + rest) == Some((m, rest))
    ensures (SerializeMember(m) + rest)[0] == '"'
    decreases m, 2
  {
    MemberParts(m, rest);
    ReadQuoted(m.key, BehindKey(m.value, rest));
    ColonFirst(m.value, rest);
    ReadUndoesSerialize(m.value, rest);
  }

  lemma {:induction false} MembersAreRead(members: seq<Member>, rest: string)
    requires members != []
    ensures ReadMembers(SerializeMembers(members) + "}" + rest) == Some((members, rest))
    ensures (SerializeMembers(members) + "}" + rest)[0] == '"'
    decreases members, 1
  {
    var head, tail := SerializeMember(members[0]), SerializeMembers(members[1..]);
    var behind := Behind(|members| == 1, tail, '}', rest);
    SplitFirst(members);
    BehindFirst(head, |members| == 1, tail, '}', rest);
    MemberIsRead(members[0], behind);
    if |members| > 1 {
      MembersAreRead(members[1..], rest);
    }
  }

  lemma {:induction false} ReadObject(members: seq<Member>, rest: string)
    ensures ReadValue(Serialize(Object(members)) + rest) == Some((Object(members), rest))
    decreases members, 2
  {
    var body := SerializeMembers(members) + "}" + rest;
    var s := "{" + body;
    assert Serialize(Object(members)) + rest == s && s[1..] == body;
    if members == [] {
      assert body == "}" + rest && s[2..] == rest;
    } else {
      MembersAreRead(members, rest);
      assert s[1] == body[0];
    }
  }

  /** A document is read back as the value it was made from, so no two values share a document. */
  lemma DocumentIsReadBack(v: Value)
    ensures ReadDocument(Serialize(v)) == Some(v)
  {
    assert Serialize(v) + "" == Serialize(v);
    ReadUndoesSerialize(v, "");
  }

  // ------------------------------------------------------------------ members

  /** `at(key)`; None where it throws. */
  function At(v: Value, key: string): Option<Value> {
    if !v.Object? then None
    else
      var k := FirstWhere(v.members, (m: Member) => m.key == key);
      if k < |v.members| then Some(v.members[k].value) else None
  }

  /** The text at the end of a path of members. */
  function TextAt(v: Value, path: seq<string>): Option<string>
    decreases path
  {
    if path == [] then (if v.String? then Some(v.s) else None)
    else match At(v, path[0])
      case None => None
      case Some(inner) => TextAt(inner, path[1..])
  }

  /** How the target of a finished document reads. */
  function TargetIn(doc: string): Option<string> {
    match ReadDocument(doc)
    case None => None
    case Some(v) => TextAt(v, ["target"])
  }

  /** The member with a key, when no earlier one has it. */
  lemma AtIs(members: seq<Member>, k: nat, key: string)
    requires k < |members| && members[k].key == key && forall i :: 0 <= i < k ==> members[i].key != key
    ensures At(Object(members), key) == Some(members[k].value)
  {
    assert members[k].key == key;
  }

  lemma PathStep(v: Value, key: string, path: seq<string>)
    ensures TextAt(v, [key] + path) == match At(v, key) case None => None case Some(inner) => TextAt(inner, path)
  {
    assert ([key] + path)[0] == key && ([key] + path)[1..] == path;
  }

  /** A text member of an object. */
  lemma TextIs(members: seq<Member>, k: nat, key: string, text: string)
    requires k < |members| && members[k] == Member(key, String(text))
    requires forall i :: 0 <= i < k ==> members[i].key != key
    ensures TextAt(Object(members), [key]) == Some(text)
  {
    AtIs(members, k, key);
    PathStep(Object(members), key, []);
    assert [key] + [] == [key];
  }

  /** A member of an inner object. */
  lemma InnerPath(members: seq<Member>, k: nat, key: string, path: seq<string>)
    requires k < |members| && members[k].key == key && forall i :: 0 <= i < k ==> members[i].key != key
    ensures TextAt(Object(members), [key] + path) == TextAt(members[k].value, path)
  {
    AtIs(members, k, key);
    PathStep(Object(members), key, path);
  }
}
