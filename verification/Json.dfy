/** JSON values, their compact serialisation (RFC 8259, sections 4 to 7) and the small automaton
    that tells where one serialised object ends inside a longer stream.

    One `char` stands for one byte of the serialised text. */
module Json {

  /** The text of a number token: only bytes that have no structural meaning. */
  predicate IsNumberText(s: string) {
    s != "" && forall c :: c in s ==> c in "+-.0123456789Ee"
  }

  type NumberText = s: string | IsNumberText(s) witness "0"

  datatype Member = Member(key: string, value: Value)

  datatype Value =
    | Null
    | Bool(b: bool)
    | Number(text: NumberText)
    | String(s: string)
    | Array(items: seq<Value>)
    | Object(members: seq<Member>)

  // ------------------------------------------------------------------ serialisation

  const HEX := "0123456789abcdef"

  function EscapeChar(c: char): string {
    if c == '"' then "\\\""
    else if c == '\\' then "\\\\"
    else if c as int == 8 then "\\b"
    else if c as int == 12 then "\\f"
    else if c == '\n' then "\\n"
    else if c == '\r' then "\\r"
    else if c == '\t' then "\\t"
    else if c < ' ' then "\\u00" + [HEX[c as int / 16], HEX[c as int % 16]]
    else [c]
  }

  function EscapeText(s: string): string {
    if s == "" then "" else EscapeChar(s[0]) + EscapeText(s[1..])
  }

  function Quote(s: string): string {
    "\"" + EscapeText(s) + "\""
  }

  function Serialize(v: Value): string
    decreases v, 1
  {
    match v
    case Null => "null"
    case Bool(b) => if b then "true" else "false"
    case Number(text) => text
    case String(s) => Quote(s)
    case Array(items) => "[" + SerializeItems(items) + "]"
    case Object(members) => "{" + SerializeMembers(members) + "}"
  }

  function SerializeItems(items: seq<Value>): string
    decreases items, 0
  {
    if items == [] then ""
    else if |items| == 1 then Serialize(items[0])
    else Serialize(items[0]) + "," + SerializeItems(items[1..])
  }

  function SerializeMember(m: Member): string
    decreases m, 2
  {
    Quote(m.key) + ":" + Serialize(m.value)
  }

  function SerializeMembers(members: seq<Member>): string
    decreases members, 0
  {
    if members == [] then ""
    else if |members| == 1 then SerializeMember(members[0])
    else SerializeMember(members[0]) + "," + SerializeMembers(members[1..])
  }

  /** A string of which no character needs an escape (RFC 8259, section 7). */
  predicate NeedsNoEscape(s: string) {
    forall i :: 0 <= i < |s| ==> s[i] != '"' && s[i] != '\\' && s[i] >= ' '
  }

  /** Quoting an escape-free string only adds the two quotes. */
  lemma {:induction false} QuoteOfPlainText(s: string)
    requires NeedsNoEscape(s)
    ensures Quote(s) == "\"" + s + "\""
  {
    EscapeOfPlainText(s);
  }

  lemma {:induction false} EscapeOfPlainText(s: string)
    requires NeedsNoEscape(s)
    ensures EscapeText(s) == s
  {
    if s != "" {
      EscapeOfPlainText(s[1..]);
      assert s == [s[0]] + s[1..];
    }
  }

  lemma QuoteIsInjective(a: string, b: string)
    requires NeedsNoEscape(a) && NeedsNoEscape(b) && Quote(a) == Quote(b)
    ensures a == b
  {
    QuoteOfPlainText(a);
    QuoteOfPlainText(b);
    assert ("\"" + a + "\"")[1..|a| + 1] == a;
    assert ("\"" + b + "\"")[1..|b| + 1] == b;
  }

  // ------------------------------------------------------------------ the boundary automaton

  datatype Mode = Plain | InString | AfterBackslash

  /** Where the scan stands: before the opening brace, inside `depth` open brackets, just after the
      closing brace, or past a byte that cannot belong to one object. */
  datatype Scan = Fresh | Inside(depth: nat, mode: Mode) | Done | Broken

  function Step(s: Scan, c: char): Scan {
    match s
    case Fresh => if c == '{' then Inside(1, Plain) else Broken
    case Inside(d, Plain) =>
      if c == '"' then Inside(d, InString)
      else if c == '{' || c == '[' then Inside(d + 1, Plain)
      else if c == '}' || c == ']' then (if d <= 1 then Done else Inside(d - 1, Plain))
      else s
    case Inside(d, InString) =>
      if c == '\\' then Inside(d, AfterBackslash)
      else if c == '"' then Inside(d, Plain)
      else s
    case Inside(d, AfterBackslash) => Inside(d, InString)
    case Done => Broken
    case Broken => Broken
  }

  function ScanAll(s: Scan, text: string): Scan
    decreases text
  {
    if text == "" then s else ScanAll(Step(s, text[0]), text[1..])
  }

  /** A text that the automaton accepts as one whole object, not ending any earlier. */
  predicate IsDocument(text: string) {
    ScanAll(Fresh, text) == Done
  }

  lemma {:induction false} ScanConcat(s: Scan, a: string, b: string)
    ensures ScanAll(s, a + b) == ScanAll(ScanAll(s, a), b)
    decreases a
  {
    if a == "" {
      assert a + b == b;
    } else {
      assert (a + b)[0] == a[0] && (a + b)[1..] == a[1..] + b;
      ScanConcat(Step(s, a[0]), a[1..], b);
    }
  }

  lemma ScanConcat3(s: Scan, a: string, b: string, c: string)
    ensures ScanAll(s, a + b + c) == ScanAll(ScanAll(ScanAll(s, a), b), c)
  {
    ScanConcat(s, a + b, c);
    ScanConcat(s, a, b);
  }

  lemma {:induction false} BrokenStaysBroken(text: string)
    ensures ScanAll(Broken, text) == Broken
  {
    if text != "" {
      BrokenStaysBroken(text[1..]);
    }
  }

  /** No proper prefix of a document is itself a document: the end of an object is recognised only
      at its closing brace. */
  lemma DocumentsArePrefixFree(doc: string, n: nat)
    requires IsDocument(doc) && n < |doc|
    ensures !IsDocument(doc[..n])
  {
    assert doc == doc[..n] + doc[n..];
    ScanConcat(Fresh, doc[..n], doc[n..]);
    if IsDocument(doc[..n]) {
      BrokenStaysBroken(doc[n..][1..]);
    }
  }

  // ------------------------------------------------------------------ serialised objects are documents

  lemma ScanEscape(d: nat, c: char)
    ensures ScanAll(Inside(d, InString), EscapeChar(c)) == Inside(d, InString)
  {
    var e := EscapeChar(c);
    var s := Inside(d, InString);
    if |e| == 1 {
      ScanOne(s, c);
    } else {
      assert e == e[..2] + e[2..];
      ScanConcat(s, e[..2], e[2..]);
      ScanTwo(s, e[0], e[1]);
      assert e[..2] == [e[0], e[1]];
      ScanInert(s, e[2..]);
    }
  }

  /** A text whose bytes all leave a scan state alone leaves it alone as a whole. */
  lemma {:induction false} ScanInert(s: Scan, text: string)
    requires forall k :: 0 <= k < |text| ==> Step(s, text[k]) == s
    ensures ScanAll(s, text) == s
  {
    if text != "" {
      ScanInert(s, text[1..]);
    }
  }

  lemma {:induction false} ScanEscapedText(d: nat, s: string)
    ensures ScanAll(Inside(d, InString), EscapeText(s)) == Inside(d, InString)
  {
    if s != "" {
      ScanConcat(Inside(d, InString), EscapeChar(s[0]), EscapeText(s[1..]));
      ScanEscape(d, s[0]);
      ScanEscapedText(d, s[1..]);
    }
  }

  lemma ScanQuote(d: nat, s: string)
    requires d >= 1
    ensures ScanAll(Inside(d, Plain), Quote(s)) == Inside(d, Plain)
  {
    ScanConcat3(Inside(d, Plain), "\"", EscapeText(s), "\"");
    ScanOne(Inside(d, Plain), '"');
    ScanEscapedText(d, s);
    ScanOne(Inside(d, InString), '"');
  }

  lemma ScanTwo(s: Scan, b: char, c: char)
    ensures ScanAll(s, [b, c]) == Step(Step(s, b), c)
  {
    ScanOne(Step(s, b), c);
    assert [b, c][1..] == [c];
  }

  lemma ScanOne(s: Scan, c: char)
    ensures ScanAll(s, [c]) == Step(s, c)
  {
    assert [c][1..] == "";
  }

  /** Scanning any serialised value inside an object comes back to the same depth. */
  lemma {:induction false} ScanValue(d: nat, v: Value)
    requires d >= 1
    ensures ScanAll(Inside(d, Plain), Serialize(v)) == Inside(d, Plain)
    decreases v, 1
  {
    var s := Inside(d, Plain);
    match v
    case Null => ScanInert(s, "null");
    case Bool(b) => ScanInert(s, Serialize(v));
    case Number(text) => ScanNumber(d, text);
    case String(t) => ScanQuote(d, t);
    case Array(items) =>
      ScanItems(d + 1, items);
      ScanBracketed(d, '[', SerializeItems(items), ']');
    case Object(members) =>
      ScanMembers(d + 1, members);
      ScanBracketed(d, '{', SerializeMembers(members), '}');
  }

  lemma ScanNumber(d: nat, text: NumberText)
    ensures ScanAll(Inside(d, Plain), text) == Inside(d, Plain)
  {
    forall k | 0 <= k < |text| ensures Step(Inside(d, Plain), text[k]) == Inside(d, Plain) {
      assert text[k] in text;
    }
    ScanInert(Inside(d, Plain), text);
  }

  lemma ScanBracketed(d: nat, open: char, body: string, close: char)
    requires d >= 1 && open in "[{" && close in "]}"
    requires ScanAll(Inside(d + 1, Plain), body) == Inside(d + 1, Plain)
    ensures ScanAll(Inside(d, Plain), [open] + body + [close]) == Inside(d, Plain)
  {
    ScanConcat3(Inside(d, Plain), [open], body, [close]);
    ScanOne(Inside(d, Plain), open);
    ScanOne(Inside(d + 1, Plain), close);
  }

  lemma {:induction false} ScanItems(d: nat, items: seq<Value>)
    requires d >= 1
    ensures ScanAll(Inside(d, Plain), SerializeItems(items)) == Inside(d, Plain)
    decreases items, 0
  {
    if items != [] {
      ScanValue(d, items[0]);
      if |items| > 1 {
        ScanConcat3(Inside(d, Plain), Serialize(items[0]), ",", SerializeItems(items[1..]));
        ScanOne(Inside(d, Plain), ',');
        ScanItems(d, items[1..]);
      }
    }
  }

  lemma {:induction false} ScanMember(d: nat, m: Member)
    requires d >= 1
    ensures ScanAll(Inside(d, Plain), SerializeMember(m)) == Inside(d, Plain)
    decreases m, 2
  {
    ScanConcat3(Inside(d, Plain), Quote(m.key), ":", Serialize(m.value));
    ScanQuote(d, m.key);
    ScanOne(Inside(d, Plain), ':');
    ScanValue(d, m.value);
  }

  lemma {:induction false} ScanMembers(d: nat, members: seq<Member>)
    requires d >= 1
    ensures ScanAll(Inside(d, Plain), SerializeMembers(members)) == Inside(d, Plain)
    decreases members, 0
  {
    if members != [] {
      ScanMember(d, members[0]);
      if |members| > 1 {
        ScanConcat3(Inside(d, Plain), SerializeMember(members[0]), ",", SerializeMembers(members[1..]));
        ScanOne(Inside(d, Plain), ',');
        ScanMembers(d, members[1..]);
      }
    }
  }

  /** Every serialised object is a document, whatever its nesting and whatever its strings hold. */
  lemma SerializedObjectIsDocument(v: Value)
    requires v.Object?
    ensures IsDocument(Serialize(v))
  {
    ScanConcat3(Fresh, "{", SerializeMembers(v.members), "}");
    ScanOne(Fresh, '{');
    ScanMembers(1, v.members);
    ScanOne(Inside(1, Plain), '}');
  }

  // ------------------------------------------------------------------ no NUL byte is ever serialised

  predicate NulFree(s: string) {
    '\0' !in s
  }

  lemma EscapedCharHasNoNul(c: char)
    ensures NulFree(EscapeChar(c))
  {
    assert forall i :: 0 <= i < |HEX| ==> HEX[i] != '\0';
  }

  lemma {:induction false} EscapedTextHasNoNul(s: string)
    ensures NulFree(EscapeText(s))
  {
    if s != "" {
      EscapedCharHasNoNul(s[0]);
      EscapedTextHasNoNul(s[1..]);
    }
  }

  /** A serialised value holds no NUL byte, so a C string of it is never cut short. */
  lemma {:induction false} SerializedHasNoNul(v: Value)
    ensures NulFree(Serialize(v))
    decreases v, 1
  {
    match v
    case Null =>
    case Bool(b) =>
    case Number(text) =>
    case String(s) => EscapedTextHasNoNul(s);
    case Array(items) => ItemsHaveNoNul(items);
    case Object(members) => MembersHaveNoNul(members);
  }

  lemma {:induction false} ItemsHaveNoNul(items: seq<Value>)
    ensures NulFree(SerializeItems(items))
    decreases items, 0
  {
    if items != [] {
      SerializedHasNoNul(items[0]);
      if |items| > 1 {
        ItemsHaveNoNul(items[1..]);
      }
    }
  }

  lemma {:induction false} MembersHaveNoNul(members: seq<Member>)
    ensures NulFree(SerializeMembers(members))
    decreases members, 0
  {
    if members != [] {
      EscapedTextHasNoNul(members[0].key);
      SerializedHasNoNul(members[0].value);
      if |members| > 1 {
        MembersHaveNoNul(members[1..]);
      }
    }
  }
}
