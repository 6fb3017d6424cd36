/** Small shared vocabulary: optional values and the string operations that several services use. */
module Common {

  datatype Option<+T> = None | Some(value: T)

  predicate Distinct<T(==)>(s: seq<T>) {
    forall i, j :: 0 <= i < j < |s| ==> s[i] != s[j]
  }

  /** The least index at which the test holds; the length where there is none. */
  function FirstWhere<T>(s: seq<T>, test: T -> bool): (k: nat)
    ensures k <= |s|
    ensures k < |s| ==> test(s[k])
    ensures forall i :: 0 <= i < k ==> !test(s[i])
  {
    if s == [] || test(s[0]) then 0 else 1 + FirstWhere(s[1..], test)
  }

  /** Ids are compared in their serialised form: with the quotes of a JSON string around them. */
  function QuotedId(id: string): string {
    "\"" + id + "\""
  }

  /** `text` occurs in `s` starting at `i`. */
  predicate OccursAt(s: string, text: string, i: nat) {
    i + |text| <= |s| && s[i..i + |text|] == text
  }

  predicate Occurs(s: string, text: string) {
    exists i: nat :: i <= |s| && OccursAt(s, text, i)
  }

  /** `std::string::find(text, from)`: the least position at or after `from`, None for npos. */
  function FindFrom(s: string, text: string, from: nat): (r: Option<nat>)
    ensures r.Some? ==> from <= r.value <= |s| && OccursAt(s, text, r.value)
    ensures r.Some? ==> forall i: nat :: from <= i < r.value ==> !OccursAt(s, text, i)
    ensures r.None? ==> forall i: nat :: from <= i ==> !OccursAt(s, text, i)
    decreases |s| + 1 - from
  {
    if from > |s| then None
    else if OccursAt(s, text, from) then Some(from)
    else FindFrom(s, text, from + 1)
  }

  /** `remove_copy(..., '"')`: the text without its quote characters. */
  function Unquote(s: string): (r: string)
    ensures '"' !in r
    ensures '"' !in s ==> r == s
  {
    if s == "" then ""
    else if s[0] == '"' then Unquote(s[1..])
    else [s[0]] + Unquote(s[1..])
  }

  /** Exactly the quote characters go; every other one stays where it is. */
  lemma UnquoteOne(c: char)
    ensures Unquote([c]) == if c == '"' then "" else [c]
  {
    assert [c][1..] == "";
  }

  lemma {:induction false} UnquoteConcat(a: string, b: string)
    ensures Unquote(a + b) == Unquote(a) + Unquote(b)
  {
    if a == "" {
      assert a + b == b;
    } else {
      assert (a + b)[0] == a[0] && (a + b)[1..] == a[1..] + b;
      UnquoteConcat(a[1..], b);
    }
  }

  // ------------------------------------------------------------------ splitting at a character

  /** The parts between the separators; a text without one is a single part. */
  function Split(s: string, sep: char): (parts: seq<string>)
    ensures parts != []
    decreases s
  {
    if s == "" then [""]
    else
      var rest := Split(s[1..], sep);
      if s[0] == sep then [""] + rest else [[s[0]] + rest[0]] + rest[1..]
  }

  function Join(parts: seq<string>, sep: string): string
    requires parts != []
  {
    if |parts| == 1 then parts[0] else parts[0] + sep + Join(parts[1..], sep)
  }

  lemma JoinMore(first: string, parts: seq<string>, sep: string)
    requires parts != []
    ensures Join([first] + parts, sep) == first + sep + Join(parts, sep)
  {
    assert ([first] + parts)[1..] == parts;
  }

  predicate FreeOf(parts: seq<string>, sep: char) {
    forall i :: 0 <= i < |parts| ==> sep !in parts[i]
  }

  lemma JoinLonger(c: char, parts: seq<string>, sep: char)
    requires parts != []
    ensures Join([[c] + parts[0]] + parts[1..], [sep]) == [c] + Join(parts, [sep])
  {
    var longer := [[c] + parts[0]] + parts[1..];
    assert longer[1..] == parts[1..];
    if |parts| > 1 {
      assert [c] + parts[0] + [sep] + Join(parts[1..], [sep]) == [c] + (parts[0] + [sep] + Join(parts[1..], [sep]));
    }
  }

  lemma JoinEmptyFirst(parts: seq<string>, sep: char)
    requires parts != []
    ensures Join([""] + parts, [sep]) == [sep] + Join(parts, [sep])
  {
    assert ([""] + parts)[1..] == parts;
    assert "" + [sep] + Join(parts, [sep]) == [sep] + Join(parts, [sep]);
  }

  /** The parts hold no separator and join back to the text. */
  lemma {:induction false} SplitJoins(s: string, sep: char)
    ensures FreeOf(Split(s, sep), sep) && Join(Split(s, sep), [sep]) == s
    decreases s
  {
    if s != "" {
      SplitJoins(s[1..], sep);
      var rest := Split(s[1..], sep);
      assert Join(Split(s, sep), [sep]) == [s[0]] + s[1..] by {
        if s[0] == sep { JoinEmptyFirst(rest, sep); } else { JoinLonger(s[0], rest, sep); }
      }
      assert s == [s[0]] + s[1..];
    }
  }

  /** Cutting at the first separator splits off the first part. */
  lemma {:induction false} SplitAtFirst(s: string, sep: char, k: nat)
    requires k < |s| && s[k] == sep && forall i :: 0 <= i < k ==> s[i] != sep
    ensures Split(s, sep) == [s[..k]] + Split(s[k + 1..], sep)
    decreases s
  {
    if k > 0 {
      SplitAtFirst(s[1..], sep, k - 1);
      assert s[1..][..k - 1] == s[1..k] && s[1..][k..] == s[k + 1..];
      assert s[..k] == [s[0]] + s[1..k];
    }
  }

  lemma {:induction false} SplitWithout(s: string, sep: char)
    requires sep !in s
    ensures Split(s, sep) == [s]
    decreases s
  {
    if s != "" {
      SplitWithout(s[1..], sep);
      assert s == [s[0]] + s[1..];
    }
  }

  function Unquoted(parts: seq<string>): (r: seq<string>)
    ensures |r| == |parts|
  {
    seq(|parts|, i requires 0 <= i < |parts| => Unquote(parts[i]))
  }

  lemma UnquotedFirst(first: string, rest: seq<string>)
    ensures Unquoted([first] + rest) == [Unquote(first)] + Unquoted(rest)
  {
  }

  /** A character in front of the first part. */
  lemma UnquotedLonger(c: char, rest: seq<string>)
    requires rest != []
    ensures Unquoted([[c] + rest[0]] + rest[1..]) == [Unquote([c]) + Unquote(rest[0])] + Unquoted(rest[1..])
    ensures Unquoted(rest) == [Unquote(rest[0])] + Unquoted(rest[1..])
  {
    UnquoteConcat([c], rest[0]);
    UnquotedFirst([c] + rest[0], rest[1..]);
    UnquotedFirst(rest[0], rest[1..]);
    assert rest == [rest[0]] + rest[1..];
  }

  /** Taking the quotes out of a text and out of its parts comes to the same. */
  lemma {:induction false} SplitUnquotes(s: string, sep: char)
    requires sep != '"'
    ensures Split(Unquote(s), sep) == Unquoted(Split(s, sep))
    decreases s
  {
    if s != "" {
      var rest := Split(s[1..], sep);
      SplitUnquotes(s[1..], sep);
      if s[0] == sep {
        UnquotedFirst("", rest);
        SplitOneMore(s[0], Unquote(s[1..]), sep);
      } else {
        UnquoteOne(s[0]);
        UnquotedLonger(s[0], rest);
        if s[0] != '"' {
          SplitOneMore(s[0], Unquote(s[1..]), sep);
        }
      }
    }
  }

  lemma SplitOneMore(c: char, s: string, sep: char)
    ensures Split([c] + s, sep)
         == var rest := Split(s, sep); if c == sep then [""] + rest else [[c] + rest[0]] + rest[1..]
  {
    assert ([c] + s)[1..] == s;
  }

  /** There is only one way to write a text as separator-free parts. */
  lemma {:induction false} SplitIsUnique(parts: seq<string>, sep: char)
    requires parts != [] && FreeOf(parts, sep)
    ensures Split(Join(parts, [sep]), sep) == parts
    decreases parts
  {
    if |parts| == 1 {
      SplitWithout(parts[0], sep);
    } else {
      var s := Join(parts, [sep]);
      assert s == parts[0] + [sep] + Join(parts[1..], [sep]);
      var k := |parts[0]|;
      assert s[..k] == parts[0] && s[k] == sep && s[k + 1..] == Join(parts[1..], [sep]);
      SplitAtFirst(s, sep, k);
      assert FreeOf(parts[1..], sep);
      SplitIsUnique(parts[1..], sep);
    }
  }

  // ------------------------------------------------------------------ numbers as text

  function Digit(d: nat): char
    requires d < 10
  {
    ('0' as int + d) as char
  }

  function Digits(n: nat): (s: string)
    ensures s != "" && forall i :: 0 <= i < |s| ==> '0' <= s[i] <= '9'
  {
    if n < 10 then [Digit(n)] else Digits(n / 10) + [Digit(n % 10)]
  }

  /** `to_string` of a whole number. */
  function Decimal(n: int): string {
    if n < 0 then "-" + Digits(-n) else Digits(n)
  }

  /** The number that a run of digits stands for. */
  function ValueOf(s: string): nat
    requires forall i :: 0 <= i < |s| ==> '0' <= s[i] <= '9'
  {
    if s == "" then 0 else 10 * ValueOf(s[..|s| - 1]) + (s[|s| - 1] as int - '0' as int)
  }

  /** A 32-bit `int`, as `stoi` gives it. */
  predicate FitsInt(n: int) {
    -0x8000_0000 <= n < 0x8000_0000
  }

  /** The number at the start of a text; None without a digit. */
  function LeadingNumber(s: string): Option<nat> {
    var k := FirstWhere(s, c => !('0' <= c <= '9'));
    if k == 0 then None else Some(ValueOf(s[..k]))
  }

  predicate IsBlank(c: char) {
    c == ' ' || 9 <= c as int <= 13
  }

  /** `stoi`: leading blanks, a sign, and as many digits as there are, whatever follows; None where it
      throws, for no digits or too large a number. */
  function Stoi(s: string): Option<int> {
    StoiHere(s[FirstWhere(s, c => !IsBlank(c))..])
  }

  function StoiHere(s: string): Option<int> {
    if s != "" && s[0] == '-' then Signed(true, LeadingNumber(s[1..]))
    else if s != "" && s[0] == '+' then Signed(false, LeadingNumber(s[1..]))
    else Signed(false, LeadingNumber(s))
  }

  function Signed(negative: bool, size: Option<nat>): Option<int> {
    match size
    case None => None
    case Some(n) =>
      var signed := if negative then -(n as int) else n;
      if FitsInt(signed) then Some(signed) else None
  }

  lemma {:induction false} DigitsAreRead(n: nat)
    ensures ValueOf(Digits(n)) == n
    decreases n
  {
    var s := Digits(n);
    if n < 10 {
      assert s[..|s| - 1] == "";
    } else {
      DigitsAreRead(n / 10);
      assert s[..|s| - 1] == Digits(n / 10);
    }
  }

  predicate AreDigits(s: string) {
    s != "" && forall i :: 0 <= i < |s| ==> '0' <= s[i] <= '9'
  }

  lemma NothingToSkip(s: string)
    requires s != "" && !IsBlank(s[0])
    ensures Stoi(s) == StoiHere(s)
  {
    assert s[0..] == s;
  }

  lemma StoiOfDigits(digits: string)
    requires AreDigits(digits)
    ensures Stoi(digits) == Signed(false, Some(ValueOf(digits)))
  {
    NumberOfDigits(digits);
    assert '0' <= digits[0] <= '9';
    NothingToSkip(digits);
  }

  lemma StoiOfNegative(digits: string)
    requires AreDigits(digits)
    ensures Stoi("-" + digits) == Signed(true, Some(ValueOf(digits)))
  {
    NumberOfDigits(digits);
    var s := "-" + digits;
    assert s[0] == '-' && s[1..] == digits;
    NothingToSkip(s);
    assert StoiHere(s) == Signed(true, LeadingNumber(digits));
  }

  lemma NumberOfDigits(digits: string)
    requires AreDigits(digits)
    ensures LeadingNumber(digits) == Some(ValueOf(digits))
  {
    assert digits[..|digits|] == digits;
  }

  lemma WrittenDigits(n: nat)
    ensures AreDigits(Digits(n)) && ValueOf(Digits(n)) == n
  {
    DigitsAreRead(n);
  }

  /** A number that is written and read comes back, if it is an `int`. */
  lemma DecimalIsRead(n: int)
    ensures Stoi(Decimal(n)) == if FitsInt(n) then Some(n) else None
  {
    if n < 0 {
      var size: nat := -n;
      WrittenDigits(size);
      StoiOfNegative(Digits(size));
      assert Decimal(n) == "-" + Digits(size);
    } else {
      WrittenDigits(n);
      StoiOfDigits(Digits(n));
    }
  }
}
