/** Reading a configuration file of `key:value` lines. */
module ConfigFile {
  import opened Common

  // ------------------------------------------------------------------ one line

  /** Position of the first such character; None for npos. */
  function FindChar(s: string, c: char): (r: Option<nat>)
    ensures r.Some? ==> r.value < |s| && s[r.value] == c && forall i :: 0 <= i < r.value ==> s[i] != c
    ensures r.None? <==> c !in s
  {
    var k := FirstWhere(s, x => x == c);
    if k < |s| then Some(k) else None
  }

  /** What stays after the first carriage return, if any, is taken out. */
  function WithoutReturn(s: string): string {
    match FindChar(s, '\r')
    case Some(k) => s[..k] + s[k + 1..]
    case None => s
  }

  /** Key and value of a line. Without a colon the position is npos, and npos + 1 wraps to 0: nothing is
      erased, and the whole line is both key and value. */
  function ParseLine(line: string): (string, string) {
    match FindChar(line, ':')
    case Some(k) => (line[..k], WithoutReturn(line[k + 1..]))
    case None => (line, WithoutReturn(line))
  }

  // ------------------------------------------------------------------ the whole file

  /** `map::insert`: an existing key keeps its value. */
  function Insert(config: map<string, string>, key: string, value: string): map<string, string> {
    if key in config then config else config[key := value]
  }

  function ReadLines(config: map<string, string>, lines: seq<string>): map<string, string>
    decreases lines
  {
    if lines == [] then config
    else
      var (key, value) := ParseLine(lines[0]);
      ReadLines(Insert(config, key, value), lines[1..])
  }

  function ReadText(text: string): map<string, string> {
    ReadLines(map[], Split(text, '\n'))
  }

  // ------------------------------------------------------------------ the round trip

  datatype Entry = Entry(key: string, value: string)

  /** A key may not hold a colon or a line end, nor be empty; a value may hold colons. */
  predicate Writable(entries: seq<Entry>) {
    forall i :: 0 <= i < |entries| ==>
      && entries[i].key != "" && ':' !in entries[i].key && '\r' !in entries[i].key && '\n' !in entries[i].key
      && '\r' !in entries[i].value && '\n' !in entries[i].value
  }

  /** The text of a file with one entry a line, each line ended by LF or by CR LF. */
  function Render(entries: seq<Entry>, crlf: bool): string {
    if entries == [] then ""
    else entries[0].key + ":" + entries[0].value + (if crlf then "\r\n" else "\n") + Render(entries[1..], crlf)
  }

  function FirstEntryWins(config: map<string, string>, entries: seq<Entry>): map<string, string>
    decreases entries
  {
    if entries == [] then config
    else FirstEntryWins(Insert(config, entries[0].key, entries[0].value), entries[1..])
  }

  lemma FindCharAfter(before: string, c: char, after: string)
    requires c !in before
    ensures FindChar(before + [c] + after, c) == Some(|before|)
  {
    var s := before + [c] + after;
    assert s[|before|] == c;
    assert forall i :: 0 <= i < |before| ==> s[i] == before[i] && before[i] in before;
  }

  lemma ReturnIsCutOff(value: string, crlf: bool)
    requires '\r' !in value
    ensures WithoutReturn(value + (if crlf then "\r" else "")) == value
  {
    if crlf {
      FindCharAfter(value, '\r', "");
      assert value + ['\r'] + "" == value + "\r";
    } else {
      assert value + "" == value;
    }
  }

  lemma LineOfEntry(e: Entry, crlf: bool)
    requires ':' !in e.key && '\r' !in e.value
    ensures ParseLine(e.key + ":" + e.value + (if crlf then "\r" else "")) == (e.key, e.value)
  {
    var value := e.value + (if crlf then "\r" else "");
    var line := e.key + ":" + value;
    FindCharAfter(e.key, ':', value);
    ReturnIsCutOff(e.value, crlf);
    assert e.key + ":" + e.value + (if crlf then "\r" else "") == line;
    assert line[..|e.key|] == e.key && line[|e.key| + 1..] == value;
  }

  lemma FirstLineOf(entries: seq<Entry>, crlf: bool)
    requires entries != [] && Writable(entries)
    ensures var e := entries[0];
            Split(Render(entries, crlf), '\n')
            == [e.key + ":" + e.value + (if crlf then "\r" else "")] + Split(Render(entries[1..], crlf), '\n')
  {
    var e := entries[0];
    var line := e.key + ":" + e.value + (if crlf then "\r" else "");
    var rest := Render(entries[1..], crlf);
    var text := Render(entries, crlf);
    assert text == line + "\n" + rest;
    assert '\n' !in line;
    assert forall i :: 0 <= i < |line| ==> text[i] == line[i] && line[i] in line;
    assert text[|line|] == '\n' && text[..|line|] == line && text[|line| + 1..] == rest;
    SplitAtFirst(text, '\n', |line|);
  }

  lemma {:induction false} ReadRendered(config: map<string, string>, entries: seq<Entry>, crlf: bool)
    requires Writable(entries)
    ensures ReadLines(config, Split(Render(entries, crlf), '\n')) == Insert(FirstEntryWins(config, entries), "", "")
    decreases entries
  {
    var lines := Split(Render(entries, crlf), '\n');
    if entries == [] {
      assert lines == [""];
      assert ParseLine("") == ("", "");
      assert ReadLines(Insert(config, "", ""), lines[1..]) == Insert(config, "", "");
    } else {
      var e := entries[0];
      FirstLineOf(entries, crlf);
      LineOfEntry(e, crlf);
      assert lines[1..] == Split(Render(entries[1..], crlf), '\n');
      ReadRendered(Insert(config, e.key, e.value), entries[1..], crlf);
    }
  }

  predicate IsFirstEntry(entries: seq<Entry>, key: string, i: nat) {
    i < |entries| && entries[i].key == key && forall j :: 0 <= j < i ==> entries[j].key != key
  }

  lemma {:induction false} FirstEntryWinsHolds(config: map<string, string>, entries: seq<Entry>)
    ensures var m := FirstEntryWins(config, entries);
            && (forall key :: key in m <==> key in config || exists i :: 0 <= i < |entries| && entries[i].key == key)
            && (forall key :: key in config ==> m[key] == config[key])
            && (forall key, i: nat :: IsFirstEntry(entries, key, i) && key !in config ==> m[key] == entries[i].value)
    decreases entries
  {
    if entries != [] {
      var next := Insert(config, entries[0].key, entries[0].value);
      FirstEntryWinsHolds(next, entries[1..]);
      var m := FirstEntryWins(config, entries);
      assert forall j :: 0 <= j < |entries[1..]| ==> entries[1..][j] == entries[j + 1];
      forall key, i: nat | IsFirstEntry(entries, key, i) && key !in config
        ensures key in m && m[key] == entries[i].value
      {
        if i > 0 {
          assert entries[0].key != key;
          assert IsFirstEntry(entries[1..], key, i - 1);
          assert entries[1..][i - 1] == entries[i];
        } else {
          assert key in next && m[key] == next[key];
        }
      }
      forall key ensures key in m <==> key in config || exists i :: 0 <= i < |entries| && entries[i].key == key {
        if exists i :: 0 <= i < |entries| && entries[i].key == key {
          var i :| 0 <= i < |entries| && entries[i].key == key;
          if i > 0 { assert entries[1..][i - 1].key == key; }
        }
        if exists j :: 0 <= j < |entries[1..]| && entries[1..][j].key == key {
          var j :| 0 <= j < |entries[1..]| && entries[1..][j].key == key;
          assert entries[j + 1].key == key;
        }
        assert key in next <==> key in config || entries[0].key == key;
      }
    }
  }

  /** Reading what was written gives each key the value of its first entry, and besides only the empty
      entry that comes from the end of the file; line ends of either kind read the same. */
  lemma ConfigRoundTrip(entries: seq<Entry>, crlf: bool)
    requires Writable(entries)
    ensures var config := ReadText(Render(entries, crlf));
            && (forall key :: key in config <==> key == "" || exists i :: 0 <= i < |entries| && entries[i].key == key)
            && (forall key, i: nat :: IsFirstEntry(entries, key, i) ==> config[key] == entries[i].value)
            && config[""] == ""
            && config == ReadText(Render(entries, !crlf))
  {
    ReadRendered(map[], entries, crlf);
    ReadRendered(map[], entries, !crlf);
    FirstEntryWinsHolds(map[], entries);
  }

  /** A line without a colon becomes a key that maps to the line itself. */
  lemma LineWithoutColonNamesItself(line: string)
    requires ':' !in line && '\r' !in line && '\n' !in line && line != ""
    ensures ReadText(line) == map[line := line]
  {
    SplitWithout(line, '\n');
    assert [line][1..] == [];
    assert ParseLine(line) == (line, line);
    assert ReadLines(map[line := line], []) == map[line := line];
    assert ReadLines(map[], [line]) == ReadLines(Insert(map[], line, line), [line][1..]);
  }

  // ------------------------------------------------------------------ the class

  class Config {
    var info: map<string, string>

    constructor ()
      ensures info == map[]
    {
      info := map[];
    }

    /** `getline`: the text up to the next newline, which is skipped; at the end of the text the
        end-of-file flag goes up. */
    method GetLine(text: string, pos: nat) returns (line: string, next: nat, eof: bool)
      requires pos <= |text|
      ensures eof ==> next == |text| && Split(text[pos..], '\n') == [line]
      ensures !eof ==> pos < next <= |text| && Split(text[pos..], '\n') == [line] + Split(text[next..], '\n')
    {
      var newline := FindChar(text[pos..], '\n');
      if newline.None? {
        SplitWithout(text[pos..], '\n');
        return text[pos..], |text|, true;
      }
      SplitAtFirst(text[pos..], '\n', newline.value);
      next := pos + newline.value + 1;
      assert text[pos..][newline.value + 1..] == text[next..];
      return text[pos..][..newline.value], next, false;
    }

    /** The in-place cutting of one line. */
    method CutLine(line: string) returns (key: string, boof: string)
      ensures (key, boof) == ParseLine(line)
    {
      boof := line;
      key := boof;
      var border := FindChar(boof, ':');
      if border.Some? {
        key := boof[..border.value];
        boof := boof[border.value + 1..];
      }
      border := FindChar(boof, '\r');
      if border.Some? {
        boof := boof[..border.value] + boof[border.value + 1..];
      }
    }

    /** One line cut up, and the insertion that keeps what is there. */
    method AddLine(config: map<string, string>, line: string) returns (config': map<string, string>)
      ensures config' == Insert(config, ParseLine(line).0, ParseLine(line).1)
    {
      var key, boof := CutLine(line);
      config' := config;
      if key !in config' {
        config' := config'[key := boof];
      }
    }

    /** `readConfig`; None is a file that cannot be opened. */
    method ReadConfig(file: Option<string>)
      modifies this
      ensures info == if file.Some? then ReadText(file.value) else old(info)
    {
      if file.None? {
        return;
      }
      var text := file.value;
      var config: map<string, string> := map[];
      var pos := 0;
      var eof := false;
      while !eof
        invariant pos <= |text|
        invariant eof ==> config == ReadText(text)
        invariant !eof ==> ReadLines(config, Split(text[pos..], '\n')) == ReadText(text)
        decreases !eof, |text| - pos
      {
        ghost var lines := Split(text[pos..], '\n');
        ghost var before := config;
        var line, next, end := GetLine(text, pos);
        config := AddLine(config, line);
        assert ReadLines(before, lines) == ReadLines(config, lines[1..]);
        assert lines[1..] == if end then [] else Split(text[next..], '\n');
        pos, eof := next, end;
      }
      info := config;
    }
  }

  /** Writing a file and reading it back through the class. */
  method ReadBack(entries: seq<Entry>, crlf: bool) returns (info: map<string, string>)
    requires Writable(entries)
    ensures forall key, i: nat :: IsFirstEntry(entries, key, i) ==> key in info && info[key] == entries[i].value
    ensures forall key :: key in info ==> key == "" || exists i :: 0 <= i < |entries| && entries[i].key == key
  {
    var config := new Config();
    config.ReadConfig(Some(Render(entries, crlf)));
    ConfigRoundTrip(entries, crlf);
    info := config.info;
  }
}
