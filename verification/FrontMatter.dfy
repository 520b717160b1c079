/**
 * The front matter of a note: the printer, the line-by-line parser, and exactly which notes
 * survive being printed and parsed.
 *
 * Characters are Unicode scalar values, so a string with an unpaired surrogate is not a value.
 */
module FrontMatter {
  import opened Wrappers
  import opened Bytes

  // ---------- Characters ----------

  /** What `\s` matches and `trim` removes. */
  predicate IsSpace(c: char) {
    c in {'\t', '\n', '\r', ' ', '\U{0B}', '\U{0C}', '\U{A0}', '\U{1680}', '\U{2028}', '\U{2029}', '\U{202F}',
          '\U{205F}', '\U{3000}', '\U{FEFF}'}
    || '\U{2000}' <= c <= '\U{200A}'
  }

  /** What `.` does not match. */
  predicate IsLineTerminator(c: char) {
    c == '\n' || c == '\r' || c == '\U{2028}' || c == '\U{2029}'
  }

  predicate IsKeyChar(c: char) {
    'a' <= c <= 'z' || 'A' <= c <= 'Z' || c == '_'
  }

  predicate IsQuote(c: char) {
    c == '"' || c == '\''
  }

  /** The same classes by code point, as the language standard lists them. */
  lemma Characters(c: char)
    ensures IsSpace(c) <==> c as int in {9, 10, 11, 12, 13, 32, 160, 5760, 8232, 8233, 8239, 8287, 12288, 65279}
                            || 8192 <= c as int <= 8202
    ensures IsLineTerminator(c) <==> c as int in {10, 13, 8232, 8233}
    ensures IsKeyChar(c) <==> 97 <= c as int <= 122 || 65 <= c as int <= 90 || c as int == 95
    ensures IsQuote(c) <==> c as int in {34, 39}
  {
    assert 'a' as int == 97 && 'z' as int == 122 && 'A' as int == 65 && 'Z' as int == 90;
  }

  predicate HasTerminator(s: string) {
    exists i :: 0 <= i < |s| && IsLineTerminator(s[i])
  }

  // ---------- JSON.stringify of a string ----------

  predicate MustEscape(c: char) {
    c == '"' || c == '\\' || c < ' '
  }

  function HexDigit(d: nat): (c: char)
    requires d < 16
    ensures !IsLineTerminator(c)
  {
    "0123456789abcdef"[d]
  }

  function EscapeChar(c: char): (s: string)
    ensures |s| >= 1 && (|s| == 1 <==> !MustEscape(c)) && (|s| == 1 ==> s[0] == c)
    ensures HasTerminator(s) <==> c == '\U{2028}' || c == '\U{2029}'
  {
    if c == '"' then "\\\""
    else if c == '\\' then "\\\\"
    else if c == '\U{08}' then "\\b"
    else if c == '\t' then "\\t"
    else if c == '\n' then "\\n"
    else if c == '\U{0C}' then "\\f"
    else if c == '\r' then "\\r"
    else if c < ' ' then "\\u00" + [HexDigit(c as int / 16), HexDigit(c as int % 16)]
    else [c]
  }

  function Escape(s: string): (escaped: string) {
    if s == "" then "" else EscapeChar(s[0]) + Escape(s[1..])
  }

  function Quoted(s: string): (json: string) {
    "\"" + Escape(s) + "\""
  }

  function HexValue(c: char): (value: Option<nat>) {
    if '0' <= c <= '9' then Some(c as int - '0' as int)
    else if 'a' <= c <= 'f' then Some(c as int - 'a' as int + 10)
    else if 'A' <= c <= 'F' then Some(c as int - 'A' as int + 10)
    else None
  }

  function Prefixed(c: char, rest: Option<string>): (all: Option<string>) {
    if rest.Some? then Some([c] + rest.value) else None
  }

  /** Reading the inside of a JSON string (section 7 of RFC 8259), escapes below U+0100 only. */
  function ReadJson(json: string): (s: Option<string>) {
    if json == "" then Some("")
    else if json[0] == '"' || json[0] < ' ' then None
    else if json[0] != '\\' then Prefixed(json[0], ReadJson(json[1..]))
    else if |json| < 2 then None
    else
      match json[1]
      case '"' => Prefixed('"', ReadJson(json[2..]))
      case '\\' => Prefixed('\\', ReadJson(json[2..]))
      case '/' => Prefixed('/', ReadJson(json[2..]))
      case 'b' => Prefixed('\U{08}', ReadJson(json[2..]))
      case 'f' => Prefixed('\U{0C}', ReadJson(json[2..]))
      case 'n' => Prefixed('\n', ReadJson(json[2..]))
      case 'r' => Prefixed('\r', ReadJson(json[2..]))
      case 't' => Prefixed('\t', ReadJson(json[2..]))
      case 'u' =>
        if |json| < 6 || json[2] != '0' || json[3] != '0' || HexValue(json[4]).None? || HexValue(json[5]).None? then None
        else Prefixed((16 * HexValue(json[4]).value + HexValue(json[5]).value) as char, ReadJson(json[6..]))
      case _ => None
  }

  lemma ReadHexEscape(high: nat, low: nat, rest: string)
    requires high < 2 && low < 16
    ensures ReadJson("\\u00" + [HexDigit(high), HexDigit(low)] + rest) == Prefixed((16 * high + low) as char, ReadJson(rest))
  {
    var json := "\\u00" + [HexDigit(high), HexDigit(low)] + rest;
    assert json[6..] == rest && json[4] == HexDigit(high) && json[5] == HexDigit(low);
    HexValueOf(high);
    HexValueOf(low);
    hide HexValue, HexDigit;
  }

  lemma HexValueOf(d: nat)
    requires d < 16
    ensures HexValue(HexDigit(d)) == Some(d)
  {
  }

  lemma ReadEscapedChar(c: char, rest: string)
    ensures ReadJson(EscapeChar(c) + rest) == Prefixed(c, ReadJson(rest))
  {
    var json := EscapeChar(c) + rest;
    assert json[|EscapeChar(c)|..] == rest;
    if |EscapeChar(c)| == 6 {
      ReadHexEscape(c as int / 16, c as int % 16, rest);
      hide ReadJson;
    }
  }

  /** Any JSON reader gets the string back from what is printed. */
  lemma {:induction false} ReadEscaped(s: string)
    ensures ReadJson(Escape(s)) == Some(s)
  {
    if s != "" {
      hide ReadJson, EscapeChar;
      ReadEscaped(s[1..]);
      ReadEscapedChar(s[0], Escape(s[1..]));
      assert s == [s[0]] + s[1..];
    } else {
      assert Escape("") == "";
    }
  }

  /** A line or paragraph separator: not escaped by JSON, but the end of what `.` matches. */
  predicate HasSeparator(s: string) {
    exists i :: 0 <= i < |s| && (s[i] == '\U{2028}' || s[i] == '\U{2029}')
  }

  predicate NeedsNoEscape(s: string) {
    forall i :: 0 <= i < |s| ==> !MustEscape(s[i])
  }

  /** Escaping is the identity exactly on strings with nothing to escape; otherwise it is longer. */
  lemma {:induction false} EscapeIdentity(s: string)
    ensures |Escape(s)| >= |s|
    ensures NeedsNoEscape(s) <==> Escape(s) == s
    ensures HasTerminator(Escape(s)) <==> HasSeparator(s)
  {
    hide EscapeChar, IsLineTerminator, MustEscape;
    if s != "" {
      var first, rest := EscapeChar(s[0]), s[1..];
      EscapeIdentity(rest);
      assert s == [s[0]] + rest;
      HasTerminatorAppend(first, Escape(rest));
      assert HasSeparator(s) <==> (s[0] == '\U{2028}' || s[0] == '\U{2029}') || HasSeparator(rest) by {
        assert forall i :: 0 <= i < |rest| ==> rest[i] == s[i + 1];
      }
      assert NeedsNoEscape(s) <==> !MustEscape(s[0]) && NeedsNoEscape(rest) by {
        assert forall i :: 0 <= i < |rest| ==> rest[i] == s[i + 1];
      }
      if Escape(s) == s { assert |first| == 1; assert Escape(s)[1..] == Escape(rest); }
    }
  }

  lemma HasTerminatorAppend(a: string, b: string)
    ensures HasTerminator(a + b) <==> HasTerminator(a) || HasTerminator(b)
  {
    hide IsLineTerminator;
    var ab := a + b;
    assert forall i :: 0 <= i < |a| ==> ab[i] == a[i];
    assert forall i :: 0 <= i < |b| ==> ab[|a| + i] == b[i];
    if i :| 0 <= i < |ab| && IsLineTerminator(ab[i]) {
      assert if i < |a| then IsLineTerminator(a[i]) else IsLineTerminator(b[i - |a|]);
    }
  }

  // ---------- The printer ----------

  function ItemLines(items: seq<string>): (lines: seq<string>) {
    seq(|items|, i requires 0 <= i < |items| => "  - " + Quoted(items[i]))
  }

  function ListLines(key: string, items: seq<string>): (lines: seq<string>) {
    if items == [] then [] else [key + ":"] + ItemLines(items)
  }

  /** The lines between the two fences. */
  function InnerLines(title: string, noteType: string, date: string, tags: seq<string>, related: seq<string>)
    : (lines: seq<string>)
  {
    ["title: " + Quoted(title), "type: " + noteType, "date: " + date]
    + ListLines("tags", tags) + ListLines("related", related)
  }

  /** Every line with a line feed before it. */
  function Below(lines: seq<string>): (text: string) {
    if lines == [] then "" else "\n" + lines[0] + Below(lines[1..])
  }

  function Frontmatter(title: string, noteType: string, date: string, tags: seq<string>, related: seq<string>)
    : (text: string)
  {
    "---" + Below(InnerLines(title, noteType, date, tags, related)) + "\n---"
  }

  lemma {:induction false} BelowAppend(a: seq<string>, b: seq<string>)
    ensures Below(a + b) == Below(a) + Below(b)
  {
    if a == [] {
      assert a + b == b;
    } else {
      BelowAppend(a[1..], b);
      assert (a + b)[1..] == a[1..] + b;
      Associate("\n" + a[0], Below(a[1..]), Below(b));
    }
  }

  /** `lines.join('\n')`. */
  function Join(lines: seq<string>): (text: string) {
    if lines == [] then "" else lines[0] + Below(lines[1..])
  }

  lemma JoinFences(inner: seq<string>)
    ensures Join(["---"] + inner + ["---"]) == "---" + Below(inner) + "\n---"
  {
    var lines := ["---"] + inner + ["---"];
    assert lines[1..] == inner + ["---"];
    BelowAppend(inner, ["---"]);
    assert Below(["---"]) == "\n---" by { assert Below(["---"][1..]) == ""; }
    Associate("---", Below(inner), "\n---");
  }

  /** `buildFrontmatter`. */
  method BuildFrontmatter(title: string, noteType: string, date: string, tags: Option<seq<string>>, related: seq<string>)
    returns (text: string)
    ensures text == Frontmatter(title, noteType, date, tags.GetOr([]), related)
  {
    hide Join, Below, Quoted, ListLines;
    var lines := ["---", "title: " + Quoted(title), "type: " + noteType, "date: " + date];
    ghost var head := lines[1..];
    if tags.Some? { lines := PushList(lines, "tags", tags.value); }
    NoItems("tags");
    lines := PushList(lines, "related", related);
    ghost var inner := InnerLines(title, noteType, date, tags.GetOr([]), related);
    assert inner == head + ListLines("tags", tags.GetOr([])) + ListLines("related", related);
    lines := lines + ["---"];
    assert lines == ["---"] + inner + ["---"];
    JoinFences(inner);
    text := Join(lines);
  }

  lemma NoItems(key: string)
    ensures ListLines(key, []) == []
  {
  }

  method PushList(lines: seq<string>, key: string, items: seq<string>) returns (longer: seq<string>)
    ensures longer == lines + ListLines(key, items)
  {
    longer := lines;
    if |items| > 0 {
      longer := longer + [key + ":"];
      longer := PushItems(longer, items);
    }
  }

  method PushItems(lines: seq<string>, items: seq<string>) returns (longer: seq<string>)
    ensures longer == lines + ItemLines(items)
  {
    longer := lines;
    for i := 0 to |items|
      invariant longer == lines + ItemLines(items)[..i]
    {
      longer := longer + ["  - " + Quoted(items[i])];
    }
  }

  // ---------- The parser ----------

  datatype Value = Scalar(text: string) | List(items: seq<string>)

  function KeyLength(line: string): (n: nat)
    ensures n <= |line| && (forall i :: 0 <= i < n ==> IsKeyChar(line[i])) && (n < |line| ==> !IsKeyChar(line[n]))
  {
    if line == "" || !IsKeyChar(line[0]) then 0 else 1 + KeyLength(line[1..])
  }

  function TrimStart(s: string): (t: string)
    ensures t != "" ==> !IsSpace(t[0])
  {
    if s == "" || !IsSpace(s[0]) then s else TrimStart(s[1..])
  }

  function TrimEnd(s: string): (t: string) {
    if s == "" || !IsSpace(s[|s| - 1]) then s else TrimEnd(s[..|s| - 1])
  }

  /** One matching or mismatching pair of quotes around a text on one line goes. */
  function StripQuotes(s: string): (t: string) {
    if |s| >= 2 && IsQuote(s[0]) && IsQuote(s[|s| - 1]) && !HasTerminator(s[1..|s| - 1]) then s[1..|s| - 1] else s
  }

  /** `/^([a-zA-Z_]+):\s*(.*)$/`: the key, and what follows the white space. */
  function MatchKey(line: string): (m: Option<(string, string)>) {
    var n := KeyLength(line);
    if n == 0 || n == |line| || line[n] != ':' then None
    else
      var value := TrimStart(line[n + 1..]);
      if HasTerminator(value) then None else Some((line[..n], value))
  }

  /** `/^\s*-\s+(.+)$/`: the longest white space after the dash that leaves something to match. */
  function MatchItem(line: string): (m: Option<string>) {
    var rest := TrimStart(line);
    if rest == "" || rest[0] != '-' then None
    else
      var after := rest[1..];
      var value := TrimStart(after);
      if value != "" then (if |value| == |after| || HasTerminator(value) then None else Some(value))
      else if |after| >= 2 && !IsLineTerminator(after[|after| - 1]) then Some([after[|after| - 1]])
      else None
  }

  datatype Parser = Parser(listKey: Option<string>, out: map<string, Value>)

  /** One line of the block. */
  function OnLine(p: Parser, line: string): (next: Parser) {
    match MatchKey(line)
    case Some((key, raw)) =>
      var value := StripQuotes(TrimEnd(raw));
      if value == "" then Parser(Some(key), p.out[key := List([])]) else Parser(None, p.out[key := Scalar(value)])
    case None =>
      match MatchItem(line)
      case Some(raw) =>
        if p.listKey.None? then p else
          var v := StripQuotes(TrimEnd(TrimStart(raw)));
          var items := if p.listKey.value in p.out && p.out[p.listKey.value].List? then p.out[p.listKey.value].items else [];
          p.(out := p.out[p.listKey.value := List(items + [v])])
      case None => p
  }

  function OnLines(p: Parser, lines: seq<string>): (next: Parser)
    decreases |lines|
  {
    if lines == [] then p else OnLines(OnLine(p, lines[0]), lines[1..])
  }

  /** `s.split('\n')`. */
  function SplitLines(s: string): (lines: seq<string>)
    ensures lines != []
  {
    if s == "" then [""]
    else
      var rest := SplitLines(s[1..]);
      if s[0] == '\n' then [""] + rest else [[s[0]] + rest[0]] + rest[1..]
  }

  /** `s.indexOf('\n---', from)`. */
  function FindFence(s: string, from: nat): (position: Option<nat>)
    ensures position.Some? ==> from <= position.value <= |s| - 4
    decreases |s| - from
  {
    if from + 4 > |s| then None
    else if s[from..from + 4] == "\n---" then Some(from)
    else FindFence(s, from + 1)
  }

  function Parse(raw: string): (out: map<string, Value>) {
    if !("---" <= raw) then map[]
    else
      var end := FindFence(raw, 3);
      if end.None? then map[] else OnLines(Parser(None, map[]), SplitLines(raw[3..end.value])).out
  }

  /** `parseFrontmatter`. */
  method ParseFrontmatter(raw: string) returns (out: map<string, Value>)
    ensures out == Parse(raw)
  {
    out := map[];
    if |raw| < 3 || raw[..3] != "---" { return; }
    var end := FindFence(raw, 3);
    if end.None? { return; }
    var lines := SplitLines(raw[3..end.value]);
    var listKey: Option<string> := None;
    for i := 0 to |lines|
      invariant OnLines(Parser(listKey, out), lines[i..]) == OnLines(Parser(None, map[]), lines)
    {
      var line := lines[i];
      assert lines[i..][1..] == lines[i + 1..];
      var m := MatchKey(line);
      if m.Some? {
        var key, value := m.value.0, StripQuotes(TrimEnd(m.value.1));
        if value == "" {
          listKey := Some(key);
          out := out[key := List([])];
          continue;
        }
        listKey := None;
        out := out[key := Scalar(value)];
        continue;
      }
      var li := MatchItem(line);
      if li.Some? && listKey.Some? {
        var v := StripQuotes(TrimEnd(TrimStart(li.value)));
        var arr := if listKey.value in out && out[listKey.value].List? then out[listKey.value].items else [];
        out := out[listKey.value := List(arr + [v])];
      }
    }
    assert lines[|lines|..] == [];
  }

  // ---------- Finding the block again ----------

  /** A line that cannot be taken for the closing fence. */
  predicate InnerLine(line: string) {
    '\n' !in line && !("---" <= line)
  }

  /** Passing over text that cannot start a fence. */
  lemma {:induction false} SkipText(s: string, from: nat, to: nat)
    requires from <= to <= |s| - 4
    requires forall i :: from <= i < to ==> s[i] != '\n'
    ensures FindFence(s, from) == FindFence(s, to)
    decreases |s| - from
  {
    if from < to {
      assert s[from..from + 4][0] == s[from];
      SkipText(s, from + 1, to);
    }
  }

  /** The closing fence is found where it was printed, whatever the body. */
  lemma {:induction false} FindPrintedFence(before: string, lines: seq<string>, body: string)
    requires forall line <- lines :: InnerLine(line)
    ensures FindFence(before + Below(lines) + "\n---" + body, |before|) == Some(|before + Below(lines)|)
    decreases |lines|
  {
    var s := before + Below(lines) + "\n---" + body;
    if lines == [] {
      assert s[|before|..|before| + 4] == "\n---";
    } else {
      var first, rest := lines[0], lines[1..];
      var next := before + "\n" + first;
      assert first in lines;
      assert before + Below(lines) == next + Below(rest);
      FindPrintedFence(next, rest, body);
      assert s == next + Below(rest) + "\n---" + body;
      var tail := Below(rest) + "\n---" + body;
      TailStarts(rest, body);
      assert s == before + "\n" + first + tail;
      SkipLine(before, first, tail);
    }
  }

  lemma TailStarts(lines: seq<string>, body: string)
    ensures var tail := Below(lines) + "\n---" + body;
      |tail| >= 4 && tail[0] == '\n'
  {
    if lines != [] { assert Below(lines)[0] == '\n'; }
  }

  lemma NotAFence(before: string, line: string, tail: string)
    requires InnerLine(line) && |tail| >= 4 && tail[0] == '\n'
    ensures var s := before + "\n" + line + tail;
      s[|before|..|before| + 4] != "\n---"
  {
    var s, k := before + "\n" + line + tail, |before|;
    assert forall i :: 0 <= i < |line| ==> s[k + 1 + i] == line[i];
    assert s[k + 1 + |line|] == '\n';
    assert s[k + 1..k + 4] == s[k..k + 4][1..];
    if |line| >= 3 { assert line[..3] == s[k + 1..k + 4]; }
  }

  lemma {:induction false} SkipLine(before: string, line: string, tail: string)
    requires InnerLine(line) && |tail| >= 4 && tail[0] == '\n'
    ensures var s := before + "\n" + line + tail;
      FindFence(s, |before|) == FindFence(s, |before + "\n" + line|)
  {
    var s, k := before + "\n" + line + tail, |before|;
    NotAFence(before, line, tail);
    forall i | k + 1 <= i < k + 1 + |line|
      ensures s[i] != '\n'
    {
      assert s[i] == line[i - (k + 1)];
    }
    SkipText(s, k + 1, k + 1 + |line|);
  }

  lemma {:induction false} SplitPrinted(first: string, lines: seq<string>)
    requires '\n' !in first && forall line <- lines :: '\n' !in line
    ensures SplitLines(first + Below(lines)) == [first] + lines
    decreases |lines|, |first|
  {
    if first == "" {
      if lines != [] {
        SplitPrinted(lines[0], lines[1..]);
        assert ("" + Below(lines))[1..] == lines[0] + Below(lines[1..]);
      }
    } else {
      assert (first + Below(lines))[1..] == first[1..] + Below(lines);
      SplitPrinted(first[1..], lines);
      assert [first[0]] + first[1..] == first;
    }
  }

  // ---------- Each printed line, parsed ----------

  lemma {:induction false} KeyLengthOf(key: string, rest: string)
    requires forall i :: 0 <= i < |key| ==> IsKeyChar(key[i])
    requires rest != "" && !IsKeyChar(rest[0])
    ensures KeyLength(key + rest) == |key|
  {
    if key != "" {
      KeyLengthOf(key[1..], rest);
      assert (key + rest)[1..] == key[1..] + rest;
    }
  }

  predicate IsKey(key: string) {
    key != "" && forall i :: 0 <= i < |key| ==> IsKeyChar(key[i])
  }

  /** `key: value` with a value that neither starts nor ends in white space. */
  lemma ParseKeyLine(p: Parser, key: string, value: string)
    requires IsKey(key) && value != "" && !IsSpace(value[0]) && !IsSpace(value[|value| - 1])
    requires !HasTerminator(value)
    ensures OnLine(p, key + ": " + value) ==
      var v := StripQuotes(value);
      if v == "" then Parser(Some(key), p.out[key := List([])]) else Parser(None, p.out[key := Scalar(v)])
  {
    var line := key + ": " + value;
    assert line == key + (": " + value);
    KeyLengthOf(key, ": " + value);
    assert line[|key| + 1..] == " " + value && line[..|key|] == key;
    assert (" " + value)[1..] == value && IsSpace(' ');
    assert TrimStart(" " + value) == TrimStart(value) == value;
    assert TrimEnd(value) == value;
  }

  /** A line that starts like a key line but has a separator in its value is skipped. */
  lemma {:induction false} SkipKeyLine(p: Parser, key: string, value: string)
    requires IsKey(key) && value != "" && !IsSpace(value[0]) && HasTerminator(value)
    ensures OnLine(p, key + ": " + value) == p
  {
    hide HasTerminator;
    var line := key + ": " + value;
    assert line == key + (": " + value);
    KeyLengthOf(key, ": " + value);
    assert line[|key| + 1..] == " " + value;
    assert (" " + value)[1..] == value && IsSpace(' ');
    assert TrimStart(" " + value) == TrimStart(value) == value;
    assert line[0] == key[0] && IsKeyChar(key[0]);
    assert TrimStart(line) == line;
  }

  /** `key:` opens a list. */
  lemma ParseListKey(p: Parser, key: string)
    requires IsKey(key)
    ensures OnLine(p, key + ":") == Parser(Some(key), p.out[key := List([])])
  {
    KeyLengthOf(key, ":");
    var line := key + ":";
    assert line[|key| + 1..] == "" && line[..|key|] == key;
    assert TrimStart("") == "" && TrimEnd("") == "" && StripQuotes("") == "";
  }

  lemma QuotedShape(s: string)
    ensures var q := Quoted(s);
      && |q| >= 2 && q[0] == '"' && q[|q| - 1] == '"' && q[1..|q| - 1] == Escape(s)
      && (HasTerminator(q) <==> HasSeparator(s))
      && TrimStart(q) == q && TrimEnd(q) == q
      && (!HasSeparator(s) ==> StripQuotes(q) == Escape(s))
  {
    var q := Quoted(s);
    EscapeIdentity(s);
    HasTerminatorAppend("\"" + Escape(s), "\"");
    HasTerminatorAppend("\"", Escape(s));
    assert !HasTerminator("\"");
    assert q[1..|q| - 1] == Escape(s);
    assert !IsSpace('"');
  }

  /** What a printed item parses to: its JSON escape without the quotes, or nothing. */
  function ParsedItem(item: string): (parsed: seq<string>) {
    if HasSeparator(item) then [] else [Escape(item)]
  }

  function ParsedItems(items: seq<string>): (parsed: seq<string>) {
    if items == [] then [] else ParsedItems(items[..|items| - 1]) + ParsedItem(items[|items| - 1])
  }

  lemma {:induction false} ParseItemLine(p: Parser, key: string, items: seq<string>, item: string)
    requires p.listKey == Some(key) && key in p.out && p.out[key] == List(ParsedItems(items))
    ensures OnLine(p, "  - " + Quoted(item)) == p.(out := p.out[key := List(ParsedItems(items + [item]))])
  {
    hide Quoted, MatchKey, MatchItem, HasSeparator, ParsedItems, HasTerminator;
    QuotedShape(item);
    MatchPrintedItem(item);
    ParsedItemsSnoc(items, item);
    if HasSeparator(item) {
      assert ParsedItems(items) + [] == ParsedItems(items);
      assert p.out[key := p.out[key]] == p.out;
    }
  }

  lemma ParsedItemsSnoc(items: seq<string>, item: string)
    ensures ParsedItems(items + [item]) == ParsedItems(items) + ParsedItem(item)
  {
    hide ParsedItem;
    assert (items + [item])[..|items|] == items;
  }

  /** The match of a printed item: the quoted text, unless a separator is in it. */
  lemma MatchPrintedItem(item: string)
    ensures MatchKey("  - " + Quoted(item)) == None
    ensures MatchItem("  - " + Quoted(item)) == if HasSeparator(item) then None else Some(Quoted(item))
  {
    QuotedShape(item);
    hide Quoted, HasTerminator, HasSeparator;
    var q := Quoted(item);
    var line := "  - " + q;
    assert line[0] == ' ' && KeyLength(line) == 0;
    assert line[1..] == " - " + q && line[1..][1..] == "- " + q;
    assert TrimStart(line) == TrimStart(line[1..]) == TrimStart("- " + q) == "- " + q;
    assert ("- " + q)[1..] == " " + q && (" " + q)[1..] == q;
    assert TrimStart(" " + q) == TrimStart(q) == q;
  }

  lemma {:induction false} ParseItemLines(p: Parser, key: string, items: seq<string>, k: nat)
    requires k <= |items|
    requires p.listKey == Some(key) && key in p.out && p.out[key] == List(ParsedItems(items[..k]))
    ensures OnLines(p, ItemLines(items)[k..]) == p.(out := p.out[key := List(ParsedItems(items))])
    decreases |items| - k
  {
    hide OnLine, ParsedItems, Quoted;
    if k == |items| {
      assert ItemLines(items)[k..] == [] && items[..k] == items;
      assert p.out[key := p.out[key]] == p.out;
    } else {
      ParseItemLine(p, key, items[..k], items[k]);
      assert items[..k] + [items[k]] == items[..k + 1];
      var next := OnLine(p, ItemLines(items)[k]);
      ParseItemLines(next, key, items, k + 1);
      assert ItemLines(items)[k..][1..] == ItemLines(items)[k + 1..];
      assert p.out[key := List(ParsedItems(items[..k + 1]))][key := List(ParsedItems(items))]
          == p.out[key := List(ParsedItems(items))];
    }
  }

  lemma {:induction false} OnLinesAppend(p: Parser, a: seq<string>, b: seq<string>)
    ensures OnLines(p, a + b) == OnLines(OnLines(p, a), b)
    decreases |a|
  {
    hide OnLine;
    if a == [] {
      assert a + b == b;
    } else {
      OnLinesAppend(OnLine(p, a[0]), a[1..], b);
      assert (a + b)[1..] == a[1..] + b;
    }
  }

  lemma OnOneLine(p: Parser, line: string, rest: seq<string>)
    ensures OnLines(p, [line] + rest) == OnLines(OnLine(p, line), rest)
  {
    assert ([line] + rest)[1..] == rest;
  }

  /** A whole list: its key, if there is anything in it. */
  lemma ParseList(p: Parser, key: string, items: seq<string>)
    requires IsKey(key)
    ensures OnLines(p, ListLines(key, items)).out ==
      if items == [] then p.out else p.out[key := List(ParsedItems(items))]
  {
    hide OnLine, ItemLines;
    if items == [] {
      NoItems(key);
    } else {
      OnOneLine(p, key + ":", ItemLines(items));
      ParseListKey(p, key);
      var open := Parser(Some(key), p.out[key := List([])]);
      assert items[..0] == [] && ParsedItems([]) == [];
      ParseItemLines(open, key, items, 0);
      assert ItemLines(items)[0..] == ItemLines(items);
      assert p.out[key := List([])][key := List(ParsedItems(items))] == p.out[key := List(ParsedItems(items))];
    }
  }

  // ---------- The whole front matter ----------

  /** The title's entry: none, an empty list, or its JSON escape. */
  function WithTitle(out: map<string, Value>, title: string): (next: map<string, Value>) {
    if HasSeparator(title) then out
    else if title == "" then out["title" := List([])]
    else out["title" := Scalar(Escape(title))]
  }

  function WithList(out: map<string, Value>, key: string, items: seq<string>): (next: map<string, Value>) {
    if items == [] then out else out[key := List(ParsedItems(items))]
  }

  /** The entry of a value printed as it is: none, an empty list, or the value without outer white space and quotes. */
  function WithField(out: map<string, Value>, key: string, value: string): (next: map<string, Value>) {
    var raw := TrimStart(value);
    var text := StripQuotes(TrimEnd(raw));
    if HasTerminator(raw) then out
    else if text == "" then out[key := List([])]
    else out[key := Scalar(text)]
  }

  function Parsed(title: string, noteType: string, date: string, tags: seq<string>, related: seq<string>)
    : (out: map<string, Value>)
  {
    var heads := WithField(WithField(WithTitle(map[], title), "type", noteType), "date", date);
    WithList(WithList(heads, "tags", tags), "related", related)
  }

  lemma ParseTitle(title: string)
    ensures OnLine(Parser(None, map[]), "title: " + Quoted(title)).out == WithTitle(map[], title)
  {
    QuotedShape(title);
    assert "title" + ": " + Quoted(title) == "title: " + Quoted(title);
    assert IsKey("title") && !IsSpace('"');
    if HasSeparator(title) {
      SkipKeyLine(Parser(None, map[]), "title", Quoted(title));
    } else {
      ParseKeyLine(Parser(None, map[]), "title", Quoted(title));
      EscapeEmpty(title);
    }
  }

  lemma EscapeEmpty(s: string)
    ensures Escape(s) == "" <==> s == ""
  {
  }

  lemma {:induction false} ParseField(p: Parser, key: string, value: string)
    requires IsKey(key)
    ensures OnLine(p, key + ": " + value).out == WithField(p.out, key, value)
  {
    hide HasTerminator, IsKeyChar, MatchItem, StripQuotes, TrimEnd;
    var line := key + ": " + value;
    assert line == key + (": " + value);
    KeyCharFacts(line[0]);
    KeyLengthOf(key, ": " + value);
    assert line[|key| + 1..] == " " + value && line[..|key|] == key;
    assert (" " + value)[1..] == value && IsSpace(' ');
    assert TrimStart(" " + value) == TrimStart(value);
    assert line[0] == key[0] && IsKeyChar(key[0]);
    NoMatchItem(line);
  }

  lemma NoMatchItem(line: string)
    requires line != "" && !IsSpace(line[0]) && line[0] != '-'
    ensures MatchItem(line) == None
  {
    assert TrimStart(line) == line;
  }

  lemma KeyCharFacts(c: char)
    ensures IsKeyChar(c) ==> !IsSpace(c)
    ensures !IsKeyChar(':') && !IsKeyChar('-')
  {
  }

  lemma ParseInner(title: string, noteType: string, date: string, tags: seq<string>, related: seq<string>)
    ensures OnLines(Parser(None, map[]), InnerLines(title, noteType, date, tags, related)).out
         == Parsed(title, noteType, date, tags, related)
  {
    hide OnLine, Quoted, ListLines, ParsedItems, WithTitle, WithField;
    var titleLine, typeLine, dateLine := "title: " + Quoted(title), "type: " + noteType, "date: " + date;
    var start := Parser(None, map[]);
    var p1 := OnLine(start, titleLine);
    ParseTitle(title);
    assert "type" + ": " + noteType == typeLine && "date" + ": " + date == dateLine;
    assert IsKey("type") && IsKey("date") && IsKey("tags") && IsKey("related");
    ParseField(p1, "type", noteType);
    var p2 := OnLine(p1, typeLine);
    ParseField(p2, "date", date);
    var p3 := OnLine(p2, dateLine);
    OnOneLine(start, titleLine, [typeLine, dateLine]);
    OnOneLine(p1, typeLine, [dateLine]);
    OnOneLine(p2, dateLine, []);
    assert [titleLine] + [typeLine, dateLine] == [titleLine, typeLine, dateLine];
    assert [typeLine] + [dateLine] == [typeLine, dateLine] && [dateLine] + [] == [dateLine];
    var heads := [titleLine, typeLine, dateLine];
    OnLinesAppend(start, heads, ListLines("tags", tags));
    OnLinesAppend(start, heads + ListLines("tags", tags), ListLines("related", related));
    ParseList(p3, "tags", tags);
    ParseList(OnLines(p3, ListLines("tags", tags)), "related", related);
  }

  lemma {:induction false} EscapeHasNoNewline(s: string)
    ensures '\n' !in Escape(s)
  {
    if s != "" { EscapeHasNoNewline(s[1..]); }
  }

  lemma ItemLinesInner(items: seq<string>)
    ensures forall line <- ItemLines(items) :: InnerLine(line)
  {
    hide Escape;
    forall i | 0 <= i < |items|
      ensures InnerLine(ItemLines(items)[i])
    {
      EscapeHasNoNewline(items[i]);
      assert ItemLines(items)[i][0] == ' ';
    }
  }

  lemma InnerLinesInner(title: string, noteType: string, date: string, tags: seq<string>, related: seq<string>)
    requires '\n' !in noteType && '\n' !in date
    ensures forall line <- InnerLines(title, noteType, date, tags, related) :: InnerLine(line)
  {
    HeadLinesInner(title, noteType, date);
    ListLinesInner("tags", tags);
    ListLinesInner("related", related);
    hide InnerLine, ListLines, Quoted;
  }

  lemma HeadLinesInner(title: string, noteType: string, date: string)
    requires '\n' !in noteType && '\n' !in date
    ensures InnerLine("title: " + Quoted(title)) && InnerLine("type: " + noteType) && InnerLine("date: " + date)
  {
    hide Escape;
    EscapeHasNoNewline(title);
    assert ("title: " + Quoted(title))[0] == 't';
    assert ("type: " + noteType)[0] == 't' && ("date: " + date)[0] == 'd';
  }

  lemma ListLinesInner(key: string, items: seq<string>)
    requires key != "" && '\n' !in key && key[0] != '-'
    ensures forall line <- ListLines(key, items) :: InnerLine(line)
  {
    ItemLinesInner(items);
    hide ItemLines;
    assert (key + ":")[0] == key[0];
  }

  /** What parsing printed front matter gives, for every title, type and date on one line, lists and whatever follows. */
  lemma ParsePrinted(title: string, noteType: string, date: string, tags: seq<string>, related: seq<string>, body: string)
    requires '\n' !in noteType && '\n' !in date
    ensures Parse(Frontmatter(title, noteType, date, tags, related) + body)
         == Parsed(title, noteType, date, tags, related)
  {
    hide InnerLines, OnLines, Parsed, FindFence, SplitLines, OnLine;
    var inner := InnerLines(title, noteType, date, tags, related);
    var raw := Frontmatter(title, noteType, date, tags, related) + body;
    InnerLinesInner(title, noteType, date, tags, related);
    FindPrintedFence("---", inner, body);
    assert raw == "---" + Below(inner) + "\n---" + body;
    assert raw[3..|"---" + Below(inner)|] == "" + Below(inner);
    SplitPrinted("", inner);
    OnOneLine(Parser(None, map[]), "", inner);
    BlankLine(Parser(None, map[]));
    ParseInner(title, noteType, date, tags, related);
  }

  lemma BlankLine(p: Parser)
    ensures OnLine(p, "") == p
  {
    assert TrimStart("") == "";
  }

  // ---------- Which notes survive ----------

  /** Nothing to escape and nothing that ends a line for the parser. */
  predicate Survives(s: string) {
    NeedsNoEscape(s) && !HasSeparator(s)
  }

  lemma ParsedItemIff(item: string)
    ensures |ParsedItem(item)| <= 1
    ensures ParsedItem(item) == [item] <==> Survives(item)
  {
    EscapeIdentity(item);
  }

  lemma {:induction false} ParsedItemsIff(items: seq<string>)
    ensures |ParsedItems(items)| <= |items|
    ensures ParsedItems(items) == items <==> forall item <- items :: Survives(item)
  {
    if items != [] {
      hide ParsedItem, Survives;
      var front, last := items[..|items| - 1], items[|items| - 1];
      ParsedItemsIff(front);
      ParsedItemIff(last);
      assert items == front + [last];
      var before, one := ParsedItems(front), ParsedItem(last);
      if before + one == items {
        assert |before| == |front| && |one| == 1;
        assert before == (before + one)[..|front|] == front && one == (before + one)[|front|..] == [last];
      }
    }
  }

  /** A note type or a date that survives: one line, no outer white space, no outer quotes. */
  predicate IsPlain(s: string) {
    && s != "" && !IsSpace(s[0]) && !IsSpace(s[|s| - 1])
    && !HasTerminator(s)
    && !(|s| >= 2 && IsQuote(s[0]) && IsQuote(s[|s| - 1]))
  }

  lemma {:induction false} TrimStartIff(s: string)
    ensures |TrimStart(s)| <= |s| && (|TrimStart(s)| == |s| ==> TrimStart(s) == s)
    ensures TrimStart(s) == s <==> s == "" || !IsSpace(s[0])
  {
    if s != "" { TrimStartIff(s[1..]); }
  }

  lemma {:induction false} TrimEndIff(s: string)
    ensures |TrimEnd(s)| <= |s| && (|TrimEnd(s)| == |s| ==> TrimEnd(s) == s)
    ensures TrimEnd(s) == s <==> s == "" || !IsSpace(s[|s| - 1])
    ensures !HasTerminator(s) ==> !HasTerminator(TrimEnd(s))
  {
    if s != "" { TrimEndIff(s[..|s| - 1]); }
  }

  /** A field comes back as printed exactly when it is plain. */
  lemma FieldSurvivesIff(out: map<string, Value>, key: string, value: string)
    requires key !in out
    ensures var next := WithField(out, key, value);
      && (key in next && next[key] == Scalar(value) <==> IsPlain(value))
      && forall other :: other != key ==> (other in next <==> other in out) && (other in next ==> next[other] == out[other])
  {
    hide HasTerminator, IsSpace;
    var raw := TrimStart(value);
    TrimStartIff(value);
    TrimEndIff(raw);
    var trimmed := TrimEnd(raw);
    assert |StripQuotes(trimmed)| <= |trimmed|;
    if StripQuotes(trimmed) == value {
      assert |trimmed| == |raw| == |value|;
    }
    if |value| >= 2 { InnerHasNoTerminator(value); }
  }

  lemma InnerHasNoTerminator(s: string)
    requires |s| >= 2
    ensures !HasTerminator(s) ==> !HasTerminator(s[1..|s| - 1])
  {
    var inner := s[1..|s| - 1];
    assert forall i :: 0 <= i < |inner| ==> inner[i] == s[i + 1];
  }

  /** What the parser takes for a value stands on one line. */
  ghost predicate OneLineValues(out: map<string, Value>) {
    forall key <- out :: out[key].Scalar? ==> '\n' !in out[key].text
  }

  lemma OnLineKeepsOneLine(p: Parser, line: string)
    requires OneLineValues(p.out)
    ensures OneLineValues(OnLine(p, line).out)
  {
    hide MatchItem, TrimEnd, TrimStart, KeyLength;
    var m := MatchKey(line);
    if m.Some? {
      TrimEndIff(m.value.1);
      var trimmed := TrimEnd(m.value.1);
      var value := StripQuotes(trimmed);
      assert forall i :: 0 <= i < |trimmed| ==> trimmed[i] != '\n';
      assert forall i :: 0 <= i < |value| ==> value[i] == trimmed[i] || (i + 1 < |trimmed| && value[i] == trimmed[i + 1]);
    }
  }

  lemma {:induction false} OnLinesKeepsOneLine(p: Parser, lines: seq<string>)
    requires OneLineValues(p.out)
    ensures OneLineValues(OnLines(p, lines).out)
    decreases |lines|
  {
    hide OnLine, OneLineValues;
    if lines != [] {
      OnLineKeepsOneLine(p, lines[0]);
      OnLinesKeepsOneLine(OnLine(p, lines[0]), lines[1..]);
    }
  }

  lemma ParsedOneLine(raw: string)
    ensures OneLineValues(Parse(raw))
  {
    hide OnLines, FindFence, SplitLines;
    var end := FindFence(raw, 3);
    if "---" <= raw && end.Some? { OnLinesKeepsOneLine(Parser(None, map[]), SplitLines(raw[3..end.value])); }
  }

  function WithWhole(out: map<string, Value>, key: string, items: seq<string>): (next: map<string, Value>) {
    if items == [] then out else out[key := List(items)]
  }

  /** The entries a reader of the note expects. */
  function Wanted(title: string, noteType: string, date: string, tags: seq<string>, related: seq<string>)
    : (out: map<string, Value>)
  {
    var heads := map["title" := Scalar(title), "type" := Scalar(noteType), "date" := Scalar(date)];
    WithWhole(WithWhole(heads, "tags", tags), "related", related)
  }

  lemma {:induction false} ListSurvivesIff(out: map<string, Value>, wanted: map<string, Value>, key: string, items: seq<string>)
    requires key !in out && key !in wanted
    ensures WithList(out, key, items) == WithWhole(wanted, key, items) <==>
            out == wanted && forall item <- items :: Survives(item)
  {
    hide ParsedItems, Survives;
    ParsedItemsIff(items);
    if items != [] {
      var a, b := WithList(out, key, items), WithWhole(wanted, key, items);
      if a == b {
        assert a[key] == b[key] == List(items);
        assert out == a - {key} && wanted == b - {key};
      }
    }
  }

  lemma {:induction false} HeadsSurviveIff(title: string, noteType: string, date: string)
    ensures var dated := WithField(WithField(WithTitle(map[], title), "type", noteType), "date", date);
      && "tags" !in dated && "related" !in dated
      && (dated == map["title" := Scalar(title), "type" := Scalar(noteType), "date" := Scalar(date)]
          <==> title != "" && Survives(title) && IsPlain(noteType) && IsPlain(date))
  {
    hide IsPlain, Escape, NeedsNoEscape, HasSeparator, WithField;
    EscapeIdentity(title);
    var titled := WithTitle(map[], title);
    FieldSurvivesIff(titled, "type", noteType);
    var typed := WithField(titled, "type", noteType);
    FieldSurvivesIff(typed, "date", date);
    var dated := WithField(typed, "date", date);
    var wanted := map["title" := Scalar(title), "type" := Scalar(noteType), "date" := Scalar(date)];
    if dated == wanted {
      assert dated["title"] == Scalar(title) && dated["type"] == Scalar(noteType) && dated["date"] == Scalar(date);
    }
  }

  /** What comes back is what is wanted, for a type and a date on one line each. */
  lemma {:induction false} ParsedIsWantedIff(title: string, noteType: string, date: string, tags: seq<string>, related: seq<string>)
    ensures Parsed(title, noteType, date, tags, related) == Wanted(title, noteType, date, tags, related)
       <==> && title != "" && Survives(title) && IsPlain(noteType) && IsPlain(date)
            && (forall tag <- tags :: Survives(tag)) && (forall link <- related :: Survives(link))
  {
    hide IsPlain, ParsedItems, Survives, WithField, WithTitle;
    HeadsSurviveIff(title, noteType, date);
    var dated := WithField(WithField(WithTitle(map[], title), "type", noteType), "date", date);
    var wanted := map["title" := Scalar(title), "type" := Scalar(noteType), "date" := Scalar(date)];
    ListSurvivesIff(dated, wanted, "tags", tags);
    ListSurvivesIff(WithList(dated, "tags", tags), WithWhole(wanted, "tags", tags), "related", related);
  }

  /**
   * Printing and parsing gives back exactly the title, type, date, tags and related notes if
   * and only if the title is not empty, no title, tag or related note holds a character that
   * JSON escapes or a line or paragraph separator, and type and date are plain.
   */
  lemma {:induction false} RoundTripsIff(title: string, noteType: string, date: string, tags: seq<string>, related: seq<string>,
                                         body: string)
    ensures Parse(Frontmatter(title, noteType, date, tags, related) + body)
              == Wanted(title, noteType, date, tags, related)
       <==> && title != "" && Survives(title) && IsPlain(noteType) && IsPlain(date)
            && (forall tag <- tags :: Survives(tag)) && (forall link <- related :: Survives(link))
  {
    var wanted := Wanted(title, noteType, date, tags, related);
    hide Parse, Frontmatter, Parsed, Survives;
    if '\n' !in noteType && '\n' !in date {
      hide IsPlain, Wanted;
      ParsePrinted(title, noteType, date, tags, related, body);
      ParsedIsWantedIff(title, noteType, date, tags, related);
    } else {
      assert wanted["type"] == Scalar(noteType) && wanted["date"] == Scalar(date);
      ParsedOneLine(Frontmatter(title, noteType, date, tags, related) + body);
    }
  }
}
