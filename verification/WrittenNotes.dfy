/**
 * Front matter as people write it: what each line of the block means, for any text.
 *
 * `Line` describes a line by its parts, without the parser's matchers.  `EveryLine` says that
 * every line is one of these, and `Means` what a block of them says about each key.
 */
module WrittenNotes {
  import opened Wrappers
  import opened FrontMatter

  // ---------- Blanks ----------

  predicate AllSpace(s: string) {
    forall i :: 0 <= i < |s| ==> IsSpace(s[i])
  }

  lemma {:induction false} TrimStartIs(blanks: string, rest: string)
    requires AllSpace(blanks) && (rest != "" ==> !IsSpace(rest[0]))
    ensures TrimStart(blanks + rest) == rest
  {
    hide IsSpace;
    if blanks == "" {
      assert "" + rest == rest;
    } else {
      assert (blanks + rest)[1..] == blanks[1..] + rest;
      TrimStartIs(blanks[1..], rest);
    }
  }

  lemma {:induction false} TrimEndIs(rest: string, blanks: string)
    requires AllSpace(blanks) && (rest != "" ==> !IsSpace(rest[|rest| - 1]))
    ensures TrimEnd(rest + blanks) == rest
  {
    hide IsSpace;
    var s := rest + blanks;
    if blanks == "" {
      assert s == rest;
    } else {
      var front := blanks[..|blanks| - 1];
      assert s[..|s| - 1] == rest + front;
      TrimEndIs(rest, front);
    }
  }

  lemma {:induction false} StartBlanks(s: string) returns (blanks: string)
    ensures AllSpace(blanks) && s == blanks + TrimStart(s)
  {
    hide IsSpace;
    blanks := "";
    if s != "" && IsSpace(s[0]) {
      var more := StartBlanks(s[1..]);
      blanks := [s[0]] + more;
      assert s == [s[0]] + s[1..];
    }
  }

  lemma {:induction false} EndBlanks(s: string) returns (blanks: string)
    ensures AllSpace(blanks) && s == TrimEnd(s) + blanks
    ensures TrimEnd(s) != "" ==> !IsSpace(TrimEnd(s)[|TrimEnd(s)| - 1])
  {
    hide IsSpace;
    blanks := "";
    if s != "" && IsSpace(s[|s| - 1]) {
      var more := EndBlanks(s[..|s| - 1]);
      blanks := more + [s[|s| - 1]];
      assert s == s[..|s| - 1] + [s[|s| - 1]];
    }
  }

  // ---------- What the two patterns match ----------

  /** A key, a colon, blanks, and a value on one line that starts with none. */
  ghost predicate KeyShape(line: string, key: string, value: string) {
    && IsKey(key) && !HasTerminator(value) && (value != "" ==> !IsSpace(value[0]))
    && exists gap :: AllSpace(gap) && line == key + ":" + gap + value
  }

  /** Blanks, a dash, at least one blank, and a text on one line that starts with none, or is the last blank. */
  ghost predicate ItemShape(line: string, value: string) {
    && value != "" && !HasTerminator(value) && (IsSpace(value[0]) ==> |value| == 1)
    && exists indent, gap :: AllSpace(indent) && AllSpace(gap) && gap != "" && line == indent + "-" + gap + value
  }

  lemma {:induction false} MatchedKey(line: string, key: string, value: string)
    requires MatchKey(line) == Some((key, value))
    ensures KeyShape(line, key, value)
  {
    hide IsSpace, HasTerminator, IsKeyChar, TrimStart, AllSpace;
    var n := KeyLength(line);
    var gap := StartBlanks(line[n + 1..]);
    assert line == line[..n] + [line[n]] + line[n + 1..];
    assert line == key + ":" + gap + value;
  }

  lemma {:induction false} KeyMatches(key: string, gap: string, value: string)
    requires IsKey(key) && AllSpace(gap) && !HasTerminator(value) && (value != "" ==> !IsSpace(value[0]))
    ensures MatchKey(key + ":" + gap + value) == Some((key, value))
  {
    hide IsSpace, HasTerminator, IsKeyChar, TrimStart, AllSpace;
    var line := key + ":" + gap + value;
    assert line == key + (":" + gap + value);
    ColonIsNoKeyChar();
    KeyLengthOf(key, ":" + gap + value);
    assert line[|key| + 1..] == gap + value && line[..|key|] == key;
    TrimStartIs(gap, value);
  }

  lemma {:induction false} MatchKeyIff(line: string, key: string, value: string)
    ensures MatchKey(line) == Some((key, value)) <==> KeyShape(line, key, value)
  {
    hide MatchKey, AllSpace, HasTerminator, IsSpace, IsKey;
    if MatchKey(line) == Some((key, value)) { MatchedKey(line, key, value); }
    if KeyShape(line, key, value) {
      var gap :| AllSpace(gap) && line == key + ":" + gap + value;
      KeyMatches(key, gap, value);
    }
  }

  lemma ColonIsNoKeyChar()
    ensures !IsKeyChar(':')
  {
  }

  lemma DashIsNoSpace()
    ensures !IsSpace('-')
  {
  }

  lemma {:induction false} ItemMatches(indent: string, gap: string, value: string)
    requires AllSpace(indent) && AllSpace(gap) && gap != ""
    requires value != "" && !HasTerminator(value) && (IsSpace(value[0]) ==> |value| == 1)
    ensures MatchItem(indent + "-" + gap + value) == Some(value)
  {
    hide IsSpace, IsLineTerminator;
    var line, after := indent + "-" + gap + value, gap + value;
    assert line == indent + ("-" + after);
    DashIsNoSpace();
    TrimStartIs(indent, "-" + after);
    assert ("-" + after)[1..] == after;
    if IsSpace(value[0]) {
      assert after + "" == after;
      TrimStartIs(after, "");
      assert after[|after| - 1] == value[0] && value == [value[0]];
    } else {
      TrimStartIs(gap, value);
    }
  }

  lemma PrefixSpace(blanks: string, k: nat)
    requires AllSpace(blanks) && k <= |blanks|
    ensures AllSpace(blanks[..k])
  {
  }

  lemma OneChar(c: char)
    ensures HasTerminator([c]) <==> IsLineTerminator(c)
  {
    assert [c][0] == c;
  }

  lemma {:induction false} MatchedItem(line: string, value: string)
    requires MatchItem(line) == Some(value)
    ensures ItemShape(line, value)
  {
    hide IsSpace, IsLineTerminator, TrimStart, HasTerminator, AllSpace;
    var indent := StartBlanks(line);
    var after := TrimStart(line)[1..];
    var blanks := StartBlanks(after);
    assert TrimStart(line) == "-" + after;
    if TrimStart(after) != "" {
      assert line == indent + "-" + blanks + value;
    } else {
      var k := |after| - 1;
      assert after == blanks && value == [after[k]] && after == after[..k] + value;
      PrefixSpace(blanks, k);
      OneChar(after[k]);
      assert line == indent + "-" + after[..k] + value;
    }
  }

  lemma {:induction false} MatchItemIff(line: string, value: string)
    ensures MatchItem(line) == Some(value) <==> ItemShape(line, value)
  {
    hide MatchItem, AllSpace, HasTerminator, IsSpace;
    if MatchItem(line) == Some(value) { MatchedItem(line, value); }
    if ItemShape(line, value) {
      var indent, gap :| AllSpace(indent) && AllSpace(gap) && gap != "" && line == indent + "-" + gap + value;
      ItemMatches(indent, gap, value);
    }
  }

  // ---------- Lines by their parts ----------

  datatype Quotes = Bare | Within(left: char, right: char)

  datatype Line =
    | KeyLine(key: string, gap: string, text: string, quotes: Quotes, trail: string)
    | ItemLine(indent: string, gap: string, text: string, quotes: Quotes, trail: string)
    | Noise(line: string)

  function Shown(text: string, quotes: Quotes): (shown: string) {
    match quotes
    case Bare => text
    case Within(left, right) => [left] + text + [right]
  }

  /** A text on one line; bare, it has no blanks or pair of quotes around it. */
  predicate TextOk(text: string, quotes: Quotes) {
    && !HasTerminator(text)
    && match quotes
       case Bare =>
         && (text != "" ==> !IsSpace(text[0]) && !IsSpace(text[|text| - 1]))
         && !(|text| >= 2 && IsQuote(text[0]) && IsQuote(text[|text| - 1]))
       case Within(left, right) => IsQuote(left) && IsQuote(right)
  }

  function TextOfLine(line: Line): (text: string) {
    match line
    case KeyLine(key, gap, text, quotes, trail) => key + ":" + gap + Shown(text, quotes) + trail
    case ItemLine(indent, gap, text, quotes, trail) => indent + "-" + gap + Shown(text, quotes) + trail
    case Noise(text) => text
  }

  ghost predicate LineOk(line: Line) {
    match line
    case KeyLine(key, gap, text, quotes, trail) =>
      IsKey(key) && AllSpace(gap) && TextOk(text, quotes) && AllSpace(trail) && !HasTerminator(trail)
    case ItemLine(indent, gap, text, quotes, trail) =>
      && AllSpace(indent) && AllSpace(gap) && gap != "" && TextOk(text, quotes) && AllSpace(trail) && !HasTerminator(trail)
      && (Shown(text, quotes) == "" ==> |trail| == 1)
    case Noise(text) => (forall key, value :: !KeyShape(text, key, value)) && forall value :: !ItemShape(text, value)
  }

  lemma ShownFacts(text: string, quotes: Quotes, trail: string)
    requires TextOk(text, quotes) && AllSpace(trail) && !HasTerminator(trail)
    ensures var shown := Shown(text, quotes);
      && (shown != "" ==> !IsSpace(shown[0]) && !IsSpace(shown[|shown| - 1]))
      && !HasTerminator(shown + trail)
      && TrimEnd(shown + trail) == shown && StripQuotes(shown) == text
  {
    var shown := Shown(text, quotes);
    QuoteIsNoSpace();
    hide IsSpace;
    TrimEndIs(shown, trail);
    HasTerminatorAppend(shown, trail);
    match quotes
    case Bare =>
    case Within(left, right) =>
      assert shown[1..|shown| - 1] == text;
      HasTerminatorAppend([left] + text, [right]);
      HasTerminatorAppend([left], text);
  }

  lemma QuoteIsNoSpace()
    ensures forall c :: IsQuote(c) ==> !IsSpace(c) && !IsLineTerminator(c)
  {
  }

  // ---------- Every line is one of these ----------

  /** A value on one line without blanks around it, as a text in quotes or without. */
  lemma ShownAs(shown: string) returns (text: string, quotes: Quotes)
    requires !HasTerminator(shown) && (shown != "" ==> !IsSpace(shown[0]) && !IsSpace(shown[|shown| - 1]))
    ensures TextOk(text, quotes) && Shown(text, quotes) == shown
  {
    hide IsSpace;
    if |shown| >= 2 && IsQuote(shown[0]) && IsQuote(shown[|shown| - 1]) {
      text, quotes := shown[1..|shown| - 1], Within(shown[0], shown[|shown| - 1]);
      InnerHasNoTerminator(shown);
      assert shown == [shown[0]] + text + [shown[|shown| - 1]];
    } else {
      text, quotes := shown, Bare;
    }
  }

  /** A value that may have blanks behind it. */
  lemma ValueAs(value: string) returns (text: string, quotes: Quotes, trail: string)
    requires !HasTerminator(value) && (value != "" ==> !IsSpace(value[0]))
    ensures TextOk(text, quotes) && AllSpace(trail) && !HasTerminator(trail)
    ensures value == Shown(text, quotes) + trail && (Shown(text, quotes) == "" ==> value == "")
  {
    hide IsSpace, TextOk;
    trail := EndBlanks(value);
    var shown := TrimEnd(value);
    HasTerminatorAppend(shown, trail);
    SpaceStart(trail);
    assert "" + trail == trail;
    text, quotes := ShownAs(shown);
  }

  lemma SpaceStart(blanks: string)
    requires AllSpace(blanks)
    ensures blanks != "" ==> IsSpace(blanks[0])
  {
  }

  lemma {:induction false} EveryLine(text: string) returns (line: Line)
    ensures LineOk(line) && TextOfLine(line) == text
  {
    hide MatchKey, MatchItem, KeyShape, ItemShape, IsSpace, TextOk, AllSpace, HasTerminator, IsKey, Shown;
    if MatchKey(text).Some? {
      line := LineOfKey(text, MatchKey(text).value.0, MatchKey(text).value.1);
    } else if MatchItem(text).Some? {
      line := LineOfItem(text, MatchItem(text).value);
    } else {
      line := Noise(text);
      forall key, value
        ensures !KeyShape(text, key, value)
      {
        MatchKeyIff(text, key, value);
      }
      forall value
        ensures !ItemShape(text, value)
      {
        MatchItemIff(text, value);
      }
    }
  }

  lemma {:induction false} LineOfKey(line: string, key: string, value: string) returns (parts: Line)
    requires MatchKey(line) == Some((key, value))
    ensures LineOk(parts) && TextOfLine(parts) == line
  {
    MatchKeyIff(line, key, value);
    hide MatchKey, IsSpace, TextOk, HasTerminator, IsKey, Shown;
    var gap :| AllSpace(gap) && line == key + ":" + gap + value;
    var text, quotes, trail := ValueAs(value);
    parts := KeyLine(key, gap, text, quotes, trail);
    assert line == key + ":" + gap + Shown(text, quotes) + trail;
  }

  lemma {:induction false} LineOfItem(line: string, value: string) returns (parts: Line)
    requires MatchItem(line) == Some(value)
    ensures LineOk(parts) && TextOfLine(parts) == line
  {
    MatchItemIff(line, value);
    hide MatchItem, IsSpace, HasTerminator, IsLineTerminator;
    var indent, gap :| AllSpace(indent) && AllSpace(gap) && gap != "" && line == indent + "-" + gap + value;
    if IsSpace(value[0]) {
      parts := ItemLine(indent, gap, "", Bare, value);
      assert !HasTerminator("") by { NothingHasNoTerminator(); }
      assert indent + "-" + gap + "" + value == line;
    } else {
      hide TextOk, Shown;
      var text, quotes, trail := ValueAs(value);
      parts := ItemLine(indent, gap, text, quotes, trail);
      assert line == indent + "-" + gap + Shown(text, quotes) + trail;
    }
  }

  lemma NothingHasNoTerminator()
    ensures !HasTerminator("")
  {
  }

  // ---------- What one line does ----------

  /** What the parser does with a line, by its parts. */
  function Step(p: Parser, line: Line): (next: Parser) {
    match line
    case KeyLine(key, _, text, _, _) =>
      if text == "" then Parser(Some(key), p.out[key := List([])]) else Parser(None, p.out[key := Scalar(text)])
    case ItemLine(_, _, text, _, _) =>
      if p.listKey.Some? && p.listKey.value in p.out && p.out[p.listKey.value].List?
      then p.(out := p.out[p.listKey.value := List(p.out[p.listKey.value].items + [text])]) else p
    case Noise(_) => p
  }

  predicate ParserOk(p: Parser) {
    p.listKey.Some? ==> p.listKey.value in p.out && p.out[p.listKey.value].List?
  }

  /** The value the pattern finds in a key line. */
  lemma {:induction false} KeyLineMatches(key: string, gap: string, shown: string, trail: string)
    requires IsKey(key) && AllSpace(gap) && AllSpace(trail) && !HasTerminator(shown + trail)
    requires shown != "" ==> !IsSpace(shown[0])
    ensures MatchKey(key + ":" + gap + shown + trail) == Some((key, if shown == "" then "" else shown + trail))
  {
    var whole := key + ":" + gap + shown + trail;
    hide IsSpace, HasTerminator, IsKey, MatchKey;
    if shown == "" {
      var all := gap + trail;
      NothingHasNoTerminator();
      assert whole == key + ":" + all + "" && AllSpace(all);
      MatchKeyIff(whole, key, "");
    } else {
      var value := shown + trail;
      assert whole == key + ":" + gap + value && value[0] == shown[0];
      MatchKeyIff(whole, key, value);
    }
  }

  lemma {:induction false} KeyLineStep(p: Parser, line: Line)
    requires LineOk(line) && line.KeyLine?
    ensures OnLine(p, TextOfLine(line)) == Step(p, line)
  {
    var KeyLine(key, gap, text, quotes, trail) := line;
    var shown := Shown(text, quotes);
    ShownFacts(text, quotes, trail);
    KeyLineMatches(key, gap, shown, trail);
    TrimEndIs("", "");
    assert "" + "" == "";
    hide IsSpace, HasTerminator, TextOk, Shown, IsKey, MatchKey, MatchItem, StripQuotes, TrimEnd;
  }

  lemma {:induction false} NotAKey(line: string)
    requires line != "" && !IsKeyChar(line[0])
    ensures MatchKey(line).None?
  {
  }

  lemma BlankOrDash(indent: string, rest: string)
    requires AllSpace(indent)
    ensures var line := indent + "-" + rest; line != "" && !IsKeyChar(line[0])
  {
    if indent != "" { KeyCharFacts(indent[0]); }
  }

  /** The value the patterns find in an item line. */
  lemma {:induction false} ItemLineMatches(indent: string, gap: string, shown: string, trail: string)
    requires AllSpace(indent) && AllSpace(gap) && gap != "" && AllSpace(trail) && !HasTerminator(shown + trail)
    requires if shown == "" then |trail| == 1 else !IsSpace(shown[0])
    ensures var line, value := indent + "-" + gap + shown + trail, shown + trail;
      MatchKey(line).None? && MatchItem(line) == Some(value) && TrimStart(value) == if shown == "" then "" else value
  {
    var line, value := indent + "-" + gap + shown + trail, shown + trail;
    BlankOrDash(indent, gap + shown + trail);
    assert line == indent + "-" + (gap + shown + trail);
    NotAKey(line);
    hide IsSpace, HasTerminator, MatchKey, MatchItem, IsKeyChar;
    assert line == indent + "-" + gap + value;
    if shown == "" {
      assert value == trail && trail + "" == trail;
      TrimStartIs(trail, "");
    } else {
      assert value[0] == shown[0] && "" + value == value;
      TrimStartIs("", value);
    }
    ItemMatches(indent, gap, value);
  }

  lemma {:induction false} ItemLineStep(p: Parser, line: Line)
    requires LineOk(line) && line.ItemLine? && ParserOk(p)
    ensures OnLine(p, TextOfLine(line)) == Step(p, line)
  {
    var ItemLine(indent, gap, text, quotes, trail) := line;
    var shown := Shown(text, quotes);
    ShownFacts(text, quotes, trail);
    ItemLineMatches(indent, gap, shown, trail);
    TrimEndIs("", "");
    assert "" + "" == "";
    hide IsSpace, HasTerminator, TextOk, Shown, MatchKey, MatchItem, StripQuotes, TrimEnd, TrimStart, AllSpace;
  }

  lemma {:induction false} NoiseStep(p: Parser, line: Line)
    requires LineOk(line) && line.Noise?
    ensures OnLine(p, TextOfLine(line)) == p
  {
    hide KeyShape, ItemShape, MatchKey, MatchItem;
    var text := line.line;
    if MatchKey(text).Some? { MatchKeyIff(text, MatchKey(text).value.0, MatchKey(text).value.1); }
    if MatchItem(text).Some? { MatchItemIff(text, MatchItem(text).value); }
  }

  lemma {:induction false} LineStep(p: Parser, line: Line)
    requires LineOk(line) && ParserOk(p)
    ensures OnLine(p, TextOfLine(line)) == Step(p, line) && ParserOk(Step(p, line))
  {
    hide LineOk, TextOfLine, OnLine;
    match line
    case KeyLine(_, _, _, _, _) => KeyLineStep(p, line);
    case ItemLine(_, _, _, _, _) => ItemLineStep(p, line);
    case Noise(_) => NoiseStep(p, line);
  }

  // ---------- What a block means ----------

  function TextOfLines(lines: seq<Line>): (texts: seq<string>)
    ensures |texts| == |lines|
  {
    seq(|lines|, i requires 0 <= i < |lines| => TextOfLine(lines[i]))
  }

  /** The items up to the next key. */
  function ItemsUpToKey(lines: seq<Line>): (items: seq<string>) {
    if lines == [] || lines[0].KeyLine? then []
    else (if lines[0].ItemLine? then [lines[0].text] else []) + ItemsUpToKey(lines[1..])
  }

  /** Line `i` is the last one with this key. */
  ghost predicate IsLastKey(lines: seq<Line>, i: nat, key: string) {
    && i < |lines| && lines[i].KeyLine? && lines[i].key == key
    && forall j :: i < j < |lines| ==> !(lines[j].KeyLine? && lines[j].key == key)
  }

  /** What a key line sets: its text, or without one the items below it. */
  function ValueOf(lines: seq<Line>, i: nat): (value: Value)
    requires i < |lines| && lines[i].KeyLine?
  {
    if lines[i].text != "" then Scalar(lines[i].text) else List(ItemsUpToKey(lines[i + 1..]))
  }

  /** Each key has the value its last line sets, and there are no other keys. */
  ghost predicate Means(lines: seq<Line>, out: map<string, Value>) {
    && (forall key <- out :: exists i: nat :: IsLastKey(lines, i, key))
    && forall key, i: nat :: IsLastKey(lines, i, key) ==> key in out && out[key] == ValueOf(lines, i)
  }

  /** A list is open when the last key line has no text. */
  ghost predicate ListOpen(lines: seq<Line>, listKey: Option<string>) {
    if exists i: nat :: LastKeyLine(lines, i) then
      var i: nat :| LastKeyLine(lines, i);
      listKey == if lines[i].text == "" then Some(lines[i].key) else None
    else listKey.None?
  }

  ghost predicate LastKeyLine(lines: seq<Line>, i: nat) {
    i < |lines| && lines[i].KeyLine? && forall j :: i < j < |lines| ==> !lines[j].KeyLine?
  }

  lemma LastKeyLineUnique(lines: seq<Line>, i: nat, j: nat)
    requires LastKeyLine(lines, i) && LastKeyLine(lines, j)
    ensures i == j
  {
  }

  lemma {:induction false} ItemsSnoc(lines: seq<Line>, line: Line)
    ensures ItemsUpToKey(lines + [line]) == ItemsUpToKey(lines) +
      if line.ItemLine? && (forall l <- lines :: !l.KeyLine?) then [line.text] else []
    decreases |lines|
  {
    var all := lines + [line];
    if lines == [] {
      assert all[1..] == [];
    } else {
      assert all[1..] == lines[1..] + [line] && lines == [lines[0]] + lines[1..];
      ItemsSnoc(lines[1..], line);
    }
  }

  lemma ValueSnoc(lines: seq<Line>, i: nat, line: Line)
    requires i < |lines| && lines[i].KeyLine?
    ensures ValueOf(lines + [line], i) ==
      if lines[i].text == "" && line.ItemLine? && LastKeyLine(lines, i)
      then List(ItemsUpToKey(lines[i + 1..]) + [line.text]) else ValueOf(lines, i)
  {
    hide ItemsUpToKey;
    assert (lines + [line])[i + 1..] == lines[i + 1..] + [line];
    assert forall j :: i < j < |lines| ==> lines[j] == lines[i + 1..][j - (i + 1)];
    ItemsSnoc(lines[i + 1..], line);
  }

  lemma LastKeySnoc(lines: seq<Line>, line: Line, i: nat, key: string)
    ensures IsLastKey(lines + [line], i, key) <==>
      if line.KeyLine? && line.key == key then i == |lines| else IsLastKey(lines, i, key)
  {
    var all := lines + [line];
    assert forall j :: 0 <= j < |lines| ==> all[j] == lines[j];
    assert all[|lines|] == line;
  }

  lemma {:induction false} MeansKey(lines: seq<Line>, line: Line, p: Parser)
    requires Means(lines, p.out) && line.KeyLine?
    ensures Means(lines + [line], Step(p, line).out)
  {
    hide LastKeyLine, ValueOf;
    var all, n := lines + [line], |lines|;
    assert all[n] == line && all[n + 1..] == [];
    LastKeySnoc(lines, line, n, line.key);
    forall key, i: nat | IsLastKey(all, i, key)
      ensures key in Step(p, line).out && Step(p, line).out[key] == ValueOf(all, i)
    {
      LastKeySnoc(lines, line, i, key);
      if key == line.key { ValueOfLast(lines, line); } else { KeyInside(lines, i, key); ValueSnoc(lines, i, line); }
    }
    forall key | key in Step(p, line).out
      ensures exists i: nat :: IsLastKey(all, i, key)
    {
      if key != line.key {
        var i: nat :| IsLastKey(lines, i, key);
        LastKeySnoc(lines, line, i, key);
        assert IsLastKey(all, i, key);
      }
    }
  }

  lemma KeyInside(lines: seq<Line>, i: nat, key: string)
    requires IsLastKey(lines, i, key)
    ensures i < |lines| && lines[i].KeyLine? && lines[i].key == key
  {
  }

  lemma ValueOfLast(lines: seq<Line>, line: Line)
    requires line.KeyLine?
    ensures (lines + [line])[|lines|] == line
    ensures ValueOf(lines + [line], |lines|) == if line.text != "" then Scalar(line.text) else List([])
  {
    assert (lines + [line])[|lines| + 1..] == [];
  }

  lemma OpenIsLast(lines: seq<Line>, listKey: Option<string>)
    requires ListOpen(lines, listKey)
    ensures forall i: nat :: LastKeyLine(lines, i) ==> listKey == if lines[i].text == "" then Some(lines[i].key) else None
    ensures listKey.Some? ==> exists i: nat :: LastKeyLine(lines, i) && IsLastKey(lines, i, listKey.value)
  {
    if i: nat :| LastKeyLine(lines, i) {
      var last: nat :| LastKeyLine(lines, last) && listKey == if lines[last].text == "" then Some(lines[last].key) else None;
      forall j: nat | LastKeyLine(lines, j)
        ensures j == last
      {
        LastKeyLineUnique(lines, j, last);
      }
      if listKey.Some? { assert IsLastKey(lines, last, listKey.value); }
    }
  }

  /** An item, or a line that means nothing. */
  lemma {:induction false} MeansOther(lines: seq<Line>, line: Line, p: Parser)
    requires Means(lines, p.out) && ListOpen(lines, p.listKey) && ParserOk(p) && !line.KeyLine?
    ensures Means(lines + [line], Step(p, line).out)
  {
    var all, next := lines + [line], Step(p, line).out;
    OpenIsLast(lines, p.listKey);
    forall key, i: nat | IsLastKey(all, i, key)
      ensures key in next && next[key] == ValueOf(all, i)
    {
      LastKeySnoc(lines, line, i, key);
      ValueSnoc(lines, i, line);
    }
    forall key | key in next
      ensures exists i: nat :: IsLastKey(all, i, key)
    {
      var i: nat :| IsLastKey(lines, i, key);
      LastKeySnoc(lines, line, i, key);
      assert IsLastKey(all, i, key);
    }
  }

  lemma OpenSnoc(lines: seq<Line>, line: Line, p: Parser)
    requires ListOpen(lines, p.listKey)
    ensures ListOpen(lines + [line], Step(p, line).listKey)
  {
    var all := lines + [line];
    assert all[|lines|] == line && forall j :: 0 <= j < |lines| ==> all[j] == lines[j];
    if line.KeyLine? {
      assert LastKeyLine(all, |lines|);
    } else {
      forall i: nat
        ensures LastKeyLine(all, i) <==> LastKeyLine(lines, i)
      {
      }
    }
  }

  lemma {:induction false} LinesMean(lines: seq<Line>)
    requires forall line <- lines :: LineOk(line)
    ensures var p := OnLines(Parser(None, map[]), TextOfLines(lines));
      Means(lines, p.out) && ListOpen(lines, p.listKey) && ParserOk(p)
  {
    hide LineOk, TextOfLine, OnLine, Step, ListOpen, Means;
    if lines == [] {
      NothingMeans();
    } else {
      var n := |lines| - 1;
      var front, last := lines[..n], lines[n];
      assert lines == front + [last];
      LinesMean(front);
      var p := OnLines(Parser(None, map[]), TextOfLines(front));
      assert TextOfLines(lines) == TextOfLines(front) + [TextOfLine(last)];
      OnLinesAppend(Parser(None, map[]), TextOfLines(front), [TextOfLine(last)]);
      OnOneLine(p, TextOfLine(last), []);
      assert [TextOfLine(last)] + [] == [TextOfLine(last)];
      LineStep(p, last);
      OpenSnoc(front, last, p);
      if last.KeyLine? { MeansKey(front, last, p); } else { MeansOther(front, last, p); }
    }
  }

  lemma NothingMeans()
    ensures Means([], map[]) && ListOpen([], None)
  {
  }

  /** What parsing a note gives, whoever wrote its front matter, and whatever follows. */
  lemma {:induction false} ParseMeans(lines: seq<Line>, body: string)
    requires forall line <- lines :: LineOk(line) && InnerLine(TextOfLine(line))
    ensures Means(lines, Parse("---" + Below(TextOfLines(lines)) + "\n---" + body))
  {
    hide Means, LineOk, TextOfLine, InnerLine, OnLine;
    var texts := TextOfLines(lines);
    assert forall text <- texts :: InnerLine(text);
    ParseBlock(texts, body);
    LinesMean(lines);
  }

  lemma {:induction false} ParseBlock(lines: seq<string>, body: string)
    requires forall line <- lines :: InnerLine(line)
    ensures Parse("---" + Below(lines) + "\n---" + body) == OnLines(Parser(None, map[]), lines).out
  {
    hide OnLines, FindFence, SplitLines, OnLine;
    var raw := "---" + Below(lines) + "\n---" + body;
    FindPrintedFence("---", lines, body);
    assert raw[3..|"---" + Below(lines)|] == "" + Below(lines);
    SplitPrinted("", lines);
    OnOneLine(Parser(None, map[]), "", lines);
    BlankLine(Parser(None, map[]));
  }

  // ---------- Any text at all ----------

  predicate FenceAt(s: string, k: nat) {
    k + 4 <= |s| && s[k..k + 4] == "\n---"
  }

  /** The closing fence is the first line feed followed by three dashes. */
  lemma {:induction false} FenceIff(s: string, from: nat, k: nat)
    ensures FindFence(s, from) == Some(k) <==>
      from <= k && FenceAt(s, k) && forall j: nat :: from <= j < k ==> !FenceAt(s, j)
    ensures FindFence(s, from).None? <==> forall j: nat :: from <= j ==> !FenceAt(s, j)
    decreases |s| - from
  {
    FenceStep(s, from);
    hide FenceAt, FindFence;
    if from + 4 <= |s| && !FenceAt(s, from) { FenceIff(s, from + 1, k); }
  }

  lemma FenceStep(s: string, from: nat)
    ensures FindFence(s, from) ==
      if from + 4 > |s| then None else if FenceAt(s, from) then Some(from) else FindFence(s, from + 1)
    ensures forall j: nat :: j + 4 > |s| ==> !FenceAt(s, j)
  {
  }

  /** The lines of a block are what its line feeds separate. */
  lemma {:induction false} LinesIff(s: string, lines: seq<string>)
    ensures SplitLines(s) == lines <==>
      lines != [] && (forall line <- lines :: '\n' !in line) && s == lines[0] + Below(lines[1..])
  {
    LinesOf(s);
    if lines != [] && (forall line <- lines :: '\n' !in line) && s == lines[0] + Below(lines[1..]) {
      SplitPrinted(lines[0], lines[1..]);
      assert [lines[0]] + lines[1..] == lines;
    }
  }

  lemma {:induction false} LinesOf(s: string)
    ensures var lines := SplitLines(s);
      (forall line <- lines :: '\n' !in line) && s == lines[0] + Below(lines[1..])
  {
    if s != "" {
      var rest := SplitLines(s[1..]);
      LinesOf(s[1..]);
      assert s == [s[0]] + s[1..];
      assert rest == [rest[0]] + rest[1..];
    }
  }

  lemma {:induction false} EveryLines(texts: seq<string>) returns (lines: seq<Line>)
    ensures TextOfLines(lines) == texts && forall line <- lines :: LineOk(line)
  {
    hide LineOk, TextOfLine;
    lines := [];
    if texts != [] {
      var front := EveryLines(texts[..|texts| - 1]);
      var last := EveryLine(texts[|texts| - 1]);
      lines := front + [last];
      assert TextOfLines(lines) == TextOfLines(front) + [TextOfLine(last)];
    }
  }

  /** The result for any text that has a block, and for any that has none. */
  lemma {:induction false} EveryNoteMeans(raw: string) returns (lines: seq<Line>)
    ensures forall line <- lines :: LineOk(line)
    ensures Means(lines, Parse(raw))
    ensures if "---" <= raw && FindFence(raw, 3).Some?
            then TextOfLines(lines) == SplitLines(raw[3..FindFence(raw, 3).value]) else lines == []
  {
    hide LineOk, TextOfLine, OnLine, OnLines, FindFence, SplitLines, Means;
    if "---" <= raw && FindFence(raw, 3).Some? {
      lines := EveryLines(SplitLines(raw[3..FindFence(raw, 3).value]));
      LinesMean(lines);
    } else {
      lines := [];
      NothingMeans();
    }
  }

  // ---------- Carriage returns ----------

  /** A line that ends in CR is never an item, and a key only without a text: with CRLF endings all values are lost. */
  lemma {:induction false} CarriageReturnLoses(p: Parser, line: string)
    ensures var next := OnLine(p, line + "\r");
      next == p || exists key :: next == Parser(Some(key), p.out[key := List([])])
  {
    hide MatchKey, MatchItem, IsSpace, AllSpace;
    var all := line + "\r";
    assert all[|all| - 1] == '\r';
    var m, li := MatchKey(all), MatchItem(all);
    if m.Some? {
      MatchKeyIff(all, m.value.0, m.value.1);
      EndsInReturn(all, m.value.1);
      NothingTrimmed();
    } else if li.Some? {
      MatchItemIff(all, li.value);
      EndsInReturn(all, li.value);
    }
  }

  lemma NothingTrimmed()
    ensures StripQuotes(TrimEnd("")) == ""
  {
  }

  lemma EndsInReturn(all: string, value: string)
    requires all != "" && all[|all| - 1] == '\r' && !HasTerminator(value)
    requires exists front: string :: all == front + value
    ensures value == ""
  {
    if value != "" {
      assert value[|value| - 1] == all[|all| - 1];
      assert IsLineTerminator(value[|value| - 1]);
    }
  }
}
