/**
 * The streaming content tag: strip one leading byte order mark, turn every line ending into
 * a line feed, and feed the rest to a hash.  The hash is represented by the bytes fed to it.
 */
module ContentTag {
  import opened Bytes

  const BOM: seq<Byte> := [0xEF, 0xBB, 0xBF]

  predicate StartsWithBom(data: seq<Byte>) {
    |data| >= 3 && data[..3] == BOM
  }

  function StripBom(data: seq<Byte>): (rest: seq<Byte>) {
    if StartsWithBom(data) then data[3..] else data
  }

  lemma StripBomExtend(data: seq<Byte>, more: seq<Byte>)
    requires |data| >= 3
    ensures StripBom(data + more) == StripBom(data) + more
  {
    assert (data + more)[..3] == data[..3];
  }

  /** CRLF and lone CR become LF. */
  function Normalize(data: seq<Byte>): (text: seq<Byte>) {
    if data == [] then []
    else if data[0] != CR then [data[0]] + Normalize(data[1..])
    else if |data| > 1 && data[1] == LF then [LF] + Normalize(data[2..])
    else [LF] + Normalize(data[1..])
  }

  /** What the hash of a whole file is fed. */
  function Fed(data: seq<Byte>): (bytes: seq<Byte>) {
    Normalize(StripBom(data))
  }

  predicate EndsWithCr(data: seq<Byte>) {
    data != [] && data[|data| - 1] == CR
  }

  /** What one more byte adds; a line feed after a carriage return has already been written. */
  function Added(data: seq<Byte>, b: Byte): (text: seq<Byte>) {
    if EndsWithCr(data) && b == LF then [] else if b == CR then [LF] else [b]
  }

  lemma {:induction false} NormalizeSnoc(data: seq<Byte>, b: Byte)
    ensures Normalize(data + [b]) == Normalize(data) + Added(data, b)
    decreases |data|
  {
    var more, skip := data + [b], if |data| > 1 && data[0] == CR && data[1] == LF then 2 else 1;
    if |data| < skip {
      assert more[1..] == [];
    } else if data == [CR] {
      NormalizeSnoc([], b);
      assert more[1..] == [b] && more[2..] == [] && data[1..] == [];
    } else {
      NormalizeSnoc(data[skip..], b);
      assert more[skip..] == data[skip..] + [b];
      Associate([if data[0] == CR then LF else data[0]], Normalize(data[skip..]), Added(data, b));
    }
  }

  /** No carriage return reaches the hash. */
  lemma {:induction false} NormalizeRemovesCr(data: seq<Byte>)
    ensures CR !in Normalize(data)
    ensures |Normalize(data)| <= |data|
  {
    if data != [] {
      NormalizeRemovesCr(data[1..]);
      if |data| > 1 { NormalizeRemovesCr(data[2..]); }
    }
  }

  /** Text without carriage returns is fed as it is, so normalising twice changes nothing. */
  lemma {:induction false} NormalizeKeepsUnix(data: seq<Byte>, rest: seq<Byte>)
    requires CR !in data
    ensures Normalize(data + rest) == data + Normalize(rest)
  {
    if data == [] {
      assert data + rest == rest;
    } else {
      NormalizeKeepsUnix(data[1..], rest);
      assert (data + rest)[1..] == data[1..] + rest;
    }
  }

  lemma {:induction false} NormalizeTwice(data: seq<Byte>)
    ensures Normalize(Normalize(data)) == Normalize(data)
  {
    NormalizeRemovesCr(data);
    NormalizeKeepsUnix(Normalize(data), []);
    assert Normalize(data) + [] == Normalize(data);
  }

  // ---------- Files that differ only in their line endings ----------

  datatype Ending = Lf | CrLf | Cr

  function EndingBytes(ending: Ending): (bytes: seq<Byte>) {
    match ending
    case Lf => [LF]
    case CrLf => [CR, LF]
    case Cr => [CR]
  }

  /** A line of text and how it happens to be terminated. */
  datatype Line = Line(text: seq<Byte>, ending: Ending)

  predicate Plain(text: seq<Byte>) {
    CR !in text && LF !in text
  }

  predicate PlainLines(lines: seq<Line>) {
    forall line <- lines :: Plain(line.text)
  }

  function Render(lines: seq<Line>, last: seq<Byte>): (data: seq<Byte>) {
    if lines == [] then last else lines[0].text + EndingBytes(lines[0].ending) + Render(lines[1..], last)
  }

  /** The same lines, all ended by a line feed. */
  function Unix(lines: seq<Line>, last: seq<Byte>): (data: seq<Byte>) {
    if lines == [] then last else lines[0].text + [LF] + Unix(lines[1..], last)
  }

  /** A lone CR directly before an empty line ended by LF: the bytes read as one CRLF. */
  predicate Merges(lines: seq<Line>) {
    exists i :: 0 <= i < |lines| - 1 && lines[i].ending == Cr && lines[i + 1] == Line([], Lf)
  }

  lemma {:induction false} RenderedLines(lines: seq<Line>, last: seq<Byte>)
    requires PlainLines(lines) && Plain(last)
    ensures |Normalize(Render(lines, last))| <= |Unix(lines, last)|
    ensures !Merges(lines) ==> Normalize(Render(lines, last)) == Unix(lines, last)
    ensures Merges(lines) ==> |Normalize(Render(lines, last))| < |Unix(lines, last)|
  {
    if lines == [] {
      NormalizeKeepsUnix(last, []);
      assert last + [] == last;
    } else {
      var line, rest := lines[0], lines[1..];
      var tail := Render(rest, last);
      RenderedLines(rest, last);
      Associate(line.text, EndingBytes(line.ending), tail);
      NormalizeKeepsUnix(line.text, EndingBytes(line.ending) + tail);
      NormalizeEnding(line.ending, tail);
      RenderStart(rest, last);
      Associate(line.text, [LF], Normalize(tail));
      assert forall i :: 0 <= i < |rest| ==> rest[i] == lines[i + 1];
      assert Merges(rest) ==> Merges(lines);
    }
  }

  lemma NormalizeEnding(ending: Ending, tail: seq<Byte>)
    ensures Normalize(EndingBytes(ending) + tail) ==
            if ending == Cr && tail != [] && tail[0] == LF then [LF] + Normalize(tail[1..]) else [LF] + Normalize(tail)
    ensures tail != [] && tail[0] == LF ==> Normalize(tail) == [LF] + Normalize(tail[1..])
  {
    var data := EndingBytes(ending) + tail;
    match ending
    case Lf => assert data[1..] == tail;
    case CrLf => assert data[2..] == tail;
    case Cr =>
      assert data[1..] == tail;
      if tail != [] { assert data[2..] == tail[1..]; }
  }

  lemma RenderStart(lines: seq<Line>, last: seq<Byte>)
    requires PlainLines(lines) && Plain(last)
    ensures var data := Render(lines, last);
      (data != [] && data[0] == LF) <==> (lines != [] && lines[0] == Line([], Lf))
  {
    if lines == [] {
      assert last != [] ==> last[0] in last;
    } else if lines[0].text != [] {
      assert lines[0].text[0] in lines[0].text && lines[0] in lines;
    }
  }

  lemma {:induction false} UnixHasNoCr(lines: seq<Line>, last: seq<Byte>)
    requires PlainLines(lines) && Plain(last)
    ensures CR !in Unix(lines, last)
  {
    if lines != [] {
      UnixHasNoCr(lines[1..], last);
      assert lines[0] in lines;
    }
  }

  /** A byte order mark is a part of the first line's text, however that line ends. */
  lemma BomOfText(text: seq<Byte>, ending: Ending, tail: seq<Byte>)
    requires Plain(text)
    ensures var data := text + EndingBytes(ending) + tail;
      && (StartsWithBom(data) <==> StartsWithBom(text))
      && StripBom(data) == StripBom(text) + EndingBytes(ending) + tail
  {
    var data := text + EndingBytes(ending) + tail;
    assert |text| < |data| && (data[|text|] == CR || data[|text|] == LF);
    if |text| >= 3 {
      assert data[..3] == text[..3];
      assert data[3..] == text[3..] + EndingBytes(ending) + tail;
    } else {
      assert BOM[|text|] != data[|text|];
      assert |data| >= 3 ==> data[..3][|text|] == data[|text|];
    }
  }

  /** The text of the first line has no part in a merge. */
  lemma SameMerges(a: seq<Line>, b: seq<Line>)
    requires a != [] && b != [] && a[0].ending == b[0].ending && a[1..] == b[1..]
    ensures Merges(a) <==> Merges(b)
  {
    assert forall i :: 0 <= i < |a| - 1 ==> a[i + 1] == a[1..][i];
    assert forall i :: 0 <= i < |b| - 1 ==> b[i + 1] == b[1..][i];
    assert forall i :: 0 < i < |a| ==> a[i] == a[1..][i - 1];
    assert forall i :: 0 < i < |b| ==> b[i] == b[1..][i - 1];
  }

  /** Without its byte order mark a rendering is a rendering, and the same one with LF endings. */
  lemma StripRendered(lines: seq<Line>, last: seq<Byte>) returns (lines': seq<Line>, last': seq<Byte>)
    requires PlainLines(lines) && Plain(last)
    ensures PlainLines(lines') && Plain(last') && (Merges(lines') <==> Merges(lines))
    ensures StripBom(Render(lines, last)) == Render(lines', last') && StripBom(Unix(lines, last)) == Unix(lines', last')
  {
    if lines == [] {
      lines', last' := [], StripBom(last);
    } else {
      var line := lines[0];
      assert line in lines;
      lines', last' := [Line(StripBom(line.text), line.ending)] + lines[1..], last;
      BomOfText(line.text, line.ending, Render(lines[1..], last));
      BomOfText(line.text, Lf, Unix(lines[1..], last));
      assert lines'[1..] == lines[1..];
      SameMerges(lines, lines');
    }
  }

  /**
   * Whatever endings lines are written with, they feed the hash the same bytes as with LF, with or
   * without a byte order mark, exactly as long as no lone CR runs into the LF of an empty line.
   */
  lemma {:induction false} TagIgnoresEndings(lines: seq<Line>, last: seq<Byte>)
    requires PlainLines(lines) && Plain(last)
    ensures Fed(Render(lines, last)) == Fed(Unix(lines, last)) <==> !Merges(lines)
  {
    hide Render, Unix, Merges, Normalize;
    var lines', last' := StripRendered(lines, last);
    RenderedLines(lines', last');
    UnixHasNoCr(lines', last');
    NormalizeKeepsUnix(Unix(lines', last'), []);
    NormalizeNothing();
    assert Unix(lines', last') + [] == Unix(lines', last');
  }

  lemma NormalizeNothing()
    ensures Normalize([]) == []
  {
  }

  /** One byte before a rendering, other than a line break. */
  lemma RenderPrepend(b: Byte, lines: seq<Line>, last: seq<Byte>) returns (longer: seq<Line>, rest: seq<Byte>)
    requires PlainLines(lines) && Plain(last) && !Merges(lines) && b != CR && b != LF
    ensures PlainLines(longer) && Plain(rest) && !Merges(longer)
    ensures Render(longer, rest) == [b] + Render(lines, last)
  {
    if lines == [] {
      longer, rest := [], [b] + last;
    } else {
      var first := lines[0];
      longer, rest := [Line([b] + first.text, first.ending)] + lines[1..], last;
      assert first in lines && longer[1..] == lines[1..];
      Associate([b], first.text, EndingBytes(first.ending));
      Associate([b], first.text + EndingBytes(first.ending), Render(lines[1..], last));
    }
  }

  /** An empty line before a rendering. */
  lemma RenderEmptyLine(ending: Ending, lines: seq<Line>, last: seq<Byte>) returns (longer: seq<Line>)
    requires PlainLines(lines) && Plain(last) && !Merges(lines)
    requires ending == Cr ==> !(Render(lines, last) != [] && Render(lines, last)[0] == LF)
    ensures PlainLines(longer) && !Merges(longer)
    ensures Render(longer, last) == EndingBytes(ending) + Render(lines, last)
  {
    RenderStart(lines, last);
    longer := [Line([], ending)] + lines;
    assert longer[1..] == lines;
    assert [] + EndingBytes(ending) == EndingBytes(ending);
  }

  /** Every file is a rendering of some lines that do not merge. */
  lemma {:induction false} EveryFileIsRendered(data: seq<Byte>) returns (lines: seq<Line>, last: seq<Byte>)
    ensures PlainLines(lines) && Plain(last) && !Merges(lines)
    ensures Render(lines, last) == data
  {
    hide Render;
    if data == [] {
      lines, last := [], [];
      RenderNothing();
    } else if data[0] == CR && |data| > 1 && data[1] == LF {
      lines, last := EveryFileIsRendered(data[2..]);
      lines := RenderEmptyLine(CrLf, lines, last);
      assert data == [CR, LF] + data[2..];
    } else {
      lines, last := EveryFileIsRendered(data[1..]);
      assert data == [data[0]] + data[1..];
      if data[0] == LF {
        lines := RenderEmptyLine(Lf, lines, last);
      } else if data[0] == CR {
        lines := RenderEmptyLine(Cr, lines, last);
      } else {
        lines, last := RenderPrepend(data[0], lines, last);
      }
    }
  }

  lemma RenderNothing()
    ensures Render([], []) == []
  {
  }

  /** One byte order mark makes no difference, exactly when it is not followed by another. */
  lemma TagIgnoresOneBom(data: seq<Byte>)
    ensures Fed(BOM + data) == Fed(data) <==> !StartsWithBom(data)
  {
    assert (BOM + data)[..3] == BOM && (BOM + data)[3..] == data;
    if StartsWithBom(data) {
      assert data == BOM + data[3..];
      NormalizeKeepsUnix(BOM, data[3..]);
      assert |Fed(BOM + data)| == 3 + |Fed(data)|;
    }
  }

  // ---------- The hasher ----------

  /** The line feed still to be written for a carriage return. */
  function Owed(pending: bool): (text: seq<Byte>) {
    if pending then [LF] else []
  }

  function Written(pending: bool, byte: Byte): (text: seq<Byte>) {
    if pending && byte == LF then [LF] else Owed(pending) + (if byte == CR then [] else [byte])
  }

  lemma WriteStep(data: seq<Byte>, byte: Byte, written: seq<Byte>)
    requires written + Owed(EndsWithCr(data)) == Normalize(data)
    ensures written + Written(EndsWithCr(data), byte) + Owed(byte == CR) == Normalize(data + [byte])
    ensures EndsWithCr(data + [byte]) == (byte == CR)
    ensures |Written(EndsWithCr(data), byte)| + |Owed(byte == CR)| <= 1 + |Owed(EndsWithCr(data))|
  {
    hide Normalize;
    NormalizeSnoc(data, byte);
  }

  /** `createContentTagHasher`: the closure's variables, and the bytes the hash has been given. */
  class ContentTagHasher {
    var prefix: seq<Byte>
    var started: bool
    var pendingCarriageReturn: bool
    var finished: bool
    var fed: seq<Byte>
    ghost var input: seq<Byte>

    /** Written so far, plus the line feed owed for a carriage return. */
    ghost predicate Wrote(body: seq<Byte>)
      reads this
    {
      && pendingCarriageReturn == EndsWithCr(body)
      && fed + Owed(pendingCarriageReturn) == Normalize(body)
    }

    ghost predicate Valid()
      reads this
    {
      !finished ==>
        if started then prefix == [] && |input| >= 3 && Wrote(StripBom(input))
        else |input| < 3 && prefix == input && Wrote([])
    }

    constructor ()
      ensures Valid() && !finished && input == []
    {
      prefix, started, pendingCarriageReturn, finished := [], false, false, false;
      fed, input := [], [];
    }

    /** One turn of the loop of `writeNormalized`. */
    method WriteByte(normalized: array<Byte>, length: nat, byte: Byte) returns (next: nat)
      requires length + |Owed(pendingCarriageReturn)| < normalized.Length
      modifies normalized, this`pendingCarriageReturn
      ensures next == length + |Written(old(pendingCarriageReturn), byte)| <= normalized.Length
      ensures normalized[..next] == old(normalized[..length]) + Written(old(pendingCarriageReturn), byte)
      ensures pendingCarriageReturn == (byte == CR)
    {
      ghost var before := normalized[..length];
      next := length;
      if pendingCarriageReturn {
        normalized[next] := LF;
        next := next + 1;
        pendingCarriageReturn := false;
        assert normalized[..next] == before + [LF];
        if byte == LF { return; }
      }
      if byte == CR {
        pendingCarriageReturn := true;
      } else {
        before := normalized[..next];
        normalized[next] := byte;
        next := next + 1;
        assert normalized[..next] == before + [byte];
      }
    }

    /** `writeNormalized`: never writes past the `length + 1` bytes of its scratch buffer. */
    method WriteNormalized(bytes: seq<Byte>, ghost body: seq<Byte>)
      requires Wrote(body)
      modifies this`pendingCarriageReturn, this`fed
      ensures Wrote(body + bytes)
    {
      hide Normalize, Written, EndsWithCr;
      var normalized := new Byte[|bytes| + 1](_ => 0);
      var length: nat := 0;
      ghost var done, text := body, fed;
      var i := 0;
      while i < |bytes|
        invariant 0 <= i <= |bytes| && fed == old(fed) && done == body + bytes[..i]
        invariant length + |Owed(pendingCarriageReturn)| <= i + 1
        invariant pendingCarriageReturn == EndsWithCr(done)
        invariant text == fed + normalized[..length] && text + Owed(pendingCarriageReturn) == Normalize(done)
        modifies this`pendingCarriageReturn, normalized
      {
        var byte := bytes[i];
        WriteStep(done, byte, text);
        ghost var out := Written(pendingCarriageReturn, byte);
        Associate(fed, normalized[..length], out);
        length := WriteByte(normalized, length, byte);
        done, text := done + [byte], text + out;
        i := i + 1;
      }
      assert done == body + bytes;
      if length > 0 {
        fed := fed + normalized[..length];
      }
      assert text == fed;
    }

    /** Returns false, changing nothing, where the source throws. */
    method Update(bytes: seq<Byte>) returns (ok: bool)
      requires Valid()
      modifies this
      ensures Valid() && finished == old(finished) && ok == !finished
      ensures input == if ok then old(input) + bytes else old(input)
    {
      hide Normalize, EndsWithCr;
      if finished { return false; }
      ok := true;
      if !started {
        input := input + bytes;
        var candidate := if |prefix| == 0 then bytes else prefix + bytes;
        assert candidate == input;
        if |candidate| < 3 {
          prefix := candidate;
          return;
        }
        started := true;
        prefix := [];
        var body := if candidate[..3] == BOM then candidate[3..] else candidate;
        WriteNormalized(body, []);
        assert [] + body == body && body == StripBom(input);
        return;
      }
      StripBomExtend(input, bytes);
      input := input + bytes;
      WriteNormalized(bytes, StripBom(old(input)));
    }

    /** The bytes the tag is the hash of; None where the source throws. */
    method Digest() returns (ok: bool, hashed: seq<Byte>)
      requires Valid()
      modifies this
      ensures ok == !old(finished) && finished && Valid()
      ensures ok ==> hashed == Fed(input) && input == old(input)
    {
      if finished { return false, []; }
      finished := true;
      ok := true;
      ghost var body := if started then StripBom(input) else [];
      if !started && |prefix| > 0 {
        WriteNormalized(prefix, []);
        body := prefix;
        assert [] + prefix == prefix;
      }
      if pendingCarriageReturn {
        fed := fed + [LF];
      }
      assert body == StripBom(input);
      hashed := fed;
    }
  }
}
