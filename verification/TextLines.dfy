/**
 * Lines of a file seen as bytes and seen as text.
 *
 * One reader splits the bytes and decodes each line; another decodes everything and splits
 * the text.  This module proves when the two agree, for every file.
 */
module TextLines {
  import opened Bytes
  import opened Lines
  import opened Utf8
  import opened Utf8Validator
  import Utf16

  /** Each line of bytes, decoded on its own. */
  function DecodeEach(lines: seq<seq<Byte>>): (texts: seq<Text>)
    ensures |texts| == |lines|
  {
    if lines == [] then [] else [Decode(lines[0])] + DecodeEach(lines[1..])
  }

  lemma {:induction false} DecodeEachAppend(a: seq<seq<Byte>>, b: seq<seq<Byte>>)
    ensures DecodeEach(a + b) == DecodeEach(a) + DecodeEach(b)
  {
    hide Decode;
    if a == [] {
      assert a + b == b;
    } else {
      DecodeEachAppend(a[1..], b);
      assert (a + b)[1..] == a[1..] + b;
      Associate([Decode(a[0])], DecodeEach(a[1..]), DecodeEach(b));
    }
  }

  lemma DecodeEachSnoc(a: seq<seq<Byte>>, line: seq<Byte>)
    ensures DecodeEach(a + [line]) == DecodeEach(a) + [Decode(line)]
  {
    DecodeEachAppend(a, [line]);
    assert DecodeEach([line][1..]) == [];
  }

  /** A line of bytes decodes to a line of text, unless nothing of it is left. */
  lemma DecodedLine(line: seq<Byte>)
    requires IsLine<Byte>(line, LF)
    ensures Decode(line) == [] || IsLine<CodeUnit>(Decode(line), LF)
    ensures EndsWithLf<Byte>(line, LF) ==> EndsWithLf<CodeUnit>(Decode(line), LF)
    ensures !EndsWithLf<Byte>(line, LF) ==> !EndsWithLf<CodeUnit>(Decode(line), LF)
  {
    hide Decode;
    var front := line[..|line| - 1];
    if EndsWithLf<Byte>(line, LF) {
      NoLfDecoded(front);
      assert line == front + [LF] + [];
      DecodeAtLf(front, []);
      DecodeNothing();
      assert forall i :: 0 <= i < |Decode(front)| ==> Decode(line)[i] == Decode(front)[i];
    } else {
      assert LF !in line;
      NoLfDecoded(line);
    }
  }

  /** The bytes of the last line have all been dropped, and no line feed ends it. */
  predicate LostLastLine(data: seq<Byte>) {
    !CutAfter<Byte>(data, LF) && Decode(data[LastLineStart<Byte>(data, LF)..]) == []
  }

  /**
   * For arbitrary bytes: splitting the decoded text gives the decoded lines, less an
   * unterminated last line of which nothing is left.
   */
  lemma {:induction false} SplitDecoded(data: seq<Byte>)
    ensures var each := DecodeEach(Split<Byte>(data, LF));
      Split<CodeUnit>(Decode(data), LF) == if LostLastLine(data) then each[..|each| - 1] else each
  {
    hide Decode, Split, DecodeEach;
    if data == [] {
      NoLines();
    } else {
      var k := LastLineStart<Byte>(data, LF);
      LinesBefore(data[..k], data[k..]);
      DecodedLine(data[k..]);
      assert data == data[..k] + data[k..];
    }
  }

  lemma NoLines()
    ensures Split<Byte>([], LF) == [] && Split<CodeUnit>(Decode([]), LF) == [] && DecodeEach([]) == []
  {
    DecodeNothing();
  }

  lemma {:induction false} LinesBefore(front: seq<Byte>, line: seq<Byte>)
    requires CutAfter<Byte>(front, LF) && IsLine<Byte>(line, LF)
    ensures Split<CodeUnit>(Decode(front + line), LF) ==
            DecodeEach(Split<Byte>(front, LF)) + (if Decode(line) == [] then [] else [Decode(line)])
    ensures DecodeEach(Split<Byte>(front + line, LF)) == DecodeEach(Split<Byte>(front, LF)) + [Decode(line)]
    decreases |front|
  {
    hide Decode, Split;
    CutLinesAgree(front);
    SplitSnoc<Byte>(front, line, LF);
    DecodeEachSnoc(Split<Byte>(front, LF), line);
    DecodeCut(front, line);
    DecodedLine(line);
    DecodedCut(front);
    if Decode(line) != [] {
      SplitSnoc<CodeUnit>(Decode(front), Decode(line), LF);
    } else {
      assert Decode(front) + [] == Decode(front);
    }
  }

  lemma {:induction false} CutLinesAgree(front: seq<Byte>)
    requires CutAfter<Byte>(front, LF)
    ensures Split<CodeUnit>(Decode(front), LF) == DecodeEach(Split<Byte>(front, LF))
    decreases |front|, 0
  {
    hide Decode, Split, DecodeEach;
    if front == [] {
      NoLines();
    } else {
      var k := LastLineStart<Byte>(front, LF);
      DecodedLine(front[k..]);
      LinesBefore(front[..k], front[k..]);
      assert front == front[..k] + front[k..];
    }
  }

  lemma DecodedCut(front: seq<Byte>)
    requires CutAfter<Byte>(front, LF)
    ensures CutAfter<CodeUnit>(Decode(front), LF)
  {
    if front == [] {
      DecodeNothing();
    } else {
      assert front == front[..|front| - 1] + [LF] + [];
      DecodeAtLf(front[..|front| - 1], []);
      DecodeNothing();
    }
  }

  /** The readers agree on exactly the files whose last line did not vanish. */
  lemma {:induction false} LinesAgreeIff(data: seq<Byte>)
    ensures Split<CodeUnit>(Decode(data), LF) == DecodeEach(Split<Byte>(data, LF)) <==> !LostLastLine(data)
  {
    SplitDecoded(data);
    SplitCount<Byte>(data, LF);
    assert LostLastLine(data) ==> |DecodeEach(Split<Byte>(data, LF))| > 0;
  }

  /** A file the validator accepts never loses its last line. */
  lemma AcceptedLosesNothing(data: seq<Byte>)
    requires Accepts(data)
    ensures !LostLastLine(data)
  {
    if !CutAfter<Byte>(data, LF) {
      var k := LastLineStart<Byte>(data, LF);
      var front, line := data[..k], data[k..];
      assert data == front + line;
      AcceptsIffReencodes(data);
      ScalarsCut(front, line);
      EncodeAppend(Scalars(front), Scalars(line));
      ReencodingNoLonger(front);
      ReencodingNoLonger(line);
      assert Encode(Scalars(line)) != [];
      EmitsSomething(Scalars(line));
    }
  }

  lemma EmitsSomething(vs: seq<Scalar>)
    requires Encode(vs) != []
    ensures Utf16.FromCodePoints(vs) != []
  {
  }

  /** A lone continuation byte: one reader yields an empty line, the other none at all. */
  lemma LostLastLineExample()
    ensures LostLastLine([0x80])
    ensures Split<CodeUnit>(Decode([0x80]), LF) == [] && DecodeEach(Split<Byte>([0x80], LF)) == [[]]
  {
    var data: seq<Byte> := [0x80];
    assert LastLineStart<Byte>(data, LF) == 0 && data[0..] == data;
    assert Scalars(data) == Scalars(data[1..]) == [];
    SplitDecoded(data);
    SplitOne<Byte>(data, LF);
  }

  /** Cutting a file before one of its lines cuts its text before the line with the same number. */
  lemma SplitFrom(data: seq<Byte>, offset: nat)
    requires offset <= |data| && CutAfter<Byte>(data[..offset], LF)
    ensures |Split<Byte>(data[..offset], LF)| <= |Split<CodeUnit>(Decode(data), LF)|
    ensures Split<CodeUnit>(Decode(data[offset..]), LF) == Split<CodeUnit>(Decode(data), LF)[|Split<Byte>(data[..offset], LF)|..]
  {
    var front, tail := data[..offset], data[offset..];
    assert data == front + tail;
    DecodeCut(front, tail);
    CutLinesAgree(front);
    DecodedCut(front);
    SplitCut<CodeUnit>(Decode(front), Decode(tail), LF);
  }
}
