/**
 * Reading the last lines of a file backwards, and the agreement of all the readers.
 */
module TailReader {
  import opened Wrappers
  import opened Bytes
  import opened Lines
  import opened Utf8
  import opened Utf8Validator
  import opened TextLines
  import opened LineReaders

  function Min(a: int, b: int): (m: int) {
    if a < b then a else b
  }

  /** Where line number `k`, from 0, starts. */
  function LineOffset(data: seq<Byte>, k: nat): (offset: nat)
    requires k < |Split<Byte>(data, LF)|
    ensures offset <= |data|
  {
    SplitIsSplit<Byte>(data, LF);
    SplitAt(Split<Byte>(data, LF), data, k);
    |Concat(Split<Byte>(data, LF)[..k])|
  }

  /** Where the last `n` lines start; the whole file when it has no more than that. */
  function TailStart(data: seq<Byte>, n: nat): (offset: nat)
    requires n > 0
    ensures offset <= |data|
  {
    var count := |Split<Byte>(data, LF)|;
    if n >= count then 0 else LineOffset(data, count - n)
  }

  /** Cutting a file before its line number `k`, from 0. */
  lemma SplitAt(lines: seq<seq<Byte>>, data: seq<Byte>, k: nat)
    requires IsSplitOf<Byte>(lines, data, LF) && k < |lines|
    ensures var offset := |Concat(lines[..k])|;
      && offset <= |data|
      && IsSplitOf<Byte>(lines[..k], data[..offset], LF) && IsSplitOf<Byte>(lines[k..], data[offset..], LF)
      && CutAfter<Byte>(data[..offset], LF)
  {
    var front, tail := lines[..k], lines[k..];
    assert lines == front + tail;
    ConcatAppend(front, tail);
    assert data[..|Concat(front)|] == Concat(front) && data[|Concat(front)|..] == Concat(tail);
    if k > 0 {
      assert front == front[..k - 1] + [lines[k - 1]];
      ConcatSnoc(front[..k - 1], lines[k - 1]);
    }
  }

  /** The only cut with `min(n, |lines|)` lines after it is `TailStart`. */
  lemma TailStartUnique(data: seq<Byte>, n: nat, offset: nat)
    requires n > 0 && offset <= |data| && CutAfter<Byte>(data[..offset], LF)
    requires |Split<Byte>(data[offset..], LF)| == Min(n, |Split<Byte>(data, LF)|)
    ensures offset == TailStart(data, n)
  {
    hide Split;
    var front := data[..offset];
    SplitCut<Byte>(front, data[offset..], LF);
    assert data == front + data[offset..];
    SplitIsSplit<Byte>(front, LF);
    assert Split<Byte>(data, LF)[..|Split<Byte>(front, LF)|] == Split<Byte>(front, LF);
    if n >= |Split<Byte>(data, LF)| {
      assert Split<Byte>(front, LF) == [];
    }
  }

  lemma CutAtLine(data: seq<Byte>, k: nat)
    requires k < |Split<Byte>(data, LF)|
    ensures var lines, offset := Split<Byte>(data, LF), LineOffset(data, k);
      CutAfter<Byte>(data[..offset], LF) && Split<Byte>(data[..offset], LF) == lines[..k] && Split<Byte>(data[offset..], LF) == lines[k..]
  {
    hide Split, Concat, IsSplitOf, CutAfter;
    var lines, offset := Split<Byte>(data, LF), LineOffset(data, k);
    SplitIsSplit<Byte>(data, LF);
    SplitAt(lines, data, k);
    SplitIsTheOnlyOne<Byte>(lines[..k], data[..offset], LF);
    SplitIsTheOnlyOne<Byte>(lines[k..], data[offset..], LF);
  }

  lemma WholeFile(data: seq<Byte>)
    ensures CutAfter<Byte>(data[..0], LF) && Split<Byte>(data[..0], LF) == [] && Split<Byte>(data[0..], LF) == Split<Byte>(data, LF)[0..]
  {
    assert data[0..] == data;
    SplitNothing<Byte>(LF);
  }

  /** The bytes from `TailStart` on are whole lines, the last `min(n, |lines|)` of the file. */
  lemma {:induction false} TailStartIsTail(data: seq<Byte>, n: nat)
    requires n > 0
    ensures var offset, lines := TailStart(data, n), Split<Byte>(data, LF);
      var k := |lines| - Min(n, |lines|);
      CutAfter<Byte>(data[..offset], LF) && Split<Byte>(data[..offset], LF) == lines[..k] && Split<Byte>(data[offset..], LF) == lines[k..]
  {
    var lines := Split<Byte>(data, LF);
    if n >= |lines| {
      WholeFile(data);
    } else {
      CutAtLine(data, |lines| - n);
    }
  }

  /** How many line feeds, counted from the end, the scan has to see. */
  function NeedLf(data: seq<Byte>, tailCount: nat): (need: nat) {
    if EndsWithLf<Byte>(data, LF) then tailCount + 1 else tailCount
  }

  /** The scan has seen enough line feeds: the last of them is the byte before `offset`. */
  lemma FoundStart(data: seq<Byte>, tailCount: nat, offset: nat)
    requires tailCount > 0 && 0 < offset <= |data| && data[offset - 1] == LF
    requires CountLf<Byte>(data[offset - 1..], LF) == NeedLf(data, tailCount)
    ensures offset == TailStart(data, tailCount)
  {
    hide Split, CountLf;
    var front, tail := data[..offset], data[offset..];
    CountFirst(data, offset - 1);
    SplitCount<Byte>(tail, LF);
    assert tail != [] ==> tail[|tail| - 1] == data[|data| - 1];
    assert data == front + tail && CutAfter<Byte>(front, LF);
    if tail == [] { CountLfNothing<Byte>(); }
    SplitCut<Byte>(front, tail, LF);
    TailStartUnique(data, tailCount, offset);
  }

  lemma CountLfNothing<T>()
    ensures forall lf: T :: CountLf<T>([], lf) == 0
  {
  }

  lemma CountFirst(data: seq<Byte>, i: nat)
    requires i < |data|
    ensures CountLf<Byte>(data[i..], LF) == (if data[i] == LF then 1 else 0) + CountLf<Byte>(data[i + 1..], LF)
  {
    assert data[i..] == [data[i]] + data[i + 1..];
    CountLfAppend<Byte>([data[i]], data[i + 1..], LF);
    assert [data[i]][..0] == [];
  }

  /** The scan has reached the start of the file without seeing enough of them. */
  lemma NotEnough(data: seq<Byte>, tailCount: nat)
    requires tailCount > 0 && CountLf<Byte>(data, LF) < NeedLf(data, tailCount)
    ensures TailStart(data, tailCount) == 0
  {
    SplitCount<Byte>(data, LF);
  }

  /** The yielded lines of a decoded tail. */
  function TailOutcome(data: seq<Byte>, offset: nat, decode: Decoder): (outcome: Outcome)
    requires offset <= |data|
  {
    match decode(data[offset..], offset != 0)
    case None => Outcome([], true)
    case Some(text) => Outcome(Split<CodeUnit>(text, LF), false)
  }

  /** The scan of one block, from its last byte to its first. */
  method ScanBlock(ghost data: seq<Byte>, block: array<Byte>, pos: nat, foundBefore: nat, tailCount: nat, needLf: nat)
    returns (foundLf: nat, startOffset: nat)
    requires pos + block.Length <= |data| && block[..] == data[pos..pos + block.Length]
    requires tailCount > 0 && needLf == NeedLf(data, tailCount)
    requires foundBefore == CountLf<Byte>(data[pos + block.Length..], LF) < needLf
    ensures foundLf <= needLf
    ensures foundLf < needLf ==> foundLf == CountLf<Byte>(data[pos..], LF)
    ensures foundLf == needLf ==> startOffset == TailStart(data, tailCount)
  {
    hide Split, CountLf, TailStart;
    foundLf, startOffset := foundBefore, 0;
    var i := block.Length - 1;
    while i >= 0
      invariant -1 <= i < block.Length
      invariant foundLf == CountLf<Byte>(data[pos + i + 1..], LF) < needLf
    {
      assert block[i] == block[..][i] == data[pos + i];
      CountFirst(data, pos + i);
      if block[i] != LF {
        i := i - 1;
        continue;
      }
      foundLf := foundLf + 1;
      if foundLf == needLf {
        startOffset := pos + i + 1;
        FoundStart(data, tailCount, startOffset);
        break;
      }
      i := i - 1;
    }
  }

  /** `readTailLines`.  Each block read is assumed to fill its buffer, as the source does. */
  method ReadTailLines(fh: FileHandle, blockSize: nat, decode: Decoder, tailCount: int) returns (outcome: Outcome)
    requires blockSize > 0
    ensures outcome ==
      if tailCount <= 0 || fh.data == [] then Outcome([], false)
      else TailOutcome(fh.data, TailStart(fh.data, tailCount), decode)
  {
    hide Split, CountLf, TailStart;
    outcome := Outcome([], false);
    if tailCount <= 0 { return; }
    ghost var data := fh.data;
    var size := |fh.data|;
    if size == 0 { return; }
    CountLfNothing<Byte>();
    assert data[size..] == [];
    var pos, foundLf, startOffset := size, 0, 0;
    var needLf := tailCount;
    var sawTailBlock := false;
    while pos > 0 && foundLf < needLf
      invariant 0 <= pos <= size && (sawTailBlock <==> pos < size)
      invariant needLf == if sawTailBlock then NeedLf(data, tailCount) else tailCount
      invariant foundLf <= needLf
      invariant foundLf < needLf ==> foundLf == CountLf<Byte>(data[pos..], LF)
      invariant foundLf == needLf ==> startOffset == TailStart(data, tailCount)
      decreases pos
    {
      var readSize := if blockSize < pos then blockSize else pos;
      pos := pos - readSize;
      var buf := fh.ReadBlock(readSize, pos);
      if !sawTailBlock {
        sawTailBlock := true;
        var endsWithNewline := buf[readSize - 1] == LF;
        assert buf[readSize - 1] == buf[..][readSize - 1] == data[size - 1];
        needLf := if endsWithNewline then tailCount + 1 else tailCount;
      }
      foundLf, startOffset := ScanBlock(data, buf, pos, foundLf, tailCount, needLf);
    }
    if foundLf < needLf {
      startOffset := 0;
      assert data[0..] == data;
      NotEnough(data, tailCount);
    }
    var bytes := ReadRange(fh, startOffset, size - startOffset);
    assert bytes == data[startOffset..];
    match decode(bytes, startOffset != 0)
    case None =>
      outcome := Outcome([], true);
    case Some(text) =>
      var lines := SplitLinesKeepingTerminator(text);
      outcome := Outcome(lines, false);
  }

  // ---------- The readers agree ----------

  /** `errors: 'ignore'`: nothing is thrown and a byte order mark is kept wherever it is. */
  const IGNORE: Decoder := (bytes: seq<Byte>, ignoreBom: bool) => Some(Decode(bytes))

  lemma {:induction false} IgnoreDecodesEach(segments: seq<Segment>)
    ensures var outcome := DecodeSegments(segments, IGNORE);
      && !outcome.threw && |outcome.lines| == |segments|
      && forall i :: 0 <= i < |segments| ==> outcome.lines[i] == Decode(segments[i].bytes)
  {
    hide Decode;
    if segments != [] {
      IgnoreDecodesEach(segments[1..]);
      assert forall i :: 1 <= i < |segments| ==> segments[i] == segments[1..][i - 1];
    }
  }

  lemma {:induction false} DecodeEachAt(lines: seq<seq<Byte>>)
    ensures forall k :: 0 <= k < |lines| ==> DecodeEach(lines)[k] == Decode(lines[k])
  {
    hide Decode;
    if lines != [] {
      DecodeEachAt(lines[1..]);
      assert forall i :: 1 <= i < |lines| ==> lines[i] == lines[1..][i - 1];
    }
  }

  lemma {:induction false} SegmentBytes(lines: seq<seq<Byte>>, offset: nat)
    ensures forall k :: 0 <= k < |lines| ==> SegmentsOf(lines, offset)[k].bytes == lines[k]
  {
    if lines != [] {
      SegmentBytes(lines[1..], offset + |lines[0]|);
      assert forall i :: 1 <= i < |lines| ==> lines[i] == lines[1..][i - 1];
    }
  }

  /** What `readLineRange` yields in ignore mode, for any file: the selected lines, each decoded. */
  lemma RangeDecodesLines(data: seq<Byte>, startLine: int, maxLines: Option<int>)
    ensures DecodeSegments(Selected(Segments(data), startLine, maxLines), IGNORE)
         == Outcome(Selected(DecodeEach(Split<Byte>(data, LF)), startLine, maxLines), false)
  {
    hide Decode, Split, SegmentsOf, DecodeEach, DecodeSegments;
    var lines := Split<Byte>(data, LF);
    var chosen := Selected(Segments(data), startLine, maxLines);
    IgnoreDecodesEach(chosen);
    DecodeEachAt(lines);
    SegmentBytes(lines, 0);
    var outcome := DecodeSegments(chosen, IGNORE);
    var expected := Selected(DecodeEach(lines), startLine, maxLines);
    assert |chosen| == |expected|;
    assert outcome.lines == expected;
  }

  /**
   * For every file the validator accepts: whole-file reading, ranges and tails are slices of
   * the one list of lines of the decoded text, and the scan counts that list.
   */
  lemma ReadersAgree(data: seq<Byte>, startLine: int, maxLines: Option<int>, tailCount: int)
    requires Accepts(data)
    ensures var lines := Split<CodeUnit>(Decode(data), LF);
      && |lines| == |Split<Byte>(data, LF)|
      && DecodeSegments(Selected(Segments(data), 1, None), IGNORE) == Outcome(lines, false)
      && DecodeSegments(Selected(Segments(data), startLine, maxLines), IGNORE)
           == Outcome(Selected(lines, startLine, maxLines), false)
      && (tailCount > 0 ==>
            var last := lines[|lines| - Min(tailCount, |lines|)..];
            TailOutcome(data, TailStart(data, tailCount), IGNORE) == Outcome(last, false))
  {
    hide Decode, Split, DecodeEach, DecodeSegments, Segments, TailStart;
    AcceptedLosesNothing(data);
    LinesAgreeIff(data);
    RangeDecodesLines(data, 1, None);
    RangeDecodesLines(data, startLine, maxLines);
    if tailCount > 0 {
      TailAgrees(data, tailCount);
    }
  }

  /**
   * For every file whatever its bytes: the tail reader yields the lines of the decoded text
   * from the one with the number of the first of the last `tailCount` lines of the file.
   */
  lemma TailAgrees(data: seq<Byte>, tailCount: nat)
    requires tailCount > 0
    ensures var lines, n := Split<CodeUnit>(Decode(data), LF), |Split<Byte>(data, LF)|;
      var k := n - Min(tailCount, n);
      k <= |lines| && TailOutcome(data, TailStart(data, tailCount), IGNORE) == Outcome(lines[k..], false)
  {
    hide Decode, Split, DecodeEach, TailStart;
    TailStartIsTail(data, tailCount);
    SplitFrom(data, TailStart(data, tailCount));
  }
}
