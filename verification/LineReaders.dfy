/**
 * The UTF-8 line readers of the local file system: forwards through one reused buffer, and
 * backwards from the end for the last lines.
 *
 * Decoding is a parameter, so the byte-level results hold for every error mode.  A decoder
 * gets the bytes of a line and whether a byte order mark at their start is data; it returns
 * None where the source throws.
 */
module LineReaders {
  import opened Wrappers
  import opened Bytes
  import opened Lines

  type Decoder = (seq<Byte>, bool) -> Option<Text>

  // ---------- The file ----------

  /** An open file of fixed contents: a read may give fewer bytes than asked for, none only at the end. */
  class FileHandle {
    const data: seq<Byte>
    var pos: nat

    constructor (data: seq<Byte>)
      ensures this.data == data && pos == 0
    {
      this.data := data;
      pos := 0;
    }

    /** `fh.read(buf, 0, buf.length, null)`: any number of bytes, none only at the end. */
    method ReadNext(buf: array<Byte>) returns (bytesRead: nat)
      requires pos <= |data| && buf.Length > 0
      modifies this`pos, buf
      ensures bytesRead <= buf.Length && pos == old(pos) + bytesRead <= |data|
      ensures bytesRead == 0 <==> old(pos) == |data|
      ensures buf[..bytesRead] == data[old(pos)..pos]
    {
      var left := |data| - pos;
      bytesRead := 0;
      if left > 0 {
        bytesRead :| 1 <= bytesRead <= buf.Length && bytesRead <= left;
      }
      forall i | 0 <= i < bytesRead {
        buf[i] := data[pos + i];
      }
      pos := pos + bytesRead;
    }

    /** `fh.read(buf, offset, length, position)`: possibly short, empty only at the end. */
    method ReadAt(buf: array<Byte>, offset: nat, length: nat, position: nat) returns (bytesRead: nat)
      requires offset + length <= buf.Length && position <= |data|
      modifies buf
      ensures bytesRead <= length && position + bytesRead <= |data|
      ensures bytesRead == 0 <==> length == 0 || position == |data|
      ensures buf[..offset] == old(buf[..offset])
      ensures buf[offset..offset + bytesRead] == data[position..position + bytesRead]
    {
      var left := |data| - position;
      bytesRead := 0;
      if left > 0 && length > 0 {
        bytesRead :| 1 <= bytesRead <= length && bytesRead <= left;
      }
      forall i | 0 <= i < bytesRead {
        buf[offset + i] := data[position + i];
      }
    }

    /** A fresh buffer filled by one positional read. */
    method ReadBlock(length: nat, position: nat) returns (buf: array<Byte>)
      requires position + length <= |data|
      ensures fresh(buf) && buf[..] == data[position..position + length]
    {
      buf := new Byte[length](i requires 0 <= i < length => data[position + i]);
    }
  }

  lemma Adjacent<T>(s: seq<T>, a: nat, b: nat, c: nat)
    requires a <= b <= c <= |s|
    ensures s[a..b] + s[b..c] == s[a..c]
  {
  }

  /** `readRange`: positional reads until the range is full or the file ends. */
  method ReadRange(fh: FileHandle, start: nat, length: nat) returns (bytes: seq<Byte>)
    requires start <= |fh.data|
    ensures bytes == if start + length <= |fh.data| then fh.data[start..start + length] else fh.data[start..]
  {
    var buf := new Byte[length](_ => 0);
    var offset := 0;
    while offset < length
      invariant offset <= length && start + offset <= |fh.data|
      invariant buf[..offset] == fh.data[start..start + offset]
    {
      var bytesRead := fh.ReadAt(buf, offset, length - offset, start + offset);
      if bytesRead == 0 { break; }
      assert buf[..offset + bytesRead] == buf[..offset] + buf[offset..offset + bytesRead];
      Adjacent(fh.data, start, start + offset, start + offset + bytesRead);
      offset := offset + bytesRead;
    }
    bytes := buf[..offset];
  }

  // ---------- Forwards ----------

  /** A line of the file and where it starts. */
  datatype Segment = Segment(offset: nat, bytes: seq<Byte>)

  function SegmentsOf(lines: seq<seq<Byte>>, offset: nat): (segments: seq<Segment>)
    ensures |segments| == |lines|
  {
    if lines == [] then [] else [Segment(offset, lines[0])] + SegmentsOf(lines[1..], offset + |lines[0]|)
  }

  function Segments(data: seq<Byte>): (segments: seq<Segment>) {
    SegmentsOf(Split<Byte>(data, LF), 0)
  }

  /** Lines `startLine` on, counting from 1; no bound, or at most `maxLines` of them and at least one. */
  function Selected<T>(lines: seq<T>, startLine: int, maxLines: Option<int>): (selected: seq<T>) {
    var rest := if startLine <= 1 then lines else if startLine - 1 >= |lines| then [] else lines[startLine - 1..];
    if maxLines.None? then rest else
      var n := if maxLines.value < 1 then 1 else maxLines.value;
      if n >= |rest| then rest else rest[..n]
  }

  /** What a generator yields, and whether it then throws. */
  datatype Outcome = Outcome(lines: seq<Text>, threw: bool)

  /** Decodes segment after segment; only a segment at offset 0 may lose a byte order mark. */
  function DecodeSegments(segments: seq<Segment>, decode: Decoder): (outcome: Outcome) {
    if segments == [] then Outcome([], false) else
      match decode(segments[0].bytes, segments[0].offset != 0)
      case None => Outcome([], true)
      case Some(text) =>
        var rest := DecodeSegments(segments[1..], decode);
        Outcome([text] + rest.lines, rest.threw)
  }

  lemma {:induction false} SegmentsAppend(a: seq<seq<Byte>>, b: seq<seq<Byte>>, offset: nat)
    ensures SegmentsOf(a + b, offset) == SegmentsOf(a, offset) + SegmentsOf(b, offset + |Concat(a)|)
  {
    if a == [] {
      assert a + b == b;
    } else {
      SegmentsAppend(a[1..], b, offset + |a[0]|);
      assert (a + b)[1..] == a[1..] + b;
    }
  }

  lemma SegmentsSnoc(lines: seq<seq<Byte>>, line: seq<Byte>, offset: nat)
    ensures SegmentsOf(lines + [line], offset)
         == SegmentsOf(lines, offset) + [Segment(offset + |Concat(lines)|, line)]
  {
    SegmentsAppend(lines, [line], offset);
    assert SegmentsOf([line][1..], offset + |Concat(lines)| + |line|) == [];
  }

  /** Every segment is the slice of the file its offset says it is. */
  lemma {:induction false} SegmentsAreSlices(lines: seq<seq<Byte>>, before: seq<Byte>, k: nat)
    requires k < |lines|
    ensures var segment, data := SegmentsOf(lines, |before|)[k], before + Concat(lines);
      && segment.bytes == lines[k]
      && segment.offset == |before| + |Concat(lines[..k])|
      && segment.offset + |segment.bytes| <= |data|
      && data[segment.offset..segment.offset + |segment.bytes|] == segment.bytes
  {
    Associate(before, lines[0], Concat(lines[1..]));
    if k > 0 {
      SegmentsAreSlices(lines[1..], before + lines[0], k - 1);
      assert lines[..k][1..] == lines[1..][..k - 1];
    }
  }

  /** One more complete line. */
  lemma NextSegment(data: seq<Byte>, cut: nat, end: nat)
    requires cut < end <= |data| && CutAfter<Byte>(data[..cut], LF)
    requires forall j :: cut <= j < end - 1 ==> data[j] != LF
    ensures Segments(data[..end]) == Segments(data[..cut]) + [Segment(cut, data[cut..end])]
    ensures |Split<Byte>(data[..end], LF)| == |Split<Byte>(data[..cut], LF)| + 1
  {
    hide Split, SegmentsOf;
    SplitExtend<Byte>(data, cut, end, LF);
    SegmentsSnoc(Split<Byte>(data[..cut], LF), data[cut..end], 0);
    SplitIsSplit<Byte>(data[..cut], LF);
  }

  lemma SegmentsCut(data: seq<Byte>, cut: nat)
    requires cut <= |data| && CutAfter<Byte>(data[..cut], LF)
    ensures Segments(data[..cut]) <= Segments(data)
  {
    hide Split, SegmentsOf;
    var a, b := Split<Byte>(data[..cut], LF), Split<Byte>(data[cut..], LF);
    SplitCut<Byte>(data[..cut], data[cut..], LF);
    assert data == data[..cut] + data[cut..];
    SegmentsAppend(a, b, 0);
  }

  lemma {:induction false} DecodeAppend(a: seq<Segment>, b: seq<Segment>, decode: Decoder)
    ensures var first, rest := DecodeSegments(a, decode), DecodeSegments(b, decode);
      DecodeSegments(a + b, decode) ==
        if first.threw then first else Outcome(first.lines + rest.lines, rest.threw)
  {
    if a == [] {
      assert a + b == b;
    } else {
      assert (a + b)[1..] == a[1..] + b;
      DecodeAppend(a[1..], b, decode);
      var text := decode(a[0].bytes, a[0].offset != 0);
      if text.Some? {
        Associate([text.value], DecodeSegments(a[1..], decode).lines, DecodeSegments(b, decode).lines);
      }
    }
  }

  lemma {:induction false} DecodeCount(a: seq<Segment>, decode: Decoder)
    requires !DecodeSegments(a, decode).threw
    ensures |DecodeSegments(a, decode).lines| == |a|
  {
    if a != [] { DecodeCount(a[1..], decode); }
  }

  /** What a generator has yielded: every text is its segment decoded, and a throw is the next one's. */
  lemma {:induction false} DecodedAt(segments: seq<Segment>, decode: Decoder)
    ensures var outcome := DecodeSegments(segments, decode);
      var n := |outcome.lines|;
      && n <= |segments| && (outcome.threw <==> n < |segments|)
      && (forall i :: 0 <= i < n ==> decode(segments[i].bytes, segments[i].offset != 0) == Some(outcome.lines[i]))
      && (outcome.threw ==> decode(segments[n].bytes, segments[n].offset != 0).None?)
  {
    if segments != [] { DecodedAt(segments[1..], decode); }
  }

  lemma OnlyFirstAtZero(data: seq<Byte>, k: nat)
    requires k < |Split<Byte>(data, LF)|
    ensures k < |Segments(data)|
    ensures Segments(data)[k].bytes == Split<Byte>(data, LF)[k] && (Segments(data)[k].offset == 0 <==> k == 0)
  {
    hide SegmentsOf, Split;
    var lines := Split<Byte>(data, LF);
    SplitIsSplit<Byte>(data, LF);
    SegmentsAreSlices(lines, [], k);
    if k > 0 {
      assert lines[..k] == [lines[0]] + lines[1..k];
      ConcatAppend([lines[0]], lines[1..k]);
      assert lines[0] != [];
    }
  }

  /**
   * What `readLineRange` yields, line by line: with `first` lines skipped, line `first + i` is
   * text number `i`, decoded with its byte order mark kept unless it is the first of the file.
   * No line is missing: it stops at the end, at the limit (at least one line), or where the decoder throws.
   */
  lemma {:induction false} RangeIs(data: seq<Byte>, startLine: int, maxLines: Option<int>, decode: Decoder)
    ensures var lines, outcome := Split<Byte>(data, LF), DecodeSegments(Selected(Segments(data), startLine, maxLines), decode);
      var first, n := if startLine <= 1 then 0 else startLine - 1, |outcome.lines|;
      && (forall i :: 0 <= i < n ==>
            first + i < |lines| && decode(lines[first + i], first + i != 0) == Some(outcome.lines[i]))
      && (maxLines.Some? ==> n <= if maxLines.value < 1 then 1 else maxLines.value)
      && (outcome.threw ==> first + n < |lines| && decode(lines[first + n], first + n != 0).None?)
      && (!outcome.threw ==>
            first + n >= |lines| || (maxLines.Some? && n == if maxLines.value < 1 then 1 else maxLines.value))
  {
    hide SegmentsOf, Split, DecodeSegments;
    var lines, segments := Split<Byte>(data, LF), Segments(data);
    var chosen := Selected(segments, startLine, maxLines);
    DecodedAt(chosen, decode);
    var first := if startLine <= 1 then 0 else startLine - 1;
    forall i | 0 <= i < |chosen|
      ensures first + i < |lines| && chosen[i] == segments[first + i]
      ensures segments[first + i].bytes == lines[first + i] && (segments[first + i].offset == 0 <==> first + i == 0)
    {
      OnlyFirstAtZero(data, first + i);
    }
  }

  lemma DecodeOne(segment: Segment, decode: Decoder)
    ensures DecodeSegments([segment], decode) ==
      match decode(segment.bytes, segment.offset != 0)
      case None => Outcome([], true)
      case Some(text) => Outcome([text], false)
  {
    assert DecodeSegments([segment][1..], decode) == Outcome([], false);
  }

  /** The limit of `maxLines` has not been reached after `yielded` lines. */
  predicate Wants(yielded: nat, maxLines: Option<int>) {
    maxLines.None? || yielded == 0 || yielded < maxLines.value
  }

  /** What the loop knows when the current line starts at `cut` and `end` is the next byte to look at. */
  ghost predicate Progress(data: seq<Byte>, cut: nat, end: nat, lineNo: int, startLine: int, maxLines: Option<int>,
                           decode: Decoder, lines: seq<Text>)
  {
    && cut <= end <= |data|
    && CutAfter<Byte>(data[..cut], LF)
    && (forall j :: cut <= j < end ==> data[j] != LF)
    && lineNo == |Split<Byte>(data[..cut], LF)| + 1
    && DecodeSegments(Selected(Segments(data[..cut]), startLine, None), decode) == Outcome(lines, false)
    && Wants(|lines|, maxLines)
  }

  /** Reaching the end of a line that `startLine` skips. */
  lemma SkipLine(data: seq<Byte>, cut: nat, end: nat, lineNo: int, startLine: int, maxLines: Option<int>,
                 decode: Decoder, lines: seq<Text>)
    requires Progress(data, cut, end, lineNo, startLine, maxLines, decode, lines)
    requires end < |data| && data[end] == LF && lineNo < startLine
    ensures Progress(data, end + 1, end + 1, lineNo + 1, startLine, maxLines, decode, lines)
  {
    hide Split, SegmentsOf, DecodeSegments;
    NextSegment(data, cut, end + 1);
  }

  /** Reaching the end of a line that is to be yielded: a line feed at `end`, or the end of the file. */
  lemma TakeLine(data: seq<Byte>, cut: nat, end: nat, last: nat, lineNo: int, startLine: int, maxLines: Option<int>,
                 decode: Decoder, lines: seq<Text>)
    requires Progress(data, cut, end, lineNo, startLine, maxLines, decode, lines) && lineNo >= startLine
    requires cut < last <= |data|
    requires if end < |data| then data[end] == LF && last == end + 1 else last == end
    ensures var all := DecodeSegments(Selected(Segments(data), startLine, maxLines), decode);
      match decode(data[cut..last], cut != 0)
      case None => all == Outcome(lines, true)
      case Some(text) =>
        && (end < |data| && Wants(|lines| + 1, maxLines) ==>
              Progress(data, last, last, lineNo + 1, startLine, maxLines, decode, lines + [text]))
        && (!Wants(|lines| + 1, maxLines) || last == |data| ==> all == Outcome(lines + [text], false))
  {
    hide Split, SegmentsOf, DecodeSegments;
    var before, segment := Segments(data[..cut]), Segment(cut, data[cut..last]);
    NextSegment(data, cut, last);
    if end < |data| {
      SegmentsCut(data, last);
    } else {
      assert data[..last] == data;
    }
    var whole := Segments(data);
    var rest := whole[|before| + 1..];
    assert whole == before + [segment] + rest;
    var chosen := Selected(before, startLine, None);
    DecodeCount(chosen, decode);
    SelectedNext(before, segment, rest, startLine, maxLines);
    DecodeAppend(chosen, [segment], decode);
    DecodeOne(segment, decode);
    DecodeAppend(chosen + [segment], Selected(whole, startLine, maxLines)[|chosen| + 1..], decode);
    if last == |data| { assert data[..last] == data; }
    DecodeNoSegments(decode);
  }

  lemma DecodeNoSegments(decode: Decoder)
    ensures DecodeSegments([], decode) == Outcome([], false)
  {
  }

  lemma SelectedNext<T>(before: seq<T>, x: T, rest: seq<T>, startLine: int, maxLines: Option<int>)
    requires startLine <= |before| + 1
    requires Wants(|Selected(before, startLine, None)|, maxLines)
    ensures var chosen, whole := Selected(before, startLine, None), Selected(before + [x] + rest, startLine, maxLines);
      && Selected(before + [x], startLine, None) == chosen + [x]
      && |chosen| < |whole| && whole[..|chosen| + 1] == chosen + [x]
      && whole == chosen + [x] + whole[|chosen| + 1..]
      && (!Wants(|chosen| + 1, maxLines) || rest == [] ==> whole == chosen + [x])
  {
  }

  lemma ProgressAtStart(data: seq<Byte>, startLine: int, maxLines: Option<int>, decode: Decoder)
    ensures Progress(data, 0, 0, 1, startLine, maxLines, decode, [])
  {
    assert Segments(data[..0]) == [];
  }

  /** Looking at a byte that is not a line feed. */
  lemma ProgressInLine(data: seq<Byte>, cut: nat, end: nat, lineNo: int, startLine: int, maxLines: Option<int>,
                       decode: Decoder, lines: seq<Text>)
    requires Progress(data, cut, end, lineNo, startLine, maxLines, decode, lines)
    requires end < |data| && data[end] != LF
    ensures Progress(data, cut, end + 1, lineNo, startLine, maxLines, decode, lines)
  {
  }

  /** At the end of the file, with no line left to yield. */
  lemma Finish(data: seq<Byte>, cut: nat, lineNo: int, startLine: int, maxLines: Option<int>,
               decode: Decoder, lines: seq<Text>)
    requires Progress(data, cut, |data|, lineNo, startLine, maxLines, decode, lines)
    requires cut == |data| || lineNo < startLine
    ensures DecodeSegments(Selected(Segments(data), startLine, maxLines), decode) == Outcome(lines, false)
  {
    hide Split, SegmentsOf, DecodeSegments;
    assert data[..|data|] == data;
    if cut < |data| { NextSegment(data, cut, |data|); }
    DecodeCount(Selected(Segments(data[..cut]), startLine, None), decode);
    assert Selected(Segments(data), startLine, maxLines) == Selected(Segments(data[..cut]), startLine, None);
  }

  /** The pieces of a line that started in an earlier chunk, joined (`Buffer.concat`). */
  function PendingBytes(pending: seq<array<Byte>>): (bytes: seq<Byte>)
    reads set a <- pending
  {
    if pending == [] then [] else PendingBytes(pending[..|pending| - 1]) + pending[|pending| - 1][..]
  }

  lemma PendingNone()
    ensures PendingBytes([]) == []
  {
  }

  lemma PendingSnoc(pending: seq<array<Byte>>, tail: array<Byte>)
    ensures PendingBytes(pending + [tail]) == PendingBytes(pending) + tail[..]
  {
    assert (pending + [tail])[..|pending|] == pending;
  }

  /** `Buffer.from(chunk.subarray(start))`: the bytes survive the next read into `buf`. */
  method CopyOf(buf: array<Byte>, start: nat, end: nat) returns (copy: array<Byte>)
    requires start <= end <= buf.Length
    ensures fresh(copy) && copy[..] == buf[start..end]
  {
    copy := new Byte[end - start](j requires 0 <= j < end - start reads buf => buf[start + j]);
  }

  /** The pieces of a line, put together, are the bytes of the file. */
  lemma LineBytes(data: seq<Byte>, cut: nat, fileOffset: nat, lineStart: nat, end: nat, chunk: seq<Byte>, before: seq<Byte>)
    requires lineStart <= end <= |chunk| && fileOffset + |chunk| <= |data| && cut <= fileOffset + lineStart
    requires chunk == data[fileOffset..fileOffset + |chunk|]
    requires before == data[cut..fileOffset + lineStart]
    ensures before + chunk[lineStart..end] == data[cut..fileOffset + end]
  {
    forall i | lineStart <= i < end
      ensures chunk[i] == data[fileOffset + i]
    {
      assert data[fileOffset..fileOffset + |chunk|][i] == data[fileOffset + i];
    }
    assert chunk[lineStart..end] == data[fileOffset + lineStart..fileOffset + end];
  }

  /**
   * The body of the inner loop of `_readUtf8Lines` once the bytes of a terminated line are
   * together: skip it, or yield it and see whether to go on.
   */
  method EndOfLine(ghost data: seq<Byte>, ghost cut: nat, ghost end: nat, line: seq<Byte>, lineOffset: nat, lineNo: int,
                   startLine: int, maxLines: Option<int>, decode: Decoder, lines: seq<Text>)
    returns (next: seq<Text>, stop: bool, threw: bool)
    requires Progress(data, cut, end, lineNo, startLine, maxLines, decode, lines)
    requires end < |data| && data[end] == LF && line == data[cut..end + 1] && lineOffset == cut
    ensures !stop ==> Progress(data, end + 1, end + 1, lineNo + 1, startLine, maxLines, decode, next)
    ensures stop ==> DecodeSegments(Selected(Segments(data), startLine, maxLines), decode) == Outcome(next, threw)
  {
    hide Split, SegmentsOf, DecodeSegments, Selected;
    next, stop, threw := lines, false, false;
    if lineNo >= startLine {
      TakeLine(data, cut, end, end + 1, lineNo, startLine, maxLines, decode, lines);
      match decode(line, lineOffset != 0)
      case None =>
        stop, threw := true, true;
      case Some(text) =>
        next := lines + [text];
        var yielded := |next|;
        stop := maxLines.Some? && yielded >= maxLines.value;
    } else {
      SkipLine(data, cut, end, lineNo, startLine, maxLines, decode, lines);
    }
  }

  /** The current line starts at `cut`; what of it lies before `fileOffset` has been copied to `pending`. */
  ghost predicate Carried(data: seq<Byte>, cut: nat, fileOffset: nat, pending: seq<array<Byte>>, pendingOffset: nat)
    reads set a <- pending
  {
    && cut <= fileOffset <= |data|
    && PendingBytes(pending) == data[cut..fileOffset]
    && (if pending == [] then cut == fileOffset else cut == pendingOffset < fileOffset)
  }

  /** The bytes of the line that ends at index `i` of the buffer. */
  method JoinLine(ghost data: seq<Byte>, ghost cut: nat, buf: array<Byte>, lineStart: nat, i: nat, fileOffset: nat,
                  pending: seq<array<Byte>>, pendingOffset: nat)
    returns (line: seq<Byte>, lineOffset: nat)
    requires Carried(data, cut, fileOffset + lineStart, pending, pendingOffset)
    requires pending != [] ==> lineStart == 0
    requires lineStart <= i < buf.Length && fileOffset + i < |data|
    requires buf[..i + 1] == data[fileOffset..fileOffset + i + 1]
    ensures lineOffset == cut && line == data[cut..fileOffset + i + 1]
  {
    var piece := buf[lineStart..i + 1];
    lineOffset := if pending == [] then fileOffset + lineStart else pendingOffset;
    line := if pending == [] then piece else PendingBytes(pending) + piece;
    assert piece == buf[..i + 1][lineStart..i + 1];
    LineBytes(data, cut, fileOffset, lineStart, i + 1, buf[..i + 1], PendingBytes(pending));
  }

  /** What is left in the buffer is the start of a line: copy it out. */
  method CarryOver(ghost data: seq<Byte>, ghost cut: nat, buf: array<Byte>, lineStart: nat, bytesRead: nat,
                   fileOffset: nat, pending: seq<array<Byte>>, pendingOffset: nat)
    returns (next: seq<array<Byte>>, nextOffset: nat)
    requires Carried(data, cut, fileOffset + lineStart, pending, pendingOffset)
    requires pending != [] ==> lineStart == 0
    requires lineStart <= bytesRead <= buf.Length && fileOffset + bytesRead <= |data|
    requires buf[..bytesRead] == data[fileOffset..fileOffset + bytesRead]
    requires forall a <- pending :: a != buf
    ensures Carried(data, cut, fileOffset + bytesRead, next, nextOffset)
    ensures forall a <- next :: a != buf
  {
    next, nextOffset := pending, pendingOffset;
    if lineStart < bytesRead {
      var tail := CopyOf(buf, lineStart, bytesRead);
      assert tail[..] == buf[..bytesRead][lineStart..bytesRead];
      LineBytes(data, cut, fileOffset, lineStart, bytesRead, buf[..bytesRead], PendingBytes(pending));
      if pending == [] { nextOffset := fileOffset + lineStart; }
      PendingSnoc(pending, tail);
      next := pending + [tail];
    }
  }

  /** The inner loop of `_readUtf8Lines`: the lines that end in the chunk now in the buffer. */
  method ScanChunk(ghost data: seq<Byte>, ghost from: nat, buf: array<Byte>, bytesRead: nat, fileOffset: nat,
                   carried: seq<array<Byte>>, pendingOffset: nat, firstLineNo: int,
                   startLine: int, maxLines: Option<int>, decode: Decoder, yielded: seq<Text>)
    returns (ghost cut: nat, lineStart: nat, pending: seq<array<Byte>>, lineNo: int, lines: seq<Text>,
             stop: bool, threw: bool)
    requires bytesRead <= buf.Length && fileOffset + bytesRead <= |data|
    requires buf[..bytesRead] == data[fileOffset..fileOffset + bytesRead]
    requires Carried(data, from, fileOffset, carried, pendingOffset)
    requires Progress(data, from, fileOffset, firstLineNo, startLine, maxLines, decode, yielded)
    ensures stop ==> DecodeSegments(Selected(Segments(data), startLine, maxLines), decode) == Outcome(lines, threw)
    ensures lineStart <= bytesRead && (pending == [] || (pending == carried && lineStart == 0))
    ensures !stop ==> Carried(data, cut, fileOffset + lineStart, pending, pendingOffset)
    ensures !stop ==> Progress(data, cut, fileOffset + bytesRead, lineNo, startLine, maxLines, decode, lines)
  {
    hide Progress, Segments, Selected, DecodeSegments, PendingBytes;
    PendingNone();
    cut, lineStart, pending, lineNo, lines := from, 0, carried, firstLineNo, yielded;
    stop, threw := false, false;
    ghost var end := fileOffset;
    var i := 0;
    while i < bytesRead
      invariant 0 <= lineStart <= i <= bytesRead && end == fileOffset + i
      invariant pending == [] || (pending == carried && lineStart == 0)
      invariant Carried(data, cut, fileOffset + lineStart, pending, pendingOffset)
      invariant Progress(data, cut, end, lineNo, startLine, maxLines, decode, lines)
    {
      assert buf[i] == buf[..bytesRead][i] == data[end];
      if buf[i] != LF {
        ProgressInLine(data, cut, end, lineNo, startLine, maxLines, decode, lines);
        i, end := i + 1, end + 1;
        continue;
      }
      assert buf[..i + 1] == buf[..bytesRead][..i + 1] == data[fileOffset..fileOffset + i + 1];
      var line, lineOffset := JoinLine(data, cut, buf, lineStart, i, fileOffset, pending, pendingOffset);
      lines, stop, threw := EndOfLine(data, cut, end, line, lineOffset, lineNo, startLine, maxLines, decode, lines);
      if stop { return; }
      pending := [];
      lineNo := lineNo + 1;
      i, end := i + 1, end + 1;
      lineStart := i;
      cut := end;
    }
  }

  /**
   * `_readUtf8Lines`: one buffer is overwritten by every read, and the start of a line that
   * goes on in the next chunk is copied out of it.
   */
  method ReadUtf8Lines(fh: FileHandle, chunkSize: nat, decode: Decoder, startLine: int, maxLines: Option<int>)
    returns (outcome: Outcome)
    requires chunkSize > 0 && fh.pos == 0
    modifies fh
    ensures outcome == DecodeSegments(Selected(Segments(fh.data), startLine, maxLines), decode)
  {
    hide Progress, Segments, Selected, DecodeSegments, PendingBytes;
    PendingNone();
    ghost var data := fh.data;
    ghost var cut := 0;
    var buf := new Byte[chunkSize](_ => 0);
    var pending: seq<array<Byte>> := [];
    var pendingOffset: nat, fileOffset: nat, lineNo := 0, 0, 1;
    var lines: seq<Text> := [];
    ProgressAtStart(data, startLine, maxLines, decode);
    while true
      invariant fileOffset == fh.pos <= |data|
      invariant forall a <- pending :: a != buf
      invariant Carried(data, cut, fileOffset, pending, pendingOffset)
      invariant Progress(data, cut, fileOffset, lineNo, startLine, maxLines, decode, lines)
      decreases |data| - fileOffset
    {
      var bytesRead := fh.ReadNext(buf);
      if bytesRead == 0 { break; }
      var lineStart, stop, threw;
      cut, lineStart, pending, lineNo, lines, stop, threw :=
        ScanChunk(data, cut, buf, bytesRead, fileOffset, pending, pendingOffset, lineNo, startLine, maxLines, decode, lines);
      if stop { return Outcome(lines, threw); }
      pending, pendingOffset := CarryOver(data, cut, buf, lineStart, bytesRead, fileOffset, pending, pendingOffset);
      fileOffset := fileOffset + bytesRead;
    }
    if pending != [] && lineNo >= startLine {
      var line := PendingBytes(pending);
      TakeLine(data, cut, |data|, |data|, lineNo, startLine, maxLines, decode, lines);
      match decode(line, pendingOffset != 0)
      case None =>
        outcome := Outcome(lines, true);
      case Some(text) =>
        outcome := Outcome(lines + [text], false);
    } else {
      Finish(data, cut, lineNo, startLine, maxLines, decode, lines);
      outcome := Outcome(lines, false);
    }
  }
}
