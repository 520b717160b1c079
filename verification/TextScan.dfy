/** The one-pass scan of a text file. */
module TextScan {
  import opened Wrappers
  import opened Bytes
  import opened Lines
  import opened Utf8Validator
  import opened ContentTag
  import opened LineReaders

  // ---------- Line endings, by what stands next to what ----------

  ghost predicate HasCrLf(data: seq<Byte>) {
    exists i :: 0 < i < |data| && data[i - 1] == CR && data[i] == LF
  }

  ghost predicate HasBareLf(data: seq<Byte>) {
    exists i :: 0 <= i < |data| && data[i] == LF && (i > 0 ==> data[i - 1] != CR)
  }

  /** A carriage return followed by something other than a line feed. */
  ghost predicate HasInnerLoneCr(data: seq<Byte>) {
    exists i :: 0 < i < |data| && data[i - 1] == CR && data[i] != LF
  }

  ghost predicate HasLoneCr(data: seq<Byte>) {
    exists i :: 0 <= i < |data| && data[i] == CR && (i + 1 < |data| ==> data[i + 1] != LF)
  }

  class LineEndingFlags {
    var hasCrLf: bool
    var hasLf: bool
    var hasLoneCr: bool

    constructor ()
      ensures Describes([])
    {
      hasCrLf, hasLf, hasLoneCr := false, false, false;
    }

    /** The flags of the bytes seen so far, a final carriage return still undecided. */
    ghost predicate Describes(seen: seq<Byte>)
      reads this
    {
      && (hasCrLf <==> HasCrLf(seen))
      && (hasLf <==> HasBareLf(seen))
      && (hasLoneCr <==> HasInnerLoneCr(seen))
    }
  }

  /** How one more byte changes the three properties. */
  lemma OneMoreByte(seen: seq<Byte>, b: Byte)
    ensures var more, afterCr := seen + [b], EndsWithCr(seen);
      && (HasCrLf(more) <==> HasCrLf(seen) || (afterCr && b == LF))
      && (HasBareLf(more) <==> HasBareLf(seen) || (!afterCr && b == LF))
      && (HasInnerLoneCr(more) <==> HasInnerLoneCr(seen) || (afterCr && b != LF))
  {
    var more, n := seen + [b], |seen|;
    assert forall i :: 0 <= i < n ==> more[i] == seen[i];
    assert more[n] == b;
    if i :| 0 < i < n && seen[i - 1] == CR && seen[i] == LF { assert more[i - 1] == CR && more[i] == LF; }
    if i :| 0 <= i < n && seen[i] == LF && (i > 0 ==> seen[i - 1] != CR) { assert more[i] == LF && (i > 0 ==> more[i - 1] != CR); }
    if i :| 0 < i < n && seen[i - 1] == CR && seen[i] != LF { assert more[i - 1] == CR && more[i] != LF; }
    if n > 0 { assert more[n - 1] == seen[n - 1]; }
  }

  /** `updateLineEndingFlagsFromBytes`. */
  method UpdateLineEndingFlags(flags: LineEndingFlags, chunk: seq<Byte>, prevWasCr: bool, ghost seen: seq<Byte>)
    returns (lastWasCr: bool)
    requires flags.Describes(seen) && prevWasCr == EndsWithCr(seen)
    modifies flags
    ensures flags.Describes(seen + chunk) && lastWasCr == EndsWithCr(seen + chunk)
  {
    hide HasCrLf, HasBareLf, HasInnerLoneCr;
    lastWasCr := prevWasCr;
    ghost var done := seen;
    var i := 0;
    while i < |chunk|
      invariant 0 <= i <= |chunk| && done == seen + chunk[..i]
      invariant flags.Describes(done) && lastWasCr == EndsWithCr(done)
    {
      var byte := chunk[i];
      OneMoreByte(done, byte);
      if byte == CR {
        if lastWasCr { flags.hasLoneCr := true; }
        lastWasCr := true;
      } else if byte == LF {
        if lastWasCr {
          flags.hasCrLf := true;
        } else {
          flags.hasLf := true;
        }
        lastWasCr := false;
      } else {
        if lastWasCr { flags.hasLoneCr := true; }
        lastWasCr := false;
      }
      done := done + [byte];
      i := i + 1;
    }
    assert done == seen + chunk;
  }

  lemma LoneCrAtEnd(data: seq<Byte>)
    ensures HasLoneCr(data) <==> HasInnerLoneCr(data) || EndsWithCr(data)
  {
    if i :| 0 < i < |data| && data[i - 1] == CR && data[i] != LF {
      assert data[i - 1] == CR && data[i - 1 + 1] != LF;
    }
    if i :| 0 <= i < |data| && data[i] == CR && (i + 1 < |data| ==> data[i + 1] != LF) {
      if i + 1 < |data| { assert data[i + 1 - 1] == CR && data[i + 1] != LF; }
    }
  }

  // ---------- The scan ----------

  /** What the scan reports; the content tag is represented by the bytes it is the hash of. */
  datatype TextFileScan = TextFileScan(
    totalLines: nat,
    endsWithNewline: bool,
    hasNul: bool,
    hasCrLf: bool,
    hasLf: bool,
    hasLoneCr: bool,
    contentTag: seq<Byte>)

  /** The bytes of one chunk: NUL seen, line feeds counted. */
  method CountChunk(chunk: seq<Byte>, lfBefore: nat, nulBefore: bool) returns (totalLf: nat, hasNul: bool)
    ensures totalLf == lfBefore + CountLf(chunk, LF)
    ensures hasNul <==> nulBefore || 0 in chunk
  {
    totalLf, hasNul := lfBefore, nulBefore;
    var i := 0;
    while i < |chunk|
      invariant 0 <= i <= |chunk|
      invariant totalLf == lfBefore + CountLf(chunk[..i], LF)
      invariant hasNul <==> nulBefore || 0 in chunk[..i]
    {
      var byte := chunk[i];
      assert chunk[..i + 1] == chunk[..i] + [byte];
      assert chunk[..i + 1][..i] == chunk[..i];
      if byte == 0 { hasNul := true; }
      if byte == LF { totalLf := totalLf + 1; }
      i := i + 1;
    }
    assert chunk[..|chunk|] == chunk;
  }

  lemma StaysRejected(data: seq<Byte>, k: nat)
    requires k <= |data| && FeedAll(Start, data[..k]) == Failed
    ensures !Accepts(data)
  {
    assert data == data[..k] + data[k..];
    FeedCut(Start, data[..k], data[k..]);
    FailedForGood(data[k..]);
  }

  /** One turn of the loop of `scanTextFile`. */
  method ScanChunk(chunk: seq<Byte>, flags: LineEndingFlags, validator: Validator, tagHasher: ContentTagHasher,
                   lfBefore: nat, nulBefore: bool, wasCr: bool, ghost seen: seq<Byte>)
    returns (ok: bool, totalLf: nat, hasNul: bool, prevWasCr: bool, endsWithNewline: bool)
    requires chunk != []
    requires flags.Describes(seen) && wasCr == EndsWithCr(seen)
    requires validator.Valid() && validator.State() == FeedAll(Start, seen)
    requires tagHasher.Valid() && !tagHasher.finished && tagHasher.input == seen
    requires lfBefore == CountLf(seen, LF) && (nulBefore <==> 0 in seen)
    modifies flags, validator, tagHasher
    ensures ok <==> FeedAll(Start, seen + chunk).Expecting?
    ensures ok ==>
      && flags.Describes(seen + chunk) && prevWasCr == EndsWithCr(seen + chunk)
      && validator.Valid() && validator.State() == FeedAll(Start, seen + chunk)
      && tagHasher.Valid() && !tagHasher.finished && tagHasher.input == seen + chunk
      && totalLf == CountLf(seen + chunk, LF) && (hasNul <==> 0 in seen + chunk)
      && endsWithNewline == EndsWithLf(seen + chunk, LF)
  {
    hide CountLf, HasCrLf, HasBareLf, HasInnerLoneCr, FeedAll;
    totalLf, hasNul, prevWasCr, endsWithNewline := lfBefore, nulBefore, wasCr, false;
    FeedCut(Start, seen, chunk);
    ok := validator.Write(chunk);
    if !ok { return; }
    var updated := tagHasher.Update(chunk);
    CountLfAppend(seen, chunk, LF);
    totalLf, hasNul := CountChunk(chunk, lfBefore, nulBefore);
    prevWasCr := UpdateLineEndingFlags(flags, chunk, wasCr, seen);
    endsWithNewline := chunk[|chunk| - 1] == LF;
  }

  /** `scanTextFile`; None where the validator throws. */
  method ScanTextFile(fh: FileHandle, chunkSize: nat) returns (scan: Option<TextFileScan>)
    requires chunkSize > 0 && fh.pos == 0
    modifies fh
    ensures scan.Some? <==> Accepts(fh.data)
    ensures scan.Some? ==>
      && scan.value.totalLines == |Split(fh.data, LF)|
      && scan.value.endsWithNewline == EndsWithLf(fh.data, LF)
      && (scan.value.hasNul <==> 0 in fh.data)
      && (scan.value.hasCrLf <==> HasCrLf(fh.data))
      && (scan.value.hasLf <==> HasBareLf(fh.data))
      && (scan.value.hasLoneCr <==> HasLoneCr(fh.data))
      && scan.value.contentTag == Fed(fh.data)
  {
    hide CountLf, Split, HasCrLf, HasBareLf, HasInnerLoneCr, HasLoneCr, Fed;
    ghost var data := fh.data;
    var buf := new Byte[chunkSize](_ => 0);
    var flags := new LineEndingFlags();
    var validator := new Validator();
    var tagHasher := new ContentTagHasher();
    var totalLines, totalBytes := 0, 0;
    var endsWithNewline, hasNul, prevWasCr := false, false, false;
    NothingCounted();
    while true
      invariant totalBytes == fh.pos <= |data|
      invariant flags.Describes(data[..totalBytes]) && prevWasCr == EndsWithCr(data[..totalBytes])
      invariant validator.Valid() && validator.State() == FeedAll(Start, data[..totalBytes])
      invariant tagHasher.Valid() && !tagHasher.finished && tagHasher.input == data[..totalBytes]
      invariant totalLines == CountLf(data[..totalBytes], LF)
      invariant endsWithNewline == EndsWithLf(data[..totalBytes], LF)
      invariant hasNul <==> 0 in data[..totalBytes]
      invariant fresh(flags) && fresh(validator) && fresh(tagHasher)
      decreases |data| - totalBytes
    {
      ghost var seen := data[..totalBytes];
      var bytesRead := fh.ReadNext(buf);
      if bytesRead == 0 { break; }
      var chunk := buf[..bytesRead];
      assert data[..fh.pos] == seen + chunk;
      var ok;
      ok, totalLines, hasNul, prevWasCr, endsWithNewline :=
        ScanChunk(chunk, flags, validator, tagHasher, totalLines, hasNul, prevWasCr, seen);
      if !ok {
        StaysRejected(data, fh.pos);
        return None;
      }
      totalBytes := totalBytes + bytesRead;
    }
    assert data[..totalBytes] == data;
    LoneCrAtEnd(data);
    if prevWasCr { flags.hasLoneCr := true; }
    var ended := validator.End();
    if !ended { return None; }
    SplitCount(data, LF);
    if totalBytes > 0 && !endsWithNewline { totalLines := totalLines + 1; }
    var digested, hashed := tagHasher.Digest();
    scan := Some(TextFileScan(totalLines, endsWithNewline, hasNul, flags.hasCrLf, flags.hasLf, flags.hasLoneCr, hashed));
  }

  lemma NothingCounted()
    ensures CountLf<Byte>([], LF) == 0
  {
  }
}
