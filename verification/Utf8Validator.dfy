/**
 * The incremental UTF-8 validator of the file scanner (section 4 of RFC 3629), which sees
 * the file in arbitrary chunks and keeps three numbers between them.
 */
module Utf8Validator {
  import opened Bytes
  import opened Utf8

  /** What the validator remembers between bytes, or that it has thrown. */
  datatype State = Failed | Expecting(needed: nat, lower: Byte, upper: Byte)

  const Start := Expecting(0, 0x80, 0xBF)

  /** What one lead byte makes the validator expect. */
  function Lead(b: Byte): (st: State) {
    if b <= 0x7F then Start
    else if 0xC2 <= b <= 0xDF then Expecting(1, 0x80, 0xBF)
    else if b == 0xE0 then Expecting(2, 0xA0, 0xBF)
    else if 0xE1 <= b <= 0xEC then Expecting(2, 0x80, 0xBF)
    else if b == 0xED then Expecting(2, 0x80, 0x9F)
    else if 0xEE <= b <= 0xEF then Expecting(2, 0x80, 0xBF)
    else if b == 0xF0 then Expecting(3, 0x90, 0xBF)
    else if 0xF1 <= b <= 0xF3 then Expecting(3, 0x80, 0xBF)
    else if b == 0xF4 then Expecting(3, 0x80, 0x8F)
    else Failed
  }

  function Feed(st: State, b: Byte): (st': State) {
    match st
    case Failed => Failed
    case Expecting(needed, lower, upper) =>
      if needed == 0 then Lead(b)
      else if b < lower || b > upper then Failed
      else Expecting(needed - 1, 0x80, 0xBF)
  }

  function FeedAll(st: State, data: seq<Byte>): (st': State)
    decreases |data|
  {
    if data == [] then st else FeedAll(Feed(st, data[0]), data[1..])
  }

  /** Neither `write` nor `end` throws on these bytes. */
  predicate Accepts(data: seq<Byte>) {
    var st := FeedAll(Start, data);
    st.Expecting? && st.needed == 0
  }

  lemma {:induction false} FeedCut(st: State, a: seq<Byte>, b: seq<Byte>)
    ensures FeedAll(st, a + b) == FeedAll(FeedAll(st, a), b)
    decreases |a|
  {
    hide Feed;
    if a == [] {
      assert a + b == b;
    } else {
      FeedCut(Feed(st, a[0]), a[1..], b);
      assert (a + b)[1..] == a[1..] + b;
    }
  }

  lemma {:induction false} FailedForGood(data: seq<Byte>)
    ensures FeedAll(Failed, data) == Failed
  {
    if data != [] { FailedForGood(data[1..]); }
  }

  /** Feeding the first bytes one at a time. */
  lemma FeedUnroll(st: State, data: seq<Byte>)
    requires data != []
    ensures FeedAll(st, data) == FeedAll(Feed(st, data[0]), data[1..])
    ensures |data| > 1 ==> FeedAll(st, data) == FeedAll(Feed(Feed(st, data[0]), data[1]), data[2..])
  {
    hide Feed;
    if |data| > 1 { assert data[1..][1..] == data[2..]; }
  }

  /** Bytes that start with a well-formed sequence: the validator is back where it started after it. */
  lemma EncodedAccepted(data: seq<Byte>)
    requires data != [] && Advance(data).scalar.Some?
    ensures FeedAll(Start, data) == FeedAll(Start, data[Advance(data).width..])
  {
    FeedUnroll(Start, data);
    if |data| > 1 {
      var st := Feed(Feed(Start, data[0]), data[1]);
      if |data| > 2 {
        FeedUnroll(st, data[2..]);
        assert data[2..][1..] == data[3..];
        if |data| > 3 { assert data[2..][2..] == data[4..]; }
      }
    }
  }

  /** Bytes that do not: the validator throws, now or at the end. */
  lemma OtherwiseRejected(data: seq<Byte>)
    requires data != [] && Advance(data).scalar.None?
    ensures !Accepts(data)
  {
    FeedUnroll(Start, data);
    var st := Feed(Start, data[0]);
    FailedForGood(data[1..]);
    if |data| > 1 {
      st := Feed(st, data[1]);
      FailedForGood(data[2..]);
      if |data| > 2 {
        FeedUnroll(st, data[2..]);
        assert data[2..][1..] == data[3..];
        FailedForGood(data[3..]);
        if |data| > 3 {
          assert data[2..][2..] == data[4..];
          FailedForGood(data[4..]);
        }
      }
    }
  }

  /**
   * The validator accepts exactly the bytes that lenient decoding loses nothing of, that
   * is, the encodings of scalar values.
   */
  lemma {:induction false} AcceptsIffReencodes(data: seq<Byte>)
    ensures Accepts(data) <==> Encode(Scalars(data)) == data
  {
    hide Advance, Feed, EncodeScalar;
    if data != [] {
      var step := Advance(data);
      var rest := data[step.width..];
      if step.scalar.Some? {
        EncodedAccepted(data);
        AcceptsIffReencodes(rest);
        AdvanceEmitsEncoded(data);
        assert data == data[..step.width] + rest;
        assert Scalars(data)[1..] == Scalars(rest);
        assert Encode(Scalars(data)) == data[..step.width] + Encode(Scalars(rest));
      } else {
        OtherwiseRejected(data);
        assert Scalars(data) == Scalars(rest);
        ReencodingNoLonger(rest);
      }
    }
  }

  /** Every encoding of scalar values is accepted, and nothing else is. */
  lemma AcceptsExactlyEncodings(data: seq<Byte>)
    ensures Accepts(data) <==> exists vs: seq<Scalar> :: Encode(vs) == data
  {
    AcceptsIffReencodes(data);
    if vs: seq<Scalar> :| Encode(vs) == data {
      DecodeInvertsEncode(vs);
    }
  }

  /** `createUtf8Validator`: the closure over `needed`, `lower` and `upper`. */
  class Validator {
    var needed: nat
    var lower: Byte
    var upper: Byte

    function State(): (st: State)
      reads this
    {
      Expecting(needed, lower, upper)
    }

    /** Between sequences the bounds are the default ones. */
    ghost predicate Valid()
      reads this
    {
      needed == 0 ==> State() == Start
    }

    constructor ()
      ensures Valid() && State() == Start
    {
      needed, lower, upper := 0, 0x80, 0xBF;
    }

    /** Returns false where the source throws. */
    method Write(chunk: seq<Byte>) returns (ok: bool)
      requires Valid()
      modifies this
      ensures ok ==> Valid()
      ensures ok <==> FeedAll(old(State()), chunk).Expecting?
      ensures ok ==> State() == FeedAll(old(State()), chunk)
    {
      var i := 0;
      while i < |chunk|
        invariant 0 <= i <= |chunk|
        invariant Valid()
        invariant FeedAll(State(), chunk[i..]) == FeedAll(old(State()), chunk)
      {
        var byte := chunk[i];
        ghost var st := State();
        assert chunk[i..][1..] == chunk[i + 1..];
        FailedForGood(chunk[i + 1..]);
        if needed == 0 {
          if byte <= 0x7F {
            i := i + 1;
            continue;
          } else if 0xC2 <= byte <= 0xDF {
            needed := 1;
          } else if byte == 0xE0 {
            needed, lower := 2, 0xA0;
          } else if 0xE1 <= byte <= 0xEC {
            needed := 2;
          } else if byte == 0xED {
            needed, upper := 2, 0x9F;
          } else if 0xEE <= byte <= 0xEF {
            needed := 2;
          } else if byte == 0xF0 {
            needed, lower := 3, 0x90;
          } else if 0xF1 <= byte <= 0xF3 {
            needed := 3;
          } else if byte == 0xF4 {
            needed, upper := 3, 0x8F;
          } else {
            return false;
          }
        } else {
          if byte < lower || byte > upper { return false; }
          lower, upper := 0x80, 0xBF;
          needed := needed - 1;
        }
        i := i + 1;
      }
      ok := true;
    }

    /** Returns false where the source throws: when the bytes written so far are not acceptable as a whole. */
    method End() returns (ok: bool)
      requires Valid()
      ensures forall data :: State() == FeedAll(Start, data) ==> (ok <==> Accepts(data))
    {
      ok := needed == 0;
    }
  }
}
