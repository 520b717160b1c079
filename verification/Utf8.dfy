/**
 * The lenient UTF-8 decoder and the encoding it undoes.
 *
 * `DecodeUtf8Ignore` is the loop; `Scalars` says which code points it emits.  The encoding
 * (section 3 of RFC 3629) is written independently, and `ScalarsAreTheEncodedOnes`
 * characterises the decoder on arbitrary bytes through the encoding alone.
 */
module Utf8 {
  import opened Wrappers
  import opened Bytes
  import opened Utf16

  // ---------- The encoding, section 3 of RFC 3629 ----------

  function EncodeScalar(v: Scalar): (bytes: seq<Byte>)
    ensures 1 <= |bytes| <= 4
  {
    if v < 0x80 then [v]
    else if v < 0x800 then [0xC0 + v / 0x40, 0x80 + v % 0x40]
    else if v < 0x1_0000 then [0xE0 + v / 0x1000, 0x80 + v / 0x40 % 0x40, 0x80 + v % 0x40]
    else [0xF0 + v / 0x4_0000, 0x80 + v / 0x1000 % 0x40, 0x80 + v / 0x40 % 0x40, 0x80 + v % 0x40]
  }

  function Encode(vs: seq<Scalar>): (bytes: seq<Byte>) {
    if vs == [] then [] else EncodeScalar(vs[0]) + Encode(vs[1..])
  }

  // ---------- One step of the decoder ----------

  predicate IsContinuation(b: Byte) { 0x80 <= b <= 0xBF }

  predicate ValidSecondOfThree(b0: Byte, b1: Byte) {
    || (b0 == 0xE0 && 0xA0 <= b1 <= 0xBF)
    || (0xE1 <= b0 <= 0xEC && IsContinuation(b1))
    || (b0 == 0xED && 0x80 <= b1 <= 0x9F)
    || (0xEE <= b0 <= 0xEF && IsContinuation(b1))
  }

  predicate ValidSecondOfFour(b0: Byte, b1: Byte) {
    || (b0 == 0xF0 && 0x90 <= b1 <= 0xBF)
    || (0xF1 <= b0 <= 0xF3 && IsContinuation(b1))
    || (b0 == 0xF4 && 0x80 <= b1 <= 0x8F)
  }

  // The payload bits of each form, masked and shifted as in the source: `x % 0x40` is `x & 0x3f`.

  function CodePoint2(b0: int, b1: int): (v: int) {
    b0 % 0x20 * 0x40 + b1 % 0x40
  }

  function CodePoint3(b0: int, b1: int, b2: int): (v: int) {
    b0 % 0x10 * 0x1000 + b1 % 0x40 * 0x40 + b2 % 0x40
  }

  function CodePoint4(b0: int, b1: int, b2: int, b3: int): (v: int) {
    b0 % 0x08 * 0x4_0000 + b1 % 0x40 * 0x1000 + b2 % 0x40 * 0x40 + b3 % 0x40
  }

  predicate Starts2(data: seq<Byte>) {
    |data| > 1 && 0xC2 <= data[0] <= 0xDF && IsContinuation(data[1])
  }

  predicate Starts3(data: seq<Byte>) {
    |data| > 2 && 0xE0 <= data[0] <= 0xEF && ValidSecondOfThree(data[0], data[1]) && IsContinuation(data[2])
  }

  predicate Starts4(data: seq<Byte>) {
    && |data| > 3
    && 0xF0 <= data[0] <= 0xF4
    && ValidSecondOfFour(data[0], data[1])
    && IsContinuation(data[2])
    && IsContinuation(data[3])
  }

  // The same values with the marker bits subtracted instead of masked.

  function Linear2(b0: int, b1: int): (v: int) {
    (b0 - 0xC0) * 0x40 + (b1 - 0x80)
  }

  function Linear3(b0: int, b1: int, b2: int): (v: int) {
    (b0 - 0xE0) * 0x1000 + (b1 - 0x80) * 0x40 + (b2 - 0x80)
  }

  function Linear4(b0: int, b1: int, b2: int, b3: int): (v: int) {
    (b0 - 0xF0) * 0x4_0000 + (b1 - 0x80) * 0x1000 + (b2 - 0x80) * 0x40 + (b3 - 0x80)
  }

  lemma Pack2(data: seq<Byte>)
    requires Starts2(data)
    ensures 0x80 <= CodePoint2(data[0], data[1]) < 0x800
    ensures CodePoint2(data[0], data[1]) == Linear2(data[0], data[1])
  {
  }

  lemma Pack3(data: seq<Byte>)
    requires Starts3(data)
    ensures 0x800 <= CodePoint3(data[0], data[1], data[2]) < 0x1_0000
    ensures !(0xD800 <= CodePoint3(data[0], data[1], data[2]) <= 0xDFFF)
    ensures CodePoint3(data[0], data[1], data[2]) == Linear3(data[0], data[1], data[2])
  {
  }

  lemma Pack4(data: seq<Byte>)
    requires Starts4(data)
    ensures 0x1_0000 <= CodePoint4(data[0], data[1], data[2], data[3]) <= 0x10_FFFF
    ensures CodePoint4(data[0], data[1], data[2], data[3]) == Linear4(data[0], data[1], data[2], data[3])
  {
  }

  /** How far one turn of the loop moves, and what it appends. */
  datatype Step = Step(width: nat, scalar: Option<Scalar>)

  const Skip := Step(1, None)

  /** One turn of the decoding loop on the bytes not yet consumed. */
  function Advance(data: seq<Byte>): (step: Step)
    requires data != []
    ensures 1 <= step.width <= |data|
  {
    if data[0] <= 0x7F then Step(1, Some(data[0]))
    else if Starts2(data) then
      Pack2(data);
      var v: Scalar := CodePoint2(data[0], data[1]);
      Step(2, Some(v))
    else if Starts3(data) then
      Pack3(data);
      var v: Scalar := CodePoint3(data[0], data[1], data[2]);
      Step(3, Some(v))
    else if Starts4(data) then
      Pack4(data);
      var v: Scalar := CodePoint4(data[0], data[1], data[2], data[3]);
      Step(4, Some(v))
    else Skip
  }

  function Emitted(step: Step): (vs: seq<Scalar>) {
    if step.scalar.Some? then [step.scalar.value] else []
  }

  /** The code points the decoder emits, in order. */
  function Scalars(data: seq<Byte>): (vs: seq<Scalar>) {
    if data == [] then [] else
      var step := Advance(data);
      Emitted(step) + Scalars(data[step.width..])
  }

  /** The decoded string. */
  function Decode(data: seq<Byte>): (text: Text) {
    FromCodePoints(Scalars(data))
  }

  lemma DecodeStep(data: seq<Byte>, i: nat, piece: Text)
    requires i < |data|
    requires piece == FromCodePoints(Emitted(Advance(data[i..])))
    ensures Decode(data[i..]) == piece + Decode(data[i + Advance(data[i..]).width..])
  {
    hide Advance, FromCodePoint;
    var step := Advance(data[i..]);
    assert data[i..][step.width..] == data[i + step.width..];
    FromCodePointsAppend(Emitted(step), Scalars(data[i + step.width..]));
  }

  /** The body of the loop of `decodeUtf8Ignore`, up to the append. */
  method ReadOne(data: seq<Byte>, i: nat) returns (width: nat, scalar: Option<Scalar>)
    requires i < |data|
    ensures Step(width, scalar) == Advance(data[i..])
  {
    ghost var rest := data[i..];
    var b0 := data[i];
    width, scalar := 1, None;
    if b0 <= 0x7F {
      scalar := Some(b0);
    } else if 0xC2 <= b0 <= 0xDF {
      if i + 1 < |data| && IsContinuation(data[i + 1]) {
        Pack2(rest);
        scalar, width := Some(CodePoint2(b0, data[i + 1])), 2;
      }
    } else if 0xE0 <= b0 <= 0xEF {
      if i + 2 < |data| && ValidSecondOfThree(b0, data[i + 1]) && IsContinuation(data[i + 2]) {
        Pack3(rest);
        scalar, width := Some(CodePoint3(b0, data[i + 1], data[i + 2])), 3;
      }
    } else if 0xF0 <= b0 <= 0xF4 {
      if i + 3 < |data| && ValidSecondOfFour(b0, data[i + 1]) && IsContinuation(data[i + 2]) && IsContinuation(data[i + 3]) {
        Pack4(rest);
        scalar, width := Some(CodePoint4(b0, data[i + 1], data[i + 2], data[i + 3])), 4;
      }
    }
  }

  /** `decodeUtf8Ignore`. */
  method DecodeUtf8Ignore(data: seq<Byte>) returns (output: Text)
    ensures output == Decode(data)
  {
    hide Decode, Advance, FromCodePoint;
    output := [];
    var i := 0;
    while i < |data|
      invariant 0 <= i <= |data|
      invariant output + Decode(data[i..]) == Decode(data)
    {
      var width, scalar := ReadOne(data, i);
      var piece := [];
      if scalar.Some? {
        FromCodePointsOne(scalar.value);
        piece := FromCodePoint(scalar.value);
      }
      DecodeStep(data, i, piece);
      assert output + (piece + Decode(data[i + width..])) == (output + piece) + Decode(data[i + width..]);
      output := output + piece;
      i := i + width;
    }
    assert data[i..] == [];
    DecodeNothing();
  }

  lemma DecodeNothing()
    ensures Decode([]) == []
  {
  }

  // ---------- The step read through the encoding ----------

  /** The base-64 digits of a code point. */
  lemma Digits(v: nat)
    ensures v / 0x1000 == v / 0x40 / 0x40 && v / 0x4_0000 == v / 0x40 / 0x40 / 0x40
  {
    var a := v / 0x40;
    var b := a / 0x40;
    assert a / 0x40 * 0x1000 <= v < (a / 0x40 + 1) * 0x1000;
    assert b / 0x40 * 0x4_0000 <= v < (b / 0x40 + 1) * 0x4_0000;
  }

  lemma Unpack2(v: Scalar)
    requires 0x80 <= v < 0x800
    ensures Starts2(EncodeScalar(v)) && CodePoint2(EncodeScalar(v)[0], EncodeScalar(v)[1]) == v
  {
  }

  lemma Unpack3(v: Scalar)
    requires 0x800 <= v < 0x1_0000
    ensures Starts3(EncodeScalar(v))
    ensures var e := EncodeScalar(v); CodePoint3(e[0], e[1], e[2]) == v
  {
    Digits(v);
    var e := EncodeScalar(v);
    assert v == Linear3(e[0], e[1], e[2]);
    Pack3(e);
  }

  lemma Unpack4(v: Scalar)
    requires 0x1_0000 <= v
    ensures Starts4(EncodeScalar(v))
    ensures var e := EncodeScalar(v); CodePoint4(e[0], e[1], e[2], e[3]) == v
  {
    Digits(v);
    var d2 := v / 0x40;
    var d1 := d2 / 0x40;
    var e := EncodeScalar(v);
    assert e == [0xF0 + d1 / 0x40, 0x80 + d1 % 0x40, 0x80 + d2 % 0x40, 0x80 + v % 0x40];
    assert v == Linear4(e[0], e[1], e[2], e[3]);
    Pack4(e);
  }

  lemma EncodeLinear2(data: seq<Byte>, v: Scalar)
    requires Starts2(data) && v == Linear2(data[0], data[1])
    ensures EncodeScalar(v) == data[..2]
  {
    assert v / 0x40 == data[0] - 0xC0;
  }

  lemma EncodeLinear3(data: seq<Byte>, v: Scalar)
    requires Starts3(data) && v == Linear3(data[0], data[1], data[2])
    ensures EncodeScalar(v) == data[..3]
  {
    var x0: int, x1: int := data[0] - 0xE0, data[1] - 0x80;
    assert v / 0x1000 == x0 && v / 0x40 == x0 * 0x40 + x1;
  }

  lemma EncodeLinear4(data: seq<Byte>, v: Scalar)
    requires Starts4(data) && v == Linear4(data[0], data[1], data[2], data[3])
    ensures EncodeScalar(v) == data[..4]
  {
    Digits(v);
    var x0: int, x1: int, x2: int := data[0] - 0xF0, data[1] - 0x80, data[2] - 0x80;
    var d1 := x0 * 0x40 + x1;
    var d2 := d1 * 0x40 + x2;
    assert v / 0x40 == d2 && d2 / 0x40 == d1 && d1 / 0x40 == x0;
  }

  /** The bytes consumed by a step that emits are the encoding of what it emits. */
  lemma AdvanceEmitsEncoded(data: seq<Byte>)
    requires data != [] && Advance(data).scalar.Some?
    ensures EncodeScalar(Advance(data).scalar.value) == data[..Advance(data).width]
  {
    if data[0] <= 0x7F {
    } else if Starts2(data) {
      Pack2(data);
      EncodeLinear2(data, CodePoint2(data[0], data[1]));
    } else if Starts3(data) {
      Pack3(data);
      EncodeLinear3(data, CodePoint3(data[0], data[1], data[2]));
    } else {
      Pack4(data);
      EncodeLinear4(data, CodePoint4(data[0], data[1], data[2], data[3]));
    }
  }

  /** Where the data starts with the encoding of `v`, the step emits `v` and consumes it. */
  lemma EncodedPrefixAdvances(data: seq<Byte>, v: Scalar)
    requires EncodeScalar(v) <= data
    ensures data != [] && Advance(data) == Step(|EncodeScalar(v)|, Some(v))
  {
    var e := EncodeScalar(v);
    assert forall i :: 0 <= i < |e| ==> data[i] == e[i];
    if v < 0x80 {
    } else if v < 0x800 {
      Unpack2(v);
    } else if v < 0x1_0000 {
      Unpack3(v);
    } else {
      Unpack4(v);
    }
  }

  /** A step emits `v` exactly when the bytes start with the encoding of `v`. */
  lemma {:induction false} AdvanceReadsEncoding(data: seq<Byte>, v: Scalar)
    requires data != []
    ensures Advance(data).scalar == Some(v) <==> EncodeScalar(v) <= data
  {
    if EncodeScalar(v) <= data {
      EncodedPrefixAdvances(data, v);
    }
    if Advance(data).scalar == Some(v) {
      AdvanceEmitsEncoded(data);
    }
  }

  /** No encoding starts with a continuation byte, and all its later bytes are continuations. */
  lemma EncodingShape(v: Scalar)
    ensures !IsContinuation(EncodeScalar(v)[0])
    ensures forall i :: 1 <= i < |EncodeScalar(v)| ==> IsContinuation(EncodeScalar(v)[i])
  {
  }

  /** The code point whose encoding starts here, if there is one. */
  ghost function EncodedHere(data: seq<Byte>): (vs: seq<Scalar>) {
    if exists v: Scalar :: EncodeScalar(v) <= data
    then (var v: Scalar :| EncodeScalar(v) <= data; [v])
    else []
  }

  /** Looks for an encoded code point at every single position. */
  ghost function EncodedAnywhere(data: seq<Byte>): (vs: seq<Scalar>) {
    if data == [] then [] else EncodedHere(data) + EncodedAnywhere(data[1..])
  }

  lemma EmittedIsEncodedHere(data: seq<Byte>)
    requires data != []
    ensures Emitted(Advance(data)) == EncodedHere(data)
  {
    if exists v: Scalar :: EncodeScalar(v) <= data {
      AdvanceReadsEncoding(data, EncodedHere(data)[0]);
    } else {
      var step := Advance(data);
      if step.scalar.Some? {
        AdvanceReadsEncoding(data, step.scalar.value);
      }
    }
  }

  lemma {:induction false} NothingInsideContinuations(data: seq<Byte>, k: nat)
    requires k <= |data| && forall i :: 0 <= i < k ==> IsContinuation(data[i])
    ensures EncodedAnywhere(data) == EncodedAnywhere(data[k..])
  {
    if k == 0 {
      assert data[0..] == data;
    } else {
      forall v: Scalar
        ensures !(EncodeScalar(v) <= data)
      {
        EncodingShape(v);
      }
      NothingInsideContinuations(data[1..], k - 1);
      assert data[1..][k - 1..] == data[k..];
    }
  }

  /**
   * On arbitrary bytes the decoder emits exactly the code points whose encoding occurs in
   * the data, in order of position; every other byte is dropped.
   */
  lemma {:induction false} ScalarsAreTheEncodedOnes(data: seq<Byte>)
    ensures Scalars(data) == EncodedAnywhere(data)
  {
    if data != [] {
      var step := Advance(data);
      EmittedIsEncodedHere(data);
      ScalarsAreTheEncodedOnes(data[step.width..]);
      if step.scalar.Some? {
        AdvanceEmitsEncoded(data);
        EncodingShape(step.scalar.value);
        assert forall i :: 0 <= i < step.width ==> data[..step.width][i] == data[i];
      }
      NothingInsideContinuations(data[1..], step.width - 1);
      assert data[1..][step.width - 1..] == data[step.width..];
    }
  }

  // ---------- Round trip ----------

  lemma ScalarsEncoded(v: Scalar, more: seq<Byte>)
    ensures Scalars(EncodeScalar(v) + more) == [v] + Scalars(more)
  {
    hide EncodeScalar, Advance;
    EncodedPrefixAdvances(EncodeScalar(v) + more, v);
    assert (EncodeScalar(v) + more)[|EncodeScalar(v)|..] == more;
  }

  lemma {:induction false} DecodeEncode(vs: seq<Scalar>, rest: seq<Byte>)
    ensures Scalars(Encode(vs) + rest) == vs + Scalars(rest)
  {
    hide EncodeScalar, Scalars;
    if vs == [] {
      assert Encode(vs) + rest == rest;
    } else {
      var more := Encode(vs[1..]) + rest;
      assert Encode(vs) + rest == EncodeScalar(vs[0]) + more;
      ScalarsEncoded(vs[0], more);
      DecodeEncode(vs[1..], rest);
      assert [vs[0]] + (vs[1..] + Scalars(rest)) == vs + Scalars(rest);
    }
  }

  /** Every string of scalar values survives encoding and lenient decoding. */
  lemma {:induction false} DecodeInvertsEncode(vs: seq<Scalar>)
    ensures Scalars(Encode(vs)) == vs
  {
    DecodeEncode(vs, []);
    assert Encode(vs) + [] == Encode(vs) && vs + [] == vs;
  }

  lemma {:induction false} EncodeAppend(a: seq<Scalar>, b: seq<Scalar>)
    ensures Encode(a + b) == Encode(a) + Encode(b)
  {
    hide EncodeScalar;
    if a == [] {
      assert a + b == b;
    } else {
      EncodeAppend(a[1..], b);
      assert (a + b)[1..] == a[1..] + b;
      Associate(EncodeScalar(a[0]), Encode(a[1..]), Encode(b));
    }
  }

  /** Decoding never invents bytes. */
  lemma {:induction false} ReencodingNoLonger(data: seq<Byte>)
    ensures |Encode(Scalars(data))| <= |data|
  {
    if data != [] {
      var step := Advance(data);
      ReencodingNoLonger(data[step.width..]);
      EncodeAppend(Emitted(step), Scalars(data[step.width..]));
      if step.scalar.Some? {
        AdvanceEmitsEncoded(data);
        EncodeSingle(step.scalar.value);
      }
    }
  }

  lemma EncodeSingle(v: Scalar)
    ensures Encode([v]) == EncodeScalar(v)
  {
    assert [v][1..] == [];
    assert Encode([v][1..]) == [];
  }

  // ---------- Decoding distributes over a cut at a line feed ----------

  /** The next step neither uses nor needs anything from a line feed on. */
  lemma AdvanceStopsAtLf(a: seq<Byte>, b: seq<Byte>)
    requires a != []
    ensures Advance(a + [LF] + b) == Advance(a)
  {
    hide CodePoint2, CodePoint3, CodePoint4;
    var whole := a + [LF] + b;
    assert forall i :: 0 <= i < |a| ==> whole[i] == a[i];
    assert whole[|a|] == LF && !IsContinuation(LF);
  }

  /** For arbitrary bytes, well formed or not, decoding distributes over every line feed. */
  lemma {:induction false} ScalarsAtLf(a: seq<Byte>, b: seq<Byte>)
    ensures Scalars(a + [LF] + b) == Scalars(a) + [LF] + Scalars(b)
  {
    hide Advance;
    if a == [] {
      assert [LF] + b == EncodeScalar(LF) + b;
      ScalarsEncoded(LF, b);
      assert a + [LF] + b == [LF] + b && Scalars(a) + [LF] == [LF];
    } else {
      AdvanceStopsAtLf(a, b);
      var w := Advance(a).width;
      assert (a + [LF] + b)[w..] == a[w..] + [LF] + b;
      ScalarsAtLf(a[w..], b);
      Associate(Emitted(Advance(a)), Scalars(a[w..]), [LF]);
      Associate(Emitted(Advance(a)), Scalars(a[w..]) + [LF], Scalars(b));
    }
  }

  lemma DecodeAtLf(a: seq<Byte>, b: seq<Byte>)
    ensures Decode(a + [LF] + b) == Decode(a) + [LF] + Decode(b)
  {
    hide Scalars;
    ScalarsAtLf(a, b);
    FromCodePointsAppend(Scalars(a) + [LF], Scalars(b));
    FromCodePointsAppend(Scalars(a), [LF]);
    FromCodePointsOne(LF);
  }

  /** Cutting after a line feed. */
  lemma ScalarsCut(a: seq<Byte>, b: seq<Byte>)
    requires a == [] || a[|a| - 1] == LF
    ensures Scalars(a + b) == Scalars(a) + Scalars(b)
  {
    hide Scalars;
    if a == [] {
      assert a + b == b && Scalars([]) == [] by { assert Encode([]) == []; DecodeInvertsEncode([]); }
    } else {
      var front := a[..|a| - 1];
      assert a == front + [LF] + [] && a + b == front + [LF] + b;
      ScalarsAtLf(front, b);
      ScalarsAtLf(front, []);
      DecodeInvertsEncode([]);
    }
  }

  lemma DecodeCut(a: seq<Byte>, b: seq<Byte>)
    requires a == [] || a[|a| - 1] == LF
    ensures Decode(a + b) == Decode(a) + Decode(b)
  {
    ScalarsCut(a, b);
    FromCodePointsAppend(Scalars(a), Scalars(b));
  }

  /** Only a line feed decodes to a line feed. */
  lemma {:induction false} NoLfDecoded(data: seq<Byte>)
    requires LF !in data
    ensures LF !in Decode(data)
  {
    hide Advance, EncodeScalar, FromCodePoint;
    if data != [] {
      var step := Advance(data);
      NoLfDecoded(data[step.width..]);
      FromCodePointsAppend(Emitted(step), Scalars(data[step.width..]));
      if step.scalar.Some? {
        AdvanceEmitsEncoded(data);
        FromCodePointsOne(step.scalar.value);
        OnlyLfIsLf(step.scalar.value);
      }
    }
  }

  lemma OnlyLfIsLf(v: Scalar)
    ensures LF in FromCodePoint(v) ==> LF in EncodeScalar(v)
  {
  }
}
