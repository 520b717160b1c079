/**
 * UTF-16: the code units `String.fromCodePoint` produces, and the lenient UTF-16LE decoder.
 */
module Utf16 {
  import opened Bytes

  // ---------- The encoding, section 2.1 of RFC 2781 ----------

  function FromCodePoint(v: Scalar): (units: Text)
    ensures 1 <= |units| <= 2
  {
    if v < 0x1_0000 then [v]
    else [0xD800 + (v - 0x1_0000) / 0x400, 0xDC00 + (v - 0x1_0000) % 0x400]
  }

  function FromCodePoints(vs: seq<Scalar>): (units: Text) {
    if vs == [] then [] else FromCodePoint(vs[0]) + FromCodePoints(vs[1..])
  }

  lemma {:induction false} FromCodePointsAppend(a: seq<Scalar>, b: seq<Scalar>)
    ensures FromCodePoints(a + b) == FromCodePoints(a) + FromCodePoints(b)
  {
    hide FromCodePoint;
    if a == [] {
      assert a + b == b;
    } else {
      FromCodePointsAppend(a[1..], b);
      assert (a + b)[1..] == a[1..] + b;
      Associate(FromCodePoint(a[0]), FromCodePoints(a[1..]), FromCodePoints(b));
    }
  }

  lemma FromCodePointsOne(v: Scalar)
    ensures FromCodePoints([v]) == FromCodePoint(v)
  {
    assert FromCodePoints([v][1..]) == [];
  }

  // ---------- The lenient UTF-16LE decoder ----------

  predicate IsHigh(u: CodeUnit) { 0xD800 <= u <= 0xDBFF }

  predicate IsLow(u: CodeUnit) { 0xDC00 <= u <= 0xDFFF }

  function Unit(first: int, second: int): (u: int) {
    first + 0x100 * second
  }

  /** The little-endian code units of a buffer; an odd final byte belongs to none. */
  function Units(data: seq<Byte>): (units: Text)
    ensures |units| == |data| / 2
    ensures forall k :: 0 <= k < |units| ==> units[k] == Unit(data[2 * k], data[2 * k + 1])
  {
    seq(|data| / 2, k requires 0 <= k < |data| / 2 => Unit(data[2 * k], data[2 * k + 1]))
  }

  /** The code point of a surrogate pair, section 2.2 of RFC 2781. */
  function PairCodePoint(high: CodeUnit, low: CodeUnit): (v: Scalar)
    requires IsHigh(high) && IsLow(low)
    ensures FromCodePoint(v) == [high, low]
  {
    0x1_0000 + (high - 0xD800) * 0x400 + (low - 0xDC00)
  }

  /** The code points the decoder emits from here on. */
  function ScalarsOf(units: Text): (vs: seq<Scalar>) {
    if units == [] then []
    else if IsHigh(units[0]) then
      if |units| > 1 && IsLow(units[1]) then [PairCodePoint(units[0], units[1])] + ScalarsOf(units[2..])
      else ScalarsOf(units[1..])
    else if IsLow(units[0]) then ScalarsOf(units[1..])
    else [units[0]] + ScalarsOf(units[1..])
  }

  function DecodeLe(data: seq<Byte>): (text: Text) {
    FromCodePoints(ScalarsOf(Units(data)))
  }

  /** What the loop does with the unit at position `k`. */
  lemma ScalarsFrom(units: Text, k: nat)
    requires k < |units|
    ensures var u, pair := units[k], k + 1 < |units| && IsLow(units[k + 1]);
      ScalarsOf(units[k..]) ==
        if IsHigh(u) && pair then [PairCodePoint(u, units[k + 1])] + ScalarsOf(units[k + 2..])
        else if IsHigh(u) || IsLow(u) then ScalarsOf(units[k + 1..])
        else [u] + ScalarsOf(units[k + 1..])
  {
    var rest := units[k..];
    assert rest[1..] == units[k + 1..];
    if |rest| > 1 { assert rest[2..] == units[k + 2..]; }
  }

  /** `decodeUtf16LeIgnore`. */
  method DecodeUtf16LeIgnore(data: seq<Byte>) returns (output: Text)
    ensures output == DecodeLe(data)
  {
    hide FromCodePoint, FromCodePoints, ScalarsOf;
    ghost var units := Units(data);
    output := [];
    var i := 0;
    ghost var k := 0;
    assert units[0..] == units;
    while i + 1 < |data|
      invariant i == 2 * k && k <= |units|
      invariant output + FromCodePoints(ScalarsOf(units[k..])) == DecodeLe(data)
      decreases |data| - i
    {
      ScalarsFrom(units, k);
      var codeUnit := Unit(data[i], data[i + 1]);
      assert codeUnit == units[k];
      if 0xD800 <= codeUnit <= 0xDBFF {
        if i + 3 < |data| {
          var low := Unit(data[i + 2], data[i + 3]);
          assert low == units[k + 1];
          if 0xDC00 <= low <= 0xDFFF {
            var codePoint := 0x1_0000 + (codeUnit - 0xD800) * 0x400 + (low - 0xDC00);
            Emit(output, codePoint, ScalarsOf(units[k + 2..]));
            output := output + FromCodePoint(codePoint);
            i, k := i + 4, k + 2;
            continue;
          }
        }
        i, k := i + 2, k + 1;
        continue;
      }
      if 0xDC00 <= codeUnit <= 0xDFFF {
        i, k := i + 2, k + 1;
        continue;
      }
      Emit(output, codeUnit, ScalarsOf(units[k + 1..]));
      output := output + FromCodePoint(codeUnit);
      i, k := i + 2, k + 1;
    }
    assert units[k..] == [];
    DecodeLeNothing();
  }

  lemma DecodeLeNothing()
    ensures FromCodePoints(ScalarsOf([])) == []
  {
  }

  lemma EmitFirst(v: Scalar, rest: seq<Scalar>)
    ensures FromCodePoints([v] + rest) == FromCodePoint(v) + FromCodePoints(rest)
  {
    assert ([v] + rest)[1..] == rest;
  }

  lemma Emit(output: Text, v: Scalar, rest: seq<Scalar>)
    ensures output + FromCodePoints([v] + rest) == (output + FromCodePoint(v)) + FromCodePoints(rest)
  {
    hide FromCodePoint;
    EmitFirst(v, rest);
    Associate(output, FromCodePoint(v), FromCodePoints(rest));
  }

  /** A surrogate next to its other half. */
  predicate Paired(units: Text, k: nat)
    requires k < |units|
  {
    || (IsHigh(units[k]) && k + 1 < |units| && IsLow(units[k + 1]))
    || (IsLow(units[k]) && k > 0 && IsHigh(units[k - 1]))
  }

  predicate Keep(units: Text, k: nat)
    requires k < |units|
  {
    (IsHigh(units[k]) || IsLow(units[k])) ==> Paired(units, k)
  }

  /** The units from position `k` on, without the unpaired surrogates. */
  function WithoutUnpaired(units: Text, k: nat): (kept: Text)
    requires k <= |units|
    decreases |units| - k
  {
    if k == |units| then [] else
      (if Keep(units, k) then [units[k]] else []) + WithoutUnpaired(units, k + 1)
  }

  lemma {:induction false} DropsUnpairedFrom(units: Text, k: nat)
    requires k <= |units|
    requires 0 < k < |units| ==> !(IsHigh(units[k - 1]) && IsLow(units[k]))
    ensures FromCodePoints(ScalarsOf(units[k..])) == WithoutUnpaired(units, k)
    decreases |units| - k
  {
    hide FromCodePoints, FromCodePoint, WithoutUnpaired, ScalarsOf;
    if k < |units| { ScalarsFrom(units, k); }
    if k == |units| {
      assert units[k..] == [];
      DecodeLeNothing();
      WithoutUnpairedEnd(units);
    } else if IsHigh(units[k]) && k + 1 < |units| && IsLow(units[k + 1]) {
      var v, rest := PairCodePoint(units[k], units[k + 1]), ScalarsOf(units[k + 2..]);
      DropsUnpairedFrom(units, k + 2);
      EmitFirst(v, rest);
      WithoutUnpairedStep(units, k);
      WithoutUnpairedStep(units, k + 1);
      assert Keep(units, k) && Keep(units, k + 1);
      var kept := WithoutUnpaired(units, k + 2);
      assert [units[k]] + ([units[k + 1]] + kept) == [units[k], units[k + 1]] + kept;
    } else {
      var rest := ScalarsOf(units[k + 1..]);
      DropsUnpairedFrom(units, k + 1);
      WithoutUnpairedStep(units, k);
      if Keep(units, k) {
        EmitFirst(units[k], rest);
        SingleUnit(units[k]);
      }
    }
  }

  lemma WithoutUnpairedEnd(units: Text)
    ensures WithoutUnpaired(units, |units|) == []
  {
  }

  lemma WithoutUnpairedStep(units: Text, k: nat)
    requires k < |units|
    ensures WithoutUnpaired(units, k) == (if Keep(units, k) then [units[k]] else []) + WithoutUnpaired(units, k + 1)
  {
  }

  lemma SingleUnit(v: Scalar)
    requires v < 0x1_0000
    ensures FromCodePoint(v) == [v]
  {
  }

  /** On arbitrary bytes, exactly the unpaired surrogates and an odd final byte are dropped. */
  lemma DropsExactlyUnpaired(data: seq<Byte>)
    ensures DecodeLe(data) == WithoutUnpaired(Units(data), 0)
  {
    assert Units(data)[0..] == Units(data);
    DropsUnpairedFrom(Units(data), 0);
  }

  /** Code units written low byte first. */
  function EncodeLe(units: Text): (data: seq<Byte>)
    ensures |data| == 2 * |units|
  {
    seq(2 * |units|, j requires 0 <= j < 2 * |units| =>
      if j % 2 == 0 then units[j / 2] % 0x100 else units[j / 2] / 0x100)
  }

  lemma UnitsOfEncodeLe(units: Text, extra: seq<Byte>)
    requires |extra| <= 1
    ensures Units(EncodeLe(units) + extra) == units
  {
    var data := EncodeLe(units) + extra;
    forall k | 0 <= k < |units|
      ensures Units(data)[k] == units[k]
    {
      assert data[2 * k] == units[k] % 0x100 && data[2 * k + 1] == units[k] / 0x100;
    }
  }

  lemma {:induction false} ScalarsOfFromCodePoints(vs: seq<Scalar>)
    ensures ScalarsOf(FromCodePoints(vs)) == vs
  {
    if vs != [] {
      var units, rest := FromCodePoints(vs), FromCodePoints(vs[1..]);
      ScalarsOfFromCodePoints(vs[1..]);
      if vs[0] < 0x1_0000 {
        assert units[1..] == rest;
      } else {
        assert units[2..] == rest;
        SamePair(vs[0], PairCodePoint(units[0], units[1]));
      }
    }
  }

  lemma SamePair(v: Scalar, w: Scalar)
    requires FromCodePoint(v) == FromCodePoint(w)
    ensures v == w
  {
    if v >= 0x1_0000 && w >= 0x1_0000 {
      assert (v - 0x1_0000) / 0x400 == (w - 0x1_0000) / 0x400;
    }
  }

  /** Decoding undoes the encoding of every scalar string, with or without a stray last byte. */
  lemma DecodeLeInvertsEncodeLe(vs: seq<Scalar>, extra: seq<Byte>)
    requires |extra| <= 1
    ensures ScalarsOf(Units(EncodeLe(FromCodePoints(vs)) + extra)) == vs
  {
    UnitsOfEncodeLe(FromCodePoints(vs), extra);
    ScalarsOfFromCodePoints(vs);
  }
}
