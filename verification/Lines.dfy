/**
 * Splitting into lines that keep their terminator, over bytes and over decoded text alike.
 *
 * `Split` is the specification every line reader is proved against.  `SplitIsTheOnlyOne`
 * says what it means without mentioning how it is computed.
 */
module Lines {
  import opened Bytes

  /** The index just past the first line feed, or the length when there is none. */
  function FirstLineEnd<T(==)>(s: seq<T>, lf: T): (n: nat)
    ensures n <= |s|
    ensures s != [] ==> n > 0
    ensures forall i :: 0 <= i < n - 1 ==> s[i] != lf
    ensures n < |s| ==> s[n - 1] == lf
  {
    if s == [] then 0 else if s[0] == lf then 1 else 1 + FirstLineEnd(s[1..], lf)
  }

  function Split<T(==)>(s: seq<T>, lf: T): (lines: seq<seq<T>>) {
    if s == [] then [] else
      var n := FirstLineEnd(s, lf);
      [s[..n]] + Split(s[n..], lf)
  }

  /** Nothing of a line before its last element is a line feed. */
  ghost predicate IsLine<T>(line: seq<T>, lf: T) {
    line != [] && forall i :: 0 <= i < |line| - 1 ==> line[i] != lf
  }

  predicate EndsWithLf<T(==)>(s: seq<T>, lf: T) {
    s != [] && s[|s| - 1] == lf
  }

  /** `s` may be cut after its first `|a|` elements without splitting a line. */
  predicate CutAfter<T(==)>(a: seq<T>, lf: T) {
    a == [] || EndsWithLf(a, lf)
  }

  /** `lines` cuts `s` after every line feed and nowhere else. */
  ghost predicate IsSplitOf<T>(lines: seq<seq<T>>, s: seq<T>, lf: T) {
    && Concat(lines) == s
    && (forall i :: 0 <= i < |lines| ==> IsLine(lines[i], lf))
    && (forall i :: 0 <= i < |lines| - 1 ==> EndsWithLf(lines[i], lf))
  }

  lemma {:induction false} SplitOne<T>(line: seq<T>, lf: T)
    requires IsLine(line, lf)
    ensures Split(line, lf) == [line]
  {
    assert FirstLineEnd(line, lf) == |line|;
    assert line[..|line|] == line && line[|line|..] == [];
  }

  lemma {:induction false} SplitIsSplit<T>(s: seq<T>, lf: T)
    ensures IsSplitOf(Split(s, lf), s, lf)
  {
    if s != [] {
      var n := FirstLineEnd(s, lf);
      var rest := Split(s[n..], lf);
      SplitIsSplit(s[n..], lf);
      PrependLine(s[..n], rest, s[n..], lf);
      assert s == s[..n] + s[n..];
    }
  }

  lemma PrependLine<T>(line: seq<T>, lines: seq<seq<T>>, s: seq<T>, lf: T)
    requires IsLine(line, lf) && IsSplitOf(lines, s, lf)
    requires EndsWithLf(line, lf) || s == []
    ensures IsSplitOf([line] + lines, line + s, lf)
  {
    var all := [line] + lines;
    assert all[1..] == lines;
    if lines != [] {
      assert s[0] == lines[0][0];
    }
    forall i | 0 <= i < |all| - 1
      ensures EndsWithLf(all[i], lf)
    {
      if i > 0 { assert all[i] == lines[i - 1]; }
    }
  }

  lemma {:induction false} SplitCut<T>(a: seq<T>, b: seq<T>, lf: T)
    requires CutAfter(a, lf)
    ensures Split(a + b, lf) == Split(a, lf) + Split(b, lf)
  {
    if a == [] {
      assert a + b == b;
    } else {
      var n := FirstLineEnd(a, lf);
      assert FirstLineEnd(a + b, lf) == n by { FirstLineEndPrefix(a, b, lf); }
      assert (a + b)[..n] == a[..n] && (a + b)[n..] == a[n..] + b;
      assert CutAfter(a[n..], lf);
      SplitCut(a[n..], b, lf);
    }
  }

  lemma {:induction false} FirstLineEndPrefix<T>(a: seq<T>, b: seq<T>, lf: T)
    requires EndsWithLf(a, lf)
    ensures FirstLineEnd(a + b, lf) == FirstLineEnd(a, lf)
  {
    if a[0] != lf {
      assert (a + b)[1..] == a[1..] + b;
      FirstLineEndPrefix(a[1..], b, lf);
    }
  }

  /** Appending one more complete line, or the unterminated last one. */
  lemma SplitSnoc<T>(a: seq<T>, line: seq<T>, lf: T)
    requires CutAfter(a, lf) && IsLine(line, lf)
    ensures Split(a + line, lf) == Split(a, lf) + [line]
  {
    SplitCut(a, line, lf);
    SplitOne(line, lf);
  }

  lemma {:induction false} SplitIsTheOnlyOne<T>(lines: seq<seq<T>>, s: seq<T>, lf: T)
    ensures IsSplitOf(lines, s, lf) <==> lines == Split(s, lf)
  {
    SplitIsSplit(s, lf);
    if IsSplitOf(lines, s, lf) && lines != [] {
      var k := |lines| - 1;
      DropLastLine(lines, s, lf);
      SplitIsTheOnlyOne(lines[..k], Concat(lines[..k]), lf);
      SplitSnoc(Concat(lines[..k]), lines[k], lf);
    }
  }

  lemma DropLastLine<T>(lines: seq<seq<T>>, s: seq<T>, lf: T)
    requires IsSplitOf(lines, s, lf) && lines != []
    ensures var k := |lines| - 1;
      var a := Concat(lines[..k]);
      IsSplitOf(lines[..k], a, lf) && CutAfter(a, lf) && s == a + lines[k] && lines == lines[..k] + [lines[k]]
  {
    var k := |lines| - 1;
    assert lines == lines[..k] + [lines[k]];
    ConcatSnoc(lines[..k], lines[k]);
    if k > 0 {
      assert lines[..k] == lines[..k - 1] + [lines[k - 1]];
      ConcatSnoc(lines[..k - 1], lines[k - 1]);
    }
  }

  function CountLf<T(==)>(s: seq<T>, lf: T): (n: nat)
    ensures n <= |s|
  {
    if s == [] then 0 else CountLf(s[..|s| - 1], lf) + (if s[|s| - 1] == lf then 1 else 0)
  }

  /** The number of lines: one per line feed, and one more for an unterminated last line. */
  lemma {:induction false} SplitCount<T>(s: seq<T>, lf: T)
    ensures |Split(s, lf)| == CountLf(s, lf) + (if CutAfter(s, lf) then 0 else 1)
  {
    if s != [] {
      var k := LastLineStart(s, lf);
      var line := s[k..];
      assert s == s[..k] + line;
      SplitSnoc(s[..k], line, lf);
      SplitCount(s[..k], lf);
      CountLfLine(s[..k], line, lf);
    }
  }

  lemma {:induction false} CountLfLine<T>(a: seq<T>, line: seq<T>, lf: T)
    requires IsLine(line, lf)
    ensures CountLf(a + line, lf) == CountLf(a, lf) + if EndsWithLf(line, lf) then 1 else 0
  {
    var n := |line| - 1;
    assert (a + line)[..|a + line| - 1] == a + line[..n];
    CountLfNone(a, line[..n], lf);
  }

  lemma {:induction false} CountLfNone<T>(a: seq<T>, b: seq<T>, lf: T)
    requires forall i :: 0 <= i < |b| ==> b[i] != lf
    ensures CountLf(a + b, lf) == CountLf(a, lf)
  {
    if b == [] {
      assert a + b == a;
    } else {
      assert (a + b)[..|a + b| - 1] == a + b[..|b| - 1];
      CountLfNone(a, b[..|b| - 1], lf);
    }
  }

  lemma {:induction false} CountLfAppend<T>(a: seq<T>, b: seq<T>, lf: T)
    ensures CountLf(a + b, lf) == CountLf(a, lf) + CountLf(b, lf)
  {
    if b == [] {
      assert a + b == a;
    } else {
      CountLfAppend(a, b[..|b| - 1], lf);
      assert (a + b)[..|a + b| - 1] == a + b[..|b| - 1];
    }
  }

  /** Where the last line of a non-empty sequence starts. */
  function LastLineStart<T(==)>(s: seq<T>, lf: T): (k: nat)
    requires s != []
    ensures k < |s| && CutAfter(s[..k], lf) && IsLine(s[k..], lf)
  {
    if |s| == 1 then 0
    else if s[|s| - 2] == lf then |s| - 1
    else
      var k := LastLineStart(s[..|s| - 1], lf);
      assert s[..|s| - 1][..k] == s[..k];
      assert forall i :: k <= i < |s| - 1 ==> s[i] != lf by {
        assert forall i :: k <= i < |s| - 2 ==> s[..|s| - 1][k..][i - k] == s[i];
      }
      k
  }

  /** One turn of a line reader: nothing but the last element of `s[start..end]` may be a line feed. */
  lemma SplitExtend<T>(s: seq<T>, start: nat, end: nat, lf: T)
    requires start < end <= |s| && CutAfter(s[..start], lf)
    requires forall j :: start <= j < end - 1 ==> s[j] != lf
    ensures Split(s[..end], lf) == Split(s[..start], lf) + [s[start..end]]
  {
    hide Split;
    assert s[..end] == s[..start] + s[start..end];
    SplitSnoc(s[..start], s[start..end], lf);
  }

  lemma SplitNothing<T>(lf: T)
    ensures Split<T>([], lf) == []
  {
  }

  /** `splitLinesKeepingTerminator`: one pass over the text, cutting after each line feed. */
  method SplitLinesKeepingTerminator(text: Text) returns (lines: seq<Text>)
    ensures lines == Split<CodeUnit>(text, LF)
  {
    hide Split;
    lines := [];
    SplitNothing<CodeUnit>(LF);
    if |text| == 0 { return; }
    var start := 0;
    var i := 0;
    while i < |text|
      invariant 0 <= start <= i <= |text|
      invariant CutAfter<CodeUnit>(text[..start], LF)
      invariant forall j :: start <= j < i ==> text[j] != LF
      invariant lines == Split<CodeUnit>(text[..start], LF)
    {
      if text[i] == LF {
        SplitExtend<CodeUnit>(text, start, i + 1, LF);
        lines := lines + [text[start..i + 1]];
        start := i + 1;
      }
      i := i + 1;
    }
    assert text[..|text|] == text && text[start..|text|] == text[start..];
    if start < |text| {
      SplitExtend<CodeUnit>(text, start, |text|, LF);
      lines := lines + [text[start..]];
    }
  }
}
