/** Wire-level tool call ids, `${turnId}:${toolCallId}`. */
module WireIds {

  function Digit(d: nat): (c: char)
    requires d < 10
    ensures c != ':' && c != '-'
    ensures c as int == '0' as int + d
  {
    ('0' as int + d) as char
  }

  function NatToString(n: nat): (s: string)
    ensures s != [] && ':' !in s && '-' !in s
  {
    if n < 10 then [Digit(n)] else NatToString(n / 10) + [Digit(n % 10)]
  }

  /** How a template literal prints an integer. */
  function IntToString(n: int): (s: string)
    ensures s != [] && ':' !in s
    ensures n < 0 <==> s[0] == '-'
  {
    if n < 0 then "-" + NatToString(-n) else NatToString(n)
  }

  lemma {:induction false} NatToStringInjective(a: nat, b: nat)
    requires NatToString(a) == NatToString(b)
    ensures a == b
  {
    var s, t := NatToString(a), NatToString(b);
    assert s[|s| - 1] == Digit(a % 10) && t[|t| - 1] == Digit(b % 10);
    assert a % 10 == b % 10;
    if a >= 10 && b >= 10 {
      assert s[..|s| - 1] == NatToString(a / 10) && t[..|t| - 1] == NatToString(b / 10);
      NatToStringInjective(a / 10, b / 10);
    } else {
      assert |s| == 1 || |t| == 1;
    }
  }

  lemma IntToStringInjective(a: int, b: int)
    requires IntToString(a) == IntToString(b)
    ensures a == b
  {
    var s, t := IntToString(a), IntToString(b);
    if a < 0 && b < 0 {
      assert s[1..] == NatToString(-a) && t[1..] == NatToString(-b);
      NatToStringInjective(-a, -b);
    } else if a >= 0 && b >= 0 {
      NatToStringInjective(a, b);
    }
  }

  /** `acpToolCallId`. */
  function AcpToolCallId(turnId: int, toolCallId: string): (wireId: string) {
    IntToString(turnId) + ":" + toolCallId
  }

  /** Distinct pairs of turn and raw id have distinct wire ids, whatever the raw ids contain. */
  lemma WireIdsDistinct(t1: int, r1: string, t2: int, r2: string)
    ensures AcpToolCallId(t1, r1) == AcpToolCallId(t2, r2) <==> t1 == t2 && r1 == r2
  {
    var a, b := IntToString(t1), IntToString(t2);
    var w := AcpToolCallId(t1, r1);
    if w == AcpToolCallId(t2, r2) {
      assert w[|a|] == ':' && w[|b|] == ':';
      assert forall i :: 0 <= i < |a| ==> w[i] == a[i] && a[i] in a;
      assert forall i :: 0 <= i < |b| ==> w[i] == b[i] && b[i] in b;
      assert |a| == |b|;
      assert a == w[..|a|] == b;
      IntToStringInjective(t1, t2);
      assert r1 == w[|a| + 1..] == r2;
    }
  }
}
