/** Wire-level tool call ids: the turn number, a colon, and the provider's own id. */
module WireId {

  function Digit(n: nat): (c: char)
    requires n < 10
    ensures c as int == '0' as int + n
  {
    "0123456789"[n]
  }

  function Decimal(n: nat): (s: string)
    ensures s != []
    ensures forall i :: 0 <= i < |s| ==> '0' <= s[i] <= '9'
  {
    if n < 10 then [Digit(n)] else Decimal(n / 10) + [Digit(n % 10)]
  }

  function AcpToolCallId(turnId: nat, toolCallId: string): string {
    Decimal(turnId) + ":" + toolCallId
  }

  /** The value a string of decimal digits stands for. */
  function Value(s: string): nat
    requires forall i :: 0 <= i < |s| ==> '0' <= s[i] <= '9'
  {
    if s == [] then 0 else Value(s[..|s| - 1]) * 10 + (s[|s| - 1] as int - '0' as int)
  }

  lemma {:induction false} ValueOfDecimal(n: nat)
    ensures Value(Decimal(n)) == n
  {
    hide Digit;
    var s := Decimal(n);
    if n < 10 {
      assert s[..0] == [];
    } else {
      ValueOfDecimal(n / 10);
      assert s[..|s| - 1] == Decimal(n / 10);
    }
  }

  lemma {:induction false} NoLeadingZero(n: nat)
    ensures n > 0 ==> Decimal(n)[0] != '0'
  {
    hide Digit;
    if n >= 10 { NoLeadingZero(n / 10); }
  }

  /** Ordinary decimal notation: the digits stand for the number, without leading zeros; then comes the colon. */
  lemma WireIdForm(t: nat, raw: string)
    ensures Value(Decimal(t)) == t && (t > 0 ==> Decimal(t)[0] != '0') && (t == 0 ==> Decimal(t) == "0")
    ensures AcpToolCallId(t, raw)[..|Decimal(t)|] == Decimal(t)
    ensures AcpToolCallId(t, raw)[|Decimal(t)|..] == ":" + raw
  {
    ValueOfDecimal(t);
    NoLeadingZero(t);
    hide Value;
    assert t == 0 ==> Decimal(t) == "0";
    hide Decimal;
  }

  lemma DecimalIsInjective(a: nat, b: nat)
    requires Decimal(a) == Decimal(b)
    ensures a == b
  {
    ValueOfDecimal(a);
    ValueOfDecimal(b);
  }

  /** The first colon ends the turn number, whatever the provider's id contains. */
  lemma WireIdIsInjective(t: nat, r: string, u: nat, q: string)
    ensures AcpToolCallId(t, r) == AcpToolCallId(u, q) <==> t == u && r == q
  {
    if AcpToolCallId(t, r) == AcpToolCallId(u, q) {
      var w, a, b := AcpToolCallId(t, r), Decimal(t), Decimal(u);
      assert w[|a|] == ':' && w[|b|] == ':';
      assert forall i :: 0 <= i < |a| ==> w[i] == a[i];
      assert forall i :: 0 <= i < |b| ==> w[i] == b[i];
      assert |a| == |b|;
      assert a == w[..|a|] == b;
      DecimalIsInjective(t, u);
      assert r == w[|a| + 1..] == q;
    }
  }
}
