/** Little-endian UTF-16 as RFC 2781 defines it, and the decoder that drops unpaired surrogates. */
module Utf16 {
  import opened Utf8

  type Unit = u: int | 0 <= u < 0x10000

  predicate IsHigh(u: Unit) { 0xD800 <= u <= 0xDBFF }
  predicate IsLow(u: Unit) { 0xDC00 <= u <= 0xDFFF }

  function UnitAt(s: Bytes, i: nat): Unit
    requires i + 1 < |s|
  {
    var low: int, high: int := s[i], s[i + 1];
    low + high * 256
  }

  function Le(u: Unit): Bytes { [u % 256, u / 256] }

  /** Section 2.1: a scalar below 0x10000 is one unit, any other a surrogate pair. */
  function Encode16(v: Scalar): Bytes {
    if v < 0x10000 then Le(v)
    else Le(0xD800 + (v - 0x10000) / 1024) + Le(0xDC00 + (v - 0x10000) % 1024)
  }

  function EncodeAll16(text: Text): Bytes {
    if text == [] then [] else Encode16(text[0]) + EncodeAll16(text[1..])
  }

  /** How many bytes at the front of `s` make a character, or 0 when the unit there has no partner. */
  function PairLen(s: Bytes): (n: nat)
    ensures n <= |s|
  {
    if |s| < 2 then 0
    else if IsHigh(UnitAt(s, 0)) then if |s| >= 4 && IsLow(UnitAt(s, 2)) then 4 else 0
    else if IsLow(UnitAt(s, 0)) then 0
    else 2
  }

  function FromPair(high: Unit, low: Unit): Scalar
    requires IsHigh(high) && IsLow(low)
  {
    var h: int, l: int := high, low;
    0x10000 + (h - 0xD800) * 1024 + (l - 0xDC00)
  }

  function FrontScalar(s: Bytes): Scalar
    requires PairLen(s) > 0
  {
    if PairLen(s) == 4 then FromPair(UnitAt(s, 0), UnitAt(s, 2)) else UnitAt(s, 0)
  }

  predicate WellFormed16(s: Bytes)
    decreases |s|
  {
    s == [] || (PairLen(s) > 0 && WellFormed16(s[PairLen(s)..]))
  }

  function DecodeIgnore16(s: Bytes): Text
    decreases |s|
  {
    if |s| < 2 then []
    else if PairLen(s) > 0 then [FrontScalar(s)] + DecodeIgnore16(s[PairLen(s)..])
    else DecodeIgnore16(s[2..])
  }

  method DecodeUtf16LeIgnore(data: Bytes) returns (output: Text)
    ensures output == DecodeIgnore16(data)
  {
    hide PairLen, FrontScalar, DecodeIgnore16, UnitAt, FromPair;
    output := [];
    var i := 0;
    while i + 1 < |data|
      invariant 0 <= i <= |data|
      invariant DecodeIgnore16(data) == output + DecodeIgnore16(data[i..])
    {
      var codeUnit := UnitAt(data, i);
      Step16(data, i);
      if IsHigh(codeUnit) {
        if i + 3 < |data| {
          var low := UnitAt(data, i + 2);
          if IsLow(low) {
            output := output + [FromPair(codeUnit, low)];
            i := i + 4;
            continue;
          }
        }
        i := i + 2;
        continue;
      }
      if IsLow(codeUnit) {
        i := i + 2;
        continue;
      }
      output := output + [codeUnit];
      i := i + 2;
    }
    OddByteIsDropped(data[i..]);
  }

  lemma OddByteIsDropped(s: Bytes)
    requires |s| < 2
    ensures DecodeIgnore16(s) == []
  {
  }

  lemma Step16(data: Bytes, i: nat)
    requires i + 1 < |data|
    ensures var rest, unit := data[i..], UnitAt(data, i);
            DecodeIgnore16(rest) ==
              if IsHigh(unit) then
                if i + 3 < |data| && IsLow(UnitAt(data, i + 2))
                then [FromPair(unit, UnitAt(data, i + 2))] + DecodeIgnore16(data[i + 4..])
                else DecodeIgnore16(data[i + 2..])
              else if IsLow(unit) then DecodeIgnore16(data[i + 2..])
              else [unit] + DecodeIgnore16(data[i + 2..])
  {
    assert data[i..][2..] == data[i + 2..];
    assert i + 4 <= |data| ==> data[i..][4..] == data[i + 4..];
  }

  lemma LeRoundTrip(u: Unit, rest: Bytes)
    ensures UnitAt(Le(u) + rest, 0) == u
  {
  }

  lemma EncodeFront(v: Scalar, rest: Bytes)
    ensures var s := Encode16(v) + rest;
            PairLen(s) == |Encode16(v)| && FrontScalar(s) == v && s[|Encode16(v)|..] == rest
  {
    var s := Encode16(v) + rest;
    if v < 0x10000 {
      LeRoundTrip(v, rest);
    } else {
      var hi, lo := 0xD800 + (v - 0x10000) / 1024, 0xDC00 + (v - 0x10000) % 1024;
      assert s == Le(hi) + (Le(lo) + rest);
      LeRoundTrip(hi, Le(lo) + rest);
      LeRoundTrip(lo, rest);
      assert s[2..] == Le(lo) + rest;
      assert UnitAt(s, 2) == UnitAt(s[2..], 0);
    }
  }

  lemma FrontEncodes(s: Bytes)
    requires PairLen(s) > 0
    ensures Encode16(FrontScalar(s)) == s[..PairLen(s)]
  {
    var first := UnitAt(s, 0);
    assert first % 256 == s[0] && first / 256 == s[1];
    if PairLen(s) == 4 {
      var second := UnitAt(s, 2);
      assert second % 256 == s[2] && second / 256 == s[3];
    }
  }

  lemma {:induction false} DecodeInvertsEncode16(text: Text)
    ensures DecodeIgnore16(EncodeAll16(text)) == text
    ensures WellFormed16(EncodeAll16(text))
  {
    if text != [] {
      EncodeFront(text[0], EncodeAll16(text[1..]));
      hide Encode16, PairLen, FrontScalar;
      DecodeInvertsEncode16(text[1..]);
    }
  }

  lemma {:induction false} ReencodeWellFormed16(s: Bytes)
    requires WellFormed16(s)
    ensures EncodeAll16(DecodeIgnore16(s)) == s
    decreases |s|
  {
    if s != [] {
      FrontEncodes(s);
      var n, rest := PairLen(s), DecodeIgnore16(s[PairLen(s)..]);
      assert DecodeIgnore16(s) == [FrontScalar(s)] + rest;
      hide PairLen, FrontScalar, DecodeIgnore16, Encode16;
      ReencodeWellFormed16(s[n..]);
      assert ([FrontScalar(s)] + rest)[1..] == rest;
      assert s == s[..n] + s[n..];
    }
  }

  /** As for UTF-8: the input comes back exactly when it had no unpaired surrogate and no odd byte. */
  lemma Reencode16IffWellFormed(s: Bytes)
    ensures EncodeAll16(DecodeIgnore16(s)) == s <==> WellFormed16(s)
  {
    DecodeInvertsEncode16(DecodeIgnore16(s));
    if WellFormed16(s) { ReencodeWellFormed16(s); }
  }

  lemma {:induction false} Decoder16OnlyDrops(s: Bytes)
    ensures IsSubsequence(EncodeAll16(DecodeIgnore16(s)), s)
    decreases |s|
  {
    if |s| >= 2 {
      var n := PairLen(s);
      if n > 0 {
        FrontEncodes(s);
        Decoder16OnlyDrops(s[n..]);
        var rest := DecodeIgnore16(s[n..]);
        assert ([FrontScalar(s)] + rest)[1..] == rest;
        SubsequencePrepend(s[..n], EncodeAll16(rest), s[n..]);
        assert s == s[..n] + s[n..];
      } else {
        Decoder16OnlyDrops(s[2..]);
        var kept := EncodeAll16(DecodeIgnore16(s[2..]));
        assert s[1..][1..] == s[2..];
        assert IsSubsequence(kept, s[1..]);
      }
    }
  }
}
