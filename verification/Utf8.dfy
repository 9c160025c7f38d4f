/** UTF-8 as RFC 3629 defines it, and the decoder that drops invalid bytes. */
module Utf8 {
  import opened Basics

  type Byte = b: int | 0 <= b < 256
  type Scalar = v: int | 0 <= v < 0xD800 || 0xE000 <= v <= 0x10FFFF
  type Bytes = seq<Byte>
  type Text = seq<Scalar>

  // ---------------------------------------------------------------- section 3: the encoding

  /** The low six bits of a number, and the rest of it. */
  function Low6(v: nat): (r: nat)
    ensures r < 64
  {
    v % 64
  }

  function Shift6(v: nat): (q: nat)
    ensures v == 64 * q + Low6(v)
  {
    v / 64
  }

  function Encode(v: Scalar): Bytes {
    var q1 := Shift6(v);
    var q2 := Shift6(q1);
    if v < 0x80 then [v]
    else if v < 0x800 then [0xC0 + q1, 0x80 + Low6(v)]
    else if v < 0x10000 then [0xE0 + q2, 0x80 + Low6(q1), 0x80 + Low6(v)]
    else [0xF0 + Shift6(q2), 0x80 + Low6(q2), 0x80 + Low6(q1), 0x80 + Low6(v)]
  }

  function EncodeAll(text: Text): Bytes {
    if text == [] then [] else Encode(text[0]) + EncodeAll(text[1..])
  }

  // ---------------------------------------------------------------- section 4: the grammar

  predicate IsTail(b: Byte) { 0x80 <= b <= 0xBF }

  predicate SecondOfThree(b0: Byte, b1: Byte) {
    || (b0 == 0xE0 && 0xA0 <= b1 <= 0xBF)
    || (0xE1 <= b0 <= 0xEC && IsTail(b1))
    || (b0 == 0xED && 0x80 <= b1 <= 0x9F)
    || (0xEE <= b0 <= 0xEF && IsTail(b1))
  }

  predicate SecondOfFour(b0: Byte, b1: Byte) {
    || (b0 == 0xF0 && 0x90 <= b1 <= 0xBF)
    || (0xF1 <= b0 <= 0xF3 && IsTail(b1))
    || (b0 == 0xF4 && 0x80 <= b1 <= 0x8F)
  }

  /** UTF8-char: one of UTF8-1, UTF8-2, UTF8-3, UTF8-4. */
  predicate IsChar(c: Bytes) {
    || (|c| == 1 && c[0] <= 0x7F)
    || (|c| == 2 && 0xC2 <= c[0] <= 0xDF && IsTail(c[1]))
    || (|c| == 3 && SecondOfThree(c[0], c[1]) && IsTail(c[2]))
    || (|c| == 4 && SecondOfFour(c[0], c[1]) && IsTail(c[2]) && IsTail(c[3]))
  }

  /** The length of the character at the front of `s`, or 0 when none starts there. */
  function CharLen(s: Bytes): (n: nat)
    ensures n <= |s|
    ensures n > 0 ==> IsChar(s[..n])
  {
    if |s| >= 1 && s[0] <= 0x7F then 1
    else if |s| >= 2 && 0xC2 <= s[0] <= 0xDF && IsTail(s[1]) then 2
    else if |s| >= 3 && SecondOfThree(s[0], s[1]) && IsTail(s[2]) then 3
    else if |s| >= 4 && SecondOfFour(s[0], s[1]) && IsTail(s[2]) && IsTail(s[3]) then 4
    else 0
  }

  /** UTF8-octets: a whole number of characters, one after the other. */
  predicate WellFormed(s: Bytes)
    decreases |s|
  {
    s == [] || (CharLen(s) > 0 && WellFormed(s[CharLen(s)..]))
  }

  /** The well-formed sequences are exactly the concatenations of characters, and exactly the encodings of texts. */
  lemma WellFormedIsTheGrammar(s: Bytes)
    ensures WellFormed(s) <==> exists chars: seq<Bytes> :: (forall c :: c in chars ==> IsChar(c)) && Flatten(chars) == s
    ensures WellFormed(s) <==> exists text :: EncodeAll(text) == s
  {
    if WellFormed(s) {
      var chars := Divide(s);
      assert (forall c :: c in chars ==> IsChar(c)) && Flatten(chars) == s;
      ReencodeWellFormed(s);
    }
    if chars: seq<Bytes> :| (forall c :: c in chars ==> IsChar(c)) && Flatten(chars) == s {
      JoinedCharsAreWellFormed(chars);
    }
    if text :| EncodeAll(text) == s {
      EncodingIsWellFormed(text);
    }
  }

  function Divide(s: Bytes): (chars: seq<Bytes>)
    requires WellFormed(s)
    ensures forall c :: c in chars ==> IsChar(c)
    ensures Flatten(chars) == s
    decreases |s|
  {
    if s == [] then [] else
    var n := CharLen(s);
    assert s == s[..n] + s[n..];
    [s[..n]] + Divide(s[n..])
  }

  /** A character is recognised whatever follows it. */
  lemma CharIsSelfDelimiting(c: Bytes, rest: Bytes)
    requires IsChar(c)
    ensures CharLen(c + rest) == |c| && (c + rest)[..|c|] == c && (c + rest)[|c|..] == rest
  {
    var s := c + rest;
    assert forall k :: 0 <= k < |c| ==> s[k] == c[k];
  }

  lemma {:induction false} JoinedCharsAreWellFormed(chars: seq<Bytes>)
    requires forall c :: c in chars ==> IsChar(c)
    ensures WellFormed(Flatten(chars))
  {
    if chars != [] {
      assert IsChar(chars[0]);
      JoinedCharsAreWellFormed(chars[1..]);
      CharIsSelfDelimiting(chars[0], Flatten(chars[1..]));
    }
  }

  // ---------------------------------------------------------------- one character

  /** The bit operations of the source, on the ranges `IsChar` allows: masks are remainders, shifts are products. */
  function Two(b0: int, b1: int): int { b0 % 32 * 64 + b1 % 64 }
  function Three(b0: int, b1: int, b2: int): int { b0 % 16 * 4096 + b1 % 64 * 64 + b2 % 64 }
  function Four(b0: int, b1: int, b2: int, b3: int): int { b0 % 8 * 262144 + b1 % 64 * 4096 + b2 % 64 * 64 + b3 % 64 }

  /** The scalar value of the character at the front of `s`. */
  function DecodeChar(s: Bytes): (v: Scalar)
    requires CharLen(s) > 0
  {
    match CharLen(s)
    case 1 => s[0]
    case 2 => TwoIsLinear(s[0], s[1]); Two(s[0], s[1])
    case 3 => ThreeIsLinear(s[0], s[1], s[2]); Three(s[0], s[1], s[2])
    case _ => FourIsLinear(s[0], s[1], s[2], s[3]); Four(s[0], s[1], s[2], s[3])
  }

  lemma Digits(v: nat, q: nat, r: nat)
    requires v == 64 * q + r && r < 64
    ensures Shift6(v) == q && Low6(v) == r
  {
  }

  lemma TailBits(b: int)
    requires 0x80 <= b <= 0xBF
    ensures b % 64 == b - 0x80
  {
  }

  lemma LeadBits(b: int)
    ensures 0xC0 <= b <= 0xDF ==> b % 32 == b - 0xC0
    ensures 0xE0 <= b <= 0xEF ==> b % 16 == b - 0xE0
    ensures 0xF0 <= b <= 0xF7 ==> b % 8 == b - 0xF0
  {
  }

  /** Taking the mask and shift forms apart again. */
  lemma TwoIsLinear(b0: int, b1: int)
    requires 0xC0 <= b0 <= 0xDF && 0x80 <= b1 <= 0xBF
    ensures Two(b0, b1) == (b0 - 0xC0) * 64 + (b1 - 0x80)
  {
    LeadBits(b0);
    TailBits(b1);
  }

  lemma ThreeIsLinear(b0: int, b1: int, b2: int)
    requires 0xE0 <= b0 <= 0xEF && 0x80 <= b1 <= 0xBF && 0x80 <= b2 <= 0xBF
    ensures Three(b0, b1, b2) == ((b0 - 0xE0) * 64 + (b1 - 0x80)) * 64 + (b2 - 0x80)
  {
    LeadBits(b0);
    TailBits(b1);
    TailBits(b2);
  }

  lemma FourIsLinear(b0: int, b1: int, b2: int, b3: int)
    requires 0xF0 <= b0 <= 0xF7 && 0x80 <= b1 <= 0xBF && 0x80 <= b2 <= 0xBF && 0x80 <= b3 <= 0xBF
    ensures Four(b0, b1, b2, b3) == (((b0 - 0xF0) * 64 + (b1 - 0x80)) * 64 + (b2 - 0x80)) * 64 + (b3 - 0x80)
  {
    LeadBits(b0);
    TailBits(b1);
    TailBits(b2);
    TailBits(b3);
  }

  /** What `Encode` writes is one character, and the masks and shifts read the scalar back from it. */
  lemma EncodedChar(v: Scalar)
    ensures IsChar(Encode(v))
    ensures var c := Encode(v);
            match |c|
            case 1 => c[0] == v
            case 2 => Two(c[0], c[1]) == v
            case 3 => Three(c[0], c[1], c[2]) == v
            case _ => |c| == 4 && Four(c[0], c[1], c[2], c[3]) == v
  {
    hide Two, Three, Four, Low6, Shift6;
    var c := Encode(v);
    if |c| == 2 { TwoIsLinear(c[0], c[1]); }
    if |c| == 3 { ThreeIsLinear(c[0], c[1], c[2]); }
    if |c| == 4 { FourIsLinear(c[0], c[1], c[2], c[3]); }
  }

  lemma EncodeOneRoundTrip(v: Scalar, rest: Bytes)
    ensures IsChar(Encode(v))
    ensures CharLen(Encode(v) + rest) == |Encode(v)| && DecodeChar(Encode(v) + rest) == v
  {
    EncodedChar(v);
    var c := Encode(v);
    CharIsSelfDelimiting(c, rest);
    hide Encode, IsChar, CharLen;
    assert forall k :: 0 <= k < |c| ==> (c + rest)[k] == c[k];
  }

  lemma EncodeTwo(v: Scalar, b0: Byte, b1: Byte)
    requires v == Two(b0, b1) && 0xC2 <= b0 <= 0xDF && IsTail(b1)
    ensures Encode(v) == [b0, b1]
  {
    hide Two, Low6, Shift6;
    TwoIsLinear(b0, b1);
    Digits(v, b0 - 0xC0, b1 - 0x80);
  }

  lemma EncodeThree(v: Scalar, b0: Byte, b1: Byte, b2: Byte)
    requires v == Three(b0, b1, b2) && SecondOfThree(b0, b1) && IsTail(b2)
    ensures Encode(v) == [b0, b1, b2]
  {
    hide Three, Low6, Shift6;
    ThreeIsLinear(b0, b1, b2);
    var q1: nat := (b0 - 0xE0) * 64 + (b1 - 0x80);
    Digits(v, q1, b2 - 0x80);
    Digits(q1, b0 - 0xE0, b1 - 0x80);
  }

  lemma EncodeFour(v: Scalar, b0: Byte, b1: Byte, b2: Byte, b3: Byte)
    requires v == Four(b0, b1, b2, b3) && SecondOfFour(b0, b1) && IsTail(b2) && IsTail(b3)
    ensures Encode(v) == [b0, b1, b2, b3]
  {
    hide Four, Low6, Shift6;
    FourIsLinear(b0, b1, b2, b3);
    var q2: nat := (b0 - 0xF0) * 64 + (b1 - 0x80);
    var q1: nat := q2 * 64 + (b2 - 0x80);
    Digits(v, q1, b3 - 0x80);
    Digits(q1, q2, b2 - 0x80);
    Digits(q2, b0 - 0xF0, b1 - 0x80);
  }

  lemma DecodeOneRoundTrip(s: Bytes)
    requires CharLen(s) > 0
    ensures Encode(DecodeChar(s)) == s[..CharLen(s)]
  {
    hide Two, Three, Four;
    match CharLen(s) {
      case 1 =>
      case 2 =>
        hide Encode;
        EncodeTwo(DecodeChar(s), s[0], s[1]);
      case 3 =>
        hide Encode;
        EncodeThree(DecodeChar(s), s[0], s[1], s[2]);
      case _ =>
        hide Encode;
        EncodeFour(DecodeChar(s), s[0], s[1], s[2], s[3]);
    }
  }

  // ---------------------------------------------------------------- the decoder

  /** Characters are decoded, a byte that starts none is dropped. */
  function DecodeIgnore(s: Bytes): Text
    decreases |s|
  {
    if s == [] then []
    else if CharLen(s) > 0 then [DecodeChar(s)] + DecodeIgnore(s[CharLen(s)..])
    else DecodeIgnore(s[1..])
  }

  method DecodeUtf8Ignore(data: Bytes) returns (output: Text)
    ensures output == DecodeIgnore(data)
  {
    hide CharLen, IsChar, DecodeChar, DecodeIgnore, Two, Three, Four;
    output := [];
    var i := 0;
    while i < |data|
      invariant 0 <= i <= |data|
      invariant DecodeIgnore(data) == output + DecodeIgnore(data[i..])
    {
      var b0 := data[i];
      CharAt(data, i);
      if b0 <= 0x7F {
        StepOver(data, i, 1);
        output := output + [b0];
        i := i + 1;
        continue;
      }
      if 0xC2 <= b0 <= 0xDF {
        if i + 1 < |data| && IsTail(data[i + 1]) {
          StepOver(data, i, 2);
          output := output + [Two(b0, data[i + 1])];
          i := i + 2;
          continue;
        }
        StepOver(data, i, 0);
        i := i + 1;
        continue;
      }
      if 0xE0 <= b0 <= 0xEF {
        var validSecond := i + 1 < |data| && SecondOfThree(b0, data[i + 1]);
        if validSecond && i + 2 < |data| && IsTail(data[i + 2]) {
          StepOver(data, i, 3);
          output := output + [Three(b0, data[i + 1], data[i + 2])];
          i := i + 3;
          continue;
        }
        StepOver(data, i, 0);
        i := i + 1;
        continue;
      }
      if 0xF0 <= b0 <= 0xF4 {
        var validSecond := i + 1 < |data| && SecondOfFour(b0, data[i + 1]);
        if validSecond && i + 3 < |data| && IsTail(data[i + 2]) && IsTail(data[i + 3]) {
          StepOver(data, i, 4);
          output := output + [Four(b0, data[i + 1], data[i + 2], data[i + 3])];
          i := i + 4;
          continue;
        }
        StepOver(data, i, 0);
        i := i + 1;
        continue;
      }
      StepOver(data, i, 0);
      i := i + 1;
    }
    assert data[i..] == [];
    NothingToDecode();
  }

  lemma DecodeStep(s: Bytes)
    requires s != []
    ensures CharLen(s) > 0 ==> DecodeIgnore(s) == [DecodeChar(s)] + DecodeIgnore(s[CharLen(s)..])
                               && (WellFormed(s) <==> WellFormed(s[CharLen(s)..]))
    ensures CharLen(s) == 0 ==> DecodeIgnore(s) == DecodeIgnore(s[1..]) && !WellFormed(s)
  {
    hide CharLen, IsChar, DecodeChar;
  }

  /** What the bytes from position `i` on say about the character there. */
  lemma CharAt(data: Bytes, i: nat)
    requires i < |data|
    ensures var n := CharLen(data[i..]);
            && (n == 1 <==> data[i] <= 0x7F)
            && (n == 2 <==> 0xC2 <= data[i] <= 0xDF && i + 1 < |data| && IsTail(data[i + 1]))
            && (n == 3 <==> i + 2 < |data| && SecondOfThree(data[i], data[i + 1]) && IsTail(data[i + 2]))
            && (n == 4 <==>
                  i + 3 < |data| && SecondOfFour(data[i], data[i + 1]) && IsTail(data[i + 2]) && IsTail(data[i + 3]))
            && (n == 1 ==> DecodeChar(data[i..]) == data[i])
            && (n == 2 ==> DecodeChar(data[i..]) == Two(data[i], data[i + 1]))
            && (n == 3 ==> DecodeChar(data[i..]) == Three(data[i], data[i + 1], data[i + 2]))
            && (n == 4 ==> DecodeChar(data[i..]) == Four(data[i], data[i + 1], data[i + 2], data[i + 3]))
            && n <= 4
  {
    var rest := data[i..];
    assert forall k :: 0 <= k < |rest| ==> rest[k] == data[i + k];
    hide Two, Three, Four;
  }

  /** How the decoder moves on when the character at position `i` has length `n`, or none starts there. */
  lemma StepOver(data: Bytes, i: nat, n: nat)
    requires i < |data| && CharLen(data[i..]) == n
    ensures n == 0 ==> DecodeIgnore(data[i..]) == DecodeIgnore(data[i + 1..])
    ensures n > 0 ==>
        i + n <= |data| && DecodeIgnore(data[i..]) == [DecodeChar(data[i..])] + DecodeIgnore(data[i + n..])
  {
    hide CharLen, IsChar, DecodeChar, DecodeIgnore, WellFormed;
    DecodeStep(data[i..]);
    assert data[i..][1..] == data[i + 1..];
    assert n <= |data[i..]| ==> data[i..][n..] == data[i + n..];
  }

  // ---------------------------------------------------------------- what the decoder means

  lemma {:induction false} DecodeInvertsEncode(text: Text)
    ensures DecodeIgnore(EncodeAll(text)) == text
  {
    if text == [] {
      NothingToDecode();
    } else {
      EncodeOneRoundTrip(text[0], EncodeAll(text[1..]));
      CharIsSelfDelimiting(Encode(text[0]), EncodeAll(text[1..]));
      DecodeInvertsEncode(text[1..]);
      hide Encode, CharLen, IsChar, DecodeChar;
    }
  }

  lemma {:induction false} EncodingIsWellFormed(text: Text)
    ensures WellFormed(EncodeAll(text))
  {
    if text != [] {
      EncodeOneRoundTrip(text[0], EncodeAll(text[1..]));
      CharIsSelfDelimiting(Encode(text[0]), EncodeAll(text[1..]));
      EncodingIsWellFormed(text[1..]);
    }
  }

  lemma EncodeCons(v: Scalar, text: Text)
    ensures EncodeAll([v] + text) == Encode(v) + EncodeAll(text)
  {
    hide Encode;
    assert ([v] + text)[1..] == text;
  }

  lemma {:induction false} ReencodeWellFormed(s: Bytes)
    requires WellFormed(s)
    ensures EncodeAll(DecodeIgnore(s)) == s
    decreases |s|
  {
    hide CharLen, IsChar, DecodeChar, Encode, EncodeAll;
    if s == [] {
      EmptyText();
    } else {
      var n := CharLen(s);
      DecodeOneRoundTrip(s);
      ReencodeWellFormed(s[n..]);
      EncodeCons(DecodeChar(s), DecodeIgnore(s[n..]));
      assert s == s[..n] + s[n..];
    }
  }

  lemma EmptyText()
    ensures EncodeAll([]) == []
  {
  }

  /** Re-encoding what was decoded gives the input back exactly when the input was well-formed. */
  lemma ReencodeIffWellFormed(s: Bytes)
    ensures EncodeAll(DecodeIgnore(s)) == s <==> WellFormed(s)
  {
    EncodingIsWellFormed(DecodeIgnore(s));
    if WellFormed(s) { ReencodeWellFormed(s); }
  }

  predicate IsSubsequence<T(==)>(a: seq<T>, b: seq<T>) {
    a == [] || (b != [] && ((a[0] == b[0] && IsSubsequence(a[1..], b[1..])) || IsSubsequence(a, b[1..])))
  }

  lemma {:induction false} SubsequencePrepend<T>(c: seq<T>, a: seq<T>, b: seq<T>)
    requires IsSubsequence(a, b)
    ensures IsSubsequence(c + a, c + b)
  {
    if c == [] {
      assert c + a == a && c + b == b;
    } else {
      SubsequencePrepend(c[1..], a, b);
      assert (c + a)[1..] == c[1..] + a && (c + b)[1..] == c[1..] + b;
    }
  }

  lemma SubsequenceSkip<T>(a: seq<T>, x: T, b: seq<T>)
    requires IsSubsequence(a, b)
    ensures IsSubsequence(a, [x] + b)
  {
    assert ([x] + b)[1..] == b;
  }

  /** On any input at all the decoder only drops bytes: what it keeps re-encodes to a subsequence of the input. */
  lemma {:induction false} DecoderOnlyDrops(s: Bytes)
    ensures IsSubsequence(EncodeAll(DecodeIgnore(s)), s)
    decreases |s|
  {
    hide CharLen, IsChar, DecodeChar, DecodeIgnore, WellFormed, Encode, EncodeAll;
    if s == [] {
      NothingToDecode();
      EmptyText();
    } else {
      DecodeStep(s);
      var n := CharLen(s);
      if n > 0 {
        hide IsSubsequence;
        var kept := DecodeIgnore(s[n..]);
        DecodeOneRoundTrip(s);
        EncodeCons(DecodeChar(s), kept);
        DecoderOnlyDrops(s[n..]);
        SubsequencePrepend(s[..n], EncodeAll(kept), s[n..]);
        assert s == s[..n] + s[n..];
      } else {
        hide IsSubsequence;
        DecoderOnlyDrops(s[1..]);
        SubsequenceSkip(EncodeAll(DecodeIgnore(s)), s[0], s[1..]);
        assert s == [s[0]] + s[1..];
      }
    }
  }

  // ---------------------------------------------------------------- cutting between characters

  /** A cut next to an ASCII byte cannot fall inside a character. */
  predicate SafeCut(a: Bytes, b: Bytes) {
    a == [] || b == [] || a[|a| - 1] <= 0x7F || b[0] <= 0x7F
  }

  lemma SafeCutKeepsFirstChar(a: Bytes, b: Bytes)
    requires a != [] && SafeCut(a, b)
    ensures CharLen(a + b) == CharLen(a)
    ensures (a + b)[CharLen(a)..] == a[CharLen(a)..] + b
    ensures CharLen(a) > 0 ==> DecodeChar(a + b) == DecodeChar(a)
  {
    var s := a + b;
    assert forall k :: 0 <= k < |a| ==> s[k] == a[k];
    if b != [] { assert s[|a|] == b[0]; }
  }

  lemma {:induction false} DecodeAtSafeCut(a: Bytes, b: Bytes)
    requires SafeCut(a, b)
    ensures DecodeIgnore(a + b) == DecodeIgnore(a) + DecodeIgnore(b)
    ensures WellFormed(a + b) <==> WellFormed(a) && WellFormed(b)
    decreases |a|
  {
    hide CharLen, IsChar, DecodeChar, DecodeIgnore, WellFormed;
    if a == [] {
      assert a + b == b;
      NothingToDecode();
    } else {
      SafeCutKeepsFirstChar(a, b);
      DecodeStep(a);
      DecodeStep(a + b);
      var n := CharLen(a);
      if n > 0 {
        DecodeAtSafeCut(a[n..], b);
      } else {
        DecodeAtSafeCut(a[1..], b);
        assert (a + b)[1..] == a[1..] + b;
      }
    }
  }

  lemma NothingToDecode()
    ensures DecodeIgnore([]) == [] && WellFormed([])
  {
  }
}
