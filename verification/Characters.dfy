/** What the encodings are, number by number, and that the decoders find every character there is. */
module Characters {
  import opened Utf8
  import opened Utf16

  /** Section 3 of RFC 3629: how many bytes a scalar takes, and how its bits are spread over them. */
  lemma EncodingTable(v: Scalar)
    ensures var c: seq<int> := Encode(v);
            if v <= 0x7F then c == [v]
            else if v <= 0x7FF then
              && |c| == 2 && 0xC0 <= c[0] <= 0xDF && 0x80 <= c[1] <= 0xBF
              && v == (c[0] - 0xC0) * 0x40 + (c[1] - 0x80)
            else if v <= 0xFFFF then
              && |c| == 3 && 0xE0 <= c[0] <= 0xEF && 0x80 <= c[1] <= 0xBF && 0x80 <= c[2] <= 0xBF
              && v == (c[0] - 0xE0) * 0x1000 + (c[1] - 0x80) * 0x40 + (c[2] - 0x80)
            else
              && |c| == 4 && 0xF0 <= c[0] <= 0xF7
              && 0x80 <= c[1] <= 0xBF && 0x80 <= c[2] <= 0xBF && 0x80 <= c[3] <= 0xBF
              && v == (c[0] - 0xF0) * 0x40000 + (c[1] - 0x80) * 0x1000 + (c[2] - 0x80) * 0x40 + (c[3] - 0x80)
  {
    hide Low6, Shift6;
  }

  /** All the scalars whose encoding begins somewhere in the bytes, in order of where it begins. */
  ghost function Occurring(s: Bytes): Text {
    if s == [] then []
    else if exists v: Scalar :: Encode(v) <= s then
      var v: Scalar :| Encode(v) <= s;
      [v] + Occurring(s[1..])
    else Occurring(s[1..])
  }

  /** The character that the decoder sees at the front is the only one whose encoding is there. */
  lemma CharAtFront(s: Bytes)
    ensures CharLen(s) > 0 ==> Encode(DecodeChar(s)) <= s
    ensures forall v: Scalar :: Encode(v) <= s ==> CharLen(s) > 0 && DecodeChar(s) == v
  {
    if CharLen(s) > 0 { DecodeOneRoundTrip(s); }
    hide CharLen, DecodeChar, IsChar, Encode;
    forall v: Scalar | Encode(v) <= s ensures CharLen(s) > 0 && DecodeChar(s) == v {
      var rest := s[|Encode(v)|..];
      assert s == Encode(v) + rest;
      EncodeOneRoundTrip(v, rest);
      EncodingIsNotEmpty(v);
    }
  }

  lemma EncodingIsNotEmpty(v: Scalar)
    ensures Encode(v) != []
  {
  }

  /** No character begins with a tail byte. */
  lemma {:induction false} TailsBeginNone(s: Bytes, n: nat)
    requires n <= |s| && forall j :: 0 <= j < n ==> 0x80 <= s[j] <= 0xBF
    ensures Occurring(s) == Occurring(s[n..])
    decreases n
  {
    if n == 0 {
      assert s[0..] == s;
    } else {
      CharAtFront(s);
      TailsBeginNone(s[1..], n - 1);
      assert s[1..][n - 1..] == s[n..];
      hide Encode;
    }
  }

  lemma TailsOfChar(s: Bytes)
    requires CharLen(s) > 0
    ensures forall j :: 1 <= j < CharLen(s) ==> 0x80 <= s[j] <= 0xBF
  {
  }

  lemma OccurringStep(s: Bytes)
    requires s != []
    ensures Occurring(s) == if CharLen(s) > 0 then [DecodeChar(s)] + Occurring(s[1..]) else Occurring(s[1..])
  {
    CharAtFront(s);
    hide Encode, CharLen, DecodeChar, IsChar;
  }

  /**
   On any bytes the decoder gives every character that occurs anywhere in them, once and in order, and nothing else:
   what it drops are bytes that belong to no character.
   */
  lemma {:induction false} DecodesWhatOccurs(s: Bytes)
    ensures DecodeIgnore(s) == Occurring(s)
    decreases |s|
  {
    if s == [] {
      NothingToDecode();
    } else {
      DecodeStep(s);
      OccurringStep(s);
      var n := CharLen(s);
      if n > 0 { TailsOfChar(s); }
      hide CharLen, IsChar, DecodeChar, DecodeIgnore, WellFormed, Encode, Occurring;
      if n > 0 {
        TailsBeginNone(s[1..], n - 1);
        assert s[1..][n - 1..] == s[n..];
        DecodesWhatOccurs(s[n..]);
      } else {
        DecodesWhatOccurs(s[1..]);
      }
    }
  }

  // ---------------------------------------------------------------- UTF-16

  /** Section 2.1 of RFC 2781, low byte first: one unit that is no surrogate, or a high and a low surrogate. */
  lemma EncodingTable16(v: Scalar)
    ensures var c: seq<int> := Encode16(v);
            if v <= 0xFFFF then |c| == 2 && v == c[0] + 0x100 * c[1]
            else
              && |c| == 4
              && var high, low := c[0] + 0x100 * c[1], c[2] + 0x100 * c[3];
              && 0xD800 <= high <= 0xDBFF && 0xDC00 <= low <= 0xDFFF
              && v == 0x10000 + (high - 0xD800) * 0x400 + (low - 0xDC00)
  {
  }

  /** All the scalars whose encoding begins at an even position, in order. */
  ghost function Occurring16(s: Bytes): Text {
    if |s| < 2 then []
    else if exists v: Scalar :: Encode16(v) <= s then
      var v: Scalar :| Encode16(v) <= s;
      [v] + Occurring16(s[2..])
    else Occurring16(s[2..])
  }

  lemma PairAtFront(s: Bytes)
    ensures PairLen(s) > 0 ==> Encode16(FrontScalar(s)) <= s
    ensures forall v: Scalar :: Encode16(v) <= s ==> PairLen(s) > 0 && FrontScalar(s) == v
  {
    if PairLen(s) > 0 { FrontEncodes(s); }
    hide PairLen, FrontScalar, Encode16;
    forall v: Scalar | Encode16(v) <= s ensures PairLen(s) > 0 && FrontScalar(s) == v {
      var rest := s[|Encode16(v)|..];
      assert s == Encode16(v) + rest;
      EncodeFront(v, rest);
      UnitsAreNotEmpty(v);
    }
  }

  lemma UnitsAreNotEmpty(v: Scalar)
    ensures Encode16(v) != []
  {
  }

  lemma Occurring16Step(s: Bytes)
    requires |s| >= 2
    ensures Occurring16(s) == if PairLen(s) > 0 then [FrontScalar(s)] + Occurring16(s[2..]) else Occurring16(s[2..])
  {
    PairAtFront(s);
    hide Encode16, PairLen, FrontScalar;
  }

  lemma LowBeginsNone(s: Bytes)
    requires PairLen(s) == 4
    ensures PairLen(s[2..]) == 0 && |s| >= 4
  {
    assert UnitAt(s[2..], 0) == UnitAt(s, 2);
  }

  lemma PairIsEven(s: Bytes)
    ensures PairLen(s) in {0, 2, 4}
  {
  }

  /** On any bytes the decoder gives every character at an even position, once and in order, and nothing else. */
  lemma {:induction false} DecodesWhatOccurs16(s: Bytes)
    ensures DecodeIgnore16(s) == Occurring16(s)
    decreases |s|
  {
    if |s| < 2 {
    } else {
      Occurring16Step(s);
      PairIsEven(s);
      hide PairLen, FrontScalar, Occurring16;
      if PairLen(s) == 4 {
        LowBeginsNone(s);
        Occurring16Step(s[2..]);
        assert s[2..][2..] == s[4..];
        DecodesWhatOccurs16(s[4..]);
      } else {
        DecodesWhatOccurs16(s[2..]);
      }
    }
  }
}
