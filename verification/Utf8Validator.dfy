/** The streaming validator: one counter and a range for the next continuation byte. */
module Utf8Validator {
  import opened Basics
  import opened Utf8

  datatype Expect = Expect(needed: nat, lower: Byte, upper: Byte)

  const FRESH := Expect(0, 0x80, 0xBF)

  /** One byte; `None` is the thrown error. */
  function Accept(e: Expect, b: Byte): Option<Expect> {
    if e.needed == 0 then
      if b <= 0x7F then Some(e)
      else if 0xC2 <= b <= 0xDF then Some(e.(needed := 1))
      else if b == 0xE0 then Some(e.(needed := 2, lower := 0xA0))
      else if 0xE1 <= b <= 0xEC then Some(e.(needed := 2))
      else if b == 0xED then Some(e.(needed := 2, upper := 0x9F))
      else if 0xEE <= b <= 0xEF then Some(e.(needed := 2))
      else if b == 0xF0 then Some(e.(needed := 3, lower := 0x90))
      else if 0xF1 <= b <= 0xF3 then Some(e.(needed := 3))
      else if b == 0xF4 then Some(e.(needed := 3, upper := 0x8F))
      else None
    else if b < e.lower || b > e.upper then None
    else Some(Expect(e.needed - 1, 0x80, 0xBF))
  }

  function AcceptAll(e: Expect, s: Bytes): Option<Expect>
    decreases |s|
  {
    if s == [] then Some(e)
    else match Accept(e, s[0])
         case None => None
         case Some(e') => AcceptAll(e', s[1..])
  }

  predicate Passes(s: Bytes) {
    AcceptAll(FRESH, s).Some? && AcceptAll(FRESH, s).value.needed == 0
  }

  lemma {:induction false} AcceptConcat(e: Expect, a: Bytes, b: Bytes)
    ensures AcceptAll(e, a + b) == match AcceptAll(e, a) case None => None case Some(e') => AcceptAll(e', b)
    decreases |a|
  {
    if a == [] {
      assert a + b == b;
    } else {
      assert (a + b)[1..] == a[1..] + b;
      if Accept(e, a[0]).Some? { AcceptConcat(Accept(e, a[0]).value, a[1..], b); }
    }
  }

  lemma Unroll(e: Expect, s: Bytes, k: nat)
    requires k < |s|
    ensures AcceptAll(e, s[k..]) == match Accept(e, s[k]) case None => None case Some(e') => AcceptAll(e', s[k + 1..])
  {
    assert s[k..][1..] == s[k + 1..];
  }

  /** A whole character brings the validator back to where it started. */
  lemma PassesCharacter(s: Bytes)
    requires CharLen(s) > 0
    ensures AcceptAll(FRESH, s) == AcceptAll(FRESH, s[CharLen(s)..])
  {
    assert s[0..] == s;
    Unroll(FRESH, s, 0);
    if CharLen(s) > 1 {
      var e1 := Accept(FRESH, s[0]).value;
      Unroll(e1, s, 1);
      if CharLen(s) > 2 {
        var e2 := Accept(e1, s[1]).value;
        Unroll(e2, s, 2);
        if CharLen(s) > 3 { Unroll(Accept(e2, s[2]).value, s, 3); }
      }
    }
  }

  /** Where no character starts, the validator throws, or is left waiting when the input ends. */
  lemma StopsWhereNoCharacterStarts(s: Bytes)
    requires s != [] && CharLen(s) == 0
    ensures !Passes(s)
  {
    assert s[0..] == s;
    Unroll(FRESH, s, 0);
    var e1 := Accept(FRESH, s[0]);
    if e1.Some? && |s| > 1 {
      Unroll(e1.value, s, 1);
      var e2 := Accept(e1.value, s[1]);
      if e2.Some? && |s| > 2 {
        Unroll(e2.value, s, 2);
        var e3 := Accept(e2.value, s[2]);
        if e3.Some? && |s| > 3 { Unroll(e3.value, s, 3); }
      }
    }
  }

  /** The validator accepts exactly the well-formed sequences. */
  lemma {:induction false} PassesIffWellFormed(s: Bytes)
    ensures Passes(s) <==> WellFormed(s)
    decreases |s|
  {
    hide CharLen, IsChar, AcceptAll;
    if s == [] {
      EmptyPasses();
    } else if CharLen(s) > 0 {
      PassesCharacter(s);
      PassesIffWellFormed(s[CharLen(s)..]);
    } else {
      StopsWhereNoCharacterStarts(s);
    }
  }

  lemma EmptyPasses()
    ensures Passes([])
  {
  }

  /** The validator object; a `false` result is the thrown TypeError, after which the object is not used again. */
  class Validator {
    var needed: nat
    var lower: Byte
    var upper: Byte
    ghost var seen: Bytes

    ghost predicate Valid()
      reads this
    {
      AcceptAll(FRESH, seen) == Some(Expect(needed, lower, upper))
    }

    constructor ()
      ensures Valid() && seen == []
    {
      needed, lower, upper := 0, 0x80, 0xBF;
      seen := [];
    }

    method Write(chunk: Bytes) returns (ok: bool)
      requires Valid()
      modifies this
      ensures seen == old(seen) + chunk
      ensures ok <==> AcceptAll(FRESH, seen).Some?
      ensures ok ==> Valid()
    {
      hide Accept;
      seen := old(seen) + chunk;
      AcceptConcat(FRESH, old(seen), chunk);
      for i := 0 to |chunk|
        invariant AcceptAll(FRESH, seen) == AcceptAll(Expect(needed, lower, upper), chunk[i..])
        invariant seen == old(seen) + chunk
      {
        Unroll(Expect(needed, lower, upper), chunk, i);
        var accepted := AcceptByte(chunk[i]);
        if !accepted { return false; }
      }
      return true;
    }

    method AcceptByte(byte: Byte) returns (ok: bool)
      modifies this`needed, this`lower, this`upper
      ensures Accept(old(Expect(needed, lower, upper)), byte) == if ok then Some(Expect(needed, lower, upper)) else None
    {
      if needed == 0 {
        if byte <= 0x7F { return true; }
        if 0xC2 <= byte <= 0xDF {
          needed := 1;
        } else if byte == 0xE0 {
          needed := 2;
          lower := 0xA0;
        } else if 0xE1 <= byte <= 0xEC {
          needed := 2;
        } else if byte == 0xED {
          needed := 2;
          upper := 0x9F;
        } else if 0xEE <= byte <= 0xEF {
          needed := 2;
        } else if byte == 0xF0 {
          needed := 3;
          lower := 0x90;
        } else if 0xF1 <= byte <= 0xF3 {
          needed := 3;
        } else if byte == 0xF4 {
          needed := 3;
          upper := 0x8F;
        } else {
          return false;
        }
      } else {
        if byte < lower || byte > upper { return false; }
        lower := 0x80;
        upper := 0xBF;
        needed := needed - 1;
      }
      return true;
    }

    method End() returns (ok: bool)
      requires Valid()
      ensures ok <==> WellFormed(seen)
    {
      PassesIffWellFormed(seen);
      ok := needed == 0;
    }
  }

  /** Once the validator throws, no continuation of the input is well-formed. */
  lemma ThrowIsFinal(seen: Bytes, rest: Bytes)
    requires AcceptAll(FRESH, seen).None?
    ensures !WellFormed(seen + rest)
  {
    AcceptConcat(FRESH, seen, rest);
    PassesIffWellFormed(seen + rest);
  }
}
