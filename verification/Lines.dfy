/** Cutting a sequence into lines that keep their separator. */
module Lines {
  import opened Basics
  import opened Utf8

  const LF: Byte := 0x0A
  const LF_CHAR: Scalar := 0x0A

  /** The position of the first separator, or the length when there is none. */
  function FirstAt<T(==)>(sep: T, s: seq<T>): (k: nat)
    ensures k <= |s|
    ensures forall i :: 0 <= i < k ==> s[i] != sep
    ensures k < |s| ==> s[k] == sep
  {
    if s == [] || s[0] == sep then 0 else 1 + FirstAt(sep, s[1..])
  }

  /** The lines of `s`: each but perhaps the last ends in its only separator. */
  function SplitAfter<T(==)>(sep: T, s: seq<T>): (lines: seq<seq<T>>)
    ensures Flatten(lines) == s
    ensures forall l :: l in lines ==> l != []
    decreases |s|
  {
    var k := FirstAt(sep, s);
    if s == [] then []
    else if k == |s| then
      assert Flatten([s]) == s + Flatten([]);
      [s]
    else
      assert s == s[..k + 1] + s[k + 1..];
      [s[..k + 1]] + SplitAfter(sep, s[k + 1..])
  }

  function ByteLines(file: Bytes): seq<Bytes> { SplitAfter<Byte>(LF, file) }

  function TextLines(text: Text): seq<Text> { SplitAfter<Scalar>(LF_CHAR, text) }

  function Count<T(==)>(sep: T, s: seq<T>): nat {
    if s == [] then 0 else Count(sep, s[..|s| - 1]) + if s[|s| - 1] == sep then 1 else 0
  }

  lemma NothingCounted<T>(sep: T)
    ensures Count(sep, []) == 0
  {
  }

  lemma CountSnoc<T>(sep: T, s: seq<T>, x: T)
    ensures Count(sep, s + [x]) == Count(sep, s) + if x == sep then 1 else 0
  {
    assert (s + [x])[..|s|] == s;
  }

  lemma {:induction false} CountConcat<T>(sep: T, a: seq<T>, b: seq<T>)
    ensures Count(sep, a + b) == Count(sep, a) + Count(sep, b)
    decreases |b|
  {
    if b == [] {
      assert a + b == a;
    } else {
      CountConcat(sep, a, b[..|b| - 1]);
      assert (a + b)[..|a + b| - 1] == a + b[..|b| - 1];
    }
  }

  lemma {:induction false} CountNone<T>(sep: T, s: seq<T>)
    ensures Count(sep, s) == 0 <==> sep !in s
  {
    if s != [] {
      CountNone(sep, s[..|s| - 1]);
      assert s == s[..|s| - 1] + [s[|s| - 1]];
    }
  }

  /** A line: nonempty, with a separator at most at its end. */
  predicate IsLine<T(==)>(sep: T, l: seq<T>) {
    l != [] && sep !in l[..|l| - 1]
  }

  predicate IsEnded<T(==)>(sep: T, l: seq<T>) {
    l != [] && l[|l| - 1] == sep
  }

  /** A complete line at the front is the first of the lines. */
  lemma SplitCons<T>(sep: T, line: seq<T>, rest: seq<T>)
    requires IsLine(sep, line) && IsEnded(sep, line)
    ensures SplitAfter(sep, line + rest) == [line] + SplitAfter(sep, rest)
  {
    var s := line + rest;
    var k := FirstAt(sep, s);
    assert forall i :: 0 <= i < |line| - 1 ==> s[i] == line[..|line| - 1][i];
    assert s[|line| - 1] == sep;
    assert k == |line| - 1;
    assert s[..k + 1] == line && s[k + 1..] == rest;
  }

  /** Without a separator there is one line, or none when there is nothing. */
  lemma SplitWithout<T>(sep: T, s: seq<T>)
    requires sep !in s
    ensures SplitAfter(sep, s) == if s == [] then [] else [s]
  {
    if s != [] { assert FirstAt(sep, s) == |s|; }
  }

  /** One unfolding: the first line, and what is left. */
  lemma SplitStep<T>(sep: T, s: seq<T>) returns (line: seq<T>, rest: seq<T>)
    requires s != []
    ensures s == line + rest && IsLine(sep, line)
    ensures SplitAfter(sep, s) == [line] + SplitAfter(sep, rest)
    ensures rest != [] ==> IsEnded(sep, line)
  {
    hide Flatten;
    var k := FirstAt(sep, s);
    if k == |s| {
      line, rest := s, [];
      SplitWithout(sep, rest);
    } else {
      line, rest := s[..k + 1], s[k + 1..];
      assert line[..|line| - 1] == s[..k];
    }
  }

  lemma SplitNonempty<T>(sep: T, s: seq<T>)
    requires s != []
    ensures SplitAfter(sep, s) != []
  {
    hide Flatten;
  }

  /** Every line is one, and only the last may lack its separator. */
  lemma {:induction false} SplitMakesLines<T>(sep: T, s: seq<T>, i: nat)
    requires i < |SplitAfter(sep, s)|
    ensures IsLine(sep, SplitAfter(sep, s)[i])
    ensures i < |SplitAfter(sep, s)| - 1 ==> IsEnded(sep, SplitAfter(sep, s)[i])
    decreases |s|
  {
    if s == [] {
      SplitWithout(sep, s);
    } else {
      var line, rest := SplitStep(sep, s);
      hide SplitAfter, Flatten;
      if rest == [] { SplitWithout(sep, rest); }
      if i > 0 { SplitMakesLines(sep, rest, i - 1); }
    }
  }

  /** The last line is ended exactly when the whole is. */
  lemma {:induction false} LastLineEnds<T>(sep: T, s: seq<T>)
    requires s != []
    ensures SplitAfter(sep, s) != []
    ensures IsEnded(sep, SplitAfter(sep, s)[|SplitAfter(sep, s)| - 1]) <==> IsEnded(sep, s)
    decreases |s|
  {
    SplitNonempty(sep, s);
    var line, rest := SplitStep(sep, s);
    hide SplitAfter, Flatten;
    if rest == [] {
      SplitWithout(sep, rest);
    } else {
      LastLineEnds(sep, rest);
    }
  }

  /** Cutting right after a separator cuts between lines. */
  lemma {:induction false} SplitConcat<T>(sep: T, a: seq<T>, b: seq<T>)
    requires a == [] || IsEnded(sep, a)
    ensures SplitAfter(sep, a + b) == SplitAfter(sep, a) + SplitAfter(sep, b)
    decreases |a|
  {
    hide SplitAfter, Flatten;
    if a == [] {
      assert a + b == b;
      SplitWithout(sep, a);
    } else {
      var line, rest := SplitStep(sep, a);
      SplitConcat(sep, rest, b);
      assert a + b == line + (rest + b);
      SplitCons(sep, line, rest + b);
    }
  }

  /** How many lines there are: one per separator, and one more for an unterminated rest. */
  lemma {:induction false} LineCount<T>(sep: T, s: seq<T>)
    ensures |SplitAfter(sep, s)| == Count(sep, s) + if s != [] && !IsEnded(sep, s) then 1 else 0
    decreases |s|
  {
    var k := FirstAt(sep, s);
    if k == |s| {
      CountNone(sep, s);
    } else {
      var line, rest := s[..k + 1], s[k + 1..];
      assert s == line + rest && line[..k] == s[..k];
      CountConcat(sep, line, rest);
      CountNone(sep, s[..k]);
      LineCount(sep, rest);
    }
  }

  /** The line that ends at the first separator at or after `start`. */
  lemma NextLine<T>(sep: T, s: seq<T>, start: nat, i: nat)
    requires start <= i < |s| && sep !in s[start..i] && s[i] == sep
    ensures SplitAfter(sep, s[start..]) == [s[start..i + 1]] + SplitAfter(sep, s[i + 1..])
  {
    hide SplitAfter;
    var line := s[start..i + 1];
    assert line[..|line| - 1] == s[start..i];
    assert s[start..] == line + s[i + 1..];
    SplitCons(sep, line, s[i + 1..]);
  }

  lemma NothingSplits<T>(sep: T)
    ensures SplitAfter(sep, []) == []
  {
  }

  /** splitLinesKeepingTerminator. */
  method SplitLinesKeepingTerminator(text: Text) returns (lines: seq<Text>)
    ensures lines == TextLines(text)
  {
    hide SplitAfter;
    NothingSplits<Scalar>(LF_CHAR);
    lines := [];
    if |text| == 0 { return; }
    var start := 0;
    for i := 0 to |text|
      invariant 0 <= start <= i
      invariant LF_CHAR !in text[start..i]
      invariant TextLines(text) == lines + TextLines(text[start..])
    {
      if text[i] == LF_CHAR {
        NextLine<Scalar>(LF_CHAR, text, start, i);
        Regroup(lines, text[start..i + 1], TextLines(text[i + 1..]));
        lines := lines + [text[start..i + 1]];
        start := i + 1;
      } else {
        assert text[start..i + 1] == text[start..i] + [text[i]];
      }
    }
    assert text[start..|text|] == text[start..];
    SplitWithout<Scalar>(LF_CHAR, text[start..]);
    if start < |text| {
      lines := lines + [text[start..]];
    }
  }

  lemma Regroup<T>(a: seq<T>, x: T, b: seq<T>)
    ensures a + ([x] + b) == (a + [x]) + b
  {
  }
}
