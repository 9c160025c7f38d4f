/** Reading the last lines of a file by scanning it backwards in blocks. */
module TailReader {
  import opened Basics
  import opened Utf8
  import opened Lines
  import opened LineReader
  import opened LineProofs

  /** The line from which the last `n` lines start. */
  function TailStart(total: nat, n: nat): nat { total - Min(n, total) }

  /** What decoding the bytes of the last `n` lines and splitting the text again gives. */
  function TailText(file: Bytes, n: nat, errors: Errors): Option<seq<Text>> {
    var lines := ByteLines(file);
    var lo := TailStart(|lines|, n);
    match DecodeTextWithErrors(Flatten(lines[lo..]), errors, lo != 0)
    case None => None
    case Some(text) => Some(TextLines(text))
  }

  /** How many line feeds the backward scan must find: one more when the file ends with one. */
  function Needed(file: Bytes, n: nat): nat { if IsEnded(LF, file) then n + 1 else n }

  /** Where the scan stops: right behind the line feed that makes the count full, or at the start of the file. */
  predicate IsCut(file: Bytes, n: nat, cut: nat) {
    && cut <= |file|
    && (cut == 0 ==> Count(LF, file) < Needed(file, n))
    && (cut > 0 ==> file[cut - 1] == LF && Count(LF, file[cut - 1..]) == Needed(file, n))
  }

  lemma CountCons<T>(sep: T, s: seq<T>, k: nat)
    requires k < |s|
    ensures Count(sep, s[k..]) == Count(sep, s[k + 1..]) + if s[k] == sep then 1 else 0
  {
    assert s[k..] == [s[k]] + s[k + 1..];
    CountConcat(sep, [s[k]], s[k + 1..]);
    assert [s[k]] == [] + [s[k]];
    CountSnoc(sep, [], s[k]);
  }

  /** The bytes behind the cut are the last `n` lines, and nothing is in front of them only if no line is. */
  lemma CutFindsTail(file: Bytes, n: nat, cut: nat)
    requires n >= 1 && file != [] && IsCut(file, n, cut)
    ensures var lines := ByteLines(file);
            var lo := TailStart(|lines|, n);
            file[cut..] == Flatten(lines[lo..]) && (cut != 0 <==> lo != 0)
  {
    hide SplitAfter, Count, Flatten;
    var lines := ByteLines(file);
    LineCount(LF, file);
    if cut == 0 {
      assert lines[0..] == lines && file[0..] == file;
    } else {
      var before, after := file[..cut], file[cut..];
      CountCons(LF, file, cut - 1);
      assert file == before + after;
      SplitConcat(LF, before, after);
      LineCount(LF, after);
      NothingCounted(LF);
      assert lines[|ByteLines(before)|..] == ByteLines(after);
      SplitNonempty(LF, before);
    }
  }

  /** Scans one block backwards; stops at the line feed that makes the count full. */
  method ScanBlock(file: Bytes, pos: nat, readSize: nat, before: nat, needLf: nat)
    returns (foundLf: nat, startOffset: nat)
    requires pos + readSize <= |file| && before < needLf && before == Count(LF, file[pos + readSize..])
    ensures foundLf <= needLf
    ensures foundLf < needLf ==> foundLf == Count(LF, file[pos..])
    ensures foundLf == needLf ==> 0 < startOffset <= |file| && file[startOffset - 1] == LF
                                  && Count(LF, file[startOffset - 1..]) == needLf
  {
    hide Count;
    var buf := file[pos..pos + readSize];
    foundLf, startOffset := before, 0;
    var i := readSize;
    while i > 0
      invariant 0 <= i <= readSize
      invariant foundLf < needLf && foundLf == Count(LF, file[pos + i..])
    {
      i := i - 1;
      CountCons(LF, file, pos + i);
      assert buf[i] == file[pos + i];
      if buf[i] != LF { continue; }
      foundLf := foundLf + 1;
      if foundLf == needLf {
        startOffset := pos + i + 1;
        return;
      }
    }
  }

  /** readTailLines; `None` is the error that strict decoding throws, before anything is yielded. */
  method ReadTailLines(file: Bytes, chunkSize: nat, tailCount: int, errors: Errors) returns (result: Option<seq<Text>>)
    requires chunkSize >= 1
    ensures result == if tailCount <= 0 then Some([]) else TailText(file, tailCount, errors)
  {
    hide Count, SplitAfter, Flatten, DecodeTextWithErrors;
    if tailCount <= 0 { return Some([]); }
    if |file| == 0 {
      EmptyTail(tailCount, errors);
      return Some([]);
    }
    var pos := |file|;
    var foundLf, startOffset, needLf := 0, 0, tailCount;
    var sawTailBlock := false;
    assert file[|file|..] == [];
    NothingCounted(LF);
    while pos > 0 && foundLf < needLf
      invariant 0 <= pos <= |file|
      invariant needLf == if sawTailBlock then Needed(file, tailCount) else tailCount
      invariant !sawTailBlock <==> pos == |file|
      invariant foundLf <= needLf
      invariant foundLf < needLf ==> foundLf == Count(LF, file[pos..])
      invariant foundLf == needLf ==> sawTailBlock && 0 < startOffset <= |file| && file[startOffset - 1] == LF
                                      && Count(LF, file[startOffset - 1..]) == needLf
    {
      var readSize := Min(chunkSize, pos);
      pos := pos - readSize;
      if !sawTailBlock {
        sawTailBlock := true;
        var endsWithNewline := file[pos + readSize - 1] == LF;
        needLf := if endsWithNewline then tailCount + 1 else tailCount;
      }
      foundLf, startOffset := ScanBlock(file, pos, readSize, foundLf, needLf);
    }
    if foundLf < needLf {
      startOffset := 0;
      assert file[0..] == file;
    }
    CutFindsTail(file, tailCount, startOffset);
    var text := DecodeTextWithErrors(file[startOffset..], errors, startOffset != 0);
    if text.None? { return None; }
    var lines := SplitLinesKeepingTerminator(text.value);
    return Some(lines);
  }

  lemma EmptyTail(n: nat, errors: Errors)
    ensures TailText([], n, errors) == Some([])
  {
    NothingToDecode();
    NothingSplits(LF);
    NothingSplits(LF_CHAR);
  }

  /** The last line holds bytes, but no character of them is left after decoding. */
  predicate HollowEnd(file: Bytes, errors: Errors) {
    file != [] && ByteLines(file) != [] && DecodeLine(ByteLines(file), |ByteLines(file)| - 1, errors) == Some([])
  }

  /** The tail is what the forward reader decodes of the last `n` lines, without an empty text at the end. */
  lemma TailSplits(file: Bytes, n: nat, errors: Errors)
    requires n >= 1
    ensures var lines := ByteLines(file);
            var lo := if n <= |lines| then |lines| - n else 0;
            TailText(file, n, errors) == match DecodedFrom(lines, lo, errors)
                                         case None => None
                                         case Some(texts) => Some(DropEmptyEnd(texts))
  {
    var lines := ByteLines(file);
    var lo := TailStart(|lines|, n);
    ByteLinesAreLines(file);
    DecodeJoins(lines, lo, errors);
    if file == [] {
      NothingSplits(LF);
      EmptyTail(n, errors);
    } else {
      SplitNonempty(LF, file);
      hide SplitAfter, Flatten, DecodeTextWithErrors;
      hide AllLines, DropEmptyEnd, TextLines;
      if DecodedFrom(lines, lo, errors).Some? { SplitFindsLines(lines, lo, errors); }
    }
  }

  lemma {:induction false} DecodedLast(lines: seq<Bytes>, lo: nat, errors: Errors)
    requires lo < |lines| && DecodedFrom(lines, lo, errors).Some?
    ensures var texts := DecodedFrom(lines, lo, errors).value;
            |texts| == |lines| - lo && DecodeLine(lines, |lines| - 1, errors) == Some(texts[|texts| - 1])
    decreases |lines| - lo
  {
    hide DecodeTextWithErrors;
    if lo + 1 < |lines| { DecodedLast(lines, lo + 1, errors); }
  }

  /**
   The tail is the last `n` of all the lines exactly when the last line decodes to something: a last
   line that decodes to nothing is a line to the forward reader and none to the tail reader.
   */
  lemma TailEqualsSuffix(file: Bytes, n: nat, errors: Errors)
    requires n >= 1
    ensures var lines := ByteLines(file);
            var lo := if n <= |lines| then |lines| - n else 0;
            TailText(file, n, errors) == DecodedFrom(lines, lo, errors) <==> !HollowEnd(file, errors)
  {
    var lines := ByteLines(file);
    var lo := if n <= |lines| then |lines| - n else 0;
    TailSplits(file, n, errors);
    if file == [] {
      NothingSplits(LF);
    } else {
      SplitNonempty(LF, file);
      hide *;
      if DecodedFrom(lines, lo, errors).Some? {
        DroppedIffHollow(file, lo, errors);
      } else {
        LastOfUndecodable(file, lo, errors);
      }
    }
  }

  lemma DroppedIffHollow(file: Bytes, lo: nat, errors: Errors)
    requires lo < |ByteLines(file)| && DecodedFrom(ByteLines(file), lo, errors).Some?
    ensures var texts := DecodedFrom(ByteLines(file), lo, errors).value;
            DropEmptyEnd(texts) == texts <==> !HollowEnd(file, errors)
  {
    hide SplitAfter, DecodeTextWithErrors, DecodeLine, DecodedFrom;
    DecodedLast(ByteLines(file), lo, errors);
    if file == [] { NothingSplits(LF); }
  }

  /** The tail fails exactly when one of the last `n` lines cannot be decoded. */
  lemma TailFailsIff(file: Bytes, n: nat, errors: Errors)
    requires n >= 1
    ensures var lines := ByteLines(file);
            TailText(file, n, errors).None? <==>
            exists k :: 0 <= k < |lines| && k >= |lines| - n && DecodeLine(lines, k, errors).None?
  {
    var lines := ByteLines(file);
    TailSplits(file, n, errors);
    hide TailText, SplitAfter, DecodeTextWithErrors, DecodeLine;
    FailsSomewhere(lines, if n <= |lines| then |lines| - n else 0, errors);
  }

  lemma {:induction false} FailsSomewhere(lines: seq<Bytes>, lo: nat, errors: Errors)
    requires lo <= |lines|
    ensures DecodedFrom(lines, lo, errors).None? <==>
            exists k :: lo <= k < |lines| && DecodeLine(lines, k, errors).None?
    decreases |lines| - lo
  {
    hide DecodeTextWithErrors, DecodeLine;
    if lo < |lines| { FailsSomewhere(lines, lo + 1, errors); }
  }

  /** The same against what reading the whole file line by line yields. */
  lemma TailIsLastOfReadLines(file: Bytes, n: nat, errors: Errors, all: seq<Text>)
    requires n >= 1 && Reads(ByteLines(file), errors, 0, |ByteLines(file)|, all, true)
    ensures TailText(file, n, errors) == Some(if n <= |all| then all[|all| - n..] else all)
            <==> !HollowEnd(file, errors)
    ensures HollowEnd(file, errors) ==>
              && all != [] && all[|all| - 1] == []
              && TailText(file, n, errors) == Some(if n <= |all| then all[|all| - n..|all| - 1] else all[..|all| - 1])
  {
    hide SplitAfter, DecodeTextWithErrors, TailText;
    var lines := ByteLines(file);
    var lo := if n <= |lines| then |lines| - n else 0;
    TailEqualsSuffix(file, n, errors);
    TailSplits(file, n, errors);
    forall i | 0 <= i < |all| - lo ensures DecodeLine(lines, lo + i, errors) == Some(all[lo..][i]) {
      assert DecodeLine(lines, 0 + (lo + i), errors) == Some(all[lo + i]);
    }
    ReadsIsDecodedFrom(lines, errors, lo, all[lo..], true);
    if HollowEnd(file, errors) {
      assert DecodeLine(lines, 0 + (|lines| - 1), errors) == Some(all[|all| - 1]);
      assert all[lo..][..|all| - lo - 1] == all[lo..|all| - 1];
    }
  }

  /** A strict tail that fails does not end hollow: only a lone byte order mark does. */
  lemma LastOfUndecodable(file: Bytes, lo: nat, errors: Errors)
    requires file != [] && lo <= |ByteLines(file)| && DecodedFrom(ByteLines(file), lo, errors).None?
    ensures !HollowEnd(file, errors)
  {
    if errors.Strict? && HollowEnd(file, errors) {
      HollowIsLoneBom(file);
      OneLine(file);
    }
    if errors.Ignore? { IgnoreAlwaysDecodes(ByteLines(file), lo); }
  }

  lemma {:induction false} IgnoreAlwaysDecodes(lines: seq<Bytes>, lo: nat)
    requires lo <= |lines|
    ensures DecodedFrom(lines, lo, Ignore).Some?
    decreases |lines| - lo
  {
    if lo < |lines| { IgnoreAlwaysDecodes(lines, lo + 1); }
  }

  /** In strict mode the one file that ends hollow is the lone byte order mark. */
  lemma HollowIsLoneBom(file: Bytes)
    ensures HollowEnd(file, Strict) <==> file == BOM_BYTES
  {
    EncodedBom();
    EncodingIsWellFormed([BOM]);
    DecodeInvertsEncode([BOM]);
    hide SplitAfter, DecodeIgnore, WellFormed, EncodeAll;
    if HollowEnd(file, Strict) {
      var lines := ByteLines(file);
      var last := lines[|lines| - 1];
      assert last in lines;
      NonemptyWellFormed(last);
      ReencodeWellFormed(last);
      assert |lines| == 1 && DecodeIgnore(last) == [BOM];
      assert Flatten(lines) == last + Flatten(lines[1..]);
    }
    if file == BOM_BYTES {
      OneLine(file);
      assert StripBom([BOM], false) == [];
      assert DecodeLine(ByteLines(file), 0, Strict) == Some([]);
    }
  }

  /** Nothing is left of bytes exactly when no character starts anywhere in them. */
  lemma {:induction false} DecodesToNothing(s: Bytes)
    ensures DecodeIgnore(s) == [] <==> forall i :: 0 <= i < |s| ==> CharLen(s[i..]) == 0
    decreases |s|
  {
    hide CharLen, IsChar, DecodeChar, DecodeIgnore, WellFormed;
    if s == [] {
      NothingToDecode();
    } else {
      DecodeStep(s);
      assert s[0..] == s;
      DecodesToNothing(s[1..]);
      forall i | 0 < i < |s| ensures s[i..] == s[1..][i - 1..] {}
      if CharLen(s) == 0 {
        forall i | 0 <= i < |s[1..]| ensures s[1..][i..] == s[i + 1..] {}
      }
    }
  }

  /** In ignore mode the files that end hollow are those whose last line holds no character at all. */
  lemma HollowIffNoCharacter(file: Bytes)
    requires file != []
    ensures ByteLines(file) != []
    ensures var lines := ByteLines(file);
            var last := lines[|lines| - 1];
            HollowEnd(file, Ignore) <==> forall i :: 0 <= i < |last| ==> CharLen(last[i..]) == 0
  {
    SplitNonempty(LF, file);
    var lines := ByteLines(file);
    DecodesToNothing(lines[|lines| - 1]);
    hide SplitAfter, DecodeIgnore, CharLen;
  }

  /** Such a file: one stray byte. The forward reader yields an empty line, the tail reader nothing. */
  lemma StrayByteIsHollow()
    ensures HollowEnd([0x80], Ignore)
    ensures TailText([0x80], 1, Ignore) == Some([]) && DecodedFrom(ByteLines([0x80]), 0, Ignore) == Some([[]])
  {
    var file: Bytes := [0x80];
    SplitWithout(LF, file);
    HollowIffNoCharacter(file);
    DecodesToNothing(file);
    var lines := ByteLines(file);
    assert lines == [file] && CharLen(file[0..]) == 0;
    assert DecodeIgnore(file) == [];
    assert DecodeLine(lines, 0, Ignore) == Some([]);
    assert DecodedFrom(lines, 1, Ignore) == Some([]);
    var empty: seq<Text> := [[]];
    assert empty + [] == empty;
    assert Flatten(lines[0..]) == file + Flatten([]);
    NothingSplits(LF_CHAR);
  }

  lemma OneLine(file: Bytes)
    requires file == BOM_BYTES
    ensures ByteLines(file) == [file]
  {
    SplitWithout(LF, file);
  }
}
