/** How the decoded lines of a file relate to its whole text. */
module LineProofs {
  import opened Basics
  import opened Utf8
  import opened Lines
  import opened LineReader

  /** The texts of the lines from `lo` on, if all of them can be decoded. */
  function DecodedFrom(lines: seq<Bytes>, lo: nat, errors: Errors): Option<seq<Text>>
    requires lo <= |lines|
    decreases |lines| - lo
  {
    if lo == |lines| then Some([])
    else match (DecodeLine(lines, lo, errors), DecodedFrom(lines, lo + 1, errors))
         case (Some(text), Some(rest)) => Some([text] + rest)
         case _ => None
  }

  lemma {:induction false} ReadsIsDecodedFrom(lines: seq<Bytes>, errors: Errors, lo: nat, texts: seq<Text>, ok: bool)
    requires Reads(lines, errors, lo, |lines|, texts, ok)
    ensures DecodedFrom(lines, lo, errors) == if ok then Some(texts) else None
    decreases |lines| - lo
  {
    hide DecodeTextWithErrors;
    if texts != [] {
      assert DecodeLine(lines, lo + 0, errors) == Some(texts[0]);
      forall i | 0 <= i < |texts| - 1 ensures DecodeLine(lines, lo + 1 + i, errors) == Some(texts[1..][i]) {
        assert DecodeLine(lines, lo + (i + 1), errors) == Some(texts[i + 1]);
      }
      ReadsIsDecodedFrom(lines, errors, lo + 1, texts[1..], ok);
      assert texts == [texts[0]] + texts[1..];
    }
  }

  /** A range of lines is the matching slice of all the lines, whenever those can all be read. */
  lemma RangeIsSlice(lines: seq<Bytes>, errors: Errors, all: seq<Text>, lo: nat, hi: nat, texts: seq<Text>, ok: bool)
    requires Reads(lines, errors, 0, |lines|, all, true)
    requires Reads(lines, errors, lo, hi, texts, ok)
    ensures ok && texts == all[lo..hi]
  {
    hide DecodeTextWithErrors;
    forall k | 0 <= k < |lines| ensures DecodeLine(lines, k, errors) == Some(all[k]) {
      assert DecodeLine(lines, 0 + k, errors) == Some(all[k]);
    }
  }

  /**
   Reading from line `startLine`, at most `maxLines` of them, against a full read: line 1 is the first; a start
   below 1 means line 1, one behind the end nothing; a maximum below one still lets one line through.
   */
  lemma RangeMeans(lines: seq<Bytes>, errors: Errors, startLine: int, maxLines: Option<int>, all: seq<Text>,
                   texts: seq<Text>, ok: bool)
    requires Reads(lines, errors, 0, |lines|, all, true)
    requires ReadsRange(lines, errors, startLine, maxLines, texts, ok)
    ensures ok
    ensures startLine <= 1 && maxLines == None ==> texts == all
    ensures 1 <= startLine <= |all| && maxLines == None ==> texts == all[startLine - 1..]
    ensures startLine > |all| ==> texts == []
    ensures 1 <= startLine <= |all| && maxLines.Some? && 1 <= maxLines.value <= |all| - (startLine - 1) ==>
              texts == all[startLine - 1..startLine - 1 + maxLines.value]
    ensures 1 <= startLine <= |all| && maxLines.Some? && maxLines.value > |all| - (startLine - 1) ==>
              texts == all[startLine - 1..]
    ensures 1 <= startLine <= |all| && maxLines.Some? && maxLines.value < 1 ==> texts == [all[startLine - 1]]
    ensures startLine < 1 && maxLines.Some? && all != [] ==>
              texts == if maxLines.value < 1 then all[..1] else if maxLines.value <= |all| then all[..maxLines.value]
                       else all
  {
    hide DecodeTextWithErrors;
    var lo, hi :| IsRange(|lines|, startLine, maxLines, lo, hi) && Reads(lines, errors, lo, hi, texts, ok);
    RangeIsSlice(lines, errors, all, lo, hi, texts, ok);
    hide Reads;
  }

  predicate AllLines(lines: seq<Bytes>) {
    && (forall i :: 0 <= i < |lines| ==> IsLine(LF, lines[i]))
    && forall i :: 0 <= i < |lines| - 1 ==> IsEnded(LF, lines[i])
  }

  lemma ByteLinesAreLines(file: Bytes)
    ensures AllLines(ByteLines(file))
  {
    hide SplitAfter, Flatten;
    forall i | 0 <= i < |ByteLines(file)|
      ensures IsLine(LF, ByteLines(file)[i]) && (i < |ByteLines(file)| - 1 ==> IsEnded(LF, ByteLines(file)[i]))
    {
      SplitMakesLines(LF, file, i);
    }
  }

  /**
   Lines as bytes and as scalars: they make up the whole, and U+000A stands at the end of each but perhaps
   the last.
   */
  lemma LinesEndInLineFeeds(file: Bytes, text: Text)
    ensures var lines := ByteLines(file);
            && Flatten(lines) == file
            && (forall i :: 0 <= i < |lines| ==> lines[i] != [] && 0x0A !in lines[i][..|lines[i]| - 1])
            && (forall i :: 0 <= i < |lines| - 1 ==> lines[i][|lines[i]| - 1] == 0x0A)
    ensures var lines := TextLines(text);
            && Flatten(lines) == text
            && (forall i :: 0 <= i < |lines| ==> lines[i] != [] && 0x0A !in lines[i][..|lines[i]| - 1])
            && (forall i :: 0 <= i < |lines| - 1 ==> lines[i][|lines[i]| - 1] == 0x0A)
  {
    var lines, texts := ByteLines(file), TextLines(text);
    forall i | 0 <= i < |lines| ensures IsLine(LF, lines[i]) && (i < |lines| - 1 ==> IsEnded(LF, lines[i])) {
      SplitMakesLines(LF, file, i);
    }
    forall i | 0 <= i < |texts|
        ensures IsLine(LF_CHAR, texts[i]) && (i < |texts| - 1 ==> IsEnded(LF_CHAR, texts[i])) {
      SplitMakesLines(LF_CHAR, text, i);
    }
    hide SplitAfter, Flatten;
  }

  const BOM_BYTES: Bytes := [0xEF, 0xBB, 0xBF]

  lemma EncodedBom()
    ensures EncodeAll([BOM]) == BOM_BYTES
  {
    assert EncodeAll([BOM]) == Encode(BOM) + EncodeAll([]);
  }

  /** A text begins with the mark exactly if its encoding does. */
  lemma BomInEncoding(text: Text)
    ensures BOM_BYTES <= EncodeAll(text) <==> text != [] && text[0] == BOM
    ensures text != [] && text[0] == BOM ==> EncodeAll(text) == BOM_BYTES + EncodeAll(text[1..])
  {
    EncodedBom();
    assert Encode(BOM) + EncodeAll([]) == Encode(BOM);
    if text != [] {
      EncodeCons(text[0], text[1..]);
      assert text == [text[0]] + text[1..];
      var rest := EncodeAll(text[1..]);
      if BOM_BYTES <= EncodeAll(text) {
        EncodeOneRoundTrip(text[0], rest);
        EncodeOneRoundTrip(BOM, EncodeAll(text)[3..]);
        hide Encode, EncodeAll, CharLen, DecodeChar, IsChar;
        assert EncodeAll(text) == Encode(BOM) + EncodeAll(text)[3..];
      }
    }
  }

  /**
   What strict decoding gives: nothing exactly if the bytes encode no text; else the text they encode, without a
   byte order mark at the front if that is to be stripped.
   */
  lemma StrictTextMeans(data: Bytes, ignoreBom: bool)
    ensures var result := DecodeTextWithErrors(data, Strict, ignoreBom);
            && (result.None? <==> forall text :: EncodeAll(text) != data)
            && (result.Some? ==> data == if !ignoreBom && [0xEF, 0xBB, 0xBF] <= data
                                         then [0xEF, 0xBB, 0xBF] + EncodeAll(result.value) else EncodeAll(result.value))
  {
    hide Encode, EncodeAll, DecodeIgnore, WellFormed, CharLen, IsChar;
    WellFormedIsTheGrammar(data);
    if WellFormed(data) {
      ReencodeWellFormed(data);
      BomInEncoding(DecodeIgnore(data));
    }
  }

  /** The whole text of a file, and the text of one of its lines: only the file's own first bytes can be its mark. */
  lemma TextsMean(file: Bytes, lines: seq<Bytes>, k: nat)
    requires k < |lines|
    ensures ReadText(file, Strict).None? <==> forall text :: EncodeAll(text) != file
    ensures ReadText(file, Strict).Some? ==>
              var text := ReadText(file, Strict).value;
              file == if [0xEF, 0xBB, 0xBF] <= file then [0xEF, 0xBB, 0xBF] + EncodeAll(text) else EncodeAll(text)
    ensures DecodeLine(lines, k, Strict).None? <==> forall text :: EncodeAll(text) != lines[k]
    ensures DecodeLine(lines, k, Strict).Some? ==>
              var text := DecodeLine(lines, k, Strict).value;
              lines[k] == if k == 0 && [0xEF, 0xBB, 0xBF] <= lines[k] then [0xEF, 0xBB, 0xBF] + EncodeAll(text)
                          else EncodeAll(text)
    ensures ReadText(file, Ignore) == Some(DecodeIgnore(file))
    ensures DecodeLine(lines, k, Ignore) == Some(DecodeIgnore(lines[k]))
  {
    StrictTextMeans(file, false);
    StrictTextMeans(lines[k], k != 0);
    hide DecodeIgnore, EncodeAll, WellFormed, StripBom;
  }

  lemma NonemptyWellFormed(s: Bytes)
    requires s != [] && WellFormed(s)
    ensures DecodeIgnore(s) != []
  {
    hide CharLen, IsChar, DecodeChar;
  }

  lemma StripFirstPiece(t: Text, u: Text, ignoreBom: bool)
    requires t != [] || u == []
    ensures StripBom(t + u, ignoreBom) == StripBom(t, ignoreBom) + u
  {
    if t != [] {
      assert (t + u)[1..] == t[1..] + u;
    } else {
      assert t + u == [];
    }
  }

  /** Decoding a file in two pieces, cut behind a line feed: only the first piece can start with the file's mark. */
  lemma DecodeTwoPieces(a: Bytes, b: Bytes, errors: Errors, ignoreBom: bool)
    requires a != [] && (IsEnded(LF, a) || b == [])
    ensures DecodeTextWithErrors(a + b, errors, ignoreBom)
            == match (DecodeTextWithErrors(a, errors, ignoreBom), DecodeTextWithErrors(b, errors, true))
               case (Some(t), Some(u)) => Some(t + u)
               case _ => None
  {
    hide DecodeIgnore, WellFormed, CharLen, IsChar;
    DecodeAtSafeCut(a, b);
    if WellFormed(a) {
      NonemptyWellFormed(a);
      if b == [] { NothingToDecode(); }
      StripFirstPiece(DecodeIgnore(a), DecodeIgnore(b), ignoreBom);
    }
  }

  /**
   Decoding the lines from `lo` on as one piece gives the texts of those lines, joined; it fails exactly if
   one of them does.
   */
  lemma {:induction false} DecodeJoins(lines: seq<Bytes>, lo: nat, errors: Errors)
    requires AllLines(lines) && lo <= |lines|
    ensures DecodeTextWithErrors(Flatten(lines[lo..]), errors, lo != 0)
            == match DecodedFrom(lines, lo, errors) case None => None case Some(texts) => Some(Flatten(texts))
    decreases |lines| - lo
  {
    if lo == |lines| {
      NothingToDecode();
    } else {
      DecodeJoins(lines, lo + 1, errors);
      assert lines[lo..][1..] == lines[lo + 1..];
      var line, rest := lines[lo], Flatten(lines[lo + 1..]);
      if lo + 1 == |lines| { assert lines[lo + 1..] == []; }
      DecodeTwoPieces(line, rest, errors, lo != 0);
      hide DecodeTextWithErrors;
      if DecodedFrom(lines, lo, errors).Some? {
        var t, ts := DecodeLine(lines, lo, errors).value, DecodedFrom(lines, lo + 1, errors).value;
        assert ([t] + ts)[1..] == ts;
      }
    }
  }

  /**
   Reading line by line and reading the whole text agree: one fails exactly when the other does, and
   otherwise the lines joined together are the text.
   */
  lemma LinesJoinToText(file: Bytes, errors: Errors, texts: seq<Text>, ok: bool)
    requires Reads(ByteLines(file), errors, 0, |ByteLines(file)|, texts, ok)
    ensures ok <==> ReadText(file, errors).Some?
    ensures ok ==> Flatten(texts) == ReadText(file, errors).value
  {
    hide DecodeTextWithErrors, Flatten;
    var lines := ByteLines(file);
    ByteLinesAreLines(file);
    DecodeJoins(lines, 0, errors);
    assert lines[0..] == lines;
    ReadsIsDecodedFrom(lines, errors, 0, texts, ok);
  }

  // ---------------------------------------------------------------- line feeds survive decoding

  lemma LfOnlyFromLf(s: Bytes)
    requires CharLen(s) > 0
    ensures DecodeChar(s) == LF_CHAR ==> s[0] == LF
  {
    DecodeOneRoundTrip(s);
    hide CharLen, IsChar, DecodeChar;
    if DecodeChar(s) == LF_CHAR { assert s[..CharLen(s)][0] == LF; }
  }

  lemma {:induction false} DecodeMakesNoLf(s: Bytes)
    requires LF !in s
    ensures LF_CHAR !in DecodeIgnore(s)
    decreases |s|
  {
    hide CharLen, IsChar, DecodeChar, DecodeIgnore, WellFormed;
    if s == [] {
      NothingToDecode();
    } else {
      DecodeStep(s);
      var n := CharLen(s);
      if n > 0 {
        LfOnlyFromLf(s);
        assert forall b :: b in s[n..] ==> b in s;
        DecodeMakesNoLf(s[n..]);
      } else {
        assert forall b :: b in s[1..] ==> b in s;
        DecodeMakesNoLf(s[1..]);
      }
    }
  }

  lemma DecodeLf()
    ensures DecodeIgnore([LF]) == [LF_CHAR]
  {
    NothingToDecode();
  }

  /** An ended line decodes to an ended line, an unended one to a text without a line feed. */
  lemma DecodedWhole(line: Bytes)
    requires IsLine(LF, line)
    ensures var whole := DecodeIgnore(line);
            if IsEnded(LF, line) then IsLine(LF_CHAR, whole) && IsEnded(LF_CHAR, whole) else LF_CHAR !in whole
  {
    hide DecodeIgnore, WellFormed, CharLen, IsChar;
    var body := line[..|line| - 1];
    if IsEnded(LF, line) {
      assert line == body + [LF];
      DecodeAtSafeCut(body, [LF]);
      DecodeLf();
      DecodeMakesNoLf(body);
      assert DecodeIgnore(line)[..|DecodeIgnore(line)| - 1] == DecodeIgnore(body);
    } else {
      assert line == body + [line[|line| - 1]];
      DecodeMakesNoLf(line);
    }
  }

  lemma StrippedShape(whole: Text, ignoreBom: bool)
    ensures LF_CHAR !in whole ==> LF_CHAR !in StripBom(whole, ignoreBom)
    ensures IsLine(LF_CHAR, whole) && IsEnded(LF_CHAR, whole) ==>
              IsLine(LF_CHAR, StripBom(whole, ignoreBom)) && IsEnded(LF_CHAR, StripBom(whole, ignoreBom))
  {
    if whole != [] && whole[0] == BOM {
      var stripped := whole[1..];
      if IsLine(LF_CHAR, whole) && IsEnded(LF_CHAR, whole) {
        assert stripped[..|stripped| - 1] == whole[..|whole| - 1][1..];
      }
    }
  }

  /** The same for a line of a file, which may lose the file's mark. */
  lemma DecodedLineShape(lines: seq<Bytes>, k: nat, errors: Errors)
    requires k < |lines| && IsLine(LF, lines[k]) && DecodeLine(lines, k, errors).Some?
    ensures var text := DecodeLine(lines, k, errors).value;
            if IsEnded(LF, lines[k]) then IsLine(LF_CHAR, text) && IsEnded(LF_CHAR, text) else LF_CHAR !in text
  {
    hide DecodeIgnore, WellFormed, CharLen, IsChar, StripBom, IsLine, IsEnded;
    DecodedWhole(lines[k]);
    StrippedShape(DecodeIgnore(lines[k]), k != 0);
  }

  /** An empty last text is no line. */
  function DropEmptyEnd(texts: seq<Text>): seq<Text> {
    if texts != [] && texts[|texts| - 1] == [] then texts[..|texts| - 1] else texts
  }

  lemma EndedTextInFront(t: Text, ts: seq<Text>)
    requires IsLine(LF_CHAR, t) && IsEnded(LF_CHAR, t) && TextLines(Flatten(ts)) == DropEmptyEnd(ts)
    ensures TextLines(Flatten([t] + ts)) == DropEmptyEnd([t] + ts)
  {
    hide SplitAfter;
    assert ([t] + ts)[1..] == ts;
    SplitCons(LF_CHAR, t, Flatten(ts));
    if ts != [] { assert ([t] + ts)[..|ts|] == [t] + ts[..|ts| - 1]; }
  }

  lemma LastText(t: Text)
    requires LF_CHAR !in t
    ensures TextLines(Flatten([t])) == DropEmptyEnd([t])
  {
    hide SplitAfter;
    assert Flatten([t]) == t + Flatten([]);
    SplitWithout(LF_CHAR, t);
  }

  /** Splitting the joined texts finds the line texts again, except that an empty last text is no line. */
  lemma {:induction false} SplitFindsLines(lines: seq<Bytes>, lo: nat, errors: Errors)
    requires AllLines(lines) && lo <= |lines| && DecodedFrom(lines, lo, errors).Some?
    ensures var texts := DecodedFrom(lines, lo, errors).value;
            && |texts| == |lines| - lo
            && (lo < |lines| ==> DecodeLine(lines, |lines| - 1, errors) == Some(texts[|texts| - 1]))
            && TextLines(Flatten(texts)) == DropEmptyEnd(texts)
    decreases |lines| - lo
  {
    hide SplitAfter, Flatten, TextLines, DecodeLine, IsLine, IsEnded;
    if lo == |lines| {
      NothingSplits(LF_CHAR);
      NoTexts();
    } else {
      hide DropEmptyEnd;
      SplitFindsLines(lines, lo + 1, errors);
      var t, ts := DecodeLine(lines, lo, errors).value, DecodedFrom(lines, lo + 1, errors).value;
      DecodedLineShape(lines, lo, errors);
      if IsEnded(LF, lines[lo]) {
        EndedTextInFront(t, ts);
      } else {
        assert ts == [];
        LastText(t);
        assert [t] + ts == [t];
      }
    }
  }

  lemma NoTexts()
    ensures TextLines(Flatten([])) == []
  {
  }
}
