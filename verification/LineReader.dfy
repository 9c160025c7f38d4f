/** Reading a UTF-8 file line by line from chunks, and what the lines have to do with the whole text. */
module LineReader {
  import opened Basics
  import opened Utf8
  import opened Lines

  datatype Errors = Strict | Ignore

  const BOM: Scalar := 0xFEFF

  function StripBom(text: Text, ignoreBom: bool): Text {
    if !ignoreBom && text != [] && text[0] == BOM then text[1..] else text
  }

  /** `None` is the error that strict decoding throws. */
  function DecodeTextWithErrors(data: Bytes, errors: Errors, ignoreBom: bool): Option<Text> {
    match errors
    case Strict => if WellFormed(data) then Some(StripBom(DecodeIgnore(data), ignoreBom)) else None
    case Ignore => Some(DecodeIgnore(data))
  }

  function ReadText(file: Bytes, errors: Errors): Option<Text> {
    DecodeTextWithErrors(file, errors, false)
  }

  /** The text of line `k`; only the first line of a file can lose a byte order mark. */
  function DecodeLine(lines: seq<Bytes>, k: nat, errors: Errors): Option<Text>
    requires k < |lines|
  {
    DecodeTextWithErrors(lines[k], errors, k != 0)
  }

  /** `texts` are the decoded lines `lo` to `hi`; if not `ok`, up to the first that cannot be decoded. */
  predicate Reads(lines: seq<Bytes>, errors: Errors, lo: nat, hi: nat, texts: seq<Text>, ok: bool) {
    && lo <= hi <= |lines|
    && |texts| <= hi - lo
    && (forall i :: 0 <= i < |texts| ==> DecodeLine(lines, lo + i, errors) == Some(texts[i]))
    && (if ok then |texts| == hi - lo
        else |texts| < hi - lo && DecodeLine(lines, lo + |texts|, errors).None?)
  }

  function Min(a: nat, b: nat): nat { if a < b then a else b }

  /** The first line wanted, counting from 0, and how many are wanted at most; the first is always tried. */
  function Skip(startLine: int): nat { if startLine < 1 then 0 else startLine - 1 }

  function Limit(maxLines: Option<int>): Option<nat> {
    match maxLines
    case None => None
    case Some(m) => Some(if m < 1 then 1 else m)
  }

  function RangeStart(total: nat, startLine: int): nat { Min(Skip(startLine), total) }

  function RangeEnd(total: nat, startLine: int, maxLines: Option<int>): nat {
    match Limit(maxLines)
    case None => total
    case Some(m) => Min(RangeStart(total, startLine) + m, total)
  }

  /**
   Where a range begins and ends, written out: the first line is 1, and a maximum below one still lets one
   through.
   */
  predicate IsRange(total: nat, startLine: int, maxLines: Option<int>, lo: nat, hi: nat) {
    && lo <= hi <= total
    && (if startLine < 1 then lo == 0 else if startLine - 1 <= total then lo == startLine - 1 else lo == total)
    && match maxLines
       case None => hi == total
       case Some(m) => if m < 1 then hi == (if lo == total then total else lo + 1)
                       else if lo + m <= total then hi == lo + m else hi == total
  }

  /** `texts` are the decoded lines of the range; if not `ok`, up to the first that cannot be decoded. */
  ghost predicate ReadsRange(lines: seq<Bytes>, errors: Errors, startLine: int, maxLines: Option<int>, texts: seq<Text>,
                             ok: bool) {
    exists lo, hi :: IsRange(|lines|, startLine, maxLines, lo, hi) && Reads(lines, errors, lo, hi, texts, ok)
  }

  lemma RangeBounds(total: nat, startLine: int, maxLines: Option<int>)
    ensures IsRange(total, startLine, maxLines, RangeStart(total, startLine), RangeEnd(total, startLine, maxLines))
  {
  }

  lemma RangeRead(lines: seq<Bytes>, errors: Errors, startLine: int, maxLines: Option<int>, texts: seq<Text>, ok: bool)
    requires Reads(lines, errors, RangeStart(|lines|, startLine), RangeEnd(|lines|, startLine, maxLines), texts, ok)
    ensures ReadsRange(lines, errors, startLine, maxLines, texts, ok)
  {
    hide Reads, IsRange, RangeStart, RangeEnd;
    RangeBounds(|lines|, startLine, maxLines);
  }

  /** What has been yielded once the complete lines `done` are behind. */
  predicate Progress(done: seq<Bytes>, errors: Errors, startLine: int, maxLines: Option<int>, texts: seq<Text>) {
    && |texts| == (if |done| <= Skip(startLine) then 0 else |done| - Skip(startLine))
    && (forall i :: 0 <= i < |texts| ==> DecodeLine(done, Skip(startLine) + i, errors) == Some(texts[i]))
    && (Limit(maxLines).Some? ==> |texts| < Limit(maxLines).value)
  }

  /** The next complete line: what it adds, and that stopping here or failing here is what the range asks for. */
  lemma OneMoreLine(done: seq<Bytes>, line: Bytes, after: seq<Bytes>, errors: Errors, startLine: int,
                    maxLines: Option<int>, texts: seq<Text>)
    requires Progress(done, errors, startLine, maxLines, texts)
    ensures |done| < Skip(startLine) ==> Progress(done + [line], errors, startLine, maxLines, texts)
    ensures |done| >= Skip(startLine) ==>
              var lines := done + [line] + after;
              var lo, hi := RangeStart(|lines|, startLine), RangeEnd(|lines|, startLine, maxLines);
              match DecodeTextWithErrors(line, errors, done != [])
              case None => Reads(lines, errors, lo, hi, texts, false)
              case Some(text) =>
                var texts' := texts + [text];
                if Limit(maxLines).Some? && |texts'| >= Limit(maxLines).value
                    then Reads(lines, errors, lo, hi, texts', true)
                else Progress(done + [line], errors, startLine, maxLines, texts')
  {
    hide DecodeTextWithErrors;
    var lines := done + [line] + after;
    assert forall k :: 0 <= k < |done| ==> lines[k] == done[k] && (done + [line])[k] == done[k];
    assert lines[|done|] == line && (done + [line])[|done|] == line;
    assert forall k :: 0 <= k < |done| ==> DecodeLine(lines, k, errors) == DecodeLine(done, k, errors)
                                           && DecodeLine(done + [line], k, errors) == DecodeLine(done, k, errors);
  }

  /** All lines are behind: the range has been read. */
  lemma RangeIsRead(done: seq<Bytes>, errors: Errors, startLine: int, maxLines: Option<int>, texts: seq<Text>)
    requires Progress(done, errors, startLine, maxLines, texts)
    ensures Reads(done, errors, RangeStart(|done|, startLine), RangeEnd(|done|, startLine, maxLines), texts, true)
  {
    hide DecodeTextWithErrors;
  }

  lemma SliceOfSlice<T>(s: seq<T>, a: nat, b: nat, x: nat, y: nat)
    requires a <= b <= |s| && x <= y <= b - a
    ensures s[a..b][x..y] == s[a + x..a + y]
  {
    forall i | 0 <= i < y - x ensures s[a..b][x..y][i] == s[a + x..a + y][i] {}
  }

  /** The bytes of a line, put together from what earlier chunks left and a piece of this one. */
  lemma LineFromPieces(file: Bytes, chunk: Bytes, fileOffset: nat, start: nat, lineStart: nat, end: nat,
                       pending: seq<Bytes>)
    requires fileOffset + |chunk| <= |file| && file[fileOffset..fileOffset + |chunk|] == chunk
    requires lineStart <= end <= |chunk|
    requires HoldsLineStart(file, fileOffset, start, lineStart, pending)
    ensures start <= fileOffset + end
    ensures (if pending == [] then chunk[lineStart..end] else Flatten(pending + [chunk[lineStart..end]]))
            == file[start..fileOffset + end]
  {
    hide Flatten;
    SliceOfSlice(file, fileOffset, fileOffset + |chunk|, lineStart, end);
    if pending != [] {
      FlattenSnoc(pending, chunk[lineStart..end]);
      assert file[start..fileOffset + end] == file[start..fileOffset] + file[fileOffset..fileOffset + end];
    }
  }

  /** `pending` holds what earlier chunks contain of the line that begins at `start`. */
  predicate HoldsLineStart(file: Bytes, fileOffset: nat, start: nat, lineStart: nat, pending: seq<Bytes>) {
    && fileOffset <= |file|
    && (pending == [] ==> start == fileOffset + lineStart)
    && (pending != [] ==> lineStart == 0 && start < fileOffset && Flatten(pending) == file[start..fileOffset])
  }

  /** The reader stands at `pos`: the lines `done` are behind, the current one began at `start`. */
  predicate At(file: Bytes, pos: nat, done: seq<Bytes>, start: nat) {
    && start <= pos <= |file|
    && LF !in file[start..pos]
    && ByteLines(file) == done + ByteLines(file[start..])
    && (start == 0 <==> done == [])
  }

  lemma AtStart(file: Bytes)
    ensures At(file, 0, [], 0)
  {
    hide SplitAfter;
    assert file[0..] == file;
  }

  lemma PassByte(file: Bytes, pos: nat, done: seq<Bytes>, start: nat)
    requires At(file, pos, done, start) && pos < |file| && file[pos] != LF
    ensures At(file, pos + 1, done, start)
  {
    hide SplitAfter;
    assert file[start..pos + 1] == file[start..pos] + [file[pos]];
  }

  lemma PassLine(file: Bytes, pos: nat, done: seq<Bytes>, start: nat)
    requires At(file, pos, done, start) && pos < |file| && file[pos] == LF
    ensures At(file, pos + 1, done + [file[start..pos + 1]], pos + 1)
    ensures ByteLines(file) == done + [file[start..pos + 1]] + ByteLines(file[pos + 1..])
  {
    hide SplitAfter;
    NextLine(LF, file, start, pos);
    Regroup(done, file[start..pos + 1], ByteLines(file[pos + 1..]));
  }

  lemma AtEnd(file: Bytes, done: seq<Bytes>, start: nat)
    requires At(file, |file|, done, start)
    ensures ByteLines(file) == done + if start == |file| then [] else [file[start..]]
  {
    hide SplitAfter;
    assert file[start..|file|] == file[start..];
    SplitWithout(LF, file[start..]);
  }

  /** A complete line: skipped, decoded and yielded, or the end of the reading. */
  method TakeLine(line: Bytes, lineOffset: nat, lineNo: nat, errors: Errors, startLine: int, maxLines: Option<int>,
                  texts: seq<Text>, ghost done: seq<Bytes>, ghost after: seq<Bytes>)
    returns (texts': seq<Text>, stopped: bool, ok: bool)
    requires Progress(done, errors, startLine, maxLines, texts)
    requires lineNo == |done| + 1 && (lineOffset == 0 <==> done == [])
    ensures !stopped ==> Progress(done + [line], errors, startLine, maxLines, texts')
    ensures stopped ==> var lines := done + [line] + after;
              Reads(lines, errors, RangeStart(|lines|, startLine), RangeEnd(|lines|, startLine, maxLines), texts', ok)
  {
    hide DecodeTextWithErrors, Reads, RangeStart, RangeEnd;
    OneMoreLine(done, line, after, errors, startLine, maxLines, texts);
    if lineNo < startLine { return texts, false, true; }
    var text := DecodeTextWithErrors(line, errors, lineOffset != 0);
    if text.None? { return texts, true, false; }
    texts' := texts + [text.value];
    return texts', maxLines.Some? && |texts'| >= maxLines.value, true;
  }

  /** The unterminated last line, if any. */
  method TakeRest(pending: seq<Bytes>, pendingOffset: nat, lineNo: nat, errors: Errors, startLine: int,
                  maxLines: Option<int>,
                  before: seq<Text>, ghost file: Bytes, ghost done: seq<Bytes>, ghost start: nat)
    returns (texts: seq<Text>, ok: bool)
    requires At(file, |file|, done, start) && HoldsLineStart(file, |file|, start, 0, pending)
    requires pending != [] ==> pendingOffset == start
    requires lineNo == |done| + 1 && Progress(done, errors, startLine, maxLines, before)
    ensures var lines := ByteLines(file);
            Reads(lines, errors, RangeStart(|lines|, startLine), RangeEnd(|lines|, startLine, maxLines), texts, ok)
  {
    AtEnd(file, done, start);
    PendingIsTheRest(file, start, pending);
    OffsetIsStart(file, |file|, done, start, 0, |file|, pending);
    hide Flatten, SplitAfter, DecodeTextWithErrors, Reads, Progress, RangeStart, RangeEnd, HoldsLineStart, At;
    assert done + [] == done;
    if |pending| == 0 {
      RangeIsRead(done, errors, startLine, maxLines, before);
      return before, true;
    }
    var line := Flatten(pending);
    OneMoreLine(done, line, [], errors, startLine, maxLines, before);
    assert done + [line] + [] == done + [line];
    texts := before;
    if lineNo >= startLine {
      var text := DecodeTextWithErrors(line, errors, pendingOffset != 0);
      if text.None? { return before, false; }
      texts := before + [text.value];
      if Limit(maxLines).Some? && |texts| >= Limit(maxLines).value { return texts, true; }
    }
    RangeIsRead(done + [line], errors, startLine, maxLines, texts);
    return texts, true;
  }

  lemma OffsetIsStart(file: Bytes, pos: nat, done: seq<Bytes>, start: nat, lineStart: nat, fileOffset: nat,
                      pending: seq<Bytes>)
    requires At(file, pos, done, start) && HoldsLineStart(file, fileOffset, start, lineStart, pending)
    ensures pending == [] ==> start == fileOffset + lineStart
    ensures start == 0 <==> done == []
    ensures pending != [] ==> lineStart == 0 && start < fileOffset
  {
    hide SplitAfter;
  }

  lemma OnePiece(piece: Bytes)
    ensures Flatten([piece]) == piece
  {
    assert Flatten([piece]) == piece + Flatten([]);
  }

  lemma NothingPending(file: Bytes, fileOffset: nat, start: nat, lineStart: nat)
    requires fileOffset <= |file| && start == fileOffset + lineStart
    ensures HoldsLineStart(file, fileOffset, start, lineStart, [])
  {
  }

  /** At a line feed in the chunk: the bytes of the line, where it began, and that nothing is pending behind it. */
  lemma EndLine(file: Bytes, chunk: Bytes, fileOffset: nat, done: seq<Bytes>, start: nat, lineStart: nat, i: nat,
                pending: seq<Bytes>)
    requires fileOffset + |chunk| <= |file| && file[fileOffset..fileOffset + |chunk|] == chunk
    requires lineStart <= i < |chunk| && chunk[i] == LF
    requires At(file, fileOffset + i, done, start) && HoldsLineStart(file, fileOffset, start, lineStart, pending)
    ensures var piece := chunk[lineStart..i + 1];
            var line := if pending == [] then piece else Flatten(pending + [piece]);
            && At(file, fileOffset + i + 1, done + [line], fileOffset + i + 1)
            && ByteLines(file) == done + [line] + ByteLines(file[fileOffset + i + 1..])
    ensures HoldsLineStart(file, fileOffset, fileOffset + i + 1, i + 1, [])
    ensures pending == [] ==> start == fileOffset + lineStart
    ensures start == 0 <==> done == []
  {
    hide Flatten, SplitAfter, At, HoldsLineStart, ByteLines;
    LineFromPieces(file, chunk, fileOffset, start, lineStart, i + 1, pending);
    OffsetIsStart(file, fileOffset + i, done, start, lineStart, fileOffset, pending);
    assert file[fileOffset + i] == file[fileOffset..fileOffset + |chunk|][i];
    PassLine(file, fileOffset + i, done, start);
    NothingPending(file, fileOffset, fileOffset + i + 1, i + 1);
  }

  /** At the end of a chunk: its unfinished line joins what is pending. */
  lemma CarryOver(file: Bytes, chunk: Bytes, fileOffset: nat, done: seq<Bytes>, start: nat, lineStart: nat,
                  pending: seq<Bytes>)
    requires fileOffset + |chunk| <= |file| && file[fileOffset..fileOffset + |chunk|] == chunk
    requires lineStart <= |chunk| && chunk != []
    requires At(file, fileOffset + |chunk|, done, start) && HoldsLineStart(file, fileOffset, start, lineStart, pending)
    ensures HoldsLineStart(file, fileOffset + |chunk|, start, 0,
                           if lineStart < |chunk| then pending + [chunk[lineStart..]] else pending)
    ensures pending == [] ==> start == fileOffset + lineStart
  {
    hide Flatten, SplitAfter;
    LineFromPieces(file, chunk, fileOffset, start, lineStart, |chunk|, pending);
    OffsetIsStart(file, fileOffset + |chunk|, done, start, lineStart, fileOffset, pending);
    var tail := chunk[lineStart..];
    assert chunk[lineStart..|chunk|] == tail;
    if pending == [] {
      OnePiece(tail);
      assert pending + [tail] == [tail];
    }
  }

  /** _readUtf8Lines: the result depends on the file's bytes only, not on how they were cut into chunks. */
  method ReadUtf8Lines(chunks: seq<Bytes>, errors: Errors, startLine: int, maxLines: Option<int>)
    returns (texts: seq<Text>, ok: bool)
    requires forall c :: c in chunks ==> c != []
    ensures ReadsRange(ByteLines(Flatten(chunks)), errors, startLine, maxLines, texts, ok)
  {
    hide Flatten, SplitAfter, DecodeTextWithErrors, Reads, ReadsRange, Progress, RangeStart, RangeEnd, HoldsLineStart,
          At;
    ghost var file := Flatten(chunks);
    ghost var done: seq<Bytes>, start: nat := [], 0;  // complete lines behind, and where the current line begins
    var pending: seq<Bytes> := [];
    var pendingOffset: nat, fileOffset: nat := 0, 0;
    var lineNo := 1;
    texts := [];
    StartReading(chunks, errors, startLine, maxLines);
    for c := 0 to |chunks|
      invariant fileOffset == |Flatten(chunks[..c])| <= |file|
      invariant At(file, fileOffset, done, start)
      invariant HoldsLineStart(file, fileOffset, start, 0, pending)
      invariant pending != [] ==> pendingOffset == start
      invariant lineNo == |done| + 1 && Progress(done, errors, startLine, maxLines, texts)
    {
      var chunk := chunks[c];
      assert chunk in chunks;
      ChunkInFile(chunks, c);
      var lineStart := 0;
      for i := 0 to |chunk|
        invariant lineStart <= i
        invariant At(file, fileOffset + i, done, start)
        invariant HoldsLineStart(file, fileOffset, start, lineStart, pending)
        invariant pending != [] ==> pendingOffset == start
        invariant lineNo == |done| + 1 && Progress(done, errors, startLine, maxLines, texts)
      {
        assert chunk[i] == file[fileOffset + i];
        if chunk[i] != LF {
          PassByte(file, fileOffset + i, done, start);
          continue;
        }
        var piece := chunk[lineStart..i + 1];
        var lineOffset := if pending == [] then fileOffset + lineStart else pendingOffset;
        var line := if pending == [] then piece else Flatten(pending + [piece]);
        EndLine(file, chunk, fileOffset, done, start, lineStart, i, pending);
        var stopped, fine;
        texts, stopped, fine := TakeLine(line, lineOffset, lineNo, errors, startLine, maxLines, texts, done,
                                         ByteLines(file[fileOffset + i + 1..]));
        if stopped {
          RangeRead(ByteLines(file), errors, startLine, maxLines, texts, fine);
          return texts, fine;
        }
        done, start := done + [line], fileOffset + i + 1;
        pending := [];
        lineStart := i + 1;
        lineNo := lineNo + 1;
      }
      CarryOver(file, chunk, fileOffset, done, start, lineStart, pending);
      if lineStart < |chunk| {
        if pending == [] { pendingOffset := fileOffset + lineStart; }
        pending := pending + [chunk[lineStart..]];
      }
      fileOffset := fileOffset + |chunk|;
    }
    assert chunks[..|chunks|] == chunks;
    texts, ok := TakeRest(pending, pendingOffset, lineNo, errors, startLine, maxLines, texts, file, done, start);
    RangeRead(ByteLines(file), errors, startLine, maxLines, texts, ok);
  }

  lemma PendingIsTheRest(file: Bytes, start: nat, pending: seq<Bytes>)
    requires start <= |file| && HoldsLineStart(file, |file|, start, 0, pending)
    ensures pending == [] <==> start == |file|
    ensures pending != [] ==> Flatten(pending) == file[start..]
  {
  }

  lemma StartReading(chunks: seq<Bytes>, errors: Errors, startLine: int, maxLines: Option<int>)
    ensures Flatten(chunks[..0]) == []
    ensures At(Flatten(chunks), 0, [], 0) && HoldsLineStart(Flatten(chunks), 0, 0, 0, [])
    ensures Progress([], errors, startLine, maxLines, [])
  {
    AtStart(Flatten(chunks));
  }

  lemma ChunkInFile(chunks: seq<Bytes>, c: nat)
    requires c < |chunks|
    ensures var file, before := Flatten(chunks), |Flatten(chunks[..c])|;
            && before + |chunks[c]| <= |file|
            && file[before..before + |chunks[c]|] == chunks[c]
            && |Flatten(chunks[..c + 1])| == before + |chunks[c]|
  {
    hide Flatten;
    FlattenCut(chunks, c);
    FlattenTake(chunks, c);
  }
}
