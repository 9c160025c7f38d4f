/** Scanning a file in chunks for its line count, line endings and validity. */
module Scanner {
  import opened Basics
  import opened Utf8
  import opened Utf8Validator
  import opened Lines

  const CR: Byte := 0x0D

  // ---------------------------------------------------------------- what the whole file contains

  predicate CrLfAt(s: Bytes, i: int) { 0 <= i < |s| - 1 && s[i] == 0x0D && s[i + 1] == 0x0A }
  predicate BareLfAt(s: Bytes, i: int) { 0 <= i < |s| && s[i] == 0x0A && (i == 0 || s[i - 1] != 0x0D) }
  /** A carriage return followed by something else than a line feed. */
  predicate BrokenCrAt(s: Bytes, i: int) { 0 <= i < |s| - 1 && s[i] == 0x0D && s[i + 1] != 0x0A }
  predicate LoneCrAt(s: Bytes, i: int) { 0 <= i < |s| && s[i] == 0x0D && (i + 1 < |s| ==> s[i + 1] != 0x0A) }

  predicate EndsWith(s: Bytes, b: Byte) { s != [] && s[|s| - 1] == b }

  class LineEndingFlags {
    var hasCrLf: bool
    var hasLf: bool
    var hasLoneCr: bool

    constructor ()
      ensures !hasCrLf && !hasLf && !hasLoneCr
    {
      hasCrLf, hasLf, hasLoneCr := false, false, false;
    }

    /** The flags describe `s`, a final carriage return still undecided. */
    ghost predicate Describes(s: Bytes)
      reads this
    {
      && (hasCrLf <==> exists i :: CrLfAt(s, i))
      && (hasLf <==> exists i :: BareLfAt(s, i))
      && (hasLoneCr <==> exists i :: BrokenCrAt(s, i))
    }

    method Update(chunk: Bytes, before: bool, ghost seen: Bytes) returns (prevWasCr: bool)
      requires Describes(seen) && before == EndsWith(seen, CR)
      modifies this
      ensures Describes(seen + chunk) && prevWasCr == EndsWith(seen + chunk, CR)
    {
      hide CrLfAt, BareLfAt, BrokenCrAt;
      prevWasCr := before;
      assert seen + chunk[..0] == seen;
      for i := 0 to |chunk|
        invariant Describes(seen + chunk[..i]) && prevWasCr == EndsWith(seen + chunk[..i], CR)
      {
        var byte := chunk[i];
        OccurrencesSnoc(seen + chunk[..i], byte);
        assert seen + chunk[..i + 1] == seen + chunk[..i] + [byte];
        if byte == CR {
          if prevWasCr { hasLoneCr := true; }
          prevWasCr := true;
        } else if byte == LF {
          if prevWasCr {
            hasCrLf := true;
          } else {
            hasLf := true;
          }
          prevWasCr := false;
        } else {
          if prevWasCr { hasLoneCr := true; }
          prevWasCr := false;
        }
      }
      assert chunk[..|chunk|] == chunk;
    }
  }

  lemma OccurrencesSnoc(s: Bytes, b: Byte)
    ensures (exists i :: CrLfAt(s + [b], i)) <==> (exists i :: CrLfAt(s, i)) || (EndsWith(s, CR) && b == LF)
    ensures (exists i :: BareLfAt(s + [b], i)) <==> (exists i :: BareLfAt(s, i)) || (!EndsWith(s, CR) && b == LF)
    ensures (exists i :: BrokenCrAt(s + [b], i)) <==> (exists i :: BrokenCrAt(s, i)) || (EndsWith(s, CR) && b != LF)
  {
    var t := s + [b];
    forall i | 0 <= i < |s| ensures t[i] == s[i] {}
    if i :| CrLfAt(s, i) { assert CrLfAt(t, i); }
    if i :| BareLfAt(s, i) { assert BareLfAt(t, i); }
    if i :| BrokenCrAt(s, i) { assert BrokenCrAt(t, i); }
    if i :| CrLfAt(t, i) { assert CrLfAt(s, i) || i == |s| - 1; }
    if i :| BareLfAt(t, i) { assert BareLfAt(s, i) || i == |s|; }
    if i :| BrokenCrAt(t, i) { assert BrokenCrAt(s, i) || i == |s| - 1; }
    if EndsWith(s, CR) {
      if b == LF { assert CrLfAt(t, |s| - 1); } else { assert BrokenCrAt(t, |s| - 1); }
    } else if b == LF {
      assert BareLfAt(t, |s|);
    }
  }

  datatype TextFileScan = TextFileScan(totalLines: nat, endsWithNewline: bool, hasNul: bool,
                                       hasCrLf: bool, hasLf: bool, hasLoneCr: bool)

  /** Scanning gives the facts of the whole file, however it was cut, and fails exactly on malformed UTF-8. */
  method ScanTextFile(chunks: seq<Bytes>) returns (result: Option<TextFileScan>)
    requires forall c :: c in chunks ==> c != []
    ensures var file := Flatten(chunks);
            && (result.Some? <==> WellFormed(file))
            && (result.Some? ==>
                  var scan := result.value;
                  && scan.totalLines == |ByteLines(file)|
                  && (scan.endsWithNewline <==> file != [] && file[|file| - 1] == 0x0A)
                  && (scan.hasNul <==> 0 in file)
                  && (scan.hasCrLf <==> exists i :: CrLfAt(file, i))
                  && (scan.hasLf <==> exists i :: BareLfAt(file, i))
                  && (scan.hasLoneCr <==> exists i :: LoneCrAt(file, i)))
  {
    hide AcceptAll, Accept, CharLen, IsChar, WellFormed, SplitAfter, Count;
    var flags := new LineEndingFlags();
    var validator := new Validator();
    var totalLines, totalBytes := 0, 0;
    var endsWithNewline, hasNul, prevWasCr := false, false, false;
    ghost var seen := [];
    NothingCounted(LF);
    assert Flatten<Byte>([]) == [];
    for c := 0 to |chunks|
      invariant fresh(flags) && fresh(validator)
      invariant seen == Flatten(chunks[..c])
      invariant validator.Valid() && validator.seen == seen
      invariant flags.Describes(seen) && prevWasCr == EndsWith(seen, CR)
      invariant totalBytes == |seen| && totalLines == Count(LF, seen)
      invariant (hasNul <==> 0 in seen) && endsWithNewline == EndsWith(seen, LF)
    {
      var chunk := chunks[c];
      assert chunk in chunks;
      var valid := validator.Write(chunk);
      if !valid {
        FlattenCut(chunks, c);
        ThrowIsFinal(seen + chunk, Flatten(chunks[c + 1..]));
        return None;
      }
      FlattenTake(chunks, c);
      var lfs, nul := CountBytes(chunk, seen);
      totalLines := totalLines + lfs;
      hasNul := hasNul || nul;
      prevWasCr := flags.Update(chunk, prevWasCr, seen);
      totalBytes := totalBytes + |chunk|;
      endsWithNewline := chunk[|chunk| - 1] == LF;
      seen := seen + chunk;
    }
    assert chunks[..|chunks|] == chunks;
    FinalCr(seen);
    if prevWasCr { flags.hasLoneCr := true; }
    var valid := validator.End();
    if !valid { return None; }
    if totalBytes > 0 && !endsWithNewline { totalLines := totalLines + 1; }
    LineCount<Byte>(LF, seen);
    return Some(TextFileScan(totalLines, endsWithNewline, hasNul, flags.hasCrLf, flags.hasLf, flags.hasLoneCr));
  }

  /** The per-byte part of the loop: line feeds and NULs of one chunk. */
  method CountBytes(chunk: Bytes, ghost seen: Bytes) returns (lfs: nat, nul: bool)
    ensures Count(LF, seen + chunk) == Count(LF, seen) + lfs
    ensures 0 in seen + chunk <==> 0 in seen || nul
  {
    lfs, nul := 0, false;
    assert seen + chunk[..0] == seen;
    for i := 0 to |chunk|
      invariant Count(LF, seen + chunk[..i]) == Count(LF, seen) + lfs
      invariant 0 in seen + chunk[..i] <==> 0 in seen || nul
    {
      var byte := chunk[i];
      assert seen + chunk[..i + 1] == (seen + chunk[..i]) + [byte];
      CountSnoc(LF, seen + chunk[..i], byte);
      if byte == 0 { nul := true; }
      if byte == LF { lfs := lfs + 1; }
    }
    assert chunk[..|chunk|] == chunk;
  }

  lemma FinalCr(s: Bytes)
    ensures (exists i :: LoneCrAt(s, i)) <==> (exists i :: BrokenCrAt(s, i)) || EndsWith(s, CR)
  {
    if i :| BrokenCrAt(s, i) { assert LoneCrAt(s, i); }
    if EndsWith(s, CR) { assert LoneCrAt(s, |s| - 1); }
    if i :| LoneCrAt(s, i) { assert i + 1 < |s| ==> BrokenCrAt(s, i); }
  }
}
