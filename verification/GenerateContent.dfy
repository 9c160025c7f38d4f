/** Where one content part of the assembled message ends and the next begins. */
module GenerateContent {
  import opened Basics
  import opened MessageParts
  import opened Generate
  import opened GenerateProofs

  /** A text behind a text, or anything thought behind an unsigned thought. */
  predicate Joins(part: Part, next: Part) {
    (part.Text? && next.Text?) || (part.Think? && part.encrypted.None? && next.Think?)
  }

  /** Which parts merge, and into what, written out. */
  lemma MergedIff(target: Part, source: Part)
    ensures Merged(target, source).Some? <==> Joins(target, source) || (target.ToolCall? && source.ToolCallPart?)
    ensures target.Text? && source.Text? ==> Merged(target, source) == Some(Text(target.text + source.text))
    ensures target.Think? && Joins(target, source) ==>
              Merged(target, source) == Some(Think(target.think + source.think, source.encrypted))
  {
  }

  function TextsOf(parts: seq<Part>): seq<string> {
    seq(|parts|, i requires 0 <= i < |parts| =>
      if parts[i].Text? then parts[i].text else if parts[i].Think? then parts[i].think else "")
  }

  /** The part stands for a run of streamed parts, each joining the next: their texts, and the signature of the last. */
  predicate IsBlock(part: Part, run: seq<Part>) {
    && run != []
    && (forall i :: 0 <= i < |run| - 1 ==> Joins(run[i], run[i + 1]))
    && match run[|run| - 1]
       case Text(_) => part == Text(Flatten(TextsOf(run)))
       case Think(_, encrypted) => part == Think(Flatten(TextsOf(run)), encrypted)
       case _ => run == [part]
  }

  /** The parts are blocks that together make up the stream, and no block joins the next. */
  predicate IsBlocks(parts: seq<Part>, runs: seq<seq<Part>>, stream: seq<Part>) {
    && |parts| == |runs| && Flatten(runs) == stream
    && (forall i :: 0 <= i < |parts| ==> IsBlock(parts[i], runs[i]))
    && (forall i :: 0 <= i < |parts| - 1 ==> !Joins(parts[i], parts[i + 1]))
  }

  lemma BlockGrows(part: Part, run: seq<Part>, next: Part)
    requires IsBlock(part, run) && Joins(part, next)
    ensures IsBlock(Merged(part, next).value, run + [next])
  {
    var grown := run + [next];
    MergedIff(part, next);
    assert TextsOf(grown) == TextsOf(run) + [if next.Text? then next.text else next.think];
    FlattenSnoc(TextsOf(run), if next.Text? then next.text else next.think);
    assert forall i :: 0 <= i < |run| ==> grown[i] == run[i];
    assert Joins(run[|run| - 1], next);
    hide Flatten, Merged;
  }

  lemma BlockStarts(part: Part)
    requires IsContentPart(part)
    ensures IsBlock(part, [part])
  {
    assert TextsOf([part]) == [if part.Text? then part.text else if part.Think? then part.think else ""];
    FlattenSnoc([], TextsOf([part])[0]);
    assert Flatten<char>([]) + TextsOf([part])[0] == TextsOf([part])[0];
  }

  lemma BlocksGrow(parts: seq<Part>, runs: seq<seq<Part>>, stream: seq<Part>, next: Part)
    requires IsBlocks(parts, runs, stream) && parts != [] && Joins(parts[|parts| - 1], next)
    ensures var n := |parts| - 1;
            Merged(parts[n], next).Some?
            && IsBlocks(parts[..n] + [Merged(parts[n], next).value], runs[..n] + [runs[n] + [next]], stream + [next])
  {
    var n := |parts| - 1;
    BlockGrows(parts[n], runs[n], next);
    MergedIff(parts[n], next);
    var grown := Merged(parts[n], next).value;
    assert forall p :: Joins(p, grown) == Joins(p, parts[n]);
    hide Flatten, Merged, IsBlock, Joins;
    var parts', runs' := parts[..n] + [grown], runs[..n] + [runs[n] + [next]];
    LastRunGrows(runs, n, next);
    forall i | 0 <= i < |parts'| ensures IsBlock(parts'[i], runs'[i]) {
      if i < n { assert IsBlock(parts[i], runs[i]); }
    }
    forall i | 0 <= i < |parts'| - 1 ensures !Joins(parts'[i], parts'[i + 1]) {
      assert !Joins(parts[i], parts[i + 1]);
    }
  }

  lemma LastRunGrows(runs: seq<seq<Part>>, n: nat, next: Part)
    requires n == |runs| - 1
    ensures Flatten(runs[..n] + [runs[n] + [next]]) == Flatten(runs) + [next]
  {
    hide Flatten;
    assert runs == runs[..n] + [runs[n]];
    FlattenSnoc(runs[..n], runs[n]);
    FlattenSnoc(runs[..n], runs[n] + [next]);
    assert Flatten(runs[..n]) + (runs[n] + [next]) == (Flatten(runs[..n]) + runs[n]) + [next];
  }

  lemma BlocksAdd(parts: seq<Part>, runs: seq<seq<Part>>, stream: seq<Part>, next: Part)
    requires IsBlocks(parts, runs, stream) && IsContentPart(next)
    requires parts != [] ==> !Joins(parts[|parts| - 1], next)
    ensures IsBlocks(parts + [next], runs + [[next]], stream + [next])
  {
    BlockStarts(next);
    FlattenSnoc(runs, [next]);
    hide Flatten, IsBlock;
  }

  // ---------------------------------------------------------------- segments

  /** Parts cut content where they are headers, or deltas that belong to no header. */
  predicate Cuts(front: seq<Part>, part: Part) {
    part.ToolCall? || (part.ToolCallPart? && HeaderFor(front, part).None?)
  }

  /** The content of a stream, cut there; a delta that has a header leaves no trace. */
  function Segments(stream: seq<Part>): (segments: seq<seq<Part>>)
    ensures segments != []
  {
    if stream == [] then [[]]
    else
      var front, last := stream[..|stream| - 1], stream[|stream| - 1];
      var before := Segments(front);
      if Cuts(front, last) then before + [[]]
      else if last.ToolCallPart? then before
      else before[..|before| - 1] + [before[|before| - 1] + [last]]
  }

  /** Each segment becomes its own blocks, and these one after the other are the content. */
  ghost predicate Assembles(segments: seq<seq<Part>>, content: seq<Part>, pieces: seq<seq<Part>>,
                            runs: seq<seq<seq<Part>>>) {
    && |pieces| == |segments| == |runs| && content == Flatten(pieces)
    && forall i :: 0 <= i < |segments| ==> IsBlocks(pieces[i], runs[i], segments[i])
  }

  predicate ContentPending(a: Assembly) { a.pending.Some? && IsContentPart(a.pending.value) }

  /** The assembly goes on in the last segment: it has parts exactly while content is pending. */
  ghost predicate At(a: Assembly, segments: seq<seq<Part>>, pieces: seq<seq<Part>>, runs: seq<seq<seq<Part>>>) {
    && segments != [] && Assembles(segments, Gathered(a), pieces, runs)
    && (ContentPending(a) <==> pieces[|pieces| - 1] != [])
  }

  lemma LastPiece(pieces: seq<seq<Part>>, last: seq<Part>)
    requires pieces != []
    ensures var n := |pieces| - 1;
            && Flatten(pieces) == Flatten(pieces[..n]) + pieces[n]
            && Flatten(pieces[..n] + [last]) == Flatten(pieces[..n]) + last
  {
    hide Flatten;
    var n := |pieces| - 1;
    assert pieces == pieces[..n] + [pieces[n]];
    FlattenSnoc(pieces[..n], pieces[n]);
    FlattenSnoc(pieces[..n], last);
  }

  /** A content part joins the pending content if it can, and is gathered behind everything otherwise. */
  lemma TakesContent(a: Assembly, part: Part)
    requires IsContentPart(part)
    ensures var g, a' := Gathered(a), Take(a, part);
            && ContentPending(a')
            && if ContentPending(a) && Joins(a.pending.value, part)
               then g != [] && g[|g| - 1] == a.pending.value && Merged(a.pending.value, part).Some?
                    && Gathered(a') == g[..|g| - 1] + [Merged(a.pending.value, part).value]
               else Gathered(a') == g + [part]
  {
    if a.pending.Some? {
      MergedIff(a.pending.value, part);
      assert ContentPending(a) ==> Gathered(a)[..|a.content|] == a.content;
    }
    assert a.content + [] == a.content;
  }

  lemma FrontOfConcat(a: seq<Part>, b: seq<Part>)
    requires b != []
    ensures (a + b)[..|a + b| - 1] == a + b[..|b| - 1] && (a + b)[|a + b| - 1] == b[|b| - 1]
  {
  }

  /** The last piece is replaced by one for a segment that has grown. */
  lemma ReplaceLast(segments: seq<seq<Part>>, content: seq<Part>, pieces: seq<seq<Part>>, runs: seq<seq<seq<Part>>>,
                    segment: seq<Part>, piece: seq<Part>, run: seq<seq<Part>>)
    requires segments != [] && Assembles(segments, content, pieces, runs) && IsBlocks(piece, run, segment)
    ensures var n := |segments| - 1;
            Assembles(segments[..n] + [segment], Flatten(pieces[..n]) + piece, pieces[..n] + [piece], runs[..n] + [run])
  {
    hide IsBlocks, Flatten;
    LastPiece(pieces, piece);
  }

  /** One more part for the last piece: the blocks it has then, and the content in front of them. */
  lemma PieceGrows(a: Assembly, before: seq<Part>, piece: seq<Part>, run: seq<seq<Part>>, segment: seq<Part>,
                   part: Part)
    returns (grown: seq<Part>, rerun: seq<seq<Part>>)
    requires IsContentPart(part) && IsBlocks(piece, run, segment) && Gathered(a) == before + piece
    requires ContentPending(a) <==> piece != []
    ensures IsBlocks(grown, rerun, segment + [part]) && grown != []
    ensures Gathered(Take(a, part)) == before + grown && ContentPending(Take(a, part))
  {
    TakesContent(a, part);
    if ContentPending(a) { PendingIsLast(a); }
    hide Take, Gathered, Merged, Flatten, IsBlock, ContentPending, Joins;
    if piece != [] { FrontOfConcat(before, piece); }
    if piece != [] && Joins(a.pending.value, part) {
      var last := Merged(a.pending.value, part).value;
      grown, rerun := piece[..|piece| - 1] + [last], run[..|piece| - 1] + [run[|piece| - 1] + [part]];
      BlocksGrow(piece, run, segment, part);
      assert before + piece[..|piece| - 1] + [last] == before + grown;
    } else {
      grown, rerun := piece + [part], run + [[part]];
      BlocksAdd(piece, run, segment, part);
      assert before + piece + [part] == before + grown;
    }
  }

  lemma ContentStep(a: Assembly, segments: seq<seq<Part>>, pieces: seq<seq<Part>>, runs: seq<seq<seq<Part>>>,
                    part: Part)
    returns (pieces': seq<seq<Part>>, runs': seq<seq<seq<Part>>>)
    requires IsContentPart(part) && At(a, segments, pieces, runs)
    ensures var n := |segments| - 1;
            At(Take(a, part), segments[..n] + [segments[n] + [part]], pieces', runs')
  {
    var n := |segments| - 1;
    hide Take, Gathered, Flatten, IsBlocks, ContentPending;
    LastPiece(pieces, []);
    assert IsBlocks(pieces[n], runs[n], segments[n]);
    var grown, rerun := PieceGrows(a, Flatten(pieces[..n]), pieces[n], runs[n], segments[n], part);
    ReplaceLast(segments, Gathered(a), pieces, runs, segments[n] + [part], grown, rerun);
    pieces', runs' := pieces[..n] + [grown], runs[..n] + [rerun];
    hide Assembles;
  }

  lemma PendingIsLast(a: Assembly)
    requires ContentPending(a)
    ensures Gathered(a) != [] && Gathered(a)[|Gathered(a)| - 1] == a.pending.value
  {
  }

  /** What cuts leaves the gathered content alone and is pending itself, until something replaces it. */
  lemma CutStep(a: Assembly, segments: seq<seq<Part>>, pieces: seq<seq<Part>>, runs: seq<seq<seq<Part>>>, part: Part)
    requires At(a, segments, pieces, runs) && !IsContentPart(part)
    requires Take(a, part) == Finish(a).(pending := Some(part))
    ensures At(Take(a, part), segments + [[]], pieces + [[]], runs + [[]])
  {
    FinishGathers(a);
    FlattenSnoc(pieces, []);
    assert Flatten(pieces) + [] == Flatten(pieces);
    assert Gathered(Take(a, part)) == Gathered(a) by { assert Finish(a).content + [] == Finish(a).content; }
    NothingInBlocks();
    hide Take, Finish, Gathered, Flatten, IsBlocks;
  }

  lemma NothingInBlocks()
    ensures IsBlocks([], [], [])
  {
  }

  lemma FinishGathers(a: Assembly)
    ensures Finish(a).content == Gathered(a)
  {
    assert a.content + [] == a.content;
  }

  /** A delta that finds its call moves no content. */
  lemma DeltaLeavesContent(headers: seq<Part>, a: Assembly, delta: Part)
    requires delta.ToolCallPart? && TableOk(headers, a) && |Opened(a)| == |headers|
    ensures Target(headers, CallPending(a), delta).Some? ==>
              Gathered(Take(a, delta)) == Gathered(a) && (ContentPending(Take(a, delta)) <==> ContentPending(a))
    ensures Target(headers, CallPending(a), delta).None? ==> Take(a, delta) == Finish(a).(pending := Some(delta))
  {
    if delta.index.Some? { KnownIndex(headers, a, delta.index.value); }
    hide Position;
    if !IsRouted(a, delta) && !CallPending(a) { OrphanIsDropped(a, delta); }
  }

  lemma {:induction false} StreamInSegments(stream: seq<Part>)
    returns (pieces: seq<seq<Part>>, runs: seq<seq<seq<Part>>>)
    ensures At(Run(stream), Segments(stream), pieces, runs)
  {
    if stream == [] {
      pieces, runs := [[]], [[]];
      NothingInBlocks();
      assert Flatten<Part>([[]]) == [] + Flatten([]);
    } else {
      var front, last := stream[..|stream| - 1], stream[|stream| - 1];
      pieces, runs := StreamInSegments(front);
      RunRoutes(front);
      assert HeaderOpen(front) <==> CallPending(Run(front));
      hide Take, At, TableOk, HeadersOf, Position, HeaderOpen, CallPending, CallsComplete;
      if IsContentPart(last) {
        pieces, runs := ContentStep(Run(front), Segments(front), pieces, runs, last);
      } else if last.ToolCall? {
        TakeMoves(Run(front), last);
        CutStep(Run(front), Segments(front), pieces, runs, last);
        pieces, runs := pieces + [[]], runs + [[]];
      } else {
        CallsOpened(front);
        DeltaLeavesContent(HeadersOf(front), Run(front), last);
        if HeaderFor(front, last).None? {
          CutStep(Run(front), Segments(front), pieces, runs, last);
          pieces, runs := pieces + [[]], runs + [[]];
        } else {
          StillThere(Run(front), Take(Run(front), last), Segments(front), pieces, runs);
        }
      }
    }
  }

  lemma CallsOpened(stream: seq<Part>)
    requires Routed(stream, Run(stream))
    ensures |Opened(Run(stream))| == |HeadersOf(stream)|
  {
  }

  lemma StillThere(a: Assembly, b: Assembly, segments: seq<seq<Part>>, pieces: seq<seq<Part>>,
                   runs: seq<seq<seq<Part>>>)
    requires At(a, segments, pieces, runs) && Gathered(a) == Gathered(b) && (ContentPending(a) <==> ContentPending(b))
    ensures At(b, segments, pieces, runs)
  {
  }

  /**
   For every stream: between two cuts the runs of joining parts become one part each, as long as they can be, and
   nothing joins across a cut.  Headers cut, and so do deltas that belong to no header; other deltas do not.
   */
  lemma ContentComesInBlocks(stream: seq<Part>)
    ensures exists pieces, runs :: Assembles(Segments(stream), Finish(Run(stream)).content, pieces, runs)
  {
    FinishGathers(Run(stream));
    var pieces, runs := StreamInSegments(stream);
    hide Run, Finish, Assembles, Segments;
  }
}
