/** What the assembled message means in terms of the stream alone. */
module GenerateProofs {
  import opened Basics
  import opened MessageParts
  import opened Generate

  // ---------------------------------------------------------------- projections of a stream

  /** The parts that are neither a tool call nor a delta of one. */
  function ContentOf(stream: seq<Part>): seq<Part> {
    if stream == [] then []
    else
      var front, last := stream[..|stream| - 1], stream[|stream| - 1];
      if last.ToolCall? || last.ToolCallPart? then ContentOf(front) else ContentOf(front) + [last]
  }

  function HeadersOf(stream: seq<Part>): (headers: seq<Part>)
    ensures forall h :: h in headers ==> h.ToolCall?
  {
    if stream == [] then []
    else HeadersOf(stream[..|stream| - 1]) + if stream[|stream| - 1].ToolCall? then [stream[|stream| - 1]] else []
  }

  /** The latest header that carries the index, by its position. */
  function Position(headers: seq<Part>, index: Option<Index>): (k: Option<nat>)
    requires forall h :: h in headers ==> h.ToolCall?
    ensures k.Some? ==> k.value < |headers| && headers[k.value].streamIndex == index
    ensures k.None? ==> forall h :: h in headers ==> h.streamIndex != index
  {
    if headers == [] then None
    else if headers[|headers| - 1].streamIndex == index then Some(|headers| - 1)
    else Position(headers[..|headers| - 1], index)
  }

  /** Since the last header there have been deltas only. */
  predicate HeaderOpen(stream: seq<Part>) {
    stream != [] &&
    var last := stream[|stream| - 1];
    last.ToolCall? || (last.ToolCallPart? && HeaderOpen(stream[..|stream| - 1]))
  }

  /**
   The header a delta behind `stream` belongs to: the latest that carries its index; if none does, or it has no
   index, the header still open; and if none is open, no header at all.
   */
  function HeaderFor(stream: seq<Part>, delta: Part): (k: Option<nat>)
    requires delta.ToolCallPart?
    ensures k.Some? ==> k.value < |HeadersOf(stream)|
  {
    var headers := HeadersOf(stream);
    if delta.index.Some? && Position(headers, delta.index).Some? then Position(headers, delta.index)
    else if HeaderOpen(stream) then
      OpenHasHeader(stream);
      Some(|headers| - 1)
    else None
  }

  lemma {:induction false} OpenHasHeader(stream: seq<Part>)
    requires HeaderOpen(stream)
    ensures HeadersOf(stream) != []
  {
    if !stream[|stream| - 1].ToolCall? { OpenHasHeader(stream[..|stream| - 1]); }
  }

  /** The argument deltas that belong to header number `k`, in stream order. */
  function DeltasOf(stream: seq<Part>, k: nat): seq<Option<string>> {
    if stream == [] then []
    else
      var front, last := stream[..|stream| - 1], stream[|stream| - 1];
      if last.ToolCallPart? && HeaderFor(front, last) == Some(k) then DeltasOf(front, k) + [last.argumentsPart]
      else DeltasOf(front, k)
  }

  /** The texts that deltas carry, in order. */
  function Texts(deltas: seq<Option<string>>): seq<string> {
    if deltas == [] then []
    else
      var front, last := deltas[..|deltas| - 1], deltas[|deltas| - 1];
      Texts(front) + if last.Some? then [last.value] else []
  }

  /** Arguments and all texts behind one another; none only if there is nothing at all. */
  function Joined(arguments: Option<string>, deltas: seq<Option<string>>): Option<string> {
    if arguments.None? && (forall d :: d in deltas ==> d.None?) then None
    else Some(arguments.GetOr("") + Flatten(Texts(deltas)))
  }

  lemma {:induction false} NoTexts(deltas: seq<Option<string>>)
    requires forall d :: d in deltas ==> d.None?
    ensures Texts(deltas) == []
  {
    if deltas != [] {
      assert deltas[|deltas| - 1] in deltas;
      NoTexts(deltas[..|deltas| - 1]);
    }
  }

  /** One more delta is appended. */
  lemma JoinedSnoc(arguments: Option<string>, deltas: seq<Option<string>>, delta: Option<string>)
    ensures Joined(arguments, deltas + [delta]) == AppendArguments(Joined(arguments, deltas), delta)
  {
    var more, own, texts := deltas + [delta], arguments.GetOr(""), Texts(deltas);
    assert more[..|deltas|] == deltas;
    assert forall d :: d in more <==> d in deltas || d == delta;
    if delta.Some? {
      assert delta in more;
      FlattenSnoc(texts, delta.value);
      assert own + (Flatten(texts) + delta.value) == (own + Flatten(texts)) + delta.value;
      assert Joined(arguments, more) == Some((own + Flatten(texts)) + delta.value);
      if Joined(arguments, deltas).None? {
        NoTexts(deltas);
        assert (own + Flatten(texts)) + delta.value == delta.value;
      }
    } else {
      assert Texts(more) == texts + [] == texts;
      assert (forall d :: d in more ==> d.None?) <==> (forall d :: d in deltas ==> d.None?);
    }
  }

  lemma JoinedNothing(arguments: Option<string>)
    ensures Joined(arguments, []) == arguments
  {
    assert arguments.GetOr("") + "" == arguments.GetOr("");
  }

  /** The call a header should become: itself followed by exactly its own deltas. */
  function Completed(stream: seq<Part>, k: nat): StoredCall
    requires k < |HeadersOf(stream)|
  {
    var header := HeadersOf(stream)[k];
    StoredCall(header.id, header.name, Joined(header.arguments, DeltasOf(stream, k)), header.extras)
  }

  // ---------------------------------------------------------------- content conservation

  /** Content that has reached the message or is still pending. */
  function Gathered(a: Assembly): seq<Part> {
    a.content + if a.pending.Some? && IsContentPart(a.pending.value) then [a.pending.value] else []
  }

  /** One step either leaves the gathered content, adds the part, or merges it into the last one. */
  predicate Grows(g: seq<Part>, part: Part, g': seq<Part>) {
    if !IsContentPart(part) then g' == g
    else
      || g' == g + [part]
      || (g != [] && Merged(g[|g| - 1], part).Some? && g' == g[..|g| - 1] + [Merged(g[|g| - 1], part).value])
  }

  lemma TakeGrows(a: Assembly, part: Part)
    ensures Grows(Gathered(a), part, Gathered(Take(a, part)))
  {
    if !IsRouted(a, part) && a.pending.Some? {
      var p := a.pending.value;
      if IsContentPart(p) {
        assert Gathered(a)[..|a.content|] == a.content;
      } else {
        assert Gathered(a) == a.content;
      }
    }
  }

  predicate HasThink(parts: seq<Part>) { exists p :: p in parts && p.Think? }

  lemma HasThinkSnoc(parts: seq<Part>, p: Part)
    ensures HasThink(parts + [p]) <==> HasThink(parts) || p.Think?
  {
    assert forall q :: q in parts + [p] <==> q in parts || q == p;
  }

  lemma GrowthKeeps(g: seq<Part>, part: Part, g': seq<Part>)
    requires Grows(g, part, g') && IsContentPart(part)
    ensures Atoms(g') == Atoms(g) + PartAtoms(part)
    ensures g' != []
    ensures HasThink(g') <==> HasThink(g) || part.Think?
  {
    if g' == g + [part] {
      AtomsSnoc(g, part);
      HasThinkSnoc(g, part);
    } else {
      var front, last := g[..|g| - 1], g[|g| - 1];
      assert g == front + [last];
      MergeKeepsAtoms(last, part);
      AtomsSnoc(front, Merged(last, part).value);
      HasThinkSnoc(front, last);
      HasThinkSnoc(front, Merged(last, part).value);
    }
  }

  /** Two part lists with the same characters, both or neither empty, both or neither thinking. */
  predicate SameContent(g: seq<Part>, h: seq<Part>) {
    Atoms(g) == Atoms(h) && (g == [] <==> h == []) && (HasThink(g) <==> HasThink(h))
  }

  lemma TakeGathers(a: Assembly, part: Part, content: seq<Part>)
    requires SameContent(Gathered(a), content)
    ensures SameContent(Gathered(Take(a, part)), content + if IsContentPart(part) then [part] else [])
  {
    var g, g' := Gathered(a), Gathered(Take(a, part));
    TakeGrows(a, part);
    if IsContentPart(part) {
      GrowthKeeps(g, part, g');
      GrowthKeeps(content, part, content + [part]);
    } else {
      assert content + [] == content;
    }
  }

  lemma {:induction false} RunGathers(stream: seq<Part>)
    ensures SameContent(Gathered(Run(stream)), ContentOf(stream))
  {
    if stream != [] {
      var front, last := stream[..|stream| - 1], stream[|stream| - 1];
      hide Take, SameContent, Gathered;
      RunGathers(front);
      TakeGathers(Run(front), last, ContentOf(front));
      assert ContentOf(front) + [] == ContentOf(front);
    }
  }

  /**
   For every stream whatsoever the final content, read character by character, is the stream's own
   content: nothing is lost, duplicated or reordered, and every thinking signature still closes the
   text of the part that carried it.
   */
  lemma ContentIsConserved(stream: seq<Part>)
    ensures Atoms(Finish(Run(stream)).content) == Atoms(ContentOf(stream))
  {
    RunGathers(stream);
    assert Finish(Run(stream)).content == Gathered(Run(stream));
  }

  // ---------------------------------------------------------------- one call per header

  /** The call stands under the header's id and name and keeps its extras. */
  predicate IsCallOf(call: StoredCall, header: Part)
    requires header.ToolCall?
  {
    call.id == header.id && call.name == header.name && call.extras == header.extras
  }

  function Opened(a: Assembly): seq<StoredCall> {
    a.calls + if a.pending.Some? && a.pending.value.ToolCall? then [Store(a.pending.value)] else []
  }

  /** Every header opens one call, at the end; a delta changes at most the arguments of one. */
  lemma TakeOpens(a: Assembly, part: Part)
    ensures var o, o' := Opened(a), Opened(Take(a, part));
            && |o'| == |o| + (if part.ToolCall? then 1 else 0)
            && (forall i, h: Part :: 0 <= i < |o| && h.ToolCall? ==> (IsCallOf(o'[i], h) <==> IsCallOf(o[i], h)))
            && (part.ToolCall? ==> IsCallOf(o'[|o|], part))
  {
  }

  lemma {:induction false} RunOpens(stream: seq<Part>)
    ensures |Opened(Run(stream))| == |HeadersOf(stream)|
    ensures forall i :: 0 <= i < |HeadersOf(stream)| ==> IsCallOf(Opened(Run(stream))[i], HeadersOf(stream)[i])
  {
    if stream != [] {
      RunOpens(stream[..|stream| - 1]);
      TakeOpens(Run(stream[..|stream| - 1]), stream[|stream| - 1]);
      hide Take, Opened, IsCallOf;
    }
  }

  lemma FinishStoresOpened(a: Assembly)
    ensures Finish(a).calls == Opened(a)
  {
    assert a.calls + [] == a.calls;
  }

  /** One tool call per header, in order and under the header's id, name and extras, whatever the deltas do. */
  lemma OneCallPerHeader(stream: seq<Part>)
    ensures |Finish(Run(stream)).calls| == |HeadersOf(stream)|
    ensures forall i :: 0 <= i < |HeadersOf(stream)| ==>
              var call, header := Finish(Run(stream)).calls[i], HeadersOf(stream)[i];
              call.id == header.id && call.name == header.name && call.extras == header.extras
    ensures Finish(Run(stream)).calls == Opened(Run(stream))
  {
    hide Finish, Run, Opened;
    FinishStoresOpened(Run(stream));
    RunOpens(stream);
  }

  // ---------------------------------------------------------------- when generation fails

  /** White space and line terminators, as ECMAScript's `trim` removes them. */
  const WHITE_SPACE := {
    0x09, 0x0A, 0x0B, 0x0C, 0x0D, 0x20, 0xA0, 0x1680, 0x2000, 0x2001, 0x2002, 0x2003, 0x2004, 0x2005, 0x2006, 0x2007,
    0x2008, 0x2009, 0x200A, 0x2028, 0x2029, 0x202F, 0x205F, 0x3000, 0xFEFF
  }

  predicate Blank(text: string) { forall c :: c in text ==> c as int in WHITE_SPACE }

  lemma BlankIffListed(c: char)
    ensures IsBlank(c) <==> c as int in WHITE_SPACE
  {
  }

  predicate ShowsText(atoms: seq<Atom>) { exists i :: 0 <= i < |atoms| && atoms[i].TextChar? && !IsBlank(atoms[i].c) }

  lemma {:induction false} VisibleTextInAtoms(parts: seq<Part>)
    ensures (exists p :: p in parts && HasVisibleText(p)) <==> ShowsText(Atoms(parts))
  {
    if parts != [] {
      var front, last := parts[..|parts| - 1], parts[|parts| - 1];
      VisibleTextInAtoms(front);
      assert parts == front + [last];
      assert forall q :: q in parts <==> q in front || q == last;
      VisibleTextInPart(last);
      ShowsTextConcat(Atoms(front), PartAtoms(last));
    }
  }

  lemma VisibleTextInPart(part: Part)
    ensures HasVisibleText(part) <==> ShowsText(PartAtoms(part))
  {
    var atoms := PartAtoms(part);
    if part.Text? {
      forall i | 0 <= i < |part.text| ensures atoms[i] == TextChar(part.text[i]) {}
    } else if part.Think? {
      forall i | 0 <= i < |atoms| ensures !atoms[i].TextChar? {}
    }
  }

  lemma ShowsTextConcat(a: seq<Atom>, b: seq<Atom>)
    ensures ShowsText(a + b) <==> ShowsText(a) || ShowsText(b)
  {
    if ShowsText(a) {
      var i :| 0 <= i < |a| && a[i].TextChar? && !IsBlank(a[i].c);
      assert (a + b)[i] == a[i];
    }
    if ShowsText(b) {
      var i :| 0 <= i < |b| && b[i].TextChar? && !IsBlank(b[i].c);
      assert (a + b)[|a| + i] == b[i];
    }
  }

  /** What the projections keep of a stream's emptiness, thinking and visible text. */
  predicate SameKinds(stream: seq<Part>, content: seq<Part>, headers: seq<Part>) {
    && (content == [] <==> forall p :: p in stream ==> p.ToolCall? || p.ToolCallPart?)
    && (headers == [] <==> forall p :: p in stream ==> !p.ToolCall?)
    && (HasThink(content) <==> exists p :: p in stream && p.Think?)
    && ((exists p :: p in content && HasVisibleText(p)) <==> exists p :: p in stream && HasVisibleText(p))
  }

  lemma SameKindsSnoc(stream: seq<Part>, content: seq<Part>, headers: seq<Part>, part: Part)
    requires SameKinds(stream, content, headers)
    ensures SameKinds(stream + [part],
                      if part.ToolCall? || part.ToolCallPart? then content else content + [part],
                      if part.ToolCall? then headers + [part] else headers)
  {
    HiddenUnlessText(part);
    hide HasVisibleText;
    forall p ensures p in stream + [part] <==> p in stream || p == part {}
    forall p ensures p in content + [part] <==> p in content || p == part {}
  }

  lemma {:induction false} ContentOfStream(stream: seq<Part>)
    ensures SameKinds(stream, ContentOf(stream), HeadersOf(stream))
  {
    if stream == [] {
    } else {
      var front, last := stream[..|stream| - 1], stream[|stream| - 1];
      ContentOfStream(front);
      assert stream == front + [last];
      assert HeadersOf(front) + [] == HeadersOf(front);
      SameKindsSnoc(front, ContentOf(front), HeadersOf(front), last);
      hide SameKinds;
    }
  }

  lemma HiddenUnlessText(part: Part)
    ensures HasVisibleText(part) ==> part.Text?
  {
  }

  /**
   Whether generation fails is decided by the stream alone, never by how its parts were merged: empty when all it
   has are deltas of tool calls; think-only when it thinks, opens no tool call, and whatever text it has is white
   space.
   */
  lemma FailureDependsOnStreamOnly(stream: seq<Part>)
    ensures Verdict(Finish(Run(stream))) == Some(EmptyResponse) <==> forall p :: p in stream ==> p.ToolCallPart?
    ensures Verdict(Finish(Run(stream))) == Some(ThinkOnlyResponse) <==>
              && (exists p :: p in stream && p.Think?)
              && (forall p :: p in stream ==> !p.ToolCall?)
              && (forall p :: p in stream && p.Text? ==> Blank(p.text))
  {
    var a := Finish(Run(stream));
    hide Blank, Run, Atoms, ShowsText;
    RunGathers(stream);
    assert a.content == Gathered(Run(stream));
    OneCallPerHeader(stream);
    VisibleTextInAtoms(a.content);
    assert (exists p :: p in a.content && p.Think?) <==> HasThink(a.content);
    ContentOfStream(stream);
    VisibleTextInAtoms(ContentOf(stream));
    VisibleIff(stream);
    hide Finish, HasVisibleText, ContentOf, HeadersOf, Gathered;
  }

  lemma VisibleIff(stream: seq<Part>)
    ensures (exists p :: p in stream && HasVisibleText(p))
            <==> !(forall p :: p in stream && p.Text? ==> Blank(p.text))
  {
    forall p: Part | p.Text? ensures HasVisibleText(p) <==> !Blank(p.text) { TextVisibleIff(p); }
    hide *;
    forall p: Part ensures HasVisibleText(p) ==> p.Text? { HiddenUnlessText(p); }
  }

  lemma TextVisibleIff(part: Part)
    requires part.Text?
    ensures HasVisibleText(part) <==> !Blank(part.text)
  {
    forall c: char ensures IsBlank(c) <==> c as int in WHITE_SPACE { BlankIffListed(c); }
    hide WHITE_SPACE, IsBlank;
    if Blank(part.text) {
      forall i | 0 <= i < |part.text| ensures part.text[i] in part.text && IsBlank(part.text[i]) {}
    } else {
      var c :| c in part.text && c as int !in WHITE_SPACE;
      var i :| 0 <= i < |part.text| && part.text[i] == c;
    }
  }

  // ---------------------------------------------------------------- parallel routing

  lemma {:induction false} NoDeltasAhead(stream: seq<Part>, k: nat)
    requires k >= |HeadersOf(stream)|
    ensures DeltasOf(stream, k) == []
  {
    if stream != [] { NoDeltasAhead(stream[..|stream| - 1], k); }
  }

  /** What one more part does to the headers and to what belongs to each. */
  lemma Snoc(stream: seq<Part>, part: Part)
    ensures HeadersOf(stream + [part]) == if part.ToolCall? then HeadersOf(stream) + [part] else HeadersOf(stream)
    ensures HeaderOpen(stream + [part]) <==> part.ToolCall? || (part.ToolCallPart? && HeaderOpen(stream))
    ensures forall k: nat :: DeltasOf(stream + [part], k) ==
              if part.ToolCallPart? && HeaderFor(stream, part) == Some(k)
                  then DeltasOf(stream, k) + [part.argumentsPart]
              else DeltasOf(stream, k)
  {
    assert (stream + [part])[..|stream|] == stream;
    hide HeaderFor;
    assert HeadersOf(stream) + [] == HeadersOf(stream);
  }

  /** What one more part does to the call a header should become. */
  lemma CompletedSnoc(stream: seq<Part>, part: Part, k: nat)
    requires k < |HeadersOf(stream)|
    ensures k < |HeadersOf(stream + [part])|
    ensures var c := Completed(stream, k);
            Completed(stream + [part], k)
              == if part.ToolCallPart? && HeaderFor(stream, part) == Some(k)
                 then c.(arguments := AppendArguments(c.arguments, part.argumentsPart)) else c
  {
    Snoc(stream, part);
    hide HeaderFor, HeadersOf, DeltasOf, HeaderOpen, Joined;
    if part.ToolCallPart? { JoinedSnoc(HeadersOf(stream)[k].arguments, DeltasOf(stream, k), part.argumentsPart); }
  }

  /** The opened calls are the completed headers. */
  predicate CallsComplete(stream: seq<Part>, calls: seq<StoredCall>) {
    && |calls| == |HeadersOf(stream)|
    && forall i :: 0 <= i < |calls| ==> calls[i] == Completed(stream, i)
  }

  /**
   The routing table finds, for each index, the latest stored call with it, and the call still pending is the
   last header.
   */
  ghost predicate TableOk(headers: seq<Part>, a: Assembly) {
    && |a.calls| <= |headers|
    && (forall h :: h in headers ==> h.ToolCall?)
    && (forall index :: Finds(a.routes, index) == Position(headers[..|a.calls|], Some(index)))
    && (CallPending(a) ==>
          |a.calls| + 1 == |headers| && a.pending.value.streamIndex == headers[|a.calls|].streamIndex)
    && (!CallPending(a) ==> |a.calls| == |headers|)
  }

  function Finds(routes: map<Index, nat>, index: Index): Option<nat> {
    if index in routes then Some(routes[index]) else None
  }

  lemma PositionSnoc(headers: seq<Part>, header: Part, index: Option<Index>)
    requires header.ToolCall? && forall h :: h in headers ==> h.ToolCall?
    ensures Position(headers + [header], index)
            == if header.streamIndex == index then Some(|headers|) else Position(headers, index)
  {
    assert (headers + [header])[..|headers|] == headers;
  }

  predicate CallPending(a: Assembly) { a.pending.Some? && a.pending.value.ToolCall? }

  ghost predicate Routed(stream: seq<Part>, a: Assembly) {
    CallsComplete(stream, Opened(a)) && TableOk(HeadersOf(stream), a) && (HeaderOpen(stream) <==> CallPending(a))
  }

  /** What is pending is flushed: the calls opened so far are then all stored, and the table knows them. */
  lemma FlushPending(headers: seq<Part>, a: Assembly)
    requires TableOk(headers, a)
    ensures TableOk(headers, Finish(a).(pending := None)) && Finish(a).calls == Opened(a)
  {
    FinishStoresOpened(a);
    var flushed := Finish(a).(pending := None);
    if CallPending(a) {
      var n := |a.calls|;
      assert headers == headers[..n] + [headers[n]];
      assert headers[..|flushed.calls|] == headers;
      forall index ensures Finds(flushed.routes, index) == Position(headers, Some(index)) {
        PositionSnoc(headers[..n], headers[n], Some(index));
        assert Finds(a.routes, index) == Position(headers[..n], Some(index));
      }
    } else {
      assert flushed.calls == a.calls && flushed.routes == a.routes;
    }
  }

  /** Content and headers either merge into pending content or replace what is pending. */
  lemma TakeMoves(a: Assembly, part: Part)
    requires !part.ToolCallPart?
    ensures || Take(a, part) == Finish(a).(pending := Some(part))
            || (a.pending.Some? && IsContentPart(a.pending.value) && IsContentPart(part)
                && Take(a, part).pending.Some? && IsContentPart(Take(a, part).pending.value)
                && Take(a, part) == a.(pending := Take(a, part).pending))
  {
  }

  lemma ContentOpensNothing(headers: seq<Part>, part: Part, a: Assembly)
    requires IsContentPart(part) && TableOk(headers, a)
    ensures Opened(Take(a, part)) == Opened(a) && TableOk(headers, Take(a, part)) && !CallPending(Take(a, part))
  {
    TakeMoves(a, part);
    FlushPending(headers, a);
    hide Take, Finish, Flush, Merged;
  }

  lemma TakeContent(stream: seq<Part>, part: Part, a: Assembly)
    requires IsContentPart(part) && Routed(stream, a)
    ensures Routed(stream + [part], Take(a, part))
  {
    var headers := HeadersOf(stream);
    hide TableOk, Take, Opened, Completed, HeadersOf, HeaderOpen, CallPending, HeaderFor;
    Snoc(stream, part);
    ContentOpensNothing(headers, part, a);
    forall i | 0 <= i < |headers| ensures Completed(stream + [part], i) == Completed(stream, i) {
      CompletedSnoc(stream, part, i);
    }
  }

  lemma NewHeaderIsBare(stream: seq<Part>, part: Part)
    requires part.ToolCall?
    ensures var k := |HeadersOf(stream)|;
            k < |HeadersOf(stream + [part])| && Completed(stream + [part], k) == Store(part)
  {
    Snoc(stream, part);
    NoDeltasAhead(stream, |HeadersOf(stream)|);
    hide HeadersOf, DeltasOf, HeaderOpen, HeaderFor, Joined;
    JoinedNothing(part.arguments);
  }

  lemma TakeHeader(stream: seq<Part>, part: Part, a: Assembly)
    requires part.ToolCall? && Routed(stream, a)
    ensures Routed(stream + [part], Take(a, part))
  {
    var headers := HeadersOf(stream);
    hide TableOk, Take, Opened, Completed, Store, HeadersOf, HeaderOpen, CallPending, HeaderFor, Position;
    Snoc(stream, part);
    NewHeaderIsBare(stream, part);
    HeaderIsNew(headers, part, a);
    forall i | 0 <= i < |headers| ensures Completed(stream + [part], i) == Completed(stream, i) {
      CompletedSnoc(stream, part, i);
    }
  }

  lemma HeaderIsNew(headers: seq<Part>, part: Part, a: Assembly)
    requires part.ToolCall? && TableOk(headers, a)
    ensures TableOk(headers + [part], Take(a, part)) && CallPending(Take(a, part))
    ensures Opened(Take(a, part)) == Opened(a) + [Store(part)]
  {
    TakeMoves(a, part);
    FlushPending(headers, a);
    hide Take, Finish, Flush, Merged, Position;
    assert Opened(a) == Finish(a).calls;
    var n := |Finish(a).calls|;
    assert n == |headers| && (headers + [part])[..n] == headers == headers[..n];
  }

  /** A delta whose index the table knows goes there, unless the pending call has that index. */
  lemma KnownIndex(headers: seq<Part>, a: Assembly, index: Index)
    requires TableOk(headers, a)
    ensures var k := Position(headers, Some(index));
            if IsPendingToolCallAtIndex(a.pending, index) then k == Some(|headers| - 1)
            else Finds(a.routes, index) == k && (k.Some? ==> k.value < |a.calls|)
  {
    var n := |a.calls|;
    if CallPending(a) {
      assert headers == headers[..n] + [headers[n]];
      PositionSnoc(headers[..n], headers[n], Some(index));
    } else {
      assert headers[..n] == headers;
    }
    hide Position;
    assert Finds(a.routes, index) == Position(headers[..n], Some(index));
  }

  /** Where a delta belongs, by the headers and whether the last of them is still open. */
  function Target(headers: seq<Part>, open: bool, delta: Part): (k: Option<nat>)
    requires delta.ToolCallPart? && (open ==> headers != []) && forall h :: h in headers ==> h.ToolCall?
    ensures k.Some? ==> k.value < |headers|
  {
    if delta.index.Some? && Position(headers, delta.index).Some? then Position(headers, delta.index)
    else if open then Some(|headers| - 1) else None
  }

  /** A delta grows the opened call it belongs to, or none. */
  lemma DeltaFindsItsCall(headers: seq<Part>, part: Part, a: Assembly)
    requires part.ToolCallPart? && TableOk(headers, a) && |Opened(a)| == |headers|
    ensures TableOk(headers, Take(a, part)) && (CallPending(Take(a, part)) <==> CallPending(a))
    ensures var k := Target(headers, CallPending(a), part);
            Opened(Take(a, part)) ==
              if k.None? then Opened(a)
              else
                var grown := AppendArguments(Opened(a)[k.value].arguments, part.argumentsPart);
                Opened(a)[k.value := Opened(a)[k.value].(arguments := grown)]
  {
    if part.index.Some? { KnownIndex(headers, a, part.index.value); }
    hide Position, Flush;
    if IsRouted(a, part) {
      var at := a.routes[part.index.value];
      assert Finds(a.routes, part.index.value) == Some(at);
    } else if CallPending(a) {
    } else {
      OrphanIsDropped(a, part);
    }
  }

  /** A delta that is not routed and finds no call pending moves what is pending into the message. */
  lemma OrphanIsDropped(a: Assembly, part: Part)
    requires part.ToolCallPart? && !IsRouted(a, part) && !CallPending(a)
    ensures Take(a, part) == Finish(a).(pending := Some(part))
    ensures Finish(a).calls == a.calls && Finish(a).routes == a.routes
  {
  }

  lemma TakeDelta(stream: seq<Part>, part: Part, a: Assembly)
    requires part.ToolCallPart? && Routed(stream, a)
    ensures Routed(stream + [part], Take(a, part))
  {
    var headers, k := HeadersOf(stream), HeaderFor(stream, part);
    assert k == Target(headers, CallPending(a), part);
    hide TableOk, Take, Opened, Completed, Store, HeadersOf, HeaderOpen, CallPending, Position, Target;
    Snoc(stream, part);
    DeltaFindsItsCall(headers, part, a);
    hide HeaderFor;
    forall i | 0 <= i < |headers| ensures Opened(Take(a, part))[i] == Completed(stream + [part], i) {
      CompletedSnoc(stream, part, i);
    }
  }

  lemma {:induction false} RunRoutes(stream: seq<Part>)
    ensures Routed(stream, Run(stream))
  {
    if stream != [] {
      var front, last := stream[..|stream| - 1], stream[|stream| - 1];
      RunRoutes(front);
      assert stream == front + [last];
      hide Routed, HeaderFor, Position, Take;
      if IsContentPart(last) { TakeContent(front, last, Run(front)); }
      else if last.ToolCall? { TakeHeader(front, last, Run(front)); }
      else { TakeDelta(front, last, Run(front)); }
    }
  }

  lemma CallsAreCompleted(stream: seq<Part>)
    ensures CallsComplete(stream, Finish(Run(stream)).calls)
  {
    RunRoutes(stream);
    FinishStoresOpened(Run(stream));
    hide CallsComplete, TableOk, HeaderOpen, CallPending, Finish, Run, Opened;
  }

  /**
   Parallel routing: for every stream the final tool calls are the headers in order, each with its own arguments
   and behind them the texts of exactly its own deltas in order, or without arguments if all of these are missing.
   */
  lemma ParallelRouting(stream: seq<Part>)
    ensures var calls, headers := Finish(Run(stream)).calls, HeadersOf(stream);
            && |calls| == |headers|
            && forall i :: 0 <= i < |headers| ==>
                 var deltas := DeltasOf(stream, i);
                 && calls[i].id == headers[i].id && calls[i].name == headers[i].name
                 && calls[i].extras == headers[i].extras
                 && (calls[i].arguments.None? <==>
                       headers[i].arguments.None? && forall d :: d in deltas ==> d.None?)
                 && (calls[i].arguments.Some? ==>
                       calls[i].arguments.value == headers[i].arguments.GetOr("") + Flatten(Texts(deltas)))
  {
    hide Finish, Run, HeadersOf, DeltasOf, Texts, Flatten;
    CallsAreCompleted(stream);
  }

  /** Two streams that agree on their headers and on each call's own deltas give the same tool calls. */
  lemma InterleavingDoesNotMatter(s: seq<Part>, t: seq<Part>)
    requires HeadersOf(s) == HeadersOf(t)
    requires forall k: nat :: k < |HeadersOf(s)| ==> DeltasOf(s, k) == DeltasOf(t, k)
    ensures Finish(Run(s)).calls == Finish(Run(t)).calls
  {
    hide Finish, Run, HeadersOf, DeltasOf, Joined;
    CallsAreCompleted(s);
    CallsAreCompleted(t);
  }
}
