/** The text that a client shows for a tool call, from all the notifications of one prompt. */
module AcpTurnTexts {
  import opened Basics
  import opened WireId
  import opened AcpTurn
  import opened AcpTurnProofs

  /** The events whose notifications carry content for a card: deltas, started events and results. */
  predicate IsCard(k: Kind) { IsTool(k) || k.ToolResult? }

  type CardKind = k: Kind | IsCard(k) witness ToolDelta(0, "", None, None)

  predicate IsCardInput(input: Input) { input.Deliver? && input.event.main && IsCard(input.event.kind) }

  /** Those that reached the bridge before it settled. */
  function CardEvents(active: Option<nat>, inputs: seq<Input>): (events: seq<CardKind>)
  {
    if inputs == [] then []
    else
      var front, last := inputs[..|inputs| - 1], inputs[|inputs| - 1];
      if Run(active, front).outcome.None? && IsCardInput(last) then CardEvents(active, front) + [last.event.kind]
      else CardEvents(active, front)
  }

  /** What the client shows for `id`: each create or update that carries content replaces what was there. */
  function ShownBy(sent: seq<Push>, id: string): Option<string> {
    if sent == [] then None
    else
      match sent[|sent| - 1].note
      case ToolCall(i, _, _, _, _, text) => if i == id then Some(text) else ShownBy(sent[..|sent| - 1], id)
      case ToolCallUpdate(i, _, _, _, _, Some(text)) =>
        if i == id then Some(text) else ShownBy(sent[..|sent| - 1], id)
      case _ => ShownBy(sent[..|sent| - 1], id)
  }

  // ---------------------------------------------------------------- the same from the events alone

  /** A delta or started event of the call has come. */
  predicate Seen(es: seq<CardKind>, id: string) { exists i :: 0 <= i < |es| && IsTool(es[i]) && WireOf(es[i]) == id }

  function PartOf(k: CardKind): string {
    match k
    case ToolStarted(_, _, _, _, args, _) => args
    case ToolDelta(_, _, _, part) => part.GetOr("")
    case ToolResult(_, _, _, output) => output
  }

  /** What a delta or started event finds and keeps under its provider's id. */
  function Base(front: seq<CardKind>, k: CardKind): string
    decreases |front|, 1
  {
    if k.ToolDelta? && Seen(front, WireOf(k)) then Accumulated(front, k.toolCallId).GetOr("") else ""
  }

  /** The text accumulated under a provider's id. */
  function Accumulated(es: seq<CardKind>, raw: string): Option<string>
    decreases |es|, 0
  {
    if es == [] then None
    else
      var front, last := es[..|es| - 1], es[|es| - 1];
      if last.ToolResult? || last.toolCallId != raw then Accumulated(front, raw)
      else Some(Base(front, last) + PartOf(last))
  }

  /** The text last sent for a wire id: what is accumulated by then, or the output of a result. */
  function Shown(es: seq<CardKind>, id: string): Option<string> {
    if es == [] then None
    else
      var front, last := es[..|es| - 1], es[|es| - 1];
      if WireOf(last) != id then Shown(front, id)
      else if last.ToolResult? then Some(last.output)
      else Accumulated(es, last.toolCallId)
  }

  /** The last event of the call is a result. */
  predicate Overwritten(es: seq<CardKind>, id: string) {
    es != [] &&
    var last := es[|es| - 1];
    if WireOf(last) == id then last.ToolResult? else Overwritten(es[..|es| - 1], id)
  }

  ghost predicate TextsAgree(b: Bridge, es: seq<CardKind>) {
    && (forall id :: ShownBy(b.sent, id) == Shown(es, id))
    && (b.outcome.None? ==> forall id :: id in b.created <==> Seen(es, id))
    && (b.outcome.None? ==> forall raw :: (if raw in b.args then Some(b.args[raw]) else None) == Accumulated(es, raw))
  }

  lemma SeenSnoc(es: seq<CardKind>, k: CardKind, id: string)
    ensures Seen(es + [k], id) <==> Seen(es, id) || (IsTool(k) && WireOf(k) == id)
  {
    hide AcpToolCallId;
    var all := es + [k];
    if Seen(es, id) {
      var i :| 0 <= i < |es| && IsTool(es[i]) && WireOf(es[i]) == id;
      assert all[i] == es[i];
    }
    if IsTool(k) && WireOf(k) == id { assert all[|es|] == k; }
  }

  lemma ShownBySnoc(sent: seq<Push>, p: Push, id: string)
    ensures ShownBy(sent + [p], id) ==
            if p.note.ToolCall? && p.note.id == id then Some(p.note.shown)
            else if p.note.ToolCallUpdate? && p.note.id == id && p.note.newShown.Some? then p.note.newShown
            else ShownBy(sent, id)
  {
    assert (sent + [p])[..|sent|] == sent;
  }

  lemma AccumulatedSnoc(es: seq<CardKind>, k: CardKind, raw: string)
    ensures Accumulated(es + [k], raw) ==
            if k.ToolResult? || k.toolCallId != raw then Accumulated(es, raw) else Some(Base(es, k) + PartOf(k))
  {
    hide Base, PartOf;
    assert (es + [k])[..|es|] == es;
  }

  lemma ShownSnoc(es: seq<CardKind>, k: CardKind, id: string)
    ensures Shown(es + [k], id) ==
            if WireOf(k) != id then Shown(es, id)
            else if k.ToolResult? then Some(k.output)
            else Accumulated(es + [k], k.toolCallId)
  {
    hide Accumulated, AcpToolCallId;
    assert (es + [k])[..|es|] == es;
  }

  lemma OverwrittenSnoc(es: seq<CardKind>, k: CardKind, id: string)
    ensures Overwritten(es + [k], id) <==> if WireOf(k) == id then k.ToolResult? else Overwritten(es, id)
  {
    hide AcpToolCallId;
    assert (es + [k])[..|es|] == es;
  }

  /** What a delta or started event does: under its own wire id the client now shows the text kept for its raw id. */
  ghost predicate Rewrites(b: Bridge, b': Bridge, k: CardKind)
    requires IsTool(k)
  {
    var kept := if k.ToolDelta? && WireOf(k) in b.created && k.toolCallId in b.args then b.args[k.toolCallId] else "";
    var text := kept + PartOf(k);
    && b'.outcome == b.outcome
    && b'.created == b.created + {WireOf(k)}
    && b'.args == b.args[k.toolCallId := text]
    && forall id :: ShownBy(b'.sent, id) == if id == WireOf(k) then Some(text) else ShownBy(b.sent, id)
  }

  lemma StartedRewrites(b: Bridge, k: CardKind)
    requires k.ToolStarted?
    ensures Rewrites(b, OnStarted(b, k), k)
  {
    hide ShownBy, AcpToolCallId;
    var p := Push(k, if WireOf(k) in b.created then UpgradeNote(k) else StartNote(k));
    var sent := OnStarted(b, k).sent;
    assert "" + PartOf(k) == PartOf(k);
    forall id ensures ShownBy(sent, id) == if id == WireOf(k) then Some(k.args) else ShownBy(b.sent, id) {
      ShownBySnoc(b.sent, p, id);
      if sent != b.sent + [p] {
        var plan := Push(k, Plan(k.display.value.plan.value));
        assert sent == b.sent + [p] + [plan];
        ShownBySnoc(b.sent + [p], plan, id);
      }
    }
  }

  lemma DeltaRewrites(b: Bridge, k: CardKind)
    requires k.ToolDelta?
    ensures Rewrites(b, OnDelta(b, k), k)
  {
    hide ShownBy, AcpToolCallId;
    var sent := OnDelta(b, k).sent;
    var p := sent[|b.sent|];
    assert "" + PartOf(k) == PartOf(k);
    if WireOf(k) in b.created { assert b.created + {WireOf(k)} == b.created; }
    forall id ensures ShownBy(sent, id) == ShownBy(b.sent + [p], id) {
      ShownBySnoc(b.sent, p, id);
    }
    forall id { ShownBySnoc(b.sent, p, id); }
  }

  lemma HandleRewrites(b: Bridge, e: Event)
    requires e.main && IsTool(e.kind)
    ensures Rewrites(b, Handle(b, e), e.kind)
  {
    hide ShownBy, AcpToolCallId, OnStarted, OnDelta;
    var b1 := Track(b, e);
    if e.kind.ToolStarted? { StartedRewrites(b1, e.kind); } else { DeltaRewrites(b1, e.kind); }
    hide PartOf;
  }

  lemma RewriteAgrees(b: Bridge, b': Bridge, es: seq<CardKind>, k: CardKind)
    requires IsTool(k) && TextsAgree(b, es) && b.outcome.None? && Rewrites(b, b', k)
    ensures TextsAgree(b', es + [k])
  {
    var es' := es + [k];
    assert Accumulated(es, k.toolCallId) == if k.toolCallId in b.args then Some(b.args[k.toolCallId]) else None;
    assert WireOf(k) in b.created <==> Seen(es, WireOf(k));
    hide AcpToolCallId, ShownBy, Seen, Accumulated, Shown, PartOf, WireOf;
    AccumulatedSnoc(es, k, k.toolCallId);
    assert Accumulated(es', k.toolCallId) == Some(b'.args[k.toolCallId]);
    forall raw ensures (if raw in b'.args then Some(b'.args[raw]) else None) == Accumulated(es', raw) {
      AccumulatedSnoc(es, k, raw);
      assert Accumulated(es, raw) == if raw in b.args then Some(b.args[raw]) else None;
    }
    forall id ensures id in b'.created <==> Seen(es', id) { SeenSnoc(es, k, id); }
    forall id ensures ShownBy(b'.sent, id) == Shown(es', id) {
      ShownSnoc(es, k, id);
      assert ShownBy(b.sent, id) == Shown(es, id);
    }
  }

  lemma ToolEventAgrees(b: Bridge, es: seq<CardKind>, e: Event)
    requires TextsAgree(b, es) && b.outcome.None? && e.main && IsTool(e.kind)
    ensures TextsAgree(Handle(b, e), es + [e.kind])
  {
    var k: CardKind := e.kind;
    hide *;
    HandleRewrites(b, e);
    RewriteAgrees(b, Handle(b, e), es, k);
  }

  /** A result's notification, and what a result leaves alone. */
  lemma ResultSends(b: Bridge, e: Event) returns (p: Push)
    requires e.main && e.kind.ToolResult?
    ensures var b' := Handle(b, e);
            && b'.sent == b.sent + [p] && b'.created == b.created && b'.args == b.args && b'.outcome == b.outcome
            && p.note.ToolCallUpdate? && p.note.id == WireOf(e.kind) && p.note.newShown == Some(e.kind.output)
  {
    hide AcpToolCallId;
    p := Handle(b, e).sent[|b.sent|];
  }

  lemma ResultAgrees(b: Bridge, es: seq<CardKind>, e: Event)
    requires TextsAgree(b, es) && b.outcome.None? && e.main && e.kind.ToolResult?
    ensures TextsAgree(Handle(b, e), es + [e.kind])
  {
    var k: CardKind := e.kind;
    var p := ResultSends(b, e);
    var b' := Handle(b, e);
    var es' := es + [k];
    hide Handle, AcpToolCallId, ShownBy, Seen, Accumulated, Shown, PartOf, WireOf;
    forall raw ensures (if raw in b'.args then Some(b'.args[raw]) else None) == Accumulated(es', raw) {
      AccumulatedSnoc(es, k, raw);
      assert Accumulated(es, raw) == if raw in b.args then Some(b.args[raw]) else None;
    }
    forall id ensures id in b'.created <==> Seen(es', id) { SeenSnoc(es, k, id); }
    forall id ensures ShownBy(b'.sent, id) == Shown(es', id) {
      ShownSnoc(es, k, id);
      ShownBySnoc(b.sent, p, id);
      assert ShownBy(b.sent, id) == Shown(es, id);
    }
  }

  /** Every other input sends at most one notification, and that carries no content. */
  lemma OtherIsQuiet(b: Bridge, input: Input) returns (added: seq<Push>)
    requires Consistent(b) && !IsCardInput(input)
    ensures Step(b, input).sent == b.sent + added && |added| <= 1
    ensures |added| == 1 ==>
        !added[0].note.ToolCall? && (added[0].note.ToolCallUpdate? ==> added[0].note.newShown.None?)
    ensures Step(b, input).outcome.None? ==> Step(b, input).created == b.created && Step(b, input).args == b.args
  {
    hide AcpToolCallId, OnStarted, OnDelta;
    added := Step(b, input).sent[|b.sent|..];
  }

  lemma OtherInputAgrees(b: Bridge, es: seq<CardKind>, input: Input)
    requires Consistent(b) && TextsAgree(b, es) && (b.outcome.Some? || !IsCardInput(input))
    ensures TextsAgree(Step(b, input), es)
  {
    StepKeepsConsistent(b, input);
    if b.outcome.None? {
      var added := OtherIsQuiet(b, input);
      hide Step, Accumulated, Seen, Shown, ShownBy, Consistent;
      var sent := Step(b, input).sent;
      forall id ensures ShownBy(sent, id) == ShownBy(b.sent, id) {
        if added == [] {
          assert sent == b.sent;
        } else {
          assert sent == b.sent + [added[0]];
          ShownBySnoc(b.sent, added[0], id);
        }
      }
    } else {
      hide Step;
    }
  }

  /** The notifications sent, the created set and the accumulator are functions of the card events alone. */
  lemma {:induction false} RunAgrees(active: Option<nat>, inputs: seq<Input>)
    ensures TextsAgree(Run(active, inputs), CardEvents(active, inputs))
  {
    hide TextsAgree, Handle;
    if inputs == [] {
      NothingShown(active);
    } else {
      var front, last := inputs[..|inputs| - 1], inputs[|inputs| - 1];
      RunAgrees(active, front);
      AnsweredAtMostOnce(active, front);
      if Run(active, front).outcome.None? && IsCardInput(last) {
        if IsTool(last.event.kind) {
          ToolEventAgrees(Run(active, front), CardEvents(active, front), last.event);
        } else {
          ResultAgrees(Run(active, front), CardEvents(active, front), last.event);
        }
      } else {
        OtherInputAgrees(Run(active, front), CardEvents(active, front), last);
      }
    }
  }

  lemma NothingShown(active: Option<nat>)
    ensures TextsAgree(Run(active, []), CardEvents(active, []))
  {
  }

  /**
   Progress and result updates are sent whether or not there is a card.  While the prompt is open the client
   has one for the wire id exactly if a delta or started event of that call has come.
   */
  lemma CardIffSeen(active: Option<nat>, inputs: seq<Input>, id: string)
    requires Run(active, inputs).outcome.None?
    ensures HasCard(Run(active, inputs).sent, id) <==> Seen(CardEvents(active, inputs), id)
  {
    hide Run, CardEvents, Seen, HasCard, CardsInOrder;
    RunAgrees(active, inputs);
    CreateOnceBeforeUpdates(active, inputs);
  }

  // ---------------------------------------------------------------- orders of events

  /** All argument parts a call was sent, joined. */
  function OwnText(es: seq<CardKind>, t: nat, raw: string): string {
    if es == [] then ""
    else OwnText(es[..|es| - 1], t, raw) + if Own(es[|es| - 1], t, raw) then PartOf(es[|es| - 1]) else ""
  }

  predicate NotStarted(es: seq<CardKind>, id: string) {
    forall i :: 0 <= i < |es| && WireOf(es[i]) == id ==> !es[i].ToolStarted?
  }

  /**
   A delta or started event of the call, of another turn's call under the same provider id, or a result of
   the call.
   */
  predicate Own(k: CardKind, t: nat, raw: string) { IsTool(k) && k.toolTurn == t && k.toolCallId == raw }
  predicate Foreign(k: CardKind, t: nat, raw: string) { IsTool(k) && k.toolTurn != t && k.toolCallId == raw }
  predicate ResultOf(k: CardKind, t: nat, raw: string) { k.ToolResult? && k.toolTurn == t && k.toolCallId == raw }

  /** Behind an event of the call, another turn has used the same provider id. */
  predicate Followed(es: seq<CardKind>, t: nat, raw: string) {
    exists i, j :: 0 <= i < j < |es| && Own(es[i], t, raw) && Foreign(es[j], t, raw)
  }

  /** Between two events of the call, another turn has used the same provider id. */
  predicate Interleaved(es: seq<CardKind>, t: nat, raw: string) {
    exists k :: 0 <= k < |es| && InterleavedAt(es, t, raw, k)
  }

  predicate InterleavedAt(es: seq<CardKind>, t: nat, raw: string, k: nat)
    requires k < |es|
  {
    Own(es[k], t, raw) && Followed(es[..k], t, raw)
  }

  lemma OwnIsWire(k: CardKind, t: nat, raw: string)
    ensures Own(k, t, raw) <==> IsTool(k) && WireOf(k) == AcpToolCallId(t, raw)
    ensures ResultOf(k, t, raw) <==> k.ToolResult? && WireOf(k) == AcpToolCallId(t, raw)
    ensures !(Own(k, t, raw) && Foreign(k, t, raw)) && !(Own(k, t, raw) && ResultOf(k, t, raw))
    ensures !(Foreign(k, t, raw) && ResultOf(k, t, raw))
  {
    WireIdIsInjective(k.toolTurn, k.toolCallId, t, raw);
  }

  lemma SeenOwn(es: seq<CardKind>, t: nat, raw: string)
    ensures Seen(es, AcpToolCallId(t, raw)) <==> exists i :: 0 <= i < |es| && Own(es[i], t, raw)
  {
    var id := AcpToolCallId(t, raw);
    forall i | 0 <= i < |es| ensures Own(es[i], t, raw) <==> IsTool(es[i]) && WireOf(es[i]) == id {
      OwnIsWire(es[i], t, raw);
    }
    hide AcpToolCallId;
    if Seen(es, id) { var i :| 0 <= i < |es| && IsTool(es[i]) && WireOf(es[i]) == id; assert Own(es[i], t, raw); }
    if i :| 0 <= i < |es| && Own(es[i], t, raw) { assert WireOf(es[i]) == id; }
  }

  lemma FollowedSnoc(front: seq<CardKind>, last: CardKind, t: nat, raw: string)
    ensures Followed(front + [last], t, raw) <==>
            Followed(front, t, raw) || (Seen(front, AcpToolCallId(t, raw)) && Foreign(last, t, raw))
    ensures Followed(front, t, raw) ==> Seen(front, AcpToolCallId(t, raw))
  {
    SeenOwn(front, t, raw);
    hide AcpToolCallId, Seen, Own, Foreign;
    var es, n := front + [last], |front|;
    assert forall i :: 0 <= i < n ==> front[i] == es[i];
    if Followed(es, t, raw) {
      var i, j :| 0 <= i < j < |es| && Own(es[i], t, raw) && Foreign(es[j], t, raw);
      assert Own(front[i], t, raw);
      if j < n { assert Foreign(front[j], t, raw); }
    }
    if Followed(front, t, raw) {
      var i, j :| 0 <= i < j < n && Own(front[i], t, raw) && Foreign(front[j], t, raw);
      assert Own(es[i], t, raw) && Foreign(es[j], t, raw);
    }
    if Seen(front, AcpToolCallId(t, raw)) && Foreign(last, t, raw) {
      var i :| 0 <= i < n && Own(front[i], t, raw);
      assert Own(es[i], t, raw) && Foreign(es[n], t, raw);
    }
  }

  lemma InterleavedSnoc(front: seq<CardKind>, last: CardKind, t: nat, raw: string)
    ensures Interleaved(front + [last], t, raw) <==>
            Interleaved(front, t, raw) || (Followed(front, t, raw) && Own(last, t, raw))
  {
    var es, n := front + [last], |front|;
    assert es[..n] == front && es[n] == last;
    forall k | 0 <= k < n ensures InterleavedAt(es, t, raw, k) <==> InterleavedAt(front, t, raw, k) {
      assert es[..k] == front[..k];
    }
    assert InterleavedAt(es, t, raw, n) <==> Own(last, t, raw) && Followed(front, t, raw);
    hide InterleavedAt, Followed;
  }

  lemma InterleavedIsFollowed(es: seq<CardKind>, t: nat, raw: string)
    requires Interleaved(es, t, raw)
    ensures Followed(es, t, raw)
  {
    hide Own, Foreign;
    var k :| 0 <= k < |es| && InterleavedAt(es, t, raw, k);
    var i, j :| 0 <= i < j < k && Own(es[..k][i], t, raw) && Foreign(es[..k][j], t, raw);
    assert Own(es[i], t, raw) && Foreign(es[j], t, raw);
  }

  /** What one more event does to the order of events, and how it is to be read. */
  lemma SnocFacts(es: seq<CardKind>, t: nat, raw: string)
    requires es != []
    ensures var front, last, id := es[..|es| - 1], es[|es| - 1], AcpToolCallId(t, raw);
            && (Seen(es, id) <==> Seen(front, id) || Own(last, t, raw))
            && (Followed(es, t, raw) <==> Followed(front, t, raw) || (Seen(front, id) && Foreign(last, t, raw)))
            && (Interleaved(es, t, raw) <==>
                  Interleaved(front, t, raw) || (Followed(front, t, raw) && Own(last, t, raw)))
            && (Overwritten(es, id) <==> ResultOf(last, t, raw) || (!Own(last, t, raw) && Overwritten(front, id)))
            && (Followed(front, t, raw) ==> Seen(front, id))
            && (Interleaved(front, t, raw) ==> Followed(front, t, raw))
            && (NotStarted(es, id) ==> NotStarted(front, id) && (Own(last, t, raw) ==> last.ToolDelta?))
  {
    var front, last, id := es[..|es| - 1], es[|es| - 1], AcpToolCallId(t, raw);
    hide AcpToolCallId, Followed, Interleaved, Own, Foreign, ResultOf, Seen, Overwritten;
    assert es == front + [last];
    SeenSnoc(front, last, id);
    OwnIsWire(last, t, raw);
    FollowedSnoc(front, last, t, raw);
    InterleavedSnoc(front, last, t, raw);
    OverwrittenSnoc(front, last, id);
    if Interleaved(front, t, raw) { InterleavedIsFollowed(front, t, raw); }
    assert forall i :: 0 <= i < |front| ==> front[i] == es[i];
  }

  /** One unfolding of what is accumulated, shown and owned. */
  lemma TextSnoc(es: seq<CardKind>, t: nat, raw: string)
    requires es != []
    ensures var front, last, id := es[..|es| - 1], es[|es| - 1], AcpToolCallId(t, raw);
            && (Own(last, t, raw) || Foreign(last, t, raw) ==>
                  Accumulated(es, raw) == Some(Base(front, last) + PartOf(last)))
            && (!Own(last, t, raw) && !Foreign(last, t, raw) ==> Accumulated(es, raw) == Accumulated(front, raw))
            && (Own(last, t, raw) && last.ToolDelta? ==>
                  Base(front, last) == if Seen(front, id) then Accumulated(front, raw).GetOr("") else "")
            && (Own(last, t, raw) ==> Shown(es, id) == Accumulated(es, raw)
                                      && OwnText(es, t, raw) == OwnText(front, t, raw) + PartOf(last))
            && (ResultOf(last, t, raw) ==> Shown(es, id) == Some(PartOf(last)))
            && (!Own(last, t, raw) && !ResultOf(last, t, raw) ==> Shown(es, id) == Shown(front, id))
            && (!Own(last, t, raw) ==> OwnText(es, t, raw) == OwnText(front, t, raw))
  {
    var front, last, id := es[..|es| - 1], es[|es| - 1], AcpToolCallId(t, raw);
    OwnIsWire(last, t, raw);
    hide AcpToolCallId, Seen;
    assert OwnText(front, t, raw) + "" == OwnText(front, t, raw);
  }

  /** While no other turn comes in between and no result comes behind, the client shows the parts so far, joined. */
  lemma {:induction false} ShowsOwnText(es: seq<CardKind>, t: nat, raw: string)
    requires var id := AcpToolCallId(t, raw); Seen(es, id) && NotStarted(es, id)
    requires !Interleaved(es, t, raw)
    ensures var id := AcpToolCallId(t, raw);
            && (!Overwritten(es, id) ==> Shown(es, id) == Some(OwnText(es, t, raw)))
            && (!Followed(es, t, raw) ==> Accumulated(es, raw) == Some(OwnText(es, t, raw)))
  {
    var id := AcpToolCallId(t, raw);
    if es == [] {
      NothingSeen(id);
    } else {
      var front, part := es[..|es| - 1], PartOf(es[|es| - 1]);
      SnocFacts(es, t, raw);
      TextSnoc(es, t, raw);
      OwnIsWire(es[|es| - 1], t, raw);
      hide AcpToolCallId, Seen, NotStarted, Followed, Interleaved, Own, Foreign, ResultOf, Overwritten, Accumulated,
           Shown, OwnText, Base, PartOf;
      if Seen(front, id) {
        ShowsOwnText(front, t, raw);
      } else {
        UnseenHasNoText(front, t, raw);
        assert "" + part == part;
      }
    }
  }

  lemma {:induction false} UnseenHasNoText(es: seq<CardKind>, t: nat, raw: string)
    requires !Seen(es, AcpToolCallId(t, raw))
    ensures OwnText(es, t, raw) == ""
  {
    if es != [] {
      SnocFacts(es, t, raw);
      hide AcpToolCallId, Seen, Own, PartOf;
      UnseenHasNoText(es[..|es| - 1], t, raw);
    }
  }

  lemma NothingSeen(id: string)
    ensures !Seen([], id) && !Overwritten([], id)
  {
  }

  // ---------------------------------------------------------------- and only then

  /** The same events with other texts. */
  predicate SameShape(es: seq<CardKind>, fs: seq<CardKind>) {
    && |es| == |fs|
    && forall i :: 0 <= i < |es| ==> SameKind(es[i], fs[i])
  }

  predicate SameKind(k: CardKind, l: CardKind) {
    && k.toolTurn == l.toolTurn && k.toolCallId == l.toolCallId
    && (k.ToolDelta? <==> l.ToolDelta?) && (k.ToolResult? <==> l.ToolResult?)
  }

  function PaintOne(k: CardKind, t: nat, raw: string): CardKind {
    var text := if Own(k, t, raw) then "a" else "b";
    match k
    case ToolStarted(_, _, _, _, _, _) => k.(args := text)
    case ToolDelta(_, _, _, _) => k.(argumentsPart := Some(text))
    case ToolResult(_, _, _, _) => k.(output := text)
  }

  /** The call's own parts become "a", everything else "b". */
  function Paint(es: seq<CardKind>, t: nat, raw: string): (painted: seq<CardKind>)
    ensures SameShape(es, painted)
    ensures forall i :: 0 <= i < |es| ==> painted[i] == PaintOne(es[i], t, raw)
  {
    seq(|es|, i requires 0 <= i < |es| => PaintOne(es[i], t, raw))
  }

  lemma PaintedParts(es: seq<CardKind>, t: nat, raw: string)
    ensures forall i :: 0 <= i < |es| ==>
        PartOf(Paint(es, t, raw)[i]) == if Own(Paint(es, t, raw)[i], t, raw) then "a" else "b"
  {
    hide Paint;
  }

  lemma KindDecides(k: CardKind, l: CardKind, t: nat, raw: string)
    requires SameKind(k, l)
    ensures WireOf(k) == WireOf(l) && (IsTool(k) <==> IsTool(l)) && (k.ToolStarted? <==> l.ToolStarted?)
    ensures (Own(k, t, raw) <==> Own(l, t, raw)) && (Foreign(k, t, raw) <==> Foreign(l, t, raw))
  {
  }

  lemma {:induction false} ShapeOverwrites(es: seq<CardKind>, fs: seq<CardKind>, id: string)
    requires SameShape(es, fs)
    ensures Overwritten(es, id) <==> Overwritten(fs, id)
  {
    if es != [] {
      KindDecides(es[|es| - 1], fs[|fs| - 1], 0, "");
      hide SameKind, AcpToolCallId;
      ShapeOverwrites(es[..|es| - 1], fs[..|fs| - 1], id);
    }
  }

  lemma ShapeDecides(es: seq<CardKind>, fs: seq<CardKind>, t: nat, raw: string)
    requires SameShape(es, fs)
    ensures var id := AcpToolCallId(t, raw);
            && (Seen(es, id) ==> Seen(fs, id))
            && (NotStarted(es, id) ==> NotStarted(fs, id))
            && (Interleaved(es, t, raw) ==> Interleaved(fs, t, raw))
  {
    var id := AcpToolCallId(t, raw);
    forall i | 0 <= i < |es|
      ensures WireOf(es[i]) == WireOf(fs[i]) && (IsTool(es[i]) <==> IsTool(fs[i]))
              && (es[i].ToolStarted? <==> fs[i].ToolStarted?)
              && (Own(es[i], t, raw) <==> Own(fs[i], t, raw)) && (Foreign(es[i], t, raw) <==> Foreign(fs[i], t, raw))
    {
      KindDecides(es[i], fs[i], t, raw);
    }
    hide SameShape, Own, Foreign, AcpToolCallId, WireOf, IsTool;
    if Seen(es, id) {
      var i :| 0 <= i < |es| && IsTool(es[i]) && WireOf(es[i]) == id;
      assert WireOf(fs[i]) == id;
    }
    if Interleaved(es, t, raw) {
      var k :| 0 <= k < |es| && InterleavedAt(es, t, raw, k);
      var i, j :| 0 <= i < j < k && Own(es[..k][i], t, raw) && Foreign(es[..k][j], t, raw);
      assert Own(fs[k], t, raw) && Own(fs[..k][i], t, raw) && Foreign(fs[..k][j], t, raw);
      assert InterleavedAt(fs, t, raw, k);
    }
  }

  lemma SameShapeBack(es: seq<CardKind>, fs: seq<CardKind>)
    requires SameShape(es, fs)
    ensures SameShape(fs, es)
  {
  }

  predicate Stained(text: Option<string>) { text.Some? && 'b' in text.value }

  lemma StainConcat(a: string, b: string)
    ensures Stained(Some(a + b)) <==> Stained(Some(a)) || Stained(Some(b))
  {
  }

  lemma StainedLetters()
    ensures !Stained(Some("a")) && Stained(Some("b")) && !Stained(Some("")) && !Stained(None)
  {
  }

  /** Painted so, another turn's text or a result's output shows up in the card as soon as it can. */
  lemma {:induction false} DisturbanceStains(es: seq<CardKind>, t: nat, raw: string)
    requires NotStarted(es, AcpToolCallId(t, raw))
    requires forall i :: 0 <= i < |es| ==> PartOf(es[i]) == if Own(es[i], t, raw) then "a" else "b"
    ensures var id := AcpToolCallId(t, raw);
            && (Followed(es, t, raw) ==> Stained(Accumulated(es, raw)))
            && (Interleaved(es, t, raw) || Overwritten(es, id) ==> Stained(Shown(es, id)))
            && !Stained(Some(OwnText(es, t, raw)))
  {
    StainedLetters();
    if es == [] {
      NothingSeen(AcpToolCallId(t, raw));
    } else {
      SnocFacts(es, t, raw);
      TextSnoc(es, t, raw);
      OwnIsWire(es[|es| - 1], t, raw);
      hide AcpToolCallId, Seen, NotStarted, Followed, Interleaved, Own, Foreign, ResultOf, Overwritten, Accumulated,
           Shown, OwnText, Stained, Base;
      var front, part := es[..|es| - 1], PartOf(es[|es| - 1]);
      DisturbanceStains(front, t, raw);
      StainConcat(OwnText(front, t, raw), part);
      StainConcat(Base(front, es[|es| - 1]), part);
    }
  }

  /**
   Which event orders are safe: whatever the texts are, the client shows exactly the call's own parts, if and
   only if no other turn uses the same provider id between two events of the call and no result of the call
   comes behind the last of them.  A delta behind the result brings the text back.
   */
  lemma ShowsOwnTextIff(es: seq<CardKind>, t: nat, raw: string)
    requires var id := AcpToolCallId(t, raw); Seen(es, id) && NotStarted(es, id)
    ensures !Interleaved(es, t, raw) && !Overwritten(es, AcpToolCallId(t, raw)) <==>
            forall fs: seq<CardKind> :: SameShape(es, fs) ==>
              Shown(fs, AcpToolCallId(t, raw)) == Some(OwnText(fs, t, raw))
  {
    var id := AcpToolCallId(t, raw);
    hide AcpToolCallId, Accumulated, OwnText, Shown, Seen, NotStarted, Interleaved, Overwritten, Stained, PaintOne,
         SameShape;
    if !Interleaved(es, t, raw) && !Overwritten(es, id) {
      forall fs: seq<CardKind> | SameShape(es, fs) ensures Shown(fs, id) == Some(OwnText(fs, t, raw)) {
        SameShapeBack(es, fs);
        ShapeDecides(es, fs, t, raw);
        ShapeDecides(fs, es, t, raw);
        ShapeOverwrites(es, fs, id);
        ShowsOwnText(fs, t, raw);
      }
    } else {
      var fs := Paint(es, t, raw);
      ShapeDecides(es, fs, t, raw);
      ShapeOverwrites(es, fs, id);
      PaintedParts(es, t, raw);
      PaintKeepsLength(es, t, raw);
      DisturbanceStains(fs, t, raw);
      assert SameShape(es, fs) && Shown(fs, id) != Some(OwnText(fs, t, raw));
    }
  }

  lemma PaintKeepsLength(es: seq<CardKind>, t: nat, raw: string)
    ensures |Paint(es, t, raw)| == |es|
  {
  }

  // ---------------------------------------------------------------- whole prompts

  /** The card events of a prompt alone decide what its client shows. */
  lemma ShownInPrompt(active: Option<nat>, inputs: seq<Input>, id: string)
    ensures ShownBy(Run(active, inputs).sent, id) == Shown(CardEvents(active, inputs), id)
  {
    hide Run, CardEvents, ShownBy, Shown;
    RunAgrees(active, inputs);
  }

  /** For whole prompts: before its started event and its result, an uninterrupted call shows all its parts so far. */
  lemma ClientShowsAllPartsSoFar(active: Option<nat>, inputs: seq<Input>, t: nat, raw: string)
    requires var es, id := CardEvents(active, inputs), AcpToolCallId(t, raw);
             Seen(es, id) && NotStarted(es, id) && !Interleaved(es, t, raw) && !Overwritten(es, id)
    ensures ShownBy(Run(active, inputs).sent, AcpToolCallId(t, raw))
        == Some(OwnText(CardEvents(active, inputs), t, raw))
  {
    hide Run, CardEvents, ShownBy;
    ShownInPrompt(active, inputs, AcpToolCallId(t, raw));
    ShowsOwnText(CardEvents(active, inputs), t, raw);
  }

  /** The main agent's delivery of these events and nothing else. */
  function Delivered(es: seq<CardKind>): seq<Input> {
    if es == [] then [] else Delivered(es[..|es| - 1]) + [Deliver(Event(true, es[|es| - 1]))]
  }

  lemma DeliveredSnoc(es: seq<CardKind>)
    requires es != []
    ensures var d := Delivered(es);
            d != [] && d[..|d| - 1] == Delivered(es[..|es| - 1]) && d[|d| - 1] == Deliver(Event(true, es[|es| - 1]))
  {
  }

  lemma CardInputKeepsOpen(b: Bridge, k: CardKind)
    requires Consistent(b) && b.outcome.None?
    ensures Step(b, Deliver(Event(true, k))).outcome.None?
  {
    hide AcpToolCallId;
  }

  lemma NothingDelivered(active: Option<nat>)
    ensures CardEvents(active, Delivered([])) == [] && Run(active, Delivered([])).outcome.None?
  {
  }

  lemma OneMoreEvent(active: Option<nat>, front: seq<Input>, inputs: seq<Input>, k: CardKind)
    requires inputs != [] && inputs[..|inputs| - 1] == front && inputs[|inputs| - 1] == Deliver(Event(true, k))
    requires Run(active, front).outcome.None? && Consistent(Run(active, front))
    ensures CardEvents(active, inputs) == CardEvents(active, front) + [k]
    ensures Run(active, inputs).outcome.None?
  {
    CardInputKeepsOpen(Run(active, front), k);
    hide Step, Consistent;
  }

  /** Any card events at all are the card events of some prompt, one that is still open. */
  lemma {:induction false} DeliveredEvents(active: Option<nat>, es: seq<CardKind>)
    ensures CardEvents(active, Delivered(es)) == es && Run(active, Delivered(es)).outcome.None?
  {
    hide *;
    if es == [] {
      NothingDelivered(active);
    } else {
      var front, last := es[..|es| - 1], es[|es| - 1];
      DeliveredEvents(active, front);
      DeliveredSnoc(es);
      AnsweredAtMostOnce(active, Delivered(front));
      OneMoreEvent(active, Delivered(front), Delivered(es), last);
      assert es == front + [last];
    }
  }

  /**
   Which prompts are safe: over all prompts with card events of this shape, whatever their texts and outputs
   and whatever else arrives, the client shows exactly the call's own parts, if and only if no other turn uses
   the same provider id between two events of the call and no result of the call comes behind the last of them.
   */
  lemma ClientShowsOwnTextIff(active: Option<nat>, inputs: seq<Input>, t: nat, raw: string)
    requires var es, id := CardEvents(active, inputs), AcpToolCallId(t, raw); Seen(es, id) && NotStarted(es, id)
    ensures var es, id := CardEvents(active, inputs), AcpToolCallId(t, raw);
            !Interleaved(es, t, raw) && !Overwritten(es, id) <==>
            forall others: seq<Input> :: SameShape(es, CardEvents(active, others)) ==>
              ShownBy(Run(active, others).sent, id) == Some(OwnText(CardEvents(active, others), t, raw))
  {
    var es, id := CardEvents(active, inputs), AcpToolCallId(t, raw);
    ShowsOwnTextIff(es, t, raw);
    hide Run, CardEvents, AcpToolCallId, Shown, OwnText, Seen, NotStarted, Interleaved, Overwritten, SameShape, ShownBy,
         Delivered;
    if Interleaved(es, t, raw) || Overwritten(es, id) {
      var fs: seq<CardKind> :| SameShape(es, fs) && Shown(fs, id) != Some(OwnText(fs, t, raw));
      var others := Delivered(fs);
      DeliveredEvents(active, fs);
      ShownInPrompt(active, others, id);
      assert SameShape(es, CardEvents(active, others));
    } else {
      forall others: seq<Input> | SameShape(es, CardEvents(active, others))
        ensures ShownBy(Run(active, others).sent, id) == Some(OwnText(CardEvents(active, others), t, raw))
      {
        ShownInPrompt(active, others, id);
      }
    }
  }

  // ---------------------------------------------------------------- what is shown after an interruption

  /** No other turn uses the raw id from position `j` on. */
  predicate UndisturbedFrom(es: seq<CardKind>, t: nat, raw: string, j: nat) {
    forall i :: j <= i < |es| ==> !Foreign(es[i], t, raw)
  }

  /**
   Whatever the texts are: behind the last event by which another turn disturbs the call, the accumulator
   goes on from what that event left there.
   */
  lemma {:induction false} AccumulatesOnTop(es: seq<CardKind>, t: nat, raw: string, j: nat)
    requires 0 < j <= |es| && Seen(es[..j], AcpToolCallId(t, raw)) && NotStarted(es, AcpToolCallId(t, raw))
    requires Foreign(es[j - 1], t, raw) && UndisturbedFrom(es, t, raw, j)
    ensures var id := AcpToolCallId(t, raw);
            && Seen(es, id)
            && Accumulated(es[..j], raw).Some?
            && Accumulated(es, raw) == Some(Accumulated(es[..j], raw).value + OwnText(es[j..], t, raw))
            && (Seen(es[j..], id) && !Overwritten(es[j..], id) ==> Shown(es, id) == Accumulated(es, raw))
    decreases |es|
  {
    var id := AcpToolCallId(t, raw);
    hide AcpToolCallId, Seen, NotStarted, Followed, Interleaved, Own, Foreign, ResultOf, Overwritten, Accumulated,
          Shown,
         OwnText, UndisturbedFrom, Base;
    if j == |es| {
      assert es[..j] == es && es[j..] == [];
      TextSnoc(es, t, raw);
      NothingSeen(id);
      NothingOwned(t, raw);
      assert Accumulated(es, raw).value + "" == Accumulated(es, raw).value;
    } else {
      var front, last, behind := es[..|es| - 1], es[|es| - 1], es[j..];
      assert front[..j] == es[..j] && front[j - 1] == es[j - 1];
      assert behind[..|behind| - 1] == front[j..] && behind[|behind| - 1] == last;
      SnocFacts(es, t, raw);
      TextSnoc(es, t, raw);
      SnocFacts(behind, t, raw);
      TextSnoc(behind, t, raw);
      UndisturbedSnoc(es, t, raw, j);
      OwnIsWire(last, t, raw);
      hide PartOf;
      AccumulatesOnTop(front, t, raw, j);
      var base, mine := Accumulated(es[..j], raw).value, OwnText(front[j..], t, raw);
      assert (base + mine) + PartOf(last) == base + (mine + PartOf(last));
    }
  }

  lemma NothingOwned(t: nat, raw: string)
    ensures OwnText([], t, raw) == ""
  {
  }

  lemma UndisturbedSnoc(es: seq<CardKind>, t: nat, raw: string, j: nat)
    requires UndisturbedFrom(es, t, raw, j) && j < |es|
    ensures UndisturbedFrom(es[..|es| - 1], t, raw, j) && !Foreign(es[|es| - 1], t, raw)
  {
    hide Foreign;
  }

  /**
   What an interrupted card shows, for any texts: what the last event by which another turn disturbed the call
   found under the provider's id (nothing, if it was a started event or the first delta of its call), that
   event's whole part, and then the call's own parts since.
   */
  lemma InterruptedCardShows(es: seq<CardKind>, t: nat, raw: string, j: nat)
    requires 0 < j < |es| && Seen(es[..j], AcpToolCallId(t, raw)) && NotStarted(es, AcpToolCallId(t, raw))
    requires Foreign(es[j - 1], t, raw) && UndisturbedFrom(es, t, raw, j)
    requires Seen(es[j..], AcpToolCallId(t, raw)) && !Overwritten(es[j..], AcpToolCallId(t, raw))
    ensures Shown(es, AcpToolCallId(t, raw)) ==
            Some(Base(es[..j - 1], es[j - 1]) + PartOf(es[j - 1]) + OwnText(es[j..], t, raw))
  {
    hide AcpToolCallId, Seen, NotStarted, Overwritten, Accumulated, Shown, UndisturbedFrom, OwnText, Base, PartOf,
         Own, Foreign;
    AccumulatesOnTop(es, t, raw, j);
    var disturbed := es[..j];
    assert disturbed[|disturbed| - 1] == es[j - 1] && disturbed[..|disturbed| - 1] == es[..j - 1];
    TextSnoc(disturbed, t, raw);
  }

  /** The same for the notifications of a whole prompt. */
  lemma InterruptedPromptShows(active: Option<nat>, inputs: seq<Input>, t: nat, raw: string, j: nat)
    requires var es, id := CardEvents(active, inputs), AcpToolCallId(t, raw);
             && 0 < j < |es| && Seen(es[..j], id) && NotStarted(es, id)
             && Foreign(es[j - 1], t, raw) && UndisturbedFrom(es, t, raw, j)
             && Seen(es[j..], id) && !Overwritten(es[j..], id)
    ensures var es := CardEvents(active, inputs);
            ShownBy(Run(active, inputs).sent, AcpToolCallId(t, raw)) ==
            Some(Base(es[..j - 1], es[j - 1]) + PartOf(es[j - 1]) + OwnText(es[j..], t, raw))
  {
    hide Run, CardEvents, ShownBy, Shown, Base, OwnText, Seen, Overwritten, UndisturbedFrom, Foreign, NotStarted;
    ShownInPrompt(active, inputs, AcpToolCallId(t, raw));
    InterruptedCardShows(CardEvents(active, inputs), t, raw, j);
  }
}
