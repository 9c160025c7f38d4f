/** What one prompt is answered with, and exactly which notifications it sends, from its inputs alone. */
module AcpTurnOutcome {
  import opened Basics
  import opened WireId
  import opened AcpTurn
  import opened AcpTurnProofs
  import opened AcpTurnTexts

  // ---------------------------------------------------------------- the answer

  /**
   What input number `k` ends an open prompt with, if it does.  Ends of the main agent's turn: completed or failed
   is `end_turn`, cancelled `cancelled`, filtered `refusal`; a failure for want of authentication rejects.  The
   busy error rejects unless a turn of this prompt has started.  A failed kick rejects.
   */
  predicate EndsWith(active: Option<nat>, inputs: seq<Input>, k: nat, answer: Outcome)
    requires k < |inputs|
  {
    match inputs[k]
    case Deliver(Event(true, TurnEnded(_, Completed))) => answer == Resolved(EndTurn)
    case Deliver(Event(true, TurnEnded(_, EndFailed(false)))) => answer == Resolved(EndTurn)
    case Deliver(Event(true, TurnEnded(_, EndFailed(true)))) => answer == RejectedAuth
    case Deliver(Event(true, TurnEnded(_, Cancelled))) => answer == Resolved(StopCancelled)
    case Deliver(Event(true, TurnEnded(_, Filtered))) => answer == Resolved(Refusal)
    case Deliver(Event(true, ErrorEvent(_, true))) =>
      answer == RejectedBusy && forall j :: 0 <= j < k ==> !StartsOwnTurn(active, inputs[j])
    case KickFails(true) => answer == RejectedAuth
    case KickFails(false) => answer == RejectedInternal
    case _ => false
  }

  ghost predicate Ends(active: Option<nat>, inputs: seq<Input>, k: nat)
    requires k < |inputs|
  {
    exists answer :: EndsWith(active, inputs, k, answer)
  }

  ghost predicate Unended(active: Option<nat>, inputs: seq<Input>) {
    forall k :: 0 <= k < |inputs| ==> !Ends(active, inputs, k)
  }

  lemma EndsIffNotKeepsOpen(active: Option<nat>, inputs: seq<Input>, k: nat)
    requires k < |inputs|
    ensures Ends(active, inputs, k) <==> !KeepsOpen(active, inputs, k)
  {
    var answer := match inputs[k]
      case Deliver(e) => if e.kind.TurnEnded? then
                           match e.kind.reason
                           case Completed => Resolved(EndTurn)
                           case Cancelled => Resolved(StopCancelled)
                           case Filtered => Resolved(Refusal)
                           case EndFailed(auth) => if auth then RejectedAuth else Resolved(EndTurn)
                         else RejectedBusy
      case KickFails(auth) => if auth then RejectedAuth else RejectedInternal;
    hide StartsOwnTurn;
    if !KeepsOpen(active, inputs, k) { assert EndsWith(active, inputs, k, answer); }
  }

  lemma UnendedIffOpen(active: Option<nat>, inputs: seq<Input>)
    ensures Unended(active, inputs) <==> Run(active, inputs).outcome.None?
  {
    hide Run, Ends, KeepsOpen;
    OpenExactlyWhile(active, inputs);
    forall k | 0 <= k < |inputs| ensures Ends(active, inputs, k) <==> !KeepsOpen(active, inputs, k) {
      EndsIffNotKeepsOpen(active, inputs, k);
    }
  }

  /** What the ending input gives an open bridge. */
  lemma StepAnswers(b: Bridge, active: Option<nat>, inputs: seq<Input>, k: nat, answer: Outcome)
    requires k < |inputs| && EndsWith(active, inputs, k, answer)
    requires Consistent(b) && b.outcome.None? && (b.ownTurnStarted <==> OwnTurnIn(active, inputs, k))
    requires b.activeAtStart == active
    ensures Step(b, inputs[k]).outcome == Some(answer)
  {
    hide AcpToolCallId, OnStarted, OnDelta, StartsOwnTurn, TurnOf;
  }

  lemma EndsPrefix(active: Option<nat>, inputs: seq<Input>, n: nat, k: nat)
    requires k < n <= |inputs|
    ensures Ends(active, inputs[..n], k) <==> Ends(active, inputs, k)
  {
    EndsIffNotKeepsOpen(active, inputs[..n], k);
    EndsIffNotKeepsOpen(active, inputs, k);
    OwnTurnPrefix(active, inputs, n, k);
    hide Ends, OwnTurnIn;
  }

  lemma UnendedPrefix(active: Option<nat>, inputs: seq<Input>, n: nat)
    requires n <= |inputs|
    ensures Unended(active, inputs[..n]) <==> forall k :: 0 <= k < n ==> !Ends(active, inputs, k)
  {
    hide Ends;
    forall k | 0 <= k < n ensures Ends(active, inputs[..n], k) <==> Ends(active, inputs, k) {
      EndsPrefix(active, inputs, n, k);
    }
  }

  /**
   The answer to a prompt: the first input that ends it decides, and until one has come there is none.
   */
  lemma FirstEndingAnswers(active: Option<nat>, inputs: seq<Input>)
    ensures Run(active, inputs).outcome.None? <==> forall k :: 0 <= k < |inputs| ==> !Ends(active, inputs, k)
    ensures forall k, answer ::
              && 0 <= k < |inputs| && EndsWith(active, inputs, k, answer)
              && (forall j :: 0 <= j < k ==> !Ends(active, inputs, j))
              ==> Run(active, inputs).outcome == Some(answer)
  {
    UnendedIffOpen(active, inputs);
    hide Run, EndsWith, Ends;
    forall k: nat, answer | k < |inputs| && EndsWith(active, inputs, k, answer)
                            && (forall j :: 0 <= j < k ==> !Ends(active, inputs, j))
      ensures Run(active, inputs).outcome == Some(answer)
    {
      AnsweredBy(active, inputs, k, answer);
    }
  }

  lemma AnsweredBy(active: Option<nat>, inputs: seq<Input>, k: nat, answer: Outcome)
    requires k < |inputs| && EndsWith(active, inputs, k, answer) && forall j :: 0 <= j < k ==> !Ends(active, inputs, j)
    ensures Run(active, inputs).outcome == Some(answer)
    ensures Run(active, inputs) == Run(active, inputs[..k + 1])
    ensures Run(active, inputs[..k]).outcome.None?
  {
    hide Run, Step, EndsWith, Ends, Consistent, OwnTurnIn, Unended;
    UnendedPrefix(active, inputs, k);
    UnendedIffOpen(active, inputs[..k]);
    OpenExactlyWhile(active, inputs[..k]);
    OwnTurnPrefix(active, inputs, k, k);
    AnsweredAtMostOnce(active, inputs[..k]);
    StepAnswers(Run(active, inputs[..k]), active, inputs, k, answer);
    RunSnoc(active, inputs, k);
    SettlesOnce(active, inputs, k + 1);
  }

  // ---------------------------------------------------------------- the notifications

  const TOOL_KINDS: map<string, string> := map[
    "Read" := "read", "Glob" := "read", "Grep" := "read",
    "Write" := "edit", "Edit" := "edit",
    "Bash" := "execute", "Terminal" := "execute",
    "WebFetch" := "fetch", "WebSearch" := "fetch",
    "Think" := "think"
  ]

  function ToolKind(name: string): string { if name in TOOL_KINDS then TOOL_KINDS[name] else "other" }

  /** The delta, started and result events of the main agent. */
  function CardsIn(inputs: seq<Input>): seq<CardKind> {
    if inputs == [] then []
    else
      var front, last := inputs[..|inputs| - 1], inputs[|inputs| - 1];
      if IsCardInput(last) then CardsIn(front) + [last.event.kind] else CardsIn(front)
  }

  /** The notifications an open prompt sends for one input, given the card events that came before it. */
  function NotesFor(es: seq<CardKind>, input: Input): seq<Note> {
    match input
    case Deliver(Event(true, AssistantDelta(_, text))) => [MessageChunk(text)]
    case Deliver(Event(true, ThinkingDelta(_, text))) => [ThoughtChunk(text)]
    case Deliver(Event(true, ToolStarted(t, raw, name, description, args, display))) =>
      var id, title := Decimal(t) + ":" + raw, if description.Some? then description.value else name;
      var card := if display.Some? then display.value.card else None;
      (if Seen(es, id)
       then [ToolCallUpdate(id, Some(title), Some(ToolKind(name)), Some(InProgress), card, Some(args))]
       else [ToolCall(id, title, ToolKind(name), InProgress, card, args)])
      + (if display.Some? && display.value.plan.Some? then [Plan(display.value.plan.value)] else [])
    case Deliver(Event(true, ToolDelta(t, raw, name, part))) =>
      var id, text := Decimal(t) + ":" + raw, if part.Some? then part.value else "";
      if Seen(es, id)
      then [ToolCallUpdate(id, None, None, Some(InProgress), None, Some(Accumulated(es, raw).GetOr("") + text))]
      else [ToolCall(id, if name.Some? then name.value else "tool", if name.Some? then ToolKind(name.value)
          else "other",
                     Pending, None, text)]
    case Deliver(Event(true, ToolProgress(t, raw, Some(status)))) =>
      if status == "" then [] else [ToolCallUpdate(Decimal(t) + ":" + raw, Some(status), None, None, None, None)]
    case Deliver(Event(true, ToolResult(t, raw, isError, output))) =>
      [ToolCallUpdate(Decimal(t) + ":" + raw, None, None, Some(if isError then CallFailed else CallCompleted), None,
                      Some(output))]
    case _ => []
  }

  /** The notifications together with the event that causes them. */
  function PushesFor(es: seq<CardKind>, input: Input): seq<Push> {
    var notes := NotesFor(es, input);
    seq(|notes|, i requires 0 <= i < |notes| => Push(if input.Deliver? then input.event.kind else OtherEvent(None),
                                                     notes[i]))
  }

  /** The notifications of a whole prompt: input by input, until one has ended it. */
  ghost function SentBy(active: Option<nat>, inputs: seq<Input>): seq<Push> {
    if inputs == [] then []
    else
      var front, last := inputs[..|inputs| - 1], inputs[|inputs| - 1];
      SentBy(active, front) + if Unended(active, front) then PushesFor(CardsIn(front), last) else []
  }

  lemma ToolKindIsInferred(name: string)
    ensures InferToolKind(name) == ToolKind(name)
  {
  }

  lemma {:induction false} CardsUntilEnded(active: Option<nat>, inputs: seq<Input>)
    requires Unended(active, inputs)
    ensures CardEvents(active, inputs) == CardsIn(inputs)
  {
    if inputs != [] {
      var n := |inputs| - 1;
      UnendedPrefix(active, inputs, n);
      UnendedIffOpen(active, inputs[..n]);
      hide Run, Unended, Ends, IsCardInput;
      CardsUntilEnded(active, inputs[..n]);
    }
  }

  /** Card ids and accumulated texts, as the events alone give them. */
  ghost predicate Knows(b: Bridge, es: seq<CardKind>) {
    && (forall id :: id in b.created <==> Seen(es, id))
    && (forall raw :: (if raw in b.args then Some(b.args[raw]) else None) == Accumulated(es, raw))
  }

  lemma StartedSends(b: Bridge, es: seq<CardKind>, e: Event)
    requires Knows(b, es) && e.main && e.kind.ToolStarted?
    ensures OnStarted(b, e.kind).sent == b.sent + PushesFor(es, Deliver(e))
  {
    hide Decimal, Seen, Accumulated, InferToolKind, ToolKind;
    ToolKindIsInferred(e.kind.name);
    assert WireOf(e.kind) == Decimal(e.kind.toolTurn) + ":" + e.kind.toolCallId;
    assert WireOf(e.kind) in b.created <==> Seen(es, WireOf(e.kind));
  }

  lemma DeltaSends(b: Bridge, es: seq<CardKind>, e: Event)
    requires Knows(b, es) && e.main && e.kind.ToolDelta?
    ensures OnDelta(b, e.kind).sent == b.sent + PushesFor(es, Deliver(e))
  {
    hide Decimal, Seen, Accumulated;
    var k := e.kind;
    NoKindWithoutName();
    if k.deltaName.Some? { ToolKindIsInferred(k.deltaName.value); }
    hide InferToolKind, ToolKind;
    assert WireOf(k) == Decimal(k.toolTurn) + ":" + k.toolCallId;
    assert WireOf(k) in b.created <==> Seen(es, WireOf(k));
    assert Accumulated(es, k.toolCallId).GetOr("") == if k.toolCallId in b.args then b.args[k.toolCallId] else "";
  }

  lemma NoKindWithoutName()
    ensures ToolKind("") == "other"
  {
  }

  predicate SendsOne(input: Input) {
    && input.Deliver? && input.event.main
    && (input.event.kind.AssistantDelta? || input.event.kind.ThinkingDelta? || input.event.kind.ToolProgress?
        || input.event.kind.ToolResult?)
  }

  lemma ChunkSends(b: Bridge, es: seq<CardKind>, e: Event)
    requires SendsOne(Deliver(e))
    ensures Handle(b, e).sent == b.sent + PushesFor(es, Deliver(e))
  {
    hide Decimal, OnStarted, OnDelta, TurnOf, Seen, Accumulated;
    assert b.sent + [] == b.sent;
  }

  lemma QuietSends(b: Bridge, es: seq<CardKind>, input: Input)
    requires !SendsOne(input) && !IsToolInput(input)
    ensures Step(b, input).sent == b.sent && PushesFor(es, input) == []
  {
    hide Decimal, OnStarted, OnDelta, TurnOf, Seen, Accumulated;
  }

  lemma OtherSends(b: Bridge, es: seq<CardKind>, input: Input)
    requires Consistent(b) && b.outcome.None? && !IsToolInput(input)
    ensures Step(b, input).sent == b.sent + PushesFor(es, input)
  {
    hide Handle, PushesFor;
    if SendsOne(input) {
      ChunkSends(b, es, input.event);
    } else {
      QuietSends(b, es, input);
      assert b.sent + [] == b.sent;
    }
  }

  lemma StepSends(b: Bridge, es: seq<CardKind>, input: Input)
    requires Consistent(b) && b.outcome.None? && Knows(b, es)
    ensures Step(b, input).sent == b.sent + PushesFor(es, input)
  {
    hide PushesFor, OnStarted, OnDelta, Seen, Accumulated, TurnOf;
    if IsToolInput(input) {
      var b1 := Track(b, input.event);
      if input.event.kind.ToolStarted? { StartedSends(b1, es, input.event); } else { DeltaSends(b1, es, input.event); }
    } else {
      OtherSends(b, es, input);
      hide Step;
    }
  }

  /**
   Every notification of a prompt, in order: which chunks of text and thought, which creates and updates with all
   their fields, which plans, for any sequence of inputs, and nothing behind the input that ends it.
   */
  lemma {:induction false} SendsExactly(active: Option<nat>, inputs: seq<Input>)
    ensures Run(active, inputs).sent == SentBy(active, inputs)
  {
    if inputs == [] {
      assert Run(active, inputs).sent == [];
    } else {
      var n := |inputs| - 1;
      var front, last := inputs[..n], inputs[n];
      SendsExactly(active, front);
      AnsweredAtMostOnce(active, front);
      UnendedIffOpen(active, front);
      var b := Run(active, front);
      hide PushesFor, Step, Consistent, Unended, CardsIn;
      if b.outcome.None? {
        CardsUntilEnded(active, front);
        RunAgrees(active, front);
        assert Knows(b, CardsIn(front));
        StepSends(b, CardsIn(front), last);
      } else {
        StepKeepsConsistent(b, last);
        assert SentBy(active, front) + [] == SentBy(active, front);
      }
    }
  }

  // ---------------------------------------------------------------- the turn that approvals belong to

  predicate CarriesTurn(kind: Kind, t: nat) {
    || kind == TurnStarted(t) || (kind.TurnEnded? && kind.endedTurn == t)
    || (kind.ErrorEvent? && kind.errorTurn == Some(t)) || kind == OtherEvent(Some(t))
    || (kind.AssistantDelta? && kind.assistantTurn == t) || (kind.ThinkingDelta? && kind.thinkingTurn == t)
    || ((kind.ToolStarted? || kind.ToolDelta? || kind.ToolProgress? || kind.ToolResult?) && kind.toolTurn == t)
  }

  predicate Carries(input: Input, t: nat) {
    input.Deliver? && input.event.main && CarriesTurn(input.event.kind, t)
  }

  lemma TurnOfIff(kind: Kind, t: nat)
    ensures TurnOf(kind) == Some(t) <==> CarriesTurn(kind, t)
  {
  }

  /** The turn of the last main-agent event that carries one, or `active` if none does. */
  ghost predicate LastTurnIs(active: Option<nat>, inputs: seq<Input>, turn: Option<nat>) {
    || (turn == active && forall i, t :: 0 <= i < |inputs| ==> !Carries(inputs[i], t))
    || (turn.Some? && exists k :: 0 <= k < |inputs| && Carries(inputs[k], turn.value)
                                  && forall i, t :: k < i < |inputs| ==> !Carries(inputs[i], t))
  }

  lemma StepTracks(b: Bridge, input: Input)
    requires Consistent(b) && b.outcome.None? && Step(b, input).outcome.None?
    ensures Step(b, input).currentTurnId ==
            if input.Deliver? && input.event.main && TurnOf(input.event.kind).Some? then TurnOf(input.event.kind)
            else b.currentTurnId
  {
    hide TurnOf, AcpToolCallId, StartNote, UpgradeNote, LazyCreateNote;
  }

  lemma LastTurnSnoc(active: Option<nat>, front: seq<Input>, last: Input, turn: Option<nat>)
    requires LastTurnIs(active, front, turn)
    ensures LastTurnIs(active, front + [last],
              if last.Deliver? && last.event.main && TurnOf(last.event.kind).Some? then TurnOf(last.event.kind)
              else turn)
  {
    var inputs, n := front + [last], |front|;
    if last.Deliver? && last.event.main && TurnOf(last.event.kind).Some? {
      TurnOfIff(last.event.kind, TurnOf(last.event.kind).value);
      assert Carries(inputs[n], TurnOf(last.event.kind).value);
    } else {
      forall t ensures !Carries(last, t) { if last.Deliver? { TurnOfIff(last.event.kind, t); } }
      hide Carries, TurnOf;
      assert forall i :: 0 <= i < n ==> inputs[i] == front[i];
      assert inputs[n] == last;
      if turn.Some? && exists k :: 0 <= k < |front| && Carries(front[k], turn.value)
                                   && forall i, t :: k < i < |front| ==> !Carries(front[i], t) {
        var k :| 0 <= k < |front| && Carries(front[k], turn.value)
                 && forall i, t :: k < i < |front| ==> !Carries(front[i], t);
        assert Carries(inputs[k], turn.value);
      }
    }
  }

  /** While the prompt is open the bridge knows the turn of the last event that carried one. */
  lemma {:induction false} TracksTheTurn(active: Option<nat>, inputs: seq<Input>)
    requires Unended(active, inputs)
    ensures LastTurnIs(active, inputs, Run(active, inputs).currentTurnId)
  {
    if inputs != [] {
      var n := |inputs| - 1;
      UnendedPrefix(active, inputs, n);
      UnendedIffOpen(active, inputs[..n]);
      UnendedIffOpen(active, inputs);
      AnsweredAtMostOnce(active, inputs[..n]);
      hide Unended, Ends, Step, LastTurnIs, Consistent, TurnOf;
      TracksTheTurn(active, inputs[..n]);
      StepTracks(Run(active, inputs[..n]), inputs[n]);
      LastTurnSnoc(active, inputs[..n], inputs[n], Run(active, inputs[..n]).currentTurnId);
      assert inputs == inputs[..n] + [inputs[n]];
    }
  }

  lemma StepCleans(b: Bridge, input: Input)
    requires Consistent(b) && b.outcome.None? && Step(b, input).outcome.Some?
    ensures var b' := Step(b, input);
            if input.KickFails?
            then b'.args == b.args && b'.created == b.created && b'.currentTurnId == b.currentTurnId
            else b'.args == map[] && b'.created == {} && b'.currentTurnId == None
  {
    hide TurnOf, AcpToolCallId, OnStarted, OnDelta;
    if input.Deliver? && IsToolInput(input) {
      ToolHandlersKeepOpen(Track(b, input.event), input.event.kind);
    }
  }

  /** An event that ends the prompt clears accumulator, cards and turn; a failed kick leaves them as they were. */
  lemma EndingCleansUp(active: Option<nat>, inputs: seq<Input>, k: nat)
    requires k < |inputs| && Ends(active, inputs, k) && forall j :: 0 <= j < k ==> !Ends(active, inputs, j)
    ensures var b, b' := Run(active, inputs[..k]), Run(active, inputs);
            if inputs[k].KickFails?
            then b'.args == b.args && b'.created == b.created && b'.currentTurnId == b.currentTurnId
            else b'.args == map[] && b'.created == {} && b'.currentTurnId == None
  {
    var answer :| EndsWith(active, inputs, k, answer);
    hide Run, Step, EndsWith, Ends, Consistent;
    AnsweredBy(active, inputs, k, answer);
    AnsweredAtMostOnce(active, inputs[..k]);
    RunSnoc(active, inputs, k);
    StepCleans(Run(active, inputs[..k]), inputs[k]);
  }
}
