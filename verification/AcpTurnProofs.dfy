/** What a client that follows the notifications of one prompt can rely on. */
module AcpTurnProofs {
  import opened Basics
  import opened WireId
  import opened AcpTurn

  // ---------------------------------------------------------------- settling once

  /** The flag, the subscription and the promise tell the same story, and the promise was answered at most once. */
  predicate Consistent(b: Bridge) {
    && (b.settled <==> b.outcome.Some?)
    && (b.subscribed <==> b.outcome.None?)
    && b.answers == if b.outcome.Some? then 1 else 0
  }

  lemma StepKeepsConsistent(b: Bridge, input: Input)
    requires Consistent(b)
    ensures Consistent(Step(b, input))
    ensures b.outcome.Some? ==> Step(b, input) == b
  {
    hide AcpToolCallId;
  }

  /**
   For every sequence of events and a failed kick: the promise is answered at most once, the listener is
   gone exactly from then on, and that is what keeps the branches silent that do not look at `settled`.
   */
  lemma {:induction false} AnsweredAtMostOnce(active: Option<nat>, inputs: seq<Input>)
    ensures Consistent(Run(active, inputs))
  {
    if inputs != [] {
      hide Step, Consistent;
      AnsweredAtMostOnce(active, inputs[..|inputs| - 1]);
      StepKeepsConsistent(Run(active, inputs[..|inputs| - 1]), inputs[|inputs| - 1]);
    } else {
      NothingAnswered(active);
    }
  }

  lemma NothingAnswered(active: Option<nat>)
    ensures Consistent(Run(active, []))
  {
  }

  // ---------------------------------------------------------------- create once, before updates

  predicate Creates(p: Push, id: string) { p.note.ToolCall? && p.note.id == id }

  predicate HasCard(sent: seq<Push>, id: string) { exists i :: 0 <= i < |sent| && Creates(sent[i], id) }

  /** No wire id is created twice, and every update from a delta or started event comes after its create. */
  predicate CardsInOrder(sent: seq<Push>) {
    && (forall i, j :: 0 <= i < j < |sent| && sent[i].note.ToolCall? ==> !Creates(sent[j], sent[i].note.id))
    && (forall j :: 0 <= j < |sent| && sent[j].note.ToolCallUpdate? && IsTool(sent[j].cause) ==>
          HasCard(sent[..j], sent[j].note.id))
  }

  ghost predicate CreatedIsKnown(b: Bridge) {
    b.outcome.None? ==> forall id :: id in b.created <==> HasCard(b.sent, id)
  }

  lemma HasCardSnoc(sent: seq<Push>, p: Push, id: string)
    ensures HasCard(sent + [p], id) <==> HasCard(sent, id) || Creates(p, id)
  {
    var all := sent + [p];
    if HasCard(sent, id) {
      var i :| 0 <= i < |sent| && Creates(sent[i], id);
      assert all[i] == sent[i];
    }
    if Creates(p, id) { assert all[|sent|] == p; }
  }

  lemma SendInOrder(sent: seq<Push>, p: Push)
    requires CardsInOrder(sent)
    requires p.note.ToolCall? ==> !HasCard(sent, p.note.id)
    requires p.note.ToolCallUpdate? && IsTool(p.cause) ==> HasCard(sent, p.note.id)
    ensures CardsInOrder(sent + [p])
    ensures forall id :: HasCard(sent + [p], id) <==> HasCard(sent, id) || Creates(p, id)
  {
    var all := sent + [p];
    forall id ensures HasCard(all, id) <==> HasCard(sent, id) || Creates(p, id) { HasCardSnoc(sent, p, id); }
    forall j | 0 <= j < |all| && all[j].note.ToolCallUpdate? && IsTool(all[j].cause)
        ensures HasCard(all[..j], all[j].note.id) {
      if j < |sent| { assert all[..j] == sent[..j]; } else { assert all[..j] == sent; }
    }
    forall i, j | 0 <= i < j < |all| && all[i].note.ToolCall? ensures !Creates(all[j], all[i].note.id) {
      if j == |sent| { assert Creates(sent[i], all[i].note.id); }
    }
  }

  /** What one input adds to the notifications: nothing, one, or a plan behind one. */
  ghost predicate Adds(b: Bridge, input: Input, added: seq<Push>) {
    && Step(b, input).sent == b.sent + added
    && |added| <= 2
    && (forall i :: 0 <= i < |added| && added[i].note.ToolCall? ==> i == 0 && added[i].note.id !in b.created)
    && (forall i :: 0 <= i < |added| && added[i].note.ToolCallUpdate? ==>
          i == 0 && (IsTool(added[i].cause) ==> added[i].note.id in b.created))
    && (Step(b, input).outcome.None? ==>
          forall id :: id in Step(b, input).created <==> id in b.created || (|added| > 0 && Creates(added[0], id)))
  }

  lemma StartedAdds(b: Bridge, k: Kind) returns (added: seq<Push>)
    requires k.ToolStarted?
    ensures OnStarted(b, k).sent == b.sent + added && 1 <= |added| <= 2 && OnStarted(b, k).outcome == b.outcome
    ensures OnStarted(b, k).created == b.created + {WireOf(k)}
    ensures added[0].note == if WireOf(k) in b.created then UpgradeNote(k) else StartNote(k)
    ensures |added| == 2 ==> added[1].note.Plan?
  {
    hide AcpToolCallId;
    added := [Push(k, if WireOf(k) in b.created then UpgradeNote(k) else StartNote(k))];
    if k.display.Some? && k.display.value.plan.Some? { added := added + [Push(k, Plan(k.display.value.plan.value))]; }
  }

  lemma DeltaAdds(b: Bridge, k: Kind) returns (p: Push)
    requires k.ToolDelta?
    ensures OnDelta(b, k).sent == b.sent + [p] && p.cause == k && OnDelta(b, k).outcome == b.outcome
    ensures OnDelta(b, k).created == b.created + {WireOf(k)}
    ensures WireOf(k) in b.created ==> p.note.ToolCallUpdate? && p.note.id == WireOf(k)
    ensures WireOf(k) !in b.created ==> p.note.ToolCall? && p.note.id == WireOf(k)
  {
    hide AcpToolCallId;
    p := OnDelta(b, k).sent[|b.sent|];
    if WireOf(k) in b.created { assert b.created + {WireOf(k)} == b.created; }
  }

  /** An event that is neither a delta nor a started one sends at most one notification, and never a create. */
  lemma OtherAdds(b: Bridge, input: Input) returns (added: seq<Push>)
    requires Consistent(b) && (!IsToolInput(input) || b.outcome.Some?)
    ensures Step(b, input).sent == b.sent + added && |added| <= 1
    ensures |added| == 1 ==> !added[0].note.ToolCall? && !IsTool(added[0].cause)
    ensures Step(b, input).outcome.None? ==> Step(b, input).created == b.created && Step(b, input).args == b.args
  {
    hide AcpToolCallId, OnStarted, OnDelta;
    if b.outcome.Some? {
      StepKeepsConsistent(b, input);
      hide Handle;
    }
    added := Step(b, input).sent[|b.sent|..];
  }

  predicate IsToolInput(input: Input) { input.Deliver? && input.event.main && IsTool(input.event.kind) }

  lemma StepAdds(b: Bridge, input: Input) returns (added: seq<Push>)
    requires Consistent(b)
    ensures Adds(b, input, added)
  {
    hide AcpToolCallId;
    if b.outcome.Some? || !IsToolInput(input) {
      added := OtherAdds(b, input);
      hide Step;
    } else {
      var b1, k := Track(b, input.event), input.event.kind;
      if k.ToolStarted? {
        added := StartedAdds(b1, k);
      } else {
        var p := DeltaAdds(b1, k);
        added := [p];
      }
      hide OnStarted, OnDelta;
    }
  }

  lemma StepInOrder(b: Bridge, input: Input)
    requires Consistent(b) && b.outcome.None? && CardsInOrder(b.sent) && CreatedIsKnown(b)
    ensures CardsInOrder(Step(b, input).sent) && CreatedIsKnown(Step(b, input))
  {
    hide Step, CardsInOrder, Consistent;
    var added := StepAdds(b, input);
    if |added| == 0 {
      assert b.sent + added == b.sent;
    } else {
      SendInOrder(b.sent, added[0]);
      if |added| == 1 {
        assert b.sent + added == b.sent + [added[0]];
      } else {
        SendInOrder(b.sent + [added[0]], added[1]);
        assert b.sent + added == b.sent + [added[0]] + [added[1]];
      }
    }
  }

  /**
   In one prompt the notifications contain at most one `tool_call` per wire id, and every
   `tool_call_update` from a delta or a started event has it in front of it.
   */
  lemma {:induction false} CreateOnceBeforeUpdates(active: Option<nat>, inputs: seq<Input>)
    ensures CardsInOrder(Run(active, inputs).sent) && CreatedIsKnown(Run(active, inputs))
  {
    if inputs != [] {
      var before := Run(active, inputs[..|inputs| - 1]);
      CreateOnceBeforeUpdates(active, inputs[..|inputs| - 1]);
      AnsweredAtMostOnce(active, inputs[..|inputs| - 1]);
      StepKeepsConsistent(before, inputs[|inputs| - 1]);
      hide Step, Consistent;
      if before.outcome.None? {
        hide CardsInOrder, CreatedIsKnown;
        StepInOrder(before, inputs[|inputs| - 1]);
      }
    }
  }

  lemma StepGrows(b: Bridge, input: Input)
    requires Consistent(b)
    ensures b.sent <= Step(b, input).sent
    ensures b.outcome.Some? ==> Step(b, input) == b
  {
    var added := StepAdds(b, input);
    StepKeepsConsistent(b, input);
    hide Step;
  }

  lemma RunSnoc(active: Option<nat>, inputs: seq<Input>, n: nat)
    requires n < |inputs|
    ensures Run(active, inputs[..n + 1]) == Step(Run(active, inputs[..n]), inputs[n])
  {
    hide Step;
    assert inputs[..n + 1][..n] == inputs[..n];
  }

  lemma {:induction false} GrowsBetween(active: Option<nat>, inputs: seq<Input>, k: nat, n: nat)
    requires k <= n <= |inputs|
    ensures Run(active, inputs[..k]).sent <= Run(active, inputs[..n]).sent
    ensures Run(active, inputs[..k]).outcome.Some? ==> Run(active, inputs[..n]) == Run(active, inputs[..k])
    decreases n
  {
    hide Run, Step;
    if k < n {
      GrowsBetween(active, inputs, k, n - 1);
      RunSnoc(active, inputs, n - 1);
      AnsweredAtMostOnce(active, inputs[..n - 1]);
      StepGrows(Run(active, inputs[..n - 1]), inputs[n - 1]);
    }
  }

  lemma SentGrows(active: Option<nat>, inputs: seq<Input>, k: nat)
    requires k <= |inputs|
    ensures Run(active, inputs[..k]).sent <= Run(active, inputs).sent
    ensures Run(active, inputs[..k]).outcome.Some? ==> Run(active, inputs) == Run(active, inputs[..k])
  {
    hide Run;
    GrowsBetween(active, inputs, k, |inputs|);
    assert inputs[..|inputs|] == inputs;
  }

  /** Every delta or started event of the main agent that arrives before the prompt settles has its `tool_call`. */
  lemma EveryToolEventHasItsCard(active: Option<nat>, inputs: seq<Input>, k: nat)
    requires k < |inputs| && IsToolInput(inputs[k]) && Run(active, inputs[..k]).outcome.None?
    ensures HasCard(Run(active, inputs).sent, WireOf(inputs[k].event.kind))
  {
    var now, id := Run(active, inputs[..k + 1]), WireOf(inputs[k].event.kind);
    assert inputs[..k + 1][..k] == inputs[..k];
    CreateOnceBeforeUpdates(active, inputs[..k + 1]);
    AnsweredAtMostOnce(active, inputs[..k]);
    assert id in now.created;
    var i :| 0 <= i < |now.sent| && Creates(now.sent[i], id);
    SentGrows(active, inputs, k + 1);
    assert Run(active, inputs).sent[i] == now.sent[i];
  }

  // ---------------------------------------------------------------- settling

  /** The prompt stays open exactly while none of the three things that end it has happened. */
  predicate KeepsOpen(active: Option<nat>, inputs: seq<Input>, k: nat)
    requires k < |inputs|
  {
    match inputs[k]
    case KickFails(_) => false
    case Deliver(e) =>
      e.main ==>
        && !e.kind.TurnEnded?
        && (e.kind.ErrorEvent? && e.kind.busy ==> OwnTurnIn(active, inputs, k))
  }

  predicate StartsOwnTurn(active: Option<nat>, input: Input) {
    input.Deliver? && input.event.main && input.event.kind.TurnStarted?
    && (active.None? || input.event.kind.startedTurn != active.value)
  }

  predicate LeavesOpen(b: Bridge, kind: Kind) {
    !kind.TurnEnded? && (kind.ErrorEvent? && kind.busy ==> b.ownTurnStarted)
  }

  lemma ToolHandlersKeepOpen(b: Bridge, k: Kind)
    ensures k.ToolStarted? ==>
              var b' := OnStarted(b, k);
              b'.outcome == b.outcome && b'.activeAtStart == b.activeAtStart && b'.ownTurnStarted == b.ownTurnStarted
    ensures k.ToolDelta? ==>
              var b' := OnDelta(b, k);
              b'.outcome == b.outcome && b'.activeAtStart == b.activeAtStart && b'.ownTurnStarted == b.ownTurnStarted
  {
    hide AcpToolCallId;
  }

  /** What one input means for an open bridge. */
  lemma StepKeepsOpen(b: Bridge, input: Input)
    requires Consistent(b) && b.outcome.None?
    ensures var b' := Step(b, input);
            && b'.activeAtStart == b.activeAtStart
            && (b'.outcome.None? <==>
                  input.Deliver? && (input.event.main ==> LeavesOpen(b, input.event.kind)))
            && (b'.outcome.None? ==> (b'.ownTurnStarted <==> b.ownTurnStarted || StartsOwnTurn(b.activeAtStart, input)))
  {
    hide AcpToolCallId, OnStarted, OnDelta;
    if IsToolInput(input) { ToolHandlersKeepOpen(Track(b, input.event), input.event.kind); }
  }

  predicate OwnTurnIn(active: Option<nat>, inputs: seq<Input>, k: nat)
    requires k <= |inputs|
  {
    exists j :: 0 <= j < k && StartsOwnTurn(active, inputs[j])
  }

  lemma OwnTurnPrefix(active: Option<nat>, inputs: seq<Input>, n: nat, k: nat)
    requires k <= n <= |inputs|
    ensures OwnTurnIn(active, inputs[..n], k) <==> OwnTurnIn(active, inputs, k)
  {
    assert forall j :: 0 <= j < k ==> inputs[..n][j] == inputs[j];
  }

  lemma OwnTurnSnoc(active: Option<nat>, inputs: seq<Input>, k: nat)
    requires k < |inputs|
    ensures OwnTurnIn(active, inputs, k + 1) <==> OwnTurnIn(active, inputs, k) || StartsOwnTurn(active, inputs[k])
  {
  }

  lemma {:induction false} OpenExactlyWhile(active: Option<nat>, inputs: seq<Input>)
    ensures var b := Run(active, inputs);
            && b.activeAtStart == active
            && (b.outcome.None? <==> forall k :: 0 <= k < |inputs| ==> KeepsOpen(active, inputs, k))
            && (b.outcome.None? ==> (b.ownTurnStarted <==> OwnTurnIn(active, inputs, |inputs|)))
  {
    if inputs != [] {
      var n := |inputs| - 1;
      var front := inputs[..n];
      OpenExactlyWhile(active, front);
      AnsweredAtMostOnce(active, front);
      StepKeepsConsistent(Run(active, front), inputs[n]);
      hide Consistent, Step, OwnTurnIn, StartsOwnTurn;
      forall k | 0 <= k < n ensures KeepsOpen(active, inputs, k) <==> KeepsOpen(active, front, k) {
        OwnTurnPrefix(active, inputs, n, k);
      }
      OwnTurnPrefix(active, inputs, n, n);
      OwnTurnSnoc(active, inputs, n);
      if Run(active, front).outcome.None? {
        StepKeepsOpen(Run(active, front), inputs[n]);
        assert OwnTurnIn(active, front, |front|) <==> OwnTurnIn(active, inputs, n);
        assert Run(active, inputs).outcome.None? <==> KeepsOpen(active, inputs, n);
        assert forall k :: 0 <= k < n ==> KeepsOpen(active, inputs, k);
      } else {
        var k :| 0 <= k < n && !KeepsOpen(active, front, k);
        assert !KeepsOpen(active, inputs, k);
      }
    } else {
      NoOwnTurn(active);
    }
  }

  lemma NoOwnTurn(active: Option<nat>)
    ensures !OwnTurnIn(active, [], 0)
  {
  }

  /** Whatever arrives after the promise is answered, nothing more is sent and nothing changes. */
  lemma SettlesOnce(active: Option<nat>, inputs: seq<Input>, k: nat)
    requires k <= |inputs| && Run(active, inputs[..k]).outcome.Some?
    ensures Run(active, inputs) == Run(active, inputs[..k])
  {
    SentGrows(active, inputs, k);
  }
}
