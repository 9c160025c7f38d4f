/** When pushes fail: which results reach the client without the card they belong to. */
module AcpReplayDelivery {
  import opened Basics
  import opened WireId
  import opened AcpReplay
  import opened AcpReplayProofs

  /** No create that failed has another create of the same message behind it. */
  predicate FailuresEndMessages(notes: seq<Note>, failures: set<nat>) {
    forall i, k :: 0 <= i < k < |notes| && notes[i].ToolCall? && notes[k].ToolCall?
        && notes[i].turnId == notes[k].turnId
      ==> i !in failures
  }

  /** So far no create of the message being replayed has failed. */
  predicate CurrentOk(r: Replay, failures: set<nat>) {
    forall i :: 0 <= i < |r.attempts| && r.attempts[i].ToolCall? && r.attempts[i].turnId == r.turnId ==> i !in failures
  }

  /** An action of the message being replayed. */
  predicate OfTurn(a: Action, turnId: nat) { a.Emit? && a.note.ToolCall? ==> a.note.turnId == turnId }

  lemma ActionKeeps(r: Replay, a: Action, failures: set<nat>)
    requires FailuresEndMessages(r.attempts, failures) && OfTurn(a, r.turnId)
    requires CurrentOk(r, failures) || Plain(a)
    ensures FailuresEndMessages(Do(r, a).attempts, failures) && Do(r, a).turnId == r.turnId
    ensures CurrentOk(r, failures) && WentThrough(r, a, failures) ==> CurrentOk(Do(r, a), failures)
  {
  }

  lemma {:induction false} ActionsKeep(r: Replay, actions: seq<Action>, failures: set<nat>)
    requires FailuresEndMessages(r.attempts, failures)
    requires forall i :: 0 <= i < |actions| ==> OfTurn(actions[i], r.turnId)
    requires CurrentOk(r, failures) || forall i :: 0 <= i < |actions| ==> Plain(actions[i])
    ensures var (r', ok) := Perform(r, actions, failures);
            && FailuresEndMessages(r'.attempts, failures) && r'.turnId == r.turnId
            && (CurrentOk(r, failures) && ok ==> CurrentOk(r', failures))
  {
    if actions != [] {
      var front, last := actions[..|actions| - 1], actions[|actions| - 1];
      ActionsKeep(r, front, failures);
      var (before, ok) := Perform(r, front, failures);
      assert OfTurn(last, r.turnId);
      hide FailuresEndMessages, CurrentOk, OfTurn, Plain, Do, WentThrough;
      if ok { ActionKeeps(before, last, failures); }
    }
  }

  lemma {:induction false} CallsAreOfTurn(calls: seq<Call>, turnId: nat)
    ensures forall i :: 0 <= i < |CallActions(calls, turnId)| ==> OfTurn(CallActions(calls, turnId)[i], turnId)
  {
    if calls != [] { CallsAreOfTurn(calls[..|calls| - 1], turnId); }
  }

  lemma NewTurnIsClean(r: Replay, failures: set<nat>)
    requires Inv(r)
    ensures CurrentOk(r.(turnId := r.turnId + 1), failures)
  {
  }

  lemma AssistantKeeps(r: Replay, content: seq<Content>, calls: seq<Call>, failures: set<nat>)
    requires FailuresEndMessages(r.attempts, failures) && CurrentOk(r, failures)
    ensures FailuresEndMessages(Perform(r, AssistantActions(r.turnId, content, calls), failures).0.attempts, failures)
  {
    PlainActions(content);
    CallsAreOfTurn(calls, r.turnId);
    hide FailuresEndMessages, CurrentOk, ContentActions, CallActions, Perform;
    var actions := AssistantActions(r.turnId, content, calls);
    forall i | 0 <= i < |actions| ensures OfTurn(actions[i], r.turnId) {
      if i < |ContentActions(content)| { assert Plain(ContentActions(content)[i]); }
    }
    ActionsKeep(r, actions, failures);
  }

  lemma UserKeeps(r: Replay, content: seq<Content>, failures: set<nat>)
    requires FailuresEndMessages(r.attempts, failures)
    ensures FailuresEndMessages(Perform(r, UserActions(content), failures).0.attempts, failures)
  {
    PlainActions(content);
    hide FailuresEndMessages, CurrentOk, UserActions, Perform;
    ActionsKeep(r, UserActions(content), failures);
  }

  lemma MessageKeeps(r: Replay, m: Message, failures: set<nat>)
    requires Inv(r) && FailuresEndMessages(r.attempts, failures)
    ensures FailuresEndMessages(ReplayOne(r, m, failures).attempts, failures)
  {
    match m
    case User(content) => UserKeeps(r, content, failures);
    case Assistant(content, calls) =>
      NewTurnIsClean(r, failures);
      AssistantKeeps(r.(turnId := r.turnId + 1), content, calls, failures);
    case _ =>
  }

  lemma {:induction false} ReplayKeeps(history: seq<Message>, failures: set<nat>)
    ensures FailuresEndMessages(ReplayAll(history, failures).attempts, failures)
  {
    if history != [] {
      hide ReplayOne, FailuresEndMessages, Inv;
      ReplayKeeps(history[..|history| - 1], failures);
      ReplayKeepsInv(history[..|history| - 1], failures);
      MessageKeeps(ReplayAll(history[..|history| - 1], failures), history[|history| - 1], failures);
    } else {
      NothingReplayed(failures);
    }
  }

  lemma NothingReplayed(failures: set<nat>)
    ensures FailuresEndMessages(ReplayAll([], failures).attempts, failures)
  {
  }

  predicate CreateOf(note: Note, update: Note)
    requires update.ToolCallUpdate?
  {
    note.ToolCall? && Wire(note) == Wire(update)
  }

  /** The first create of the card that the update at `j` is for. */
  predicate IsFirstCreate(notes: seq<Note>, j: nat, i: nat)
    requires j < |notes| && notes[j].ToolCallUpdate?
  {
    i < j && CreateOf(notes[i], notes[j]) && forall k :: 0 <= k < i ==> !CreateOf(notes[k], notes[j])
  }

  /** The client has received the card before the update at `j`. */
  predicate HasDeliveredCreate(notes: seq<Note>, failures: set<nat>, j: nat)
    requires j < |notes| && notes[j].ToolCallUpdate?
  {
    exists k :: 0 <= k < j && k !in failures && CreateOf(notes[k], notes[j])
  }

  lemma {:induction false} LeastCreate(notes: seq<Note>, j: nat, k: nat) returns (i: nat)
    requires j < |notes| && notes[j].ToolCallUpdate? && k < j && CreateOf(notes[k], notes[j])
    ensures i <= k && IsFirstCreate(notes, j, i)
    decreases k
  {
    if m: nat :| m < k && CreateOf(notes[m], notes[j]) {
      i := LeastCreate(notes, j, m);
    } else {
      i := k;
    }
  }

  /**
   Exactly when a result finds its card: if the push of the card's first create went through.  A create
   that fails ends its message, so nothing later makes up for it, although the result is still sent.
   */
  lemma DeliveredCreateIff(history: seq<Message>, failures: set<nat>, j: nat) returns (i: nat)
    requires j < |ReplayAll(history, failures).attempts| && ReplayAll(history, failures).attempts[j].ToolCallUpdate?
    ensures var notes := ReplayAll(history, failures).attempts;
            IsFirstCreate(notes, j, i) && (HasDeliveredCreate(notes, failures, j) <==> i !in failures)
  {
    var notes := ReplayAll(history, failures).attempts;
    UpdatesFollowTheirCreate(history, failures);
    var k :| 0 <= k < j && notes[k].ToolCall? && Wire(notes[k]) == Wire(notes[j]);
    assert CreateOf(notes[k], notes[j]);
    i := LeastCreate(notes, j, k);
    ReplayKeeps(history, failures);
    hide ReplayAll, FailuresEndMessages, AcpToolCallId;
    if HasDeliveredCreate(notes, failures, j) {
      var d :| 0 <= d < j && d !in failures && CreateOf(notes[d], notes[j]);
      WireIdIsInjective(notes[i].turnId, notes[i].toolCallId, notes[d].turnId, notes[d].toolCallId);
      if i < d { FailureEnds(notes, failures, i, d); }
    }
  }

  lemma FailureEnds(notes: seq<Note>, failures: set<nat>, i: nat, k: nat)
    requires FailuresEndMessages(notes, failures) && i < k < |notes|
    requires notes[i].ToolCall? && notes[k].ToolCall? && notes[i].turnId == notes[k].turnId
    ensures i !in failures
  {
  }

  /** A result that does reach a client without its card: the one call of a message, its create lost. */
  lemma ResultWithoutCard(id: string, name: string)
    requires id != ""
    ensures var notes := ReplayAll([Assistant([], [Call(id, name, None)]), Tool(Some(id), false, [])], {0}).attempts;
            |notes| == 2 && notes[1].ToolCallUpdate? && !HasDeliveredCreate(notes, {0}, 1)
  {
    var call, result := Assistant([], [Call(id, name, None)]), Tool(Some(id), false, []);
    var history := [call, result];
    assert history[..1] == [call] && [call][..0] == [];
    assert ContentActions([])
        + CallActions([Call(id, name, None)], 1) == [Record(id), Emit(ToolCall(1, id, name, None))] by {
      assert [Call(id, name, None)][..0] == [];
    }
    var r1 := BEGIN.(turnId := 1);
    PerformSnoc(r1, [], Record(id), {0});
    assert [] + [Record(id)] == [Record(id)];
    PerformSnoc(r1, [Record(id)], Emit(ToolCall(1, id, name, None)), {0});
    assert [Record(id)] + [Emit(ToolCall(1, id, name, None))] == [Record(id), Emit(ToolCall(1, id, name, None))];
    assert ReplayAll([call], {0}) == Replay(1, map[id := 1], [ToolCall(1, id, name, None)]);
  }
}
