/** What a client can rely on while a history is replayed. */
module AcpReplayProofs {
  import opened Basics
  import opened WireId
  import opened AcpReplay

  predicate HasCall(notes: seq<Note>, turnId: nat, id: string) {
    exists i :: 0 <= i < |notes| && notes[i].ToolCall? && notes[i].turnId == turnId && notes[i].toolCallId == id
  }

  predicate UpdatesHaveCalls(notes: seq<Note>) {
    forall j :: 0 <= j < |notes| && notes[j].ToolCallUpdate? ==>
        HasCall(notes[..j], notes[j].turnId, notes[j].toolCallId)
  }

  predicate CallsDistinct(notes: seq<Note>) {
    forall j :: 0 <= j < |notes| && notes[j].ToolCall? ==> !HasCall(notes[..j], notes[j].turnId, notes[j].toolCallId)
  }

  /** Every call on record has been announced, and no announced turn lies ahead. */
  predicate Inv(r: Replay) {
    && (forall id :: id in r.owners ==> HasCall(r.attempts, r.owners[id], id))
    && (forall i :: 0 <= i < |r.attempts| && r.attempts[i].ToolCall? ==> r.attempts[i].turnId <= r.turnId)
    && UpdatesHaveCalls(r.attempts)
  }

  ghost predicate NoCallsOf(notes: seq<Note>, turnId: nat) { forall id :: !HasCall(notes, turnId, id) }

  lemma HasCallSnoc(notes: seq<Note>, n: Note, turnId: nat, id: string)
    ensures HasCall(notes + [n], turnId, id) <==>
            HasCall(notes, turnId, id) || (n.ToolCall? && n.turnId == turnId && n.toolCallId == id)
  {
    var all := notes + [n];
    if HasCall(notes, turnId, id) {
      var i :| 0 <= i < |notes| && notes[i].ToolCall? && notes[i].turnId == turnId && notes[i].toolCallId == id;
      assert all[i] == notes[i];
    }
    if n.ToolCall? && n.turnId == turnId && n.toolCallId == id { assert all[|notes|] == n; }
  }

  lemma UpdatesSnoc(notes: seq<Note>, n: Note)
    requires UpdatesHaveCalls(notes) && (n.ToolCallUpdate? ==> HasCall(notes, n.turnId, n.toolCallId))
    ensures UpdatesHaveCalls(notes + [n])
  {
    hide HasCall;
    var all := notes + [n];
    forall j | 0 <= j < |all| && all[j].ToolCallUpdate? ensures HasCall(all[..j], all[j].turnId, all[j].toolCallId) {
      if j < |notes| { assert all[..j] == notes[..j]; } else { assert all[..j] == notes; }
    }
  }

  lemma DistinctSnoc(notes: seq<Note>, n: Note)
    requires CallsDistinct(notes) && (n.ToolCall? ==> !HasCall(notes, n.turnId, n.toolCallId))
    ensures CallsDistinct(notes + [n])
  {
    hide HasCall;
    var all := notes + [n];
    forall j | 0 <= j < |all| && all[j].ToolCall? ensures !HasCall(all[..j], all[j].turnId, all[j].toolCallId) {
      if j < |notes| { assert all[..j] == notes[..j]; } else { assert all[..j] == notes; }
    }
  }

  /** Announcing the notes of a call, or any note that is no call, keeps the invariant. */
  lemma EmitKeepsInv(r: Replay, n: Note)
    requires Inv(r) && (n.ToolCallUpdate? ==> HasCall(r.attempts, n.turnId, n.toolCallId))
    requires n.ToolCall? ==> n.turnId <= r.turnId
    ensures Inv(Do(r, Emit(n)))
  {
    UpdatesSnoc(r.attempts, n);
    forall id | id in r.owners
        ensures HasCall(r.attempts + [n], r.owners[id], id) { HasCallSnoc(r.attempts, n, r.owners[id], id); }
  }

  lemma AnnounceKeepsInv(r: Replay, c: Call)
    requires Inv(r)
    ensures Inv(Do(Do(r, Record(c.id)), Emit(ToolCall(r.turnId, c.id, c.name, c.arguments))))
  {
    var n := ToolCall(r.turnId, c.id, c.name, c.arguments);
    EmitKeepsInv(r, n);
    HasCallSnoc(r.attempts, n, r.turnId, c.id);
  }

  /** Actions that only emit text. */
  predicate Plain(a: Action) { a.Emit? && !a.note.ToolCall? && !a.note.ToolCallUpdate? }

  lemma {:induction false} PlainActions(content: seq<Content>)
    ensures forall i :: 0 <= i < |UserActions(content)| ==> Plain(UserActions(content)[i])
    ensures forall i :: 0 <= i < |ContentActions(content)| ==> Plain(ContentActions(content)[i])
  {
    if content != [] { PlainActions(content[..|content| - 1]); }
  }

  lemma {:induction false} PlainKeeps(r: Replay, actions: seq<Action>, failures: set<nat>)
    requires Inv(r) && forall i :: 0 <= i < |actions| ==> Plain(actions[i])
    ensures var r' := Perform(r, actions, failures).0;
            && Inv(r') && r'.turnId == r.turnId && r'.owners == r.owners
            && (CallsDistinct(r.attempts) ==> CallsDistinct(r'.attempts))
            && forall t, id :: HasCall(r'.attempts, t, id) <==> HasCall(r.attempts, t, id)
    ensures failures == {} ==> Perform(r, actions, failures).1
  {
    if actions != [] {
      var front, last := actions[..|actions| - 1], actions[|actions| - 1];
      PlainKeeps(r, front, failures);
      var (before, ok) := Perform(r, front, failures);
      if ok {
        EmitKeepsInv(before, last.note);
        if CallsDistinct(r.attempts) { DistinctSnoc(before.attempts, last.note); }
        forall t, id ensures HasCall(before.attempts + [last.note], t, id) <==> HasCall(before.attempts, t, id) {
          HasCallSnoc(before.attempts, last.note, t, id);
        }
      }
    }
  }

  predicate Issues(calls: seq<Call>, id: string) { exists i :: 0 <= i < |calls| && calls[i].id == id }

  predicate DistinctIds(calls: seq<Call>) { forall i, j :: 0 <= i < j < |calls| ==> calls[i].id != calls[j].id }

  /** Announcing the calls of one message. */
  lemma {:induction false} CallsKeep(r: Replay, calls: seq<Call>, failures: set<nat>)
    requires Inv(r)
    ensures var (r', ok) := Perform(r, CallActions(calls, r.turnId), failures);
            && Inv(r') && r'.turnId == r.turnId
            && (forall id :: HasCall(r'.attempts, r.turnId, id) ==>
                  HasCall(r.attempts, r.turnId, id) || Issues(calls, id))
            && (DistinctIds(calls) && CallsDistinct(r.attempts) && NoCallsOf(r.attempts, r.turnId)
                ==> CallsDistinct(r'.attempts))
            && (failures == {} ==> ok && forall id ::
                  (id in r'.owners <==> id in r.owners || Issues(calls, id))
                  && (Issues(calls, id) ==> id in r'.owners && r'.owners[id] == r.turnId)
                  && (!Issues(calls, id) && id in r.owners ==> r'.owners[id] == r.owners[id]))
  {
    if calls != [] {
      var front, last := calls[..|calls| - 1], calls[|calls| - 1];
      CallsKeep(r, front, failures);
      var (before, ok) := Perform(r, CallActions(front, r.turnId), failures);
      var n := ToolCall(r.turnId, last.id, last.name, last.arguments);
      TwoActions(r, CallActions(front, r.turnId), last.id, n, failures);
      assert calls == front + [last];
      forall id ensures Issues(calls, id) <==> Issues(front, id) || last.id == id { IssuesSnoc(front, last, id); }
      if ok {
        AnnounceKeepsInv(before, last);
        forall id ensures HasCall(before.attempts + [n], r.turnId, id) <==>
            HasCall(before.attempts, r.turnId, id) || last.id == id {
          HasCallSnoc(before.attempts, n, r.turnId, id);
        }
        if DistinctIds(calls) && CallsDistinct(r.attempts) && NoCallsOf(r.attempts, r.turnId) {
          assert DistinctIds(front);
          assert !Issues(front, last.id);
          DistinctSnoc(before.attempts, n);
        }
      }
    }
  }

  lemma IssuesSnoc(front: seq<Call>, last: Call, id: string)
    ensures Issues(front + [last], id) <==> Issues(front, id) || last.id == id
  {
    var all := front + [last];
    if Issues(front, id) {
      var i :| 0 <= i < |front| && front[i].id == id;
      assert all[i].id == id;
    }
    if last.id == id { assert all[|front|].id == id; }
  }

  lemma TwoActions(r: Replay, front: seq<Action>, id: string, n: Note, failures: set<nat>)
    ensures Perform(r, front + [Record(id), Emit(n)], failures) ==
            var (before, ok) := Perform(r, front, failures);
            if ok then (Do(Do(before, Record(id)), Emit(n)), |before.attempts| !in failures) else (before, false)
  {
    assert front + [Record(id), Emit(n)] == (front + [Record(id)]) + [Emit(n)];
    PerformSnoc(r, front, Record(id), failures);
    PerformSnoc(r, front + [Record(id)], Emit(n), failures);
  }

  lemma AheadIsEmpty(r: Replay)
    requires Inv(r)
    ensures NoCallsOf(r.attempts, r.turnId + 1)
    ensures Inv(r.(turnId := r.turnId + 1))
  {
  }

  /** One message, whatever pushes fail. */
  lemma MessageKeepsInv(r: Replay, m: Message, failures: set<nat>)
    requires Inv(r)
    ensures Inv(ReplayOne(r, m, failures))
    ensures CallsDistinct(r.attempts) && (m.Assistant? ==> DistinctIds(m.toolCalls)) ==>
              CallsDistinct(ReplayOne(r, m, failures).attempts)
  {
    hide Inv, HasCall, CallsDistinct;
    match m
    case User(content) =>
      PlainActions(content);
      PlainKeeps(r, UserActions(content), failures);
    case Assistant(content, calls) =>
      AheadIsEmpty(r);
      var r1 := r.(turnId := r.turnId + 1);
      PlainActions(content);
      PlainKeeps(r1, ContentActions(content), failures);
      PerformConcat(r1, ContentActions(content), CallActions(calls, r1.turnId), failures);
      var (r2, ok) := Perform(r1, ContentActions(content), failures);
      if ok { CallsKeep(r2, calls, failures); }
    case Tool(id, isError, result) =>
      if id.Some? && id.value != "" && id.value in r.owners {
        var n := ToolCallUpdate(r.owners[id.value], id.value, isError, result);
        OwnerHasCall(r, id.value);
        EmitKeepsInv(r, n);
        if CallsDistinct(r.attempts) { DistinctSnoc(r.attempts, n); }
      }
    case OtherRole =>
  }

  lemma OwnerHasCall(r: Replay, id: string)
    requires Inv(r) && id in r.owners
    ensures HasCall(r.attempts, r.owners[id], id)
  {
  }

  lemma {:induction false} ReplayKeepsInv(history: seq<Message>, failures: set<nat>)
    ensures Inv(ReplayAll(history, failures))
  {
    if history != [] {
      hide ReplayOne;
      ReplayKeepsInv(history[..|history| - 1], failures);
      MessageKeepsInv(ReplayAll(history[..|history| - 1], failures), history[|history| - 1], failures);
    }
  }

  predicate DistinctWithinMessages(history: seq<Message>) {
    forall k :: 0 <= k < |history| && history[k].Assistant? ==> DistinctIds(history[k].toolCalls)
  }

  lemma {:induction false} ReplayKeepsDistinct(history: seq<Message>, failures: set<nat>)
    requires DistinctWithinMessages(history)
    ensures CallsDistinct(ReplayAll(history, failures).attempts)
  {
    if history != [] {
      hide ReplayOne, Inv;
      var front := history[..|history| - 1];
      assert forall k :: 0 <= k < |front| ==> front[k] == history[k];
      ReplayKeepsDistinct(front, failures);
      ReplayKeepsInv(front, failures);
      MessageKeepsInv(ReplayAll(front, failures), history[|history| - 1], failures);
    }
  }

  lemma DistinctAt(notes: seq<Note>, i: nat, j: nat)
    requires CallsDistinct(notes) && i < j < |notes| && notes[i].ToolCall? && notes[j].ToolCall?
    ensures notes[i].turnId != notes[j].turnId || notes[i].toolCallId != notes[j].toolCallId
  {
    assert notes[..j][i] == notes[i];
  }

  /**
   Whatever pushes fail: every attempted update comes after an attempted create with the same wire id,
   and when ids are distinct within each message all created wire ids are distinct.
   */
  lemma UpdatesFollowTheirCreate(history: seq<Message>, failures: set<nat>)
    ensures var notes := ReplayAll(history, failures).attempts;
            && (forall j :: 0 <= j < |notes| && notes[j].ToolCallUpdate? ==>
                  exists i :: 0 <= i < j && notes[i].ToolCall? && Wire(notes[i]) == Wire(notes[j]))
            && (DistinctWithinMessages(history) ==>
                  forall i, j :: 0 <= i < j < |notes| && notes[i].ToolCall? && notes[j].ToolCall? ==>
                    Wire(notes[i]) != Wire(notes[j]))
  {
    var notes := ReplayAll(history, failures).attempts;
    ReplayKeepsInv(history, failures);
    hide AcpToolCallId;
    forall j | 0 <= j < |notes| && notes[j].ToolCallUpdate?
      ensures exists i :: 0 <= i < j && notes[i].ToolCall? && Wire(notes[i]) == Wire(notes[j])
    {
      var i :| 0 <= i < j && notes[..j][i].ToolCall? && notes[..j][i].turnId == notes[j].turnId
               && notes[..j][i].toolCallId == notes[j].toolCallId;
      assert notes[i] == notes[..j][i];
    }
    if DistinctWithinMessages(history) {
      ReplayKeepsDistinct(history, failures);
      forall i, j | 0 <= i < j < |notes| && notes[i].ToolCall? && notes[j].ToolCall?
          ensures Wire(notes[i]) != Wire(notes[j]) {
        WireIdIsInjective(notes[i].turnId, notes[i].toolCallId, notes[j].turnId, notes[j].toolCallId);
        DistinctAt(notes, i, j);
      }
    }
  }

  // ---------------------------------------------------------------- which call an update belongs to

  /** How many assistant messages there are. */
  function Turns(history: seq<Message>): nat {
    if history == [] then 0 else Turns(history[..|history| - 1]) + if history[|history| - 1].Assistant? then 1 else 0
  }

  /** The number of the latest assistant message that issued `id`. */
  function LatestIssuer(history: seq<Message>, id: string): Option<nat> {
    if history == [] then None
    else
      var last := history[|history| - 1];
      if last.Assistant? && Issues(last.toolCalls, id) then Some(Turns(history))
      else LatestIssuer(history[..|history| - 1], id)
  }

  ghost predicate OwnersAreLatest(r: Replay, history: seq<Message>) {
    && r.turnId == Turns(history)
    && forall id :: (if id in r.owners then Some(r.owners[id]) else None) == LatestIssuer(history, id)
  }

  lemma AssistantRecords(r: Replay, m: Message)
    requires Inv(r) && m.Assistant?
    ensures var r' := ReplayOne(r, m, {});
            && r'.turnId == r.turnId + 1
            && forall id ::
                 && (Issues(m.toolCalls, id) ==> id in r'.owners && r'.owners[id] == r.turnId + 1)
                 && (!Issues(m.toolCalls, id) ==> (id in r'.owners <==> id in r.owners)
                                                  && (id in r.owners ==> r'.owners[id] == r.owners[id]))
  {
    AheadIsEmpty(r);
    hide Inv, HasCall, CallsDistinct, Issues, Perform, ContentActions, CallActions, NoCallsOf;
    var r1 := r.(turnId := r.turnId + 1);
    PlainActions(m.content);
    PlainKeeps(r1, ContentActions(m.content), {});
    PerformConcat(r1, ContentActions(m.content), CallActions(m.toolCalls, r1.turnId), {});
    CallsKeep(Perform(r1, ContentActions(m.content), {}).0, m.toolCalls, {});
  }

  lemma OthersRecordNothing(r: Replay, m: Message)
    requires Inv(r) && !m.Assistant?
    ensures ReplayOne(r, m, {}).turnId == r.turnId && ReplayOne(r, m, {}).owners == r.owners
  {
    hide Inv, HasCall, CallsDistinct;
    if m.User? {
      PlainActions(m.userContent);
      PlainKeeps(r, UserActions(m.userContent), {});
    }
  }

  lemma {:induction false} ReplayKnowsLatest(history: seq<Message>)
    ensures OwnersAreLatest(ReplayAll(history, {}), history)
  {
    if history != [] {
      var front, last := history[..|history| - 1], history[|history| - 1];
      ReplayKnowsLatest(front);
      ReplayKeepsInv(front, {});
      hide ReplayOne, Inv, Issues;
      if last.Assistant? { AssistantRecords(ReplayAll(front, {}), last); }
      else { OthersRecordNothing(ReplayAll(front, {}), last); }
    }
  }

  /**
   When every push succeeds, the result of a tool is attached to the latest assistant message before it
   that issued its id, numbered by position among the assistant messages, and skipped if there is none.
   */
  lemma ResultGoesToLatestIssuer(history: seq<Message>, k: nat)
    requires k < |history| && history[k].Tool?
    ensures var before, m := ReplayAll(history[..k], {}).attempts, history[k];
            var owner := if m.toolCallId.Some? && m.toolCallId.value != ""
                then LatestIssuer(history[..k], m.toolCallId.value) else None;
            ReplayAll(history[..k + 1], {}).attempts ==
              before + if owner.Some? then [ToolCallUpdate(owner.value, m.toolCallId.value, m.isError, m.result)]
                  else []
  {
    assert history[..k + 1][..k] == history[..k];
    ReplayKnowsLatest(history[..k]);
    var r := ReplayAll(history[..k], {});
    assert r.attempts + [] == r.attempts;
  }
}
