/** Everything a replay sends when pushes may fail, and which call a result belongs to. */
module AcpReplayOwners {
  import opened Basics
  import opened AcpReplay
  import opened AcpReplayContent
  import opened AcpReplayProofs

  function OwnerOf(r: Replay, id: string): Option<nat> { if id in r.owners then Some(r.owners[id]) else None }

  /** Call number `k` of a message is recorded if every push in front of it went through. */
  predicate Records(first: nat, calls: seq<Call>, id: string, failures: set<nat>) {
    exists k :: 0 <= k < |calls| && calls[k].id == id && AllThrough(first, k, failures)
  }

  lemma RecordsSnoc(first: nat, front: seq<Call>, last: Call, id: string, failures: set<nat>)
    ensures Records(first, front + [last], id, failures) <==>
            Records(first, front, id, failures) || (last.id == id && AllThrough(first, |front|, failures))
  {
    hide AllThrough;
    var all := front + [last];
    if k :| 0 <= k < |front| && front[k].id == id && AllThrough(first, k, failures) {
      assert all[k].id == id;
    }
    if last.id == id && AllThrough(first, |front|, failures) { assert all[|front|].id == id; }
    if k :| 0 <= k < |all| && all[k].id == id && AllThrough(first, k, failures) {
      if k < |front| { assert front[k].id == id; }
    }
  }

  lemma {:induction false} CallsRecord(r: Replay, calls: seq<Call>, failures: set<nat>)
    ensures var (r', ok) := Perform(r, CallActions(calls, r.turnId), failures);
            && r'.turnId == r.turnId
            && (ok <==> AllThrough(|r.attempts|, |calls|, failures))
            && (ok ==> |r'.attempts| == |r.attempts| + |calls|)
            && forall id :: OwnerOf(r', id) ==
                 if Records(|r.attempts|, calls, id, failures) then Some(r.turnId) else OwnerOf(r, id)
  {
    if calls != [] {
      var front, last := calls[..|calls| - 1], calls[|calls| - 1];
      CallsRecord(r, front, failures);
      TwoActions(r, CallActions(front, r.turnId), last.id, ToolCall(r.turnId, last.id, last.name, last.arguments),
            failures);
      ThroughSnoc(|r.attempts|, |front|, failures);
      assert calls == front + [last];
      hide AllThrough, Records, Perform;
      forall id
        ensures Records(|r.attempts|, calls, id, failures) <==>
                Records(|r.attempts|, front, id, failures)
                || (last.id == id && AllThrough(|r.attempts|, |front|, failures))
      {
        RecordsSnoc(|r.attempts|, front, last, id, failures);
      }
    }
  }

  lemma {:induction false} PlainRecordsNothing(r: Replay, actions: seq<Action>, failures: set<nat>)
    requires forall i :: 0 <= i < |actions| ==> Plain(actions[i])
    ensures var r' := Perform(r, actions, failures).0; r'.turnId == r.turnId && r'.owners == r.owners
  {
    if actions != [] { PlainRecordsNothing(r, actions[..|actions| - 1], failures); }
  }

  /** The message, replayed when `first` pushes have been made, records a call under the id. */
  predicate RecordsIn(first: nat, m: Message, id: string, failures: set<nat>) {
    && m.Assistant?
    && AllThrough(first, |ContentNotes(m.content)|, failures)
    && Records(first + |ContentNotes(m.content)|, m.toolCalls, id, failures)
  }

  lemma MessageRecords(r: Replay, m: Message, failures: set<nat>)
    ensures var r' := ReplayOne(r, m, failures);
            forall id :: OwnerOf(r', id) ==
              if RecordsIn(|r.attempts|, m, id, failures) then Some(r.turnId + 1) else OwnerOf(r, id)
  {
    hide Perform, AllThrough, Records, ContentActions, CallActions, UserActions, ContentNotes;
    match m
    case User(content) =>
      PlainActions(content);
      PlainRecordsNothing(r, UserActions(content), failures);
    case Assistant(content, calls) =>
      var r1 := r.(turnId := r.turnId + 1);
      PlainActions(content);
      PlainRecordsNothing(r1, ContentActions(content), failures);
      PerformSends(r1, ContentActions(content), failures);
      ContentActionsEmit(content);
      PerformConcat(r1, ContentActions(content), CallActions(calls, r1.turnId), failures);
      CallsRecord(Perform(r1, ContentActions(content), failures).0, calls, failures);
    case _ =>
  }

  /**
   The latest assistant message that recorded the id, by its number: all its pushes in front of that call
   went through.
   */
  function LatestOwner(history: seq<Message>, failures: set<nat>, id: string): Option<nat>
    decreases |history|, 1
  {
    if history == [] then None
    else
      var front, last := history[..|history| - 1], history[|history| - 1];
      if RecordsIn(|SentFor(front, failures)|, last, id, failures) then Some(Turns(history))
      else LatestOwner(front, failures, id)
  }

  /** The message whose call a message is the result of. */
  function Owner(front: seq<Message>, m: Message, failures: set<nat>): Option<nat>
    decreases |front|, 2
  {
    if m.Tool? && m.toolCallId.Some? && m.toolCallId.value != "" then LatestOwner(front, failures, m.toolCallId.value)
    else None
  }

  /** What a whole history sends: message by message what it stands for, up to the first push that fails. */
  function SentFor(history: seq<Message>, failures: set<nat>): seq<Note>
    decreases |history|, 0
  {
    if history == [] then []
    else
      var front, last := history[..|history| - 1], history[|history| - 1];
      var before := SentFor(front, failures);
      before + Upto(|before|, MessageNotes(last, Turns(history), Owner(front, last, failures)), failures)
  }

  ghost predicate Replays(r: Replay, history: seq<Message>, failures: set<nat>) {
    && r.attempts == SentFor(history, failures) && r.turnId == Turns(history)
    && forall id :: OwnerOf(r, id) == LatestOwner(history, failures, id)
  }

  lemma SentSnoc(front: seq<Message>, last: Message, failures: set<nat>)
    ensures var before, turn := SentFor(front, failures), Turns(front + [last]);
            && SentFor(front + [last], failures)
                 == before + Upto(|before|, MessageNotes(last, turn, Owner(front, last, failures)), failures)
            && turn == Turns(front) + if last.Assistant? then 1 else 0
  {
    hide Upto, MessageNotes, Owner;
    assert (front + [last])[..|front|] == front;
  }

  lemma LatestSnoc(front: seq<Message>, last: Message, failures: set<nat>, id: string)
    ensures LatestOwner(front + [last], failures, id) ==
            if RecordsIn(|SentFor(front, failures)|, last, id, failures) then Some(Turns(front + [last]))
            else LatestOwner(front, failures, id)
  {
    hide RecordsIn, SentFor;
    assert (front + [last])[..|front|] == front;
  }

  /** The turn number and the owner that a message's notes take from the replay are those of the history. */
  lemma SameNotes(r: Replay, front: seq<Message>, m: Message, failures: set<nat>, owner: Option<nat>)
    requires r.turnId == Turns(front) && forall id :: OwnerOf(r, id) == LatestOwner(front, failures, id)
    requires owner == if m.Tool? && m.toolCallId.Some? && m.toolCallId.value != "" && m.toolCallId.value in r.owners
                      then Some(r.owners[m.toolCallId.value]) else None
    ensures MessageNotes(m, r.turnId + 1, owner) == MessageNotes(m, Turns(front + [m]), Owner(front, m, failures))
  {
    hide Turns, LatestOwner, UserNotes, ContentNotes, CallNotes;
    SentSnoc(front, m, failures);
    if m.Tool? && m.toolCallId.Some? {
      assert OwnerOf(r, m.toolCallId.value) == LatestOwner(front, failures, m.toolCallId.value);
    }
  }

  lemma MessageReplays(r: Replay, front: seq<Message>, last: Message, failures: set<nat>)
    requires Replays(r, front, failures)
    ensures Replays(ReplayOne(r, last, failures), front + [last], failures)
  {
    var owner := if last.Tool? && last.toolCallId.Some? && last.toolCallId.value != ""
                    && last.toolCallId.value in r.owners
                 then Some(r.owners[last.toolCallId.value]) else None;
    MessageSends(r, last, failures);
    SentSnoc(front, last, failures);
    SameNotes(r, front, last, failures, owner);
    OwnersReplay(r, front, last, failures);
    hide ReplayOne, RecordsIn, Upto, LatestOwner, Owner, SentFor, Turns, MessageNotes, OwnerOf;
  }

  lemma OwnersReplay(r: Replay, front: seq<Message>, last: Message, failures: set<nat>)
    requires Replays(r, front, failures)
    ensures forall id ::
              OwnerOf(ReplayOne(r, last, failures), id) == LatestOwner(front + [last], failures, id)
  {
    var r' := ReplayOne(r, last, failures);
    MessageRecords(r, last, failures);
    SentSnoc(front, last, failures);
    hide ReplayOne, RecordsIn, Upto, LatestOwner, Owner, SentFor, Turns, MessageNotes, OwnerOf;
    forall id ensures OwnerOf(r', id) == LatestOwner(front + [last], failures, id) {
      LatestSnoc(front, last, failures, id);
      assert OwnerOf(r, id) == LatestOwner(front, failures, id);
      if RecordsIn(|r.attempts|, last, id, failures) { RecordsMeansAssistant(|r.attempts|, last, id, failures); }
    }
  }

  lemma RecordsMeansAssistant(first: nat, m: Message, id: string, failures: set<nat>)
    requires RecordsIn(first, m, id, failures)
    ensures m.Assistant?
  {
  }

  /**
   A whole replay, whatever pushes fail: each message sends the chunks of its nonempty parts, then its creates, or
   its result, up to its first push that fails; and the calls on record are the latest whose push was tried.
   */
  lemma {:induction false} ReplaysExactly(history: seq<Message>, failures: set<nat>)
    ensures ReplayAll(history, failures).attempts == SentFor(history, failures)
    ensures Replays(ReplayAll(history, failures), history, failures)
  {
    if history == [] {
      NothingOwned(failures);
    } else {
      var front, last := history[..|history| - 1], history[|history| - 1];
      ReplaysExactly(front, failures);
      assert history == front + [last];
      hide ReplayOne, Replays;
      MessageReplays(ReplayAll(front, failures), front, last, failures);
      SendsAgree(ReplayAll(history, failures), history, failures);
    }
  }

  lemma SendsAgree(r: Replay, history: seq<Message>, failures: set<nat>)
    requires Replays(r, history, failures)
    ensures r.attempts == SentFor(history, failures)
  {
  }

  lemma NothingOwned(failures: set<nat>)
    ensures Replays(ReplayAll([], failures), [], failures)
  {
  }

  /** The chunks the messages of a history stand for, and the creates. */
  function ChunksOf(history: seq<Message>): seq<Note> {
    if history == [] then []
    else
      ChunksOf(history[..|history| - 1])
        + match history[|history| - 1]
          case User(content) => UserNotes(content)
          case Assistant(content, _) => ContentNotes(content)
          case _ => []
  }

  function CreatesOf(history: seq<Message>): seq<Note> {
    if history == [] then []
    else
      CreatesOf(history[..|history| - 1])
        + match history[|history| - 1]
          case Assistant(_, calls) => CallNotes(calls, Turns(history))
          case _ => []
  }

  lemma {:induction false} SentWithoutFailures(history: seq<Message>)
    ensures Chunks(SentFor(history, {})) == ChunksOf(history)
    ensures Creates(SentFor(history, {})) == CreatesOf(history)
  {
    if history != [] {
      var front, last := history[..|history| - 1], history[|history| - 1];
      SentWithoutFailures(front);
      var before, notes := SentFor(front, {}), MessageNotes(last, Turns(history), Owner(front, last, {}));
      UptoAll(|before|, notes);
      SortedConcat(before, notes);
      MessageSorted(last, Turns(history), Owner(front, last, {}));
      hide Chunks, Creates, MessageNotes, Owner, Upto, UserNotes, ContentNotes, CallNotes;
    }
  }

  /**
   When every push goes through, the chunks sent are exactly the nonempty parts of all user and assistant messages
   in order, and the creates exactly their calls.
   */
  lemma NothingIsLeftOut(history: seq<Message>)
    ensures Chunks(ReplayAll(history, {}).attempts) == ChunksOf(history)
    ensures Creates(ReplayAll(history, {}).attempts) == CreatesOf(history)
  {
    ReplaysExactly(history, {});
    SentWithoutFailures(history);
    hide ReplayAll, SentFor, Chunks, Creates, ChunksOf, CreatesOf;
  }

  /**
   Whatever pushes fail, a result is sent for the latest assistant message in front of it that issued its id
   and all whose pushes before that call went through, and for none if there is no such message.
   */
  lemma ResultGoesToLatestOwner(history: seq<Message>, failures: set<nat>, k: nat)
    requires k < |history| && history[k].Tool?
    ensures var before, m := ReplayAll(history[..k], failures).attempts, history[k];
            var owner := if m.toolCallId.Some? && m.toolCallId.value != ""
                         then LatestOwner(history[..k], failures, m.toolCallId.value) else None;
            ReplayAll(history[..k + 1], failures).attempts ==
              if owner.Some? then before + [ToolCallUpdate(owner.value, m.toolCallId.value, m.isError, m.result)]
              else before
  {
    assert history[..k + 1][..k] == history[..k];
    ReplaysExactly(history[..k], failures);
    if history[k].toolCallId.Some? {
      var id := history[k].toolCallId.value;
      assert OwnerOf(ReplayAll(history[..k], failures), id) == LatestOwner(history[..k], failures, id);
    }
    hide LatestOwner, SentFor;
  }
}
