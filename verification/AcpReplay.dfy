/** Replaying a stored history as notifications with synthetic turn numbers. */
module AcpReplay {
  import opened Basics
  import opened WireId

  datatype Content = TextContent(text: string) | ThinkContent(think: string) | MediaContent
  datatype Call = Call(id: string, name: string, arguments: Option<string>)

  datatype Message =
    | User(userContent: seq<Content>)
    | Assistant(content: seq<Content>, toolCalls: seq<Call>)
    | Tool(toolCallId: Option<string>, isError: bool, result: seq<Content>)
    | OtherRole

  datatype Note =
    | UserChunk(text: string)
    | MessageChunk(text: string)
    | ThoughtChunk(text: string)
    | ToolCall(turnId: nat, toolCallId: string, name: string, arguments: Option<string>)
    | ToolCallUpdate(turnId: nat, toolCallId: string, failed: bool, result: seq<Content>)

  /** The id under which the client knows the call. */
  function Wire(note: Note): string
    requires note.ToolCall? || note.ToolCallUpdate?
  {
    AcpToolCallId(note.turnId, note.toolCallId)
  }

  /** `attempts` are the notifications handed to the connection, delivered or not. */
  datatype Replay = Replay(turnId: nat, owners: map<string, nat>, attempts: seq<Note>)

  const BEGIN := Replay(0, map[], [])

  /** What replaying one message does, push by push; a push that fails ends the message. */
  datatype Action = Record(id: string) | Emit(note: Note)

  function UserActions(content: seq<Content>): seq<Action> {
    if content == [] then []
    else
      var last := content[|content| - 1];
      UserActions(content[..|content| - 1]) + if last.TextContent? && last.text != ""
          then [Emit(UserChunk(last.text))] else []
  }

  function ContentActions(content: seq<Content>): seq<Action> {
    if content == [] then []
    else
      var last := content[|content| - 1];
      ContentActions(content[..|content| - 1])
        + if last.TextContent? && last.text != "" then [Emit(MessageChunk(last.text))]
          else if last.ThinkContent? && last.think != "" then [Emit(ThoughtChunk(last.think))]
          else []
  }

  function CallActions(calls: seq<Call>, turnId: nat): seq<Action> {
    if calls == [] then []
    else
      var last := calls[|calls| - 1];
      CallActions(calls[..|calls| - 1], turnId)
          + [Record(last.id), Emit(ToolCall(turnId, last.id, last.name, last.arguments))]
  }

  function Do(r: Replay, a: Action): Replay {
    match a
    case Record(id) => r.(owners := r.owners[id := r.turnId])
    case Emit(note) => r.(attempts := r.attempts + [note])
  }

  /** Did the push that `a` made, if any, go through?  `failures` are the pushes that fail, counted from 0. */
  predicate WentThrough(r: Replay, a: Action, failures: set<nat>) { a.Record? || |r.attempts| !in failures }

  /** One more action, unless an earlier push failed. */
  function Next(s: (Replay, bool), a: Action, failures: set<nat>): (Replay, bool) {
    if s.1 then (Do(s.0, a), WentThrough(s.0, a, failures)) else s
  }

  function Perform(r: Replay, actions: seq<Action>, failures: set<nat>): (Replay, bool) {
    if actions == [] then (r, true)
    else Next(Perform(r, actions[..|actions| - 1], failures), actions[|actions| - 1], failures)
  }

  function AssistantActions(turnId: nat, content: seq<Content>, calls: seq<Call>): seq<Action> {
    ContentActions(content) + CallActions(calls, turnId)
  }

  function ReplayOne(r: Replay, m: Message, failures: set<nat>): Replay {
    match m
    case User(content) => Perform(r, UserActions(content), failures).0
    case Assistant(content, calls) =>
      Perform(r.(turnId := r.turnId + 1), AssistantActions(r.turnId + 1, content, calls), failures).0
    case Tool(id, isError, result) =>
      if id.Some? && id.value != "" && id.value in r.owners
      then r.(attempts := r.attempts + [ToolCallUpdate(r.owners[id.value], id.value, isError, result)])
      else r
    case OtherRole => r
  }

  function ReplayAll(history: seq<Message>, failures: set<nat>): Replay {
    if history == [] then BEGIN
    else ReplayOne(ReplayAll(history[..|history| - 1], failures), history[|history| - 1], failures)
  }

  // ---------------------------------------------------------------- the object

  class Replayer {
    var turnId: nat
    var toolCallTurnIds: map<string, nat>
    var attempts: seq<Note>
    const failures: set<nat>

    function Current(): Replay
      reads this
    {
      Replay(turnId, toolCallTurnIds, attempts)
    }

    constructor (failures: set<nat>)
      ensures Current() == BEGIN && this.failures == failures
    {
      turnId, toolCallTurnIds, attempts := 0, map[], [];
      this.failures := failures;
    }

    method SessionUpdate(note: Note) returns (ok: bool)
      modifies this`attempts
      ensures Current() == Do(old(Current()), Emit(note))
      ensures ok <==> WentThrough(old(Current()), Emit(note), failures)
    {
      ok := |attempts| !in failures;
      attempts := attempts + [note];
    }

    method ReplayUser(content: seq<Content>) returns (ok: bool)
      modifies this`attempts
      ensures (Current(), ok) == Perform(old(Current()), UserActions(content), failures)
    {
      ghost var start := Current();
      NothingPerformed(start, failures);
      hide Perform, UserActions;
      for i := 0 to |content|
        invariant (Current(), true) == Perform(start, UserActions(content[..i]), failures)
      {
        var part := content[i];
        UserStep(start, content, i, failures);
        if part.TextContent? && part.text != "" {
          ok := SessionUpdate(UserChunk(part.text));
          if !ok {
            UserStops(start, content, i + 1, failures);
            return;
          }
        }
      }
      assert content[..|content|] == content;
      ok := true;
    }

    method ReplayAssistantContent(content: seq<Content>) returns (ok: bool)
      modifies this`attempts
      ensures (Current(), ok) == Perform(old(Current()), ContentActions(content), failures)
    {
      ghost var start := Current();
      NothingPerformed(start, failures);
      hide Perform, ContentActions;
      for i := 0 to |content|
        invariant (Current(), true) == Perform(start, ContentActions(content[..i]), failures)
      {
        var part := content[i];
        ContentStep(start, content, i, failures);
        ok := true;
        if part.TextContent? && part.text != "" {
          ok := SessionUpdate(MessageChunk(part.text));
        } else if part.ThinkContent? && part.think != "" {
          ok := SessionUpdate(ThoughtChunk(part.think));
        }
        if !ok {
          ContentStops(start, content, i + 1, failures);
          return;
        }
      }
      assert content[..|content|] == content;
      ok := true;
    }

    method ReplayToolCalls(calls: seq<Call>, turn: nat) returns (ok: bool)
      requires turn == turnId
      modifies this`attempts, this`toolCallTurnIds
      ensures (Current(), ok) == Perform(old(Current()), CallActions(calls, turn), failures)
    {
      ghost var start := Current();
      NothingPerformed(start, failures);
      hide Perform, CallActions;
      for i := 0 to |calls|
        invariant turn == turnId
        invariant (Current(), true) == Perform(start, CallActions(calls[..i], turn), failures)
      {
        var call := calls[i];
        var note := ToolCall(turn, call.id, call.name, call.arguments);
        CallStep(start, calls, turn, i, failures);
        toolCallTurnIds := toolCallTurnIds[call.id := turn];
        ok := SessionUpdate(note);
        if !ok {
          CallsStop(start, calls, turn, i + 1, failures);
          return;
        }
      }
      assert calls[..|calls|] == calls;
      ok := true;
    }

    method ReplayMessage(m: Message)
      modifies this
      ensures Current() == ReplayOne(old(Current()), m, failures)
    {
      match m
      case User(content) =>
        var _ := ReplayUser(content);
      case Assistant(content, calls) =>
        turnId := turnId + 1;
        var turn := turnId;
        ghost var start := Current();
        var ok := ReplayAssistantContent(content);
        PerformConcat(start, ContentActions(content), CallActions(calls, turn), failures);
        if ok {
          var _ := ReplayToolCalls(calls, turn);
        }
      case Tool(id, isError, result) =>
        if id.None? || id.value == "" { return; }
        if id.value !in toolCallTurnIds { return; }
        var _ := SessionUpdate(ToolCallUpdate(toolCallTurnIds[id.value], id.value, isError, result));
      case OtherRole =>
    }

    method ReplayHistory(history: seq<Message>)
      requires Current() == BEGIN
      modifies this
      ensures Current() == ReplayAll(history, failures)
    {
      for i := 0 to |history|
        invariant Current() == ReplayAll(history[..i], failures)
      {
        assert history[..i + 1][..i] == history[..i];
        ReplayMessage(history[i]);
      }
      assert history[..|history|] == history;
    }
  }

  lemma PerformSnoc(r: Replay, actions: seq<Action>, a: Action, failures: set<nat>)
    ensures Perform(r, actions + [a], failures) == Next(Perform(r, actions, failures), a, failures)
  {
    hide Next;
    assert (actions + [a])[..|actions|] == actions;
  }

  lemma NothingPerformed(r: Replay, failures: set<nat>)
    ensures forall content: seq<Content> :: Perform(r, UserActions(content[..0]), failures) == (r, true)
    ensures forall content: seq<Content> :: Perform(r, ContentActions(content[..0]), failures) == (r, true)
    ensures forall calls: seq<Call>, turn: nat :: Perform(r, CallActions(calls[..0], turn), failures) == (r, true)
  {
  }

  /** What one more part of a message does. */
  lemma UserStep(r: Replay, content: seq<Content>, i: nat, failures: set<nat>)
    requires i < |content|
    ensures var s, part := Perform(r, UserActions(content[..i]), failures), content[i];
            Perform(r, UserActions(content[..i + 1]), failures)
              == if part.TextContent? && part.text != "" then Next(s, Emit(UserChunk(part.text)), failures) else s
  {
    hide Next, Perform;
    var before, part := UserActions(content[..i]), content[i];
    assert content[..i + 1][..i] == content[..i];
    assert before + [] == before;
    if part.TextContent? { PerformSnoc(r, before, Emit(UserChunk(part.text)), failures); }
  }

  lemma ContentStep(r: Replay, content: seq<Content>, i: nat, failures: set<nat>)
    requires i < |content|
    ensures var s, part := Perform(r, ContentActions(content[..i]), failures), content[i];
            Perform(r, ContentActions(content[..i + 1]), failures)
              == if part.TextContent? && part.text != "" then Next(s, Emit(MessageChunk(part.text)), failures)
                 else if part.ThinkContent? && part.think != "" then Next(s, Emit(ThoughtChunk(part.think)), failures)
                 else s
  {
    hide Next, Perform;
    var before, part := ContentActions(content[..i]), content[i];
    assert content[..i + 1][..i] == content[..i];
    assert before + [] == before;
    if part.TextContent? { PerformSnoc(r, before, Emit(MessageChunk(part.text)), failures); }
    if part.ThinkContent? { PerformSnoc(r, before, Emit(ThoughtChunk(part.think)), failures); }
  }

  lemma CallStep(r: Replay, calls: seq<Call>, turn: nat, i: nat, failures: set<nat>)
    requires i < |calls|
    ensures var s, call := Perform(r, CallActions(calls[..i], turn), failures), calls[i];
            Perform(r, CallActions(calls[..i + 1], turn), failures)
              == Next(Next(s, Record(call.id), failures), Emit(ToolCall(turn, call.id, call.name, call.arguments)),
                    failures)
  {
    hide Next, Perform;
    var before, call := CallActions(calls[..i], turn), calls[i];
    var note := ToolCall(turn, call.id, call.name, call.arguments);
    assert calls[..i + 1][..i] == calls[..i];
    assert before + [Record(call.id)] + [Emit(note)] == before + [Record(call.id), Emit(note)];
    PerformSnoc(r, before, Record(call.id), failures);
    PerformSnoc(r, before + [Record(call.id)], Emit(note), failures);
  }

  lemma {:induction false} PerformConcat(r: Replay, a: seq<Action>, b: seq<Action>, failures: set<nat>)
    ensures Perform(r, a + b, failures) ==
            var (before, ok) := Perform(r, a, failures);
            if ok then Perform(before, b, failures) else (before, false)
    decreases |b|
  {
    if b == [] {
      assert a + b == a;
    } else {
      var front, last := b[..|b| - 1], b[|b| - 1];
      PerformConcat(r, a, front, failures);
      assert a + b == (a + front) + [last];
      PerformSnoc(r, a + front, last, failures);
      var (before, ok) := Perform(r, a, failures);
      assert front + [last] == b;
      if ok { PerformSnoc(before, front, last, failures); }
    }
  }

  /** A message that stopped after its first `k` parts stops the same way with the rest in place. */
  lemma {:induction false} UserStops(r: Replay, content: seq<Content>, k: nat, failures: set<nat>)
    requires k <= |content| && !Perform(r, UserActions(content[..k]), failures).1
    ensures Perform(r, UserActions(content), failures) == Perform(r, UserActions(content[..k]), failures)
    decreases |content|
  {
    if k == |content| {
      assert content[..k] == content;
    } else {
      var front := content[..|content| - 1];
      assert front[..k] == content[..k];
      UserStops(r, front, k, failures);
      PerformConcat(r, UserActions(front), UserActions(content)[|UserActions(front)|..], failures);
      assert UserActions(content) == UserActions(front) + UserActions(content)[|UserActions(front)|..];
    }
  }

  lemma {:induction false} ContentStops(r: Replay, content: seq<Content>, k: nat, failures: set<nat>)
    requires k <= |content| && !Perform(r, ContentActions(content[..k]), failures).1
    ensures Perform(r, ContentActions(content), failures) == Perform(r, ContentActions(content[..k]), failures)
    decreases |content|
  {
    if k == |content| {
      assert content[..k] == content;
    } else {
      var front := content[..|content| - 1];
      assert front[..k] == content[..k];
      ContentStops(r, front, k, failures);
      PerformConcat(r, ContentActions(front), ContentActions(content)[|ContentActions(front)|..], failures);
      assert ContentActions(content) == ContentActions(front) + ContentActions(content)[|ContentActions(front)|..];
    }
  }

  lemma {:induction false} CallsStop(r: Replay, calls: seq<Call>, turn: nat, k: nat, failures: set<nat>)
    requires k <= |calls| && !Perform(r, CallActions(calls[..k], turn), failures).1
    ensures Perform(r, CallActions(calls, turn), failures) == Perform(r, CallActions(calls[..k], turn), failures)
    decreases |calls|
  {
    if k == |calls| {
      assert calls[..k] == calls;
    } else {
      var front := calls[..|calls| - 1];
      assert front[..k] == calls[..k];
      CallsStop(r, front, turn, k, failures);
      PerformConcat(r, CallActions(front, turn), CallActions(calls, turn)[|CallActions(front, turn)|..], failures);
      assert CallActions(calls, turn) == CallActions(front, turn)
          + CallActions(calls, turn)[|CallActions(front, turn)|..];
    }
  }
}
