/** Which notifications a stored message stands for, and which of them are sent when pushes fail. */
module AcpReplayContent {
  import opened Basics
  import opened AcpReplay

  // ---------------------------------------------------------------- what a message stands for

  /** One `user_message_chunk` per nonempty text part. */
  function UserNotes(content: seq<Content>): seq<Note> {
    if content == [] then []
    else
      match content[0]
      case TextContent(text) => (if text == "" then [] else [UserChunk(text)]) + UserNotes(content[1..])
      case _ => UserNotes(content[1..])
  }

  /** One chunk per nonempty part of text or thought. */
  function ContentNotes(content: seq<Content>): seq<Note> {
    if content == [] then []
    else
      match content[0]
      case TextContent(text) => (if text == "" then [] else [MessageChunk(text)]) + ContentNotes(content[1..])
      case ThinkContent(think) => (if think == "" then [] else [ThoughtChunk(think)]) + ContentNotes(content[1..])
      case MediaContent => ContentNotes(content[1..])
  }

  /** One create per call. */
  function CallNotes(calls: seq<Call>, turn: nat): seq<Note> {
    seq(|calls|, i requires 0 <= i < |calls| => ToolCall(turn, calls[i].id, calls[i].name, calls[i].arguments))
  }

  /**
   All a message stands for: `turn` is its number among the assistant messages, `owner` that of its call's
   message.
   */
  function MessageNotes(m: Message, turn: nat, owner: Option<nat>): seq<Note> {
    match m
    case User(content) => UserNotes(content)
    case Assistant(content, calls) => ContentNotes(content) + CallNotes(calls, turn)
    case Tool(id, isError, result) =>
      if id.Some? && owner.Some? then [ToolCallUpdate(owner.value, id.value, isError, result)] else []
    case OtherRole => []
  }

  lemma {:induction false} UserNotesConcat(a: seq<Content>, b: seq<Content>)
    ensures UserNotes(a + b) == UserNotes(a) + UserNotes(b)
  {
    if a == [] {
      assert a + b == b;
    } else {
      assert (a + b)[1..] == a[1..] + b;
      UserNotesConcat(a[1..], b);
    }
  }

  lemma {:induction false} ContentNotesConcat(a: seq<Content>, b: seq<Content>)
    ensures ContentNotes(a + b) == ContentNotes(a) + ContentNotes(b)
  {
    if a == [] {
      assert a + b == b;
    } else {
      assert (a + b)[1..] == a[1..] + b;
      ContentNotesConcat(a[1..], b);
    }
  }

  // ---------------------------------------------------------------- what is sent of it

  /** The pushes numbered from `first` on, `count` of them, all succeed. */
  predicate AllThrough(first: nat, count: nat, failures: set<nat>) {
    forall n :: first <= n < first + count ==> n !in failures
  }

  /** The notes up to the first whose push fails, if `first` pushes have been made before them. */
  function Upto(first: nat, notes: seq<Note>, failures: set<nat>): seq<Note>
    decreases |notes|
  {
    if notes == [] then []
    else [notes[0]] + if first in failures then [] else Upto(first + 1, notes[1..], failures)
  }

  /** That is a prefix; only its last push may fail, and does if the prefix is not all. */
  lemma {:induction false} UptoIsPrefix(first: nat, notes: seq<Note>, failures: set<nat>)
    ensures var sent := Upto(first, notes, failures);
            && sent <= notes
            && (sent != [] ==> AllThrough(first, |sent| - 1, failures))
            && (|sent| < |notes| ==> sent != [] && first + |sent| - 1 in failures)
    decreases |notes|
  {
    if notes != [] && first !in failures {
      UptoIsPrefix(first + 1, notes[1..], failures);
      var rest, sent := Upto(first + 1, notes[1..], failures), Upto(first, notes, failures);
      assert sent == [notes[0]] + rest;
      assert forall i :: 0 <= i < |sent| ==> sent[i] == notes[i];
    }
  }

  lemma {:induction false} UptoSnoc(first: nat, notes: seq<Note>, n: Note, failures: set<nat>)
    ensures Upto(first, notes + [n], failures) ==
            if AllThrough(first, |notes|, failures) then Upto(first, notes, failures) + [n]
            else Upto(first, notes, failures)
    decreases |notes|
  {
    if notes == [] {
      assert Upto(first + 1, [n][1..], failures) == [];
    } else {
      assert (notes + [n])[1..] == notes[1..] + [n];
      UptoSnoc(first + 1, notes[1..], n, failures);
      assert AllThrough(first, |notes|, failures)
          <==> first !in failures && AllThrough(first + 1, |notes| - 1, failures);
    }
  }

  lemma {:induction false} UptoAll(first: nat, notes: seq<Note>)
    ensures Upto(first, notes, {}) == notes
    decreases |notes|
  {
    if notes != [] { UptoAll(first + 1, notes[1..]); }
  }

  /** The notes a list of actions emits. */
  function Emitted(actions: seq<Action>): seq<Note> {
    if actions == [] then []
    else
      var front, last := actions[..|actions| - 1], actions[|actions| - 1];
      if last.Emit? then Emitted(front) + [last.note] else Emitted(front)
  }

  lemma {:induction false} EmittedConcat(a: seq<Action>, b: seq<Action>)
    ensures Emitted(a + b) == Emitted(a) + Emitted(b)
    decreases |b|
  {
    if b == [] {
      assert a + b == a;
    } else {
      assert (a + b)[..|a + b| - 1] == a + b[..|b| - 1];
      EmittedConcat(a, b[..|b| - 1]);
    }
  }

  /** Performing actions sends their notes up to the first failing push, and is over exactly if none fails. */
  lemma {:induction false} PerformSends(r: Replay, actions: seq<Action>, failures: set<nat>)
    ensures var (r', ok), notes := Perform(r, actions, failures), Emitted(actions);
            && r'.attempts == r.attempts + Upto(|r.attempts|, notes, failures)
            && r'.turnId == r.turnId
            && (ok <==> AllThrough(|r.attempts|, |notes|, failures))
            && (ok ==> |r'.attempts| == |r.attempts| + |notes|)
  {
    if actions == [] {
      assert r.attempts + [] == r.attempts;
    } else {
      var front, last := actions[..|actions| - 1], actions[|actions| - 1];
      PerformSends(r, front, failures);
      if last.Emit? {
        UptoSnoc(|r.attempts|, Emitted(front), last.note, failures);
        ThroughSnoc(|r.attempts|, |Emitted(front)|, failures);
      }
      hide Upto, AllThrough;
    }
  }

  lemma ThroughSnoc(first: nat, count: nat, failures: set<nat>)
    ensures AllThrough(first, count + 1, failures) <==> AllThrough(first, count, failures) && first + count !in failures
  {
  }

  // ---------------------------------------------------------------- the actions of a message

  lemma EmittedSnoc(actions: seq<Action>, a: Action)
    ensures Emitted(actions + [a]) == if a.Emit? then Emitted(actions) + [a.note] else Emitted(actions)
  {
    assert (actions + [a])[..|actions|] == actions;
  }

  lemma UserNotesSnoc(front: seq<Content>, last: Content)
    ensures UserNotes(front + [last]) ==
            if last.TextContent? && last.text != "" then UserNotes(front) + [UserChunk(last.text)] else UserNotes(front)
  {
    UserNotesConcat(front, [last]);
    assert UserNotes([last][1..]) == [];
  }

  lemma {:induction false} UserActionsEmit(content: seq<Content>)
    ensures Emitted(UserActions(content)) == UserNotes(content)
  {
    if content != [] {
      var front, last := content[..|content| - 1], content[|content| - 1];
      UserActionsEmit(front);
      UserNotesSnoc(front, last);
      assert front + [last] == content;
      assert UserActions(front) + [] == UserActions(front);
      hide Emitted, UserNotes;
      if last.TextContent? { EmittedSnoc(UserActions(front), Emit(UserChunk(last.text))); }
    }
  }

  lemma ContentNotesSnoc(front: seq<Content>, last: Content)
    ensures ContentNotes(front + [last]) ==
            if last.TextContent? && last.text != "" then ContentNotes(front) + [MessageChunk(last.text)]
            else if last.ThinkContent? && last.think != "" then ContentNotes(front) + [ThoughtChunk(last.think)]
            else ContentNotes(front)
  {
    ContentNotesConcat(front, [last]);
    assert ContentNotes([last][1..]) == [];
  }

  lemma {:induction false} ContentActionsEmit(content: seq<Content>)
    ensures Emitted(ContentActions(content)) == ContentNotes(content)
  {
    if content != [] {
      var front, last := content[..|content| - 1], content[|content| - 1];
      ContentActionsEmit(front);
      ContentNotesSnoc(front, last);
      assert front + [last] == content;
      assert ContentActions(front) + [] == ContentActions(front);
      hide Emitted, ContentNotes;
      if last.TextContent? { EmittedSnoc(ContentActions(front), Emit(MessageChunk(last.text))); }
      if last.ThinkContent? { EmittedSnoc(ContentActions(front), Emit(ThoughtChunk(last.think))); }
    }
  }

  lemma {:induction false} CallActionsEmit(calls: seq<Call>, turn: nat)
    ensures Emitted(CallActions(calls, turn)) == CallNotes(calls, turn)
  {
    if calls != [] {
      var front, last := calls[..|calls| - 1], calls[|calls| - 1];
      CallActionsEmit(front, turn);
      var before, note := CallActions(front, turn), ToolCall(turn, last.id, last.name, last.arguments);
      assert before + [Record(last.id), Emit(note)] == (before + [Record(last.id)]) + [Emit(note)];
      EmittedSnoc(before, Record(last.id));
      EmittedSnoc(before + [Record(last.id)], Emit(note));
      hide Emitted;
    }
  }

  lemma AssistantSends(r: Replay, content: seq<Content>, calls: seq<Call>, failures: set<nat>)
    ensures var r' := Perform(r, AssistantActions(r.turnId, content, calls), failures).0;
            && r'.attempts
                 == r.attempts + Upto(|r.attempts|, ContentNotes(content) + CallNotes(calls, r.turnId), failures)
            && r'.turnId == r.turnId
  {
    ContentActionsEmit(content);
    CallActionsEmit(calls, r.turnId);
    EmittedConcat(ContentActions(content), CallActions(calls, r.turnId));
    PerformSends(r, AssistantActions(r.turnId, content, calls), failures);
    hide Emitted, Perform, Upto, ContentNotes, CallNotes, ContentActions, CallActions;
  }

  /** One message: it sends what it stands for, up to the first push that fails. */
  lemma MessageSends(r: Replay, m: Message, failures: set<nat>)
    ensures var owner := if m.Tool? && m.toolCallId.Some? && m.toolCallId.value != "" && m.toolCallId.value in r.owners
                         then Some(r.owners[m.toolCallId.value]) else None;
            && ReplayOne(r, m, failures).attempts
                 == r.attempts + Upto(|r.attempts|, MessageNotes(m, r.turnId + 1, owner), failures)
            && ReplayOne(r, m, failures).turnId == r.turnId + if m.Assistant? then 1 else 0
  {
    hide Perform, Upto, UserNotes, ContentNotes, CallNotes, Emitted, UserActions, AssistantActions;
    OnlyOne(|r.attempts|, failures);
    match m
    case User(content) =>
      UserActionsEmit(content);
      PerformSends(r, UserActions(content), failures);
    case Assistant(content, calls) =>
      AssistantSends(r.(turnId := r.turnId + 1), content, calls, failures);
    case _ =>
      assert r.attempts + [] == r.attempts;
  }

  lemma OnlyOne(first: nat, failures: set<nat>)
    ensures forall n :: Upto(first, [n], failures) == [n]
    ensures Upto(first, [], failures) == []
  {
    forall n ensures Upto(first, [n], failures) == [n] { assert Upto(first + 1, [n][1..], failures) == []; }
  }

  // ---------------------------------------------------------------- the chunks and creates among notifications

  function Chunks(notes: seq<Note>): seq<Note> {
    if notes == [] then []
    else
      var front, last := notes[..|notes| - 1], notes[|notes| - 1];
      if last.UserChunk? || last.MessageChunk? || last.ThoughtChunk? then Chunks(front) + [last] else Chunks(front)
  }

  function Creates(notes: seq<Note>): seq<Note> {
    if notes == [] then []
    else
      var front, last := notes[..|notes| - 1], notes[|notes| - 1];
      if last.ToolCall? then Creates(front) + [last] else Creates(front)
  }

  lemma {:induction false} SortedConcat(a: seq<Note>, b: seq<Note>)
    ensures Chunks(a + b) == Chunks(a) + Chunks(b) && Creates(a + b) == Creates(a) + Creates(b)
    decreases |b|
  {
    if b == [] {
      assert a + b == a;
    } else {
      assert (a + b)[..|a + b| - 1] == a + b[..|b| - 1];
      SortedConcat(a, b[..|b| - 1]);
    }
  }

  lemma {:induction false} AllChunks(notes: seq<Note>)
    requires forall n :: n in notes ==> n.UserChunk? || n.MessageChunk? || n.ThoughtChunk?
    ensures Chunks(notes) == notes && Creates(notes) == []
  {
    if notes != [] {
      assert notes[|notes| - 1] in notes;
      AllChunks(notes[..|notes| - 1]);
    }
  }

  lemma {:induction false} AllCreates(notes: seq<Note>)
    requires forall n :: n in notes ==> n.ToolCall?
    ensures Chunks(notes) == [] && Creates(notes) == notes
  {
    if notes != [] {
      assert notes[|notes| - 1] in notes;
      AllCreates(notes[..|notes| - 1]);
    }
  }

  lemma {:induction false} NotesAreChunks(content: seq<Content>)
    ensures forall n :: n in UserNotes(content) ==> n.UserChunk?
    ensures forall n :: n in ContentNotes(content) ==> n.MessageChunk? || n.ThoughtChunk?
  {
    if content != [] { NotesAreChunks(content[1..]); }
  }

  lemma MessageSorted(m: Message, turn: nat, owner: Option<nat>)
    ensures Chunks(MessageNotes(m, turn, owner)) ==
              if m.User? then UserNotes(m.userContent) else if m.Assistant? then ContentNotes(m.content) else []
    ensures Creates(MessageNotes(m, turn, owner)) == if m.Assistant? then CallNotes(m.toolCalls, turn) else []
  {
    hide Chunks, Creates, UserNotes, ContentNotes, CallNotes;
    match m
    case User(content) =>
      NotesAreChunks(content);
      AllChunks(UserNotes(content));
    case Assistant(content, calls) =>
      NotesAreChunks(content);
      AllChunks(ContentNotes(content));
      CallNotesAreCreates(calls, turn);
      AllCreates(CallNotes(calls, turn));
      SortedConcat(ContentNotes(content), CallNotes(calls, turn));
    case _ =>
      ResultIsNeither(MessageNotes(m, turn, owner));
  }

  lemma CallNotesAreCreates(calls: seq<Call>, turn: nat)
    ensures forall n :: n in CallNotes(calls, turn) ==> n.ToolCall?
  {
  }

  lemma ResultIsNeither(notes: seq<Note>)
    requires |notes| <= 1 && forall n :: n in notes ==> n.ToolCallUpdate?
    ensures Chunks(notes) == [] && Creates(notes) == []
  {
    if notes != [] { assert notes[0] in notes && notes[..0] == []; }
  }
}
