/** One prompt's bridge from agent events to client notifications, and the promise it settles. */
module AcpTurn {
  import opened Basics
  import opened WireId

  datatype EndReason = Completed | Cancelled | EndFailed(auth: bool) | Filtered

  /** What `displayBlockToAcpContent` and `planFromDisplayBlock` make of a tool's display, if anything. */
  datatype Display = Display(card: Option<string>, plan: Option<string>)

  datatype Kind =
    | TurnStarted(startedTurn: nat)
    | TurnEnded(endedTurn: nat, reason: EndReason)
    | ErrorEvent(errorTurn: Option<nat>, busy: bool)
    | AssistantDelta(assistantTurn: nat, delta: string)
    | ThinkingDelta(thinkingTurn: nat, thought: string)
    | ToolStarted(toolTurn: nat, toolCallId: string, name: string, description: Option<string>, args: string,
                  display: Option<Display>)
    | ToolDelta(toolTurn: nat, toolCallId: string, deltaName: Option<string>, argumentsPart: Option<string>)
    | ToolProgress(toolTurn: nat, toolCallId: string, status: Option<string>)
    | ToolResult(toolTurn: nat, toolCallId: string, isError: bool, output: string)
    | OtherEvent(otherTurn: Option<nat>)

  /** `main` says whether the event comes from the main agent. */
  datatype Event = Event(main: bool, kind: Kind)

  datatype Input = Deliver(event: Event) | KickFails(authError: bool)

  datatype CallStatus = Pending | InProgress | CallCompleted | CallFailed

  datatype Note =
    | MessageChunk(text: string)
    | ThoughtChunk(text: string)
    | ToolCall(id: string, title: string, toolKind: string, status: CallStatus, card: Option<string>, shown: string)
    | ToolCallUpdate(id: string, newTitle: Option<string>, newKind: Option<string>, newStatus: Option<CallStatus>,
                     newCard: Option<string>, newShown: Option<string>)
    | Plan(entries: string)

  /** A notification and the event that caused it. */
  datatype Push = Push(cause: Kind, note: Note)

  datatype StopReason = EndTurn | StopCancelled | Refusal
  datatype Outcome = Resolved(stop: StopReason) | RejectedBusy | RejectedAuth | RejectedInternal

  datatype Bridge = Bridge(
    currentTurnId: Option<nat>,
    activeAtStart: Option<nat>,
    ownTurnStarted: bool,
    args: map<string, string>,      // cumulative argument text, by the provider's id
    created: set<string>,           // wire ids for which a tool_call went out
    sent: seq<Push>,
    settled: bool,
    subscribed: bool,               // events arrive only while this holds
    answers: nat,                   // calls of resolve or reject
    outcome: Option<Outcome>)       // what the first of them gave the promise

  function Fresh(active: Option<nat>): Bridge {
    Bridge(active, active, false, map[], {}, [], false, true, 0, None)
  }

  function TurnOf(kind: Kind): Option<nat> {
    match kind
    case TurnStarted(t) => Some(t)
    case TurnEnded(t, _) => Some(t)
    case ErrorEvent(t, _) => t
    case AssistantDelta(t, _) => Some(t)
    case ThinkingDelta(t, _) => Some(t)
    case ToolStarted(t, _, _, _, _, _) => Some(t)
    case ToolDelta(t, _, _, _) => Some(t)
    case ToolProgress(t, _, _) => Some(t)
    case ToolResult(t, _, _, _) => Some(t)
    case OtherEvent(t) => t
  }

  function InferToolKind(name: string): string {
    if name in {"Read", "Glob", "Grep"} then "read"
    else if name in {"Write", "Edit"} then "edit"
    else if name in {"Bash", "Terminal"} then "execute"
    else if name in {"WebFetch", "WebSearch"} then "fetch"
    else if name == "Think" then "think"
    else "other"
  }

  predicate IsTool(kind: Kind) { kind.ToolStarted? || kind.ToolDelta? }

  function WireOf(kind: Kind): string
    requires IsTool(kind) || kind.ToolProgress? || kind.ToolResult?
  {
    AcpToolCallId(kind.toolTurn, kind.toolCallId)
  }

  function CardOf(display: Option<Display>): Option<string> {
    match display case None => None case Some(d) => d.card
  }

  /** The CREATE from a started event, and its UPDATE form when a delta has already created the call. */
  function StartNote(k: Kind): Note
    requires k.ToolStarted?
  {
    ToolCall(WireOf(k), k.description.GetOr(k.name), InferToolKind(k.name), InProgress, CardOf(k.display), k.args)
  }

  function UpgradeNote(k: Kind): Note
    requires k.ToolStarted?
  {
    ToolCallUpdate(WireOf(k), Some(k.description.GetOr(k.name)), Some(InferToolKind(k.name)), Some(InProgress),
                   CardOf(k.display), Some(k.args))
  }

  /** The CREATE from a first delta. */
  function LazyCreateNote(k: Kind): Note
    requires k.ToolDelta?
  {
    ToolCall(WireOf(k), k.deltaName.GetOr("tool"),
             if k.deltaName.Some? && k.deltaName.value != "" then InferToolKind(k.deltaName.value) else "other",
             Pending, None, k.argumentsPart.GetOr(""))
  }

  function StopFor(reason: EndReason): StopReason {
    match reason
    case Completed => EndTurn
    case Cancelled => StopCancelled
    case EndFailed(_) => EndTurn
    case Filtered => Refusal
  }

  /** The bookkeeping every event goes through before it is dispatched. */
  function Track(b: Bridge, e: Event): Bridge {
    var started := e.kind.TurnStarted? && e.main
        && (b.activeAtStart.None? || e.kind.startedTurn != b.activeAtStart.value);
    b.(ownTurnStarted := b.ownTurnStarted || started,
       currentTurnId := if e.main && TurnOf(e.kind).Some? then TurnOf(e.kind) else b.currentTurnId)
  }

  function Send(b: Bridge, cause: Kind, note: Note): Bridge { b.(sent := b.sent + [Push(cause, note)]) }

  /** resolve or reject: a promise keeps its first outcome. */
  function AnswerPromise(b: Bridge, outcome: Outcome): Bridge {
    b.(answers := b.answers + 1, outcome := if b.outcome.None? then Some(outcome) else b.outcome)
  }

  function Settle(b: Bridge, outcome: Outcome): Bridge {
    AnswerPromise(b.(args := map[], created := {}, currentTurnId := None, settled := true, subscribed := false),
                  outcome)
  }

  function OnStarted(b: Bridge, k: Kind): Bridge
    requires k.ToolStarted?
  {
    var id := WireOf(k);
    var b1 := b.(args := b.args[k.toolCallId := k.args], created := b.created + {id});
    var b2 := Send(b1, k, if id in b.created then UpgradeNote(k) else StartNote(k));
    if k.display.Some? && k.display.value.plan.Some? then Send(b2, k, Plan(k.display.value.plan.value)) else b2
  }

  function OnDelta(b: Bridge, k: Kind): Bridge
    requires k.ToolDelta?
  {
    var id, part := WireOf(k), k.argumentsPart.GetOr("");
    if id !in b.created then
      Send(b.(args := b.args[k.toolCallId := part], created := b.created + {id}), k, LazyCreateNote(k))
    else
      var text := (if k.toolCallId in b.args then b.args[k.toolCallId] else "") + part;
      Send(b.(args := b.args[k.toolCallId := text]), k,
           ToolCallUpdate(id, None, None, Some(InProgress), None, Some(text)))
  }

  /** The listener.  Only an error and the end of the turn look at `settled`; the other branches do not. */
  function Handle(b: Bridge, e: Event): Bridge {
    var b1 := Track(b, e);
    if !e.main then b1 else
    match e.kind
    case ErrorEvent(_, busy) => if !b1.settled && busy && !b1.ownTurnStarted then Settle(b1, RejectedBusy) else b1
    case AssistantDelta(_, text) => Send(b1, e.kind, MessageChunk(text))
    case ThinkingDelta(_, text) => Send(b1, e.kind, ThoughtChunk(text))
    case ToolStarted(_, _, _, _, _, _) => OnStarted(b1, e.kind)
    case ToolDelta(_, _, _, _) => OnDelta(b1, e.kind)
    case ToolProgress(_, _, status) =>
      if status.Some? && status.value != ""
          then Send(b1, e.kind, ToolCallUpdate(WireOf(e.kind), status, None, None, None, None)) else b1
    case ToolResult(_, _, isError, output) =>
      var end := if isError then CallFailed else CallCompleted;
      Send(b1, e.kind, ToolCallUpdate(WireOf(e.kind), None, None, Some(end), None, Some(output)))
    case TurnEnded(_, reason) =>
      if b1.settled then b1
      else Settle(b1, if reason == EndFailed(true) then RejectedAuth else Resolved(StopFor(reason)))
    case _ => b1
  }

  /** An event reaches the listener while it is subscribed; the failed kick is caught whatever happened before. */
  function Step(b: Bridge, input: Input): Bridge {
    match input
    case Deliver(e) => if b.subscribed then Handle(b, e) else b
    case KickFails(auth) =>
      if b.settled then b
      else AnswerPromise(b.(settled := true, subscribed := false), if auth then RejectedAuth else RejectedInternal)
  }

  function Run(active: Option<nat>, inputs: seq<Input>): Bridge {
    if inputs == [] then Fresh(active) else Step(Run(active, inputs[..|inputs| - 1]), inputs[|inputs| - 1])
  }

  // ---------------------------------------------------------------- the object

  class TurnBridge {
    var currentTurnId: Option<nat>
    const initialActiveTurnId: Option<nat>
    var hasReceivedOwnTurnStarted: bool
    var argsByToolCall: map<string, string>
    var startedToolCalls: set<string>
    var sent: seq<Push>
    var settled: bool
    var subscribed: bool
    var answers: nat
    var outcome: Option<Outcome>

    function Current(): Bridge
      reads this
    {
      Bridge(currentTurnId, initialActiveTurnId, hasReceivedOwnTurnStarted, argsByToolCall, startedToolCalls, sent,
             settled, subscribed, answers, outcome)
    }

    constructor (active: Option<nat>)
      ensures Current() == Fresh(active)
    {
      currentTurnId, initialActiveTurnId := active, active;
      hasReceivedOwnTurnStarted, settled, subscribed := false, false, true;
      argsByToolCall, startedToolCalls, sent := map[], {}, [];
      answers, outcome := 0, None;
    }

    /** resolve and reject. */
    method Answer(result: Outcome)
      modifies this`answers, this`outcome
      ensures Current() == AnswerPromise(old(Current()), result)
    {
      answers := answers + 1;
      if outcome.None? { outcome := Some(result); }
    }

    method Conclude(result: Outcome)
      modifies this
      ensures Current() == Settle(old(Current()), result)
    {
      settled := true;
      argsByToolCall := map[];
      startedToolCalls := {};
      currentTurnId := None;
      subscribed := false;
      Answer(result);
    }

    method ToolCallStarted(k: Kind)
      requires k.ToolStarted?
      modifies this`argsByToolCall, this`startedToolCalls, this`sent
      ensures Current() == OnStarted(old(Current()), k)
    {
      argsByToolCall := argsByToolCall[k.toolCallId := k.args];
      var startedWireId := AcpToolCallId(k.toolTurn, k.toolCallId);
      if startedWireId in startedToolCalls {
        sent := sent + [Push(k, UpgradeNote(k))];
        assert startedToolCalls + {startedWireId} == startedToolCalls;
      } else {
        startedToolCalls := startedToolCalls + {startedWireId};
        sent := sent + [Push(k, StartNote(k))];
      }
      if k.display.Some? && k.display.value.plan.Some? {
        sent := sent + [Push(k, Plan(k.display.value.plan.value))];
      }
    }

    method ToolCallDelta(k: Kind)
      requires k.ToolDelta?
      modifies this`argsByToolCall, this`startedToolCalls, this`sent
      ensures Current() == OnDelta(old(Current()), k)
    {
      var deltaWireId := AcpToolCallId(k.toolTurn, k.toolCallId);
      if deltaWireId !in startedToolCalls {
        argsByToolCall := argsByToolCall[k.toolCallId := k.argumentsPart.GetOr("")];
        startedToolCalls := startedToolCalls + {deltaWireId};
        sent := sent + [Push(k, LazyCreateNote(k))];
        return;
      }
      if k.toolCallId !in argsByToolCall {
        argsByToolCall := argsByToolCall[k.toolCallId := ""];
      }
      var text := argsByToolCall[k.toolCallId] + k.argumentsPart.GetOr("");
      argsByToolCall := argsByToolCall[k.toolCallId := text];
      sent := sent + [Push(k, ToolCallUpdate(deltaWireId, None, None, Some(InProgress), None, Some(text)))];
    }

    /** What the session does with an event: the listener hears it while it is subscribed. */
    method DeliverEvent(event: Event)
      modifies this
      ensures Current() == Step(old(Current()), Deliver(event))
    {
      if subscribed { OnEvent(event); }
    }

    method OnEvent(event: Event)
      modifies this
      ensures Current() == Handle(old(Current()), event)
    {
      var kind := event.kind;
      if kind.TurnStarted? && event.main
          && (initialActiveTurnId.None? || kind.startedTurn != initialActiveTurnId.value) {
        hasReceivedOwnTurnStarted := true;
      }
      if TurnOf(kind).Some? && event.main {
        currentTurnId := TurnOf(kind);
      }
      if !event.main { return; }
      match kind
      case ErrorEvent(_, busy) =>
        if settled { return; }
        if !busy || hasReceivedOwnTurnStarted { return; }
        Conclude(RejectedBusy);
      case AssistantDelta(_, text) => sent := sent + [Push(kind, MessageChunk(text))];
      case ThinkingDelta(_, text) => sent := sent + [Push(kind, ThoughtChunk(text))];
      case ToolStarted(_, _, _, _, _, _) => ToolCallStarted(kind);
      case ToolDelta(_, _, _, _) => ToolCallDelta(kind);
      case ToolProgress(turnId, id, status) =>
        if status.Some? && status.value != "" {
          sent := sent + [Push(kind, ToolCallUpdate(AcpToolCallId(turnId, id), status, None, None, None, None))];
        }
      case ToolResult(turnId, id, isError, output) =>
        var end := if isError then CallFailed else CallCompleted;
        sent := sent + [Push(kind, ToolCallUpdate(AcpToolCallId(turnId, id), None, None, Some(end), None,
              Some(output)))];
      case TurnEnded(_, reason) =>
        if settled { return; }
        if reason.EndFailed? && reason.auth {
          Conclude(RejectedAuth);
        } else {
          Conclude(Resolved(StopFor(reason)));
        }
      case _ =>
    }

    method KickRejected(auth: bool)
      modifies this`settled, this`subscribed, this`answers, this`outcome
      ensures Current() == Step(old(Current()), KickFails(auth))
    {
      if settled { return; }
      settled := true;
      subscribed := false;
      Answer(if auth then RejectedAuth else RejectedInternal);
    }
  }
}
