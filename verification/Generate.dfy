/** Assembling one assistant message from a stream of parts. */
module Generate {
  import opened Basics
  import opened MessageParts

  /** The loop's variables: the pending part, the message so far, and where each indexed call went. */
  datatype Assembly = Assembly(pending: Option<Part>, content: seq<Part>, calls: seq<StoredCall>,
                               routes: map<Index, nat>)

  const START := Assembly(None, [], [], map[])

  function Store(call: Part): StoredCall
    requires call.ToolCall?
  {
    StoredCall(call.id, call.name, call.arguments, call.extras)
  }

  /** The pending part moves into the message; a delta that belongs nowhere is dropped. */
  function Flush(a: Assembly, part: Part): Assembly {
    if IsContentPart(part) then a.(content := a.content + [part])
    else if part.ToolCall? then
      a.(calls := a.calls + [Store(part)],
         routes := if part.streamIndex.Some? then a.routes[part.streamIndex.value := |a.calls|] else a.routes)
    else a
  }

  predicate IsPendingToolCallAtIndex(pending: Option<Part>, index: Index) {
    pending.Some? && pending.value.ToolCall? && pending.value.streamIndex == Some(index)
  }

  /** A delta for a call that is no longer pending. */
  predicate IsRouted(a: Assembly, part: Part) {
    && part.ToolCallPart? && part.index.Some?
    && !IsPendingToolCallAtIndex(a.pending, part.index.value)
    && part.index.value in a.routes
  }

  function Take(a: Assembly, part: Part): Assembly {
    if IsRouted(a, part) then
      var at := a.routes[part.index.value];
      if at < |a.calls| then
        var grown := AppendArguments(a.calls[at].arguments, part.argumentsPart);
        a.(calls := a.calls[at := a.calls[at].(arguments := grown)])
      else a
    else match a.pending
      case None => a.(pending := Some(part))
      case Some(p) =>
        var merged := Merged(p, part);
        if merged.Some? then a.(pending := merged) else Flush(a, p).(pending := Some(part))
  }

  function Run(stream: seq<Part>): Assembly {
    if stream == [] then START else Take(Run(stream[..|stream| - 1]), stream[|stream| - 1])
  }

  /** The assembly once the stream has ended and the last pending part is flushed. */
  function Finish(a: Assembly): Assembly {
    if a.pending.Some? then Flush(a, a.pending.value) else a
  }

  // ---------------------------------------------------------------- the loop itself

  class Message {
    var content: seq<Part>
    var toolCalls: seq<StoredCall>

    constructor ()
      ensures content == [] && toolCalls == []
    {
      content, toolCalls := [], [];
    }
  }

  class RoutingTable {
    var positions: map<Index, nat>

    constructor ()
      ensures positions == map[]
    {
      positions := map[];
    }
  }

  datatype GenerateError = EmptyResponse | ThinkOnlyResponse

  ghost predicate Holds(pending: StreamPart?, message: Message, routing: RoutingTable, a: Assembly)
    reads message, routing, if pending == null then {} else {pending}
  {
    && message.content == a.content && message.toolCalls == a.calls && routing.positions == a.routes
    && a.pending == if pending == null then None else Some(pending.part)
  }

  method FlushPart(message: Message, part: Part, routing: RoutingTable)
    modifies message, routing
    ensures var a := Flush(Assembly(None, old(message.content), old(message.toolCalls), old(routing.positions)), part);
            message.content == a.content && message.toolCalls == a.calls && routing.positions == a.routes
  {
    if IsContentPart(part) {
      message.content := message.content + [part];
      return;
    }
    if part.ToolCall? {
      var ordinal := |message.toolCalls|;
      message.toolCalls := message.toolCalls + [StoredCall(part.id, part.name, part.arguments, part.extras)];
      if part.streamIndex.Some? {
        routing.positions := routing.positions[part.streamIndex.value := ordinal];
      }
    }
  }

  predicate IsBlank(c: char) {
    || '\t' <= c <= '\r' || c == ' ' || c == '\U{00A0}' || c == '\U{1680}' || '\U{2000}' <= c <= '\U{200A}'
    || c == '\U{2028}' || c == '\U{2029}' || c == '\U{202F}' || c == '\U{205F}' || c == '\U{3000}' || c == '\U{FEFF}'
  }

  predicate HasVisibleText(part: Part) {
    part.Text? && exists i :: 0 <= i < |part.text| && !IsBlank(part.text[i])
  }

  /** What the checks after the loop decide from the finished message. */
  function Verdict(a: Assembly): Option<GenerateError> {
    if a.content == [] && a.calls == [] then Some(EmptyResponse)
    else if (exists p :: p in a.content && p.Think?) && !(exists p :: p in a.content && HasVisibleText(p))
        && a.calls == []
    then Some(ThinkOnlyResponse)
    else None
  }

  lemma RunsNothing(stream: seq<Part>)
    ensures Run(stream[..0]) == START
  {
  }

  lemma RunsOneMore(stream: seq<Part>, k: nat)
    requires k < |stream|
    ensures Run(stream[..k + 1]) == Take(Run(stream[..k]), stream[k])
  {
    assert stream[..k + 1][..k] == stream[..k];
  }

  method Generate(stream: seq<Part>) returns (result: Result<Message, GenerateError>)
    ensures match Verdict(Finish(Run(stream)))
            case Some(error) => result == Err(error)
            case None => result.Ok? && fresh(result.value)
                         && result.value.content == Finish(Run(stream)).content
                         && result.value.toolCalls == Finish(Run(stream)).calls
  {
    hide Run, HasVisibleText;
    RunsNothing(stream);
    var message := new Message();
    var routing := new RoutingTable();
    var pending: StreamPart? := null;
    for k := 0 to |stream|
      invariant pending != null ==> fresh(pending)
      invariant Holds(pending, message, routing, Run(stream[..k]))
    {
      var part := stream[k];
      ghost var before := Run(stream[..k]);
      RunsOneMore(stream, k);
      if part.ToolCallPart? && part.index.Some?
         && !(pending != null && pending.part.ToolCall? && pending.part.streamIndex == part.index)
         && part.index.value in routing.positions
      {
        var at := routing.positions[part.index.value];
        if at < |message.toolCalls| && part.argumentsPart.Some? {
          var target := message.toolCalls[at];
          message.toolCalls := message.toolCalls[at := target.(arguments :=
            if target.arguments.None? then part.argumentsPart
            else Some(target.arguments.value + part.argumentsPart.value))];
        }
        continue;
      }
      if pending == null {
        pending := new StreamPart(part);
      } else {
        var merged := pending.MergeInPlace(part);
        if !merged {
          FlushPart(message, pending.part, routing);
          pending := new StreamPart(part);
        }
      }
    }
    assert stream[..|stream|] == stream;
    if pending != null {
      FlushPart(message, pending.part, routing);
    }
    if |message.content| == 0 && |message.toolCalls| == 0 {
      return Err(EmptyResponse);
    }
    var hasThink := exists p :: p in message.content && p.Think?;
    var hasText := exists p :: p in message.content && HasVisibleText(p);
    if hasThink && !hasText && |message.toolCalls| == 0 {
      return Err(ThinkOnlyResponse);
    }
    return Ok(message);
  }
}
