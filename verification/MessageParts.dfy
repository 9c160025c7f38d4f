/** Streamed message parts and the in-place merge of two consecutive ones. */
module MessageParts {
  import opened Basics

  /** A provider's streaming index: numbers and strings never compare equal. */
  datatype Index = Num(n: int) | Key(key: string)
  datatype MediaKind = ImageUrl | AudioUrl | VideoUrl

  datatype Part =
    | Text(text: string)
    | Think(think: string, encrypted: Option<string>)
    | Media(kind: MediaKind, url: string, mediaId: Option<string>)
    | ToolCall(id: string, name: string, arguments: Option<string>, extras: Option<string>, streamIndex: Option<Index>)
    | ToolCallPart(argumentsPart: Option<string>, index: Option<Index>)

  /** A tool call as a message keeps it, without its routing index. */
  datatype StoredCall = StoredCall(id: string, name: string, arguments: Option<string>, extras: Option<string>)

  predicate IsContentPart(part: Part) { part.Text? || part.Think? || part.Media? }

  function AppendArguments(arguments: Option<string>, more: Option<string>): Option<string> {
    match (arguments, more)
    case (_, None) => arguments
    case (None, Some(_)) => more
    case (Some(a), Some(m)) => Some(a + m)
  }

  /** The part that results from merging `source` into `target`, or `None` when they do not merge. */
  function Merged(target: Part, source: Part): Option<Part> {
    match (target, source)
    case (Text(t), Text(s)) => Some(Text(t + s))
    case (Think(t, None), Think(s, e)) => Some(Think(t + s, e))
    case (ToolCall(id, name, args, extras, index), ToolCallPart(more, _)) =>
      Some(ToolCall(id, name, AppendArguments(args, more), extras, index))
    case _ => None
  }

  /** A part the stream handed over, which later parts may grow. */
  class StreamPart {
    var part: Part

    constructor (part: Part)
      ensures this.part == part
    {
      this.part := part;
    }

    method MergeInPlace(source: Part) returns (merged: bool)
      modifies this
      ensures merged <==> Merged(old(part), source).Some?
      ensures part == Merged(old(part), source).GetOr(old(part))
    {
      if part.Text? && source.Text? {
        part := part.(text := part.text + source.text);
        return true;
      }
      if part.Think? && source.Think? {
        if part.encrypted.Some? {
          return false;
        }
        part := part.(think := part.think + source.think);
        if source.encrypted.Some? {
          part := part.(encrypted := source.encrypted);
        }
        return true;
      }
      if part.ToolCall? && source.ToolCallPart? {
        if source.argumentsPart.Some? {
          part := part.(arguments := if part.arguments.None? then source.argumentsPart
                                     else Some(part.arguments.value + source.argumentsPart.value));
        }
        return true;
      }
      return false;
    }
  }

  /** What content is made of once part boundaries are forgotten; a signature closes its thinking block. */
  datatype Atom =
    | TextChar(c: char)
    | ThinkChar(c: char)
    | Signature(encrypted: string)
    | Attachment(kind: MediaKind, url: string, mediaId: Option<string>)

  function PartAtoms(part: Part): seq<Atom> {
    match part
    case Text(t) => seq(|t|, i requires 0 <= i < |t| => TextChar(t[i]))
    case Think(t, e) =>
      seq(|t|, i requires 0 <= i < |t| => ThinkChar(t[i])) + if e.Some? then [Signature(e.value)] else []
    case Media(kind, url, mediaId) => [Attachment(kind, url, mediaId)]
    case _ => []
  }

  function Atoms(parts: seq<Part>): seq<Atom> {
    if parts == [] then [] else Atoms(parts[..|parts| - 1]) + PartAtoms(parts[|parts| - 1])
  }

  /** Merging loses nothing and moves nothing across a signature. */
  lemma MergeKeepsAtoms(target: Part, source: Part)
    requires Merged(target, source).Some?
    ensures PartAtoms(Merged(target, source).value) == PartAtoms(target) + PartAtoms(source)
  {
  }

  lemma AtomsSnoc(parts: seq<Part>, part: Part)
    ensures Atoms(parts + [part]) == Atoms(parts) + PartAtoms(part)
  {
    assert (parts + [part])[..|parts|] == parts;
  }
}
