/** Anthropic's event stream rewritten as OpenAI chunks, and the buffered translation it has to agree with. */
module AnthropicStreams {
  import opened Prelude
  import opened Sse
  import opened Chunks

  datatype RawUsage = RawUsage(input: nat, output: nat, cacheRead: nat, cacheWrite: nat) {
    function PromptTotal(): nat { input + cacheRead + cacheWrite }
  }

  function MapStopReason(reason: string): string {
    if reason == "max_tokens" then "length"
    else if reason == "stop_sequence" then "stop"
    else if reason == "tool_use" then "tool_calls"
    else "stop"
  }

  /** A reply is cut short or calls tools exactly for the one stop reason that says so; all others are plain stops. */
  lemma StopReasons(reason: string)
    ensures MapStopReason(reason) == "length" <==> reason == "max_tokens"
    ensures MapStopReason(reason) == "tool_calls" <==> reason == "tool_use"
    ensures MapStopReason(reason) == "stop" <==> reason != "max_tokens" && reason != "tool_use"
  {
    assert |"length"| == 6 && |"tool_calls"| == 10 && |"stop"| == 4;
  }

  // ---------- the buffered translation (anthropic.go:620-677) ----------

  datatype Block =
    | TextBlock(text: string)
    | ToolUse(id: string, name: string, input: string)
    | OtherBlock(ignored: string)

  datatype Reply = Reply(id: string, role: string, stop: string, content: seq<Block>, usage: RawUsage)

  function TextOf(blocks: seq<Block>): string
    decreases |blocks|
  {
    if blocks == [] then ""
    else
      var n := |blocks| - 1;
      TextOf(blocks[..n]) + (if blocks[n].TextBlock? then blocks[n].text else "")
  }

  function Arguments(input: string): string { if input == "" || input == "null" then "{}" else input }

  /** The calls of a reply; `ids` supplies a new id per block that has none. */
  function CallsOf(blocks: seq<Block>, ids: nat -> string): seq<Call>
    decreases |blocks|
  {
    if blocks == [] then []
    else
      var n := |blocks| - 1;
      var before := CallsOf(blocks[..n], ids);
      match blocks[n]
      case ToolUse(id, name, input) =>
        before + [Call(FirstNonEmpty([id, "call_" + ids(n)]), name, Arguments(input), "")]
      case TextBlock(_) | OtherBlock(_) => before
  }

  function ToOpenAI(r: Reply, ids: nat -> string, replyId: string): Completion {
    var text := TextOf(r.content);
    var calls := CallsOf(r.content, ids);
    var prompt := r.usage.PromptTotal();
    Completion(
      FirstNonEmpty([r.id, "msg_" + replyId]),
      if r.role == "" then "assistant" else r.role,
      if calls != [] && text == "" then None else Some(text),
      calls,
      Upgrade(MapStopReason(r.stop), calls != []),
      Usage(prompt, r.usage.output, prompt + r.usage.output, r.usage.cacheRead))
  }

  method ReadBlocks(blocks: seq<Block>, ids: nat -> string) returns (content: string, calls: seq<Call>)
    ensures content == TextOf(blocks) && calls == CallsOf(blocks, ids)
  {
    hide FirstNonEmpty;
    content, calls := "", [];
    for i := 0 to |blocks|
      invariant content == TextOf(blocks[..i])
      invariant calls == CallsOf(blocks[..i], ids)
    {
      assert blocks[..i + 1][..i] == blocks[..i];
      match blocks[i] {
        case TextBlock(text) =>
          content := content + text;
        case ToolUse(id, name, input) =>
          var args := "{}";
          if |input| > 0 && input != "null" {
            args := input;
          }
          calls := calls + [Call(FirstNonEmpty([id, "call_" + ids(i)]), name, args, "")];
        case OtherBlock(_) =>
      }
    }
    assert blocks[..|blocks|] == blocks;
  }

  method Translate(r: Reply, ids: nat -> string, replyId: string) returns (c: Completion)
    ensures c == ToOpenAI(r, ids, replyId)
  {
    hide FirstNonEmpty, MapStopReason, TextOf, CallsOf;
    var content, calls := ReadBlocks(r.content, ids);
    var message := Some(content);
    var reason := MapStopReason(r.stop);
    if |calls| > 0 {
      if |content| == 0 {
        message := None;
      }
      if reason == "stop" {
        reason := "tool_calls";
      }
    }
    var prompt := r.usage.PromptTotal();
    c := Completion(FirstNonEmpty([r.id, "msg_" + replyId]), if r.role == "" then "assistant" else r.role, message,
                    calls, reason, Usage(prompt, r.usage.output, prompt + r.usage.output, r.usage.cacheRead));
  }

  // ---------- the stream (anthropic.go:798-971) ----------

  /** The `type` of an event frame; `NoKind` is an absent one. */
  datatype Kind = NoKind | MessageStart | BlockStart | BlockDelta | MessageDelta | MessageStop | OtherKind

  datatype DeltaKind = TextDelta | JsonDelta | OtherDelta

  /** A payload: not JSON, the end mark, or an event envelope with its absent fields empty. */
  datatype Event =
    | Malformed
    | EndMark
    | Envelope(kind: Kind, index: int, deltaKind: DeltaKind, text: string, partial: string, stop: string,
               isToolUse: bool, blockId: string, blockName: string, messageId: string, startUsage: RawUsage,
               usage: RawUsage)

  datatype State =
    State(eventType: Kind, messageId: string, prompt: nat, cached: nat, completion: nat, stop: string,
          toolIndexByBlock: map<int, nat>, toolCalls: nat, sawToolCalls: bool)

  const FRESH := State(NoKind, "", 0, 0, 0, "", map[], 0, false)

  function Frame1(s: State, choice: int, role: bool, content: string, calls: seq<CallDelta>): Chunk {
    Chunk(Some(Payload(s.messageId, choice, role, content, calls, None)), None)
  }

  function FinalChunk(s: State): Chunk {
    Chunk(if s.stop == "" then None
          else Some(Payload(s.messageId, 0, false, "", [], Some(Upgrade(MapStopReason(s.stop), s.sawToolCalls)))),
          if s.prompt > 0 || s.completion > 0
          then Some(Usage(s.prompt, s.completion, s.prompt + s.completion, s.cached))
          else None)
  }

  /** What one payload does: the new state, and a chunk unless the loop reads on. */
  function Act(s0: State, e: Event): (State, Option<Chunk>) {
    match e
    case Malformed => (s0, None)
    case EndMark => (s0, Some(Done))
    case Envelope(_, _, _, _, _, _, _, _, _, _, _, _) =>
      var s := s0.(eventType := if e.kind == NoKind then s0.eventType else e.kind);
      match s.eventType
      case MessageStart =>
        var t := s.(messageId := e.messageId, prompt := e.startUsage.PromptTotal(), cached := e.startUsage.cacheRead);
        (t, Some(Frame1(t, 0, true, "", [])))
      case BlockStart =>
        if !e.isToolUse then (s, None)
        else
          (s.(toolIndexByBlock := s.toolIndexByBlock[e.index := s.toolCalls],
              toolCalls := s.toolCalls + 1,
              sawToolCalls := true),
           Some(Frame1(s, 0, false, "", [CallDelta(s.toolCalls, e.blockId, e.blockName, "", "")])))
      case BlockDelta =>
        if e.deltaKind.TextDelta? && e.text != "" then (s, Some(Frame1(s, e.index, false, e.text, [])))
        else if e.deltaKind.JsonDelta? && e.index in s.toolIndexByBlock then
          (s, Some(Frame1(s, 0, false, "", [CallDelta(s.toolIndexByBlock[e.index], "", "", e.partial, "")])))
        else (s, None)
      case MessageDelta =>
        var t := s.(completion := e.usage.output, stop := if e.stop == "" then s.stop else e.stop);
        (t, Some(FinalChunk(t)))
      case MessageStop => (s, Some(Done))
      case NoKind | OtherKind => (s, None)
  }

  datatype Answer = Got(chunk: Chunk) | EndOfStream | Failure

  function NextOf(s: State, src: Source<Event>): (r: (Answer, State, Source<Event>))
    ensures r.0.Got? ==> |r.2.lines| < |src.lines|
    decreases |src.lines|
  {
    var (item, rest) := Pull(src);
    match item
    case Eof => (EndOfStream, s, rest)
    case Broken => (Failure, s, rest)
    case Finished => (Got(Done), s, rest)
    case Frame(e) =>
      var (t, out) := Act(s, e);
      if out.Some? then (Got(out.value), t, rest) else NextOf(t, rest)
  }

  /** Everything a reader gets that stops at the sentinel, the end or a failure. */
  function Drain(s: State, src: Source<Event>): seq<Chunk>
    decreases |src.lines|
  {
    var (a, t, rest) := NextOf(s, src);
    if !a.Got? then [] else if a.chunk.Done? then [Done] else [a.chunk] + Drain(t, rest)
  }

  lemma DrainUnfolds(s: State, src: Source<Event>)
    ensures var (a, t, rest) := NextOf(s, src);
            && Drain(s, src) == (if !a.Got? then [] else if a.chunk.Done? then [Done] else [a.chunk] + Drain(t, rest))
  {
    hide NextOf;
  }

  class AnthropicStream {
    const inner: SseStream<Event>
    var eventType: Kind
    var messageId: string
    var prompt: nat
    var cached: nat
    var completion: nat
    var stop: string
    var toolIndexByBlock: map<int, nat>
    var toolCalls: nat
    var sawToolCalls: bool

    constructor (inner: SseStream<Event>)
      ensures Value() == FRESH && this.inner == inner
    {
      this.inner := inner;
      eventType, messageId, stop := NoKind, "", "";
      prompt, cached, completion := 0, 0, 0;
      toolIndexByBlock, toolCalls, sawToolCalls := map[], 0, false;
    }

    ghost function Value(): State
      reads this
    {
      State(eventType, messageId, prompt, cached, completion, stop, toolIndexByBlock, toolCalls, sawToolCalls)
    }

    method ToolDelta(index: nat, id: string, name: string, args: string) returns (c: Chunk)
      ensures c == Frame1(Value(), 0, false, "", [CallDelta(index, id, name, args, "")])
    {
      c := Chunk(Some(Payload(messageId, 0, false, "", [CallDelta(index, id, name, args, "")], None)), None);
    }

    method Final() returns (c: Chunk)
      ensures c == FinalChunk(Value())
    {
      var usage := None;
      if prompt > 0 || completion > 0 {
        usage := Some(Usage(prompt, completion, prompt + completion, cached));
      }
      if stop == "" {
        return Chunk(None, usage);
      }
      var reason := MapStopReason(stop);
      if sawToolCalls && reason == "stop" {
        reason := "tool_calls";
      }
      c := Chunk(Some(Payload(messageId, 0, false, "", [], Some(reason))), usage);
    }

    /** Handles one payload; `None` means the loop reads on. */
    method React(e: Event) returns (out: Option<Chunk>)
      modifies this
      ensures (Value(), out) == Act(old(Value()), e)
    {
      if e == Malformed {
        return None;
      }
      if e == EndMark {
        return Some(Done);
      }
      eventType := if e.kind == NoKind then eventType else e.kind;
      match eventType {
        case MessageStart =>
          messageId, prompt, cached := e.messageId, e.startUsage.PromptTotal(), e.startUsage.cacheRead;
          out := Some(Chunk(Some(Payload(messageId, 0, true, "", [], None)), None));
        case BlockStart =>
          if !e.isToolUse {
            return None;
          }
          var index := toolCalls;
          toolIndexByBlock := toolIndexByBlock[e.index := index];
          toolCalls := toolCalls + 1;
          sawToolCalls := true;
          var c := ToolDelta(index, e.blockId, e.blockName, "");
          out := Some(c);
        case BlockDelta =>
          match e.deltaKind {
            case TextDelta =>
              if e.text == "" {
                return None;
              }
              out := Some(Chunk(Some(Payload(messageId, e.index, false, e.text, [], None)), None));
            case JsonDelta =>
              if e.index !in toolIndexByBlock {
                return None;
              }
              var c := ToolDelta(toolIndexByBlock[e.index], "", "", e.partial);
              out := Some(c);
            case OtherDelta =>
              out := None;
          }
        case MessageDelta =>
          completion := e.usage.output;
          if e.stop != "" {
            stop := e.stop;
          }
          var c := Final();
          out := Some(c);
        case MessageStop =>
          out := Some(Done);
        case NoKind =>
          out := None;
        case OtherKind =>
          out := None;
      }
    }

    method Next() returns (a: Answer)
      modifies this, inner
      ensures (a, Value(), inner.Src()) == NextOf(old(Value()), old(inner.Src()))
    {
      hide Act;
      while true
        invariant NextOf(Value(), inner.Src()) == NextOf(old(Value()), old(inner.Src()))
        decreases |inner.lines|
      {
        var item := inner.Next();
        match item {
          case Eof =>
            return EndOfStream;
          case Broken =>
            return Failure;
          case Finished =>
            return Got(Done);
          case Frame(e) =>
            var out := React(e);
            if out.Some? {
              return Got(out.value);
            }
        }
      }
    }

    /** The loop that drains a stream (proxy.go:867-905): payloads and the end mark are written to the client, the last
        usage report is kept for the settlement. */
    method ReadAll() returns (written: seq<Written>, last: Option<Usage>)
      modifies this, inner
      ensures written == WrittenOf(Drain(old(Value()), old(inner.Src())))
      ensures last == LastUsage(Drain(old(Value()), old(inner.Src())))
    {
      hide NextOf, Drain, WrittenOf, LastUsage;
      ghost var all := Drain(Value(), inner.Src());
      written, last := [], None;
      while true
        invariant written + WrittenOf(Drain(Value(), inner.Src())) == WrittenOf(all)
        invariant Later(last, LastUsage(Drain(Value(), inner.Src()))) == LastUsage(all)
        decreases |inner.lines|
      {
        DrainUnfolds(Value(), inner.Src());
        var a := Next();
        if !a.Got? {
          OneMoreChunk(Done, []);
          break;
        }
        OneMoreChunk(a.chunk, Drain(Value(), inner.Src()));
        if a.chunk.Chunk? && a.chunk.usage.Some? {
          last := a.chunk.usage;
        }
        if a.chunk.Done? {
          written := written + [EndFrame];
          break;
        }
        if a.chunk.payload.Some? {
          written := written + [DataFrame(a.chunk.payload.value)];
        }
      }
    }
  }
}
