/** The Anthropic request translation: system text hoisted, content converted to blocks, tool ids paired, adjacent
    roles merged, and cache breakpoints injected. */
module AnthropicRequests {
  import opened Prelude
  import opened Chat
  import opened Turns

  datatype Block =
    | Text(text: string)
    | Image(mediaType: string, data: string)
    | ToolUse(id: string, name: string, input: string)
    | ToolResult(toolUseId: string, content: string)

  /** A block and whether it carries a cache breakpoint. */
  datatype Part = Part(block: Block, marked: bool)

  function ConvertPart(p: InPart): seq<Part> {
    match p
    case TextIn(text) => [Part(Text(text), false)]
    case ImageIn(Some(url)) =>
      (match SplitDataURI(url)
       case Some(m) => [Part(Image(m.mediaType, m.data), false)]
       case None => [])
    case ImageIn(None) => []
    case AudioIn(_, _) => []
    case UnknownIn => []
  }

  function ConvertParts(parts: seq<InPart>): seq<Part> {
    if parts == [] then [] else ConvertParts(parts[..|parts| - 1]) + ConvertPart(parts[|parts| - 1])
  }

  function ConvertContent(c: Content): seq<Part> {
    match c
    case Plain(s) => if s == "" then [] else [Part(Text(s), false)]
    case Multi(parts) => ConvertParts(parts)
    case Null | Unreadable => []
  }

  /** The last id seen for each function name, over the whole conversation. */
  function IdsByCalls(calls: seq<ToolCall>, ids: map<string, string>): map<string, string> {
    if calls == [] then ids
    else
      var c := calls[|calls| - 1];
      var before := IdsByCalls(calls[..|calls| - 1], ids);
      if c.id != "" && c.name != "" then before[c.name := c.id] else before
  }

  function IdsByName(ms: seq<Message>): map<string, string> {
    if ms == [] then map[] else IdsByCalls(ms[|ms| - 1].toolCalls, IdsByName(ms[..|ms| - 1]))
  }

  /** Calls become tool_use blocks; a call without id takes the next fresh one. `n` counts the fresh ids used. */
  function ConvertCalls(calls: seq<ToolCall>, newId: nat -> string, n: nat): (seq<Part>, nat) {
    if calls == [] then ([], n)
    else
      var (before, k) := ConvertCalls(calls[..|calls| - 1], newId, n);
      var c := calls[|calls| - 1];
      var id := if c.id == "" then newId(k) else c.id;
      (before + [Part(ToolUse(id, c.name, ToolArguments(c.arguments)), false)], if c.id == "" then k + 1 else k)
  }

  predicate IsSystem(m: Message) { m.role == System || m.role == Developer }

  function ResultId(m: Message, ids: map<string, string>): string { FirstNonEmpty([m.toolCallId, Lookup(ids, m.name)]) }

  /** One conversation message as a turn of its own, and the fresh ids used so far. */
  function ConvertMessage(m: Message, ids: map<string, string>, newId: nat -> string, n: nat): (Turn<Part>, nat) {
    if m.role == Assistant then
      var (calls, k) := ConvertCalls(m.toolCalls, newId, n);
      (Turn(Model, ConvertContent(m.content) + calls), k)
    else if IsToolResult(m) then
      var id := ResultId(m, ids);
      (Turn(User, if id == "" then [] else [Part(ToolResult(id, FlattenText(m.content)), false)]), n)
    else (Turn(User, ConvertContent(m.content)), n)
  }

  /** Every conversation message converted, before merging. */
  function ConvertAll(ms: seq<Message>, ids: map<string, string>, newId: nat -> string): (seq<Turn<Part>>, nat)
    decreases |ms|
  {
    if ms == [] then ([], 0)
    else
      var m := ms[|ms| - 1];
      var (before, n) := ConvertAll(ms[..|ms| - 1], ids, newId);
      if IsSystem(m) then (before, n)
      else
        var (t, k) := ConvertMessage(m, ids, newId, n);
        (before + [t], k)
  }

  function SystemOf(ms: seq<Message>): seq<Part> {
    if ms == [] then []
    else
      var m := ms[|ms| - 1];
      var before := SystemOf(ms[..|ms| - 1]);
      if IsSystem(m) && FlattenText(m.content) != "" then before + [Part(Text(FlattenText(m.content)), false)]
      else before
  }

  function ConvertTurns(ms: seq<Message>, newId: nat -> string): seq<Turn<Part>> {
    Merge(ConvertAll(ms, IdsByName(ms), newId).0)
  }

  // ---------- the request object ----------

  const MAX_BREAKPOINTS: nat := 4

  function Marks(parts: seq<Part>): nat {
    if parts == [] then 0 else Marks(parts[..|parts| - 1]) + if parts[|parts| - 1].marked then 1 else 0
  }

  function TurnMarks(ts: seq<Turn<Part>>): nat {
    if ts == [] then 0 else TurnMarks(ts[..|ts| - 1]) + Marks(ts[|ts| - 1].parts)
  }

  function MarkLast(parts: seq<Part>): seq<Part>
    requires parts != []
  {
    parts[|parts| - 1 := parts[|parts| - 1].(marked := true)]
  }

  /** Marks the last part of the first message that has any. */
  function MarkFirst(ts: seq<Turn<Part>>): seq<Turn<Part>> {
    if ts == [] then []
    else if ts[0].parts == [] then [ts[0]] + MarkFirst(ts[1..])
    else [ts[0].(parts := MarkLast(ts[0].parts))] + ts[1..]
  }

  datatype Body = Body(system: seq<Part>, messages: seq<Turn<Part>>)

  function BodyMarks(b: Body): nat { Marks(b.system) + TurnMarks(b.messages) }

  /** What injection makes of a request. */
  function Inject(b: Body): Body {
    if BodyMarks(b) >= MAX_BREAKPOINTS then b
    else
      var system := if b.system != [] then MarkLast(b.system) else [];
      var used := BodyMarks(b) + if b.system != [] && !b.system[|b.system| - 1].marked then 1 else 0;
      if used >= MAX_BREAKPOINTS then Body(system, b.messages) else Body(system, MarkFirst(b.messages))
  }

  class AnthropicRequest {
    var system: seq<Part>
    var messages: seq<Turn<Part>>

    function View(): Body
      reads this
    {
      Body(system, messages)
    }

    /** Translates a conversation; cache breakpoints are injected unless the slot opts out. */
    constructor Build(ms: seq<Message>, newId: nat -> string, noCache: bool)
      ensures View() == var b := Body(SystemOf(ms), ConvertTurns(ms, newId)); if noCache then b else Inject(b)
    {
      var sys, turns := Convert(ms, newId);
      system, messages := sys, turns;
      new;
      if !noCache {
        InjectCacheBreakpoints();
      }
    }

    method CacheBreakpointCount() returns (n: nat)
      ensures n == BodyMarks(View())
    {
      n := 0;
      for i := 0 to |system|
        invariant n == Marks(system[..i])
      {
        assert system[..i + 1][..i] == system[..i];
        if system[i].marked {
          n := n + 1;
        }
      }
      assert system[..|system|] == system;
      for i := 0 to |messages|
        invariant n == Marks(system) + TurnMarks(messages[..i])
      {
        assert messages[..i + 1][..i] == messages[..i];
        var parts := messages[i].parts;
        for j := 0 to |parts|
          invariant n == Marks(system) + TurnMarks(messages[..i]) + Marks(parts[..j])
        {
          assert parts[..j + 1][..j] == parts[..j];
          if parts[j].marked {
            n := n + 1;
          }
        }
        assert parts[..|parts|] == parts;
      }
      assert messages[..|messages|] == messages;
    }

    /** Marks the end of the system prompt and of the first message, within the breakpoint ceiling. */
    method InjectCacheBreakpoints()
      modifies this
      ensures View() == Inject(old(View()))
    {
      hide Marks, TurnMarks, MarkFirst;
      var used := CacheBreakpointCount();
      if used >= MAX_BREAKPOINTS {
        return;
      }
      if |system| > 0 {
        var last := system[|system| - 1];
        if !last.marked {
          used := used + 1;
        }
        system := system[|system| - 1 := last.(marked := true)];
      }
      if used >= MAX_BREAKPOINTS {
        return;
      }
      MarkFirstMessage();
    }

    /** Marks the last part of the first message that has parts. */
    method MarkFirstMessage()
      modifies this`messages
      ensures messages == MarkFirst(old(messages))
    {
      var i := 0;
      while i < |messages| && messages[i].parts == []
        invariant i <= |messages| && messages == old(messages)
        invariant MarkFirst(messages) == messages[..i] + MarkFirst(messages[i..])
      {
        assert messages[i..][1..] == messages[i + 1..];
        i := i + 1;
      }
      if i < |messages| {
        assert messages[i..][1..] == messages[i + 1..];
        messages := messages[i := messages[i].(parts := MarkLast(messages[i].parts))];
      }
    }
  }

  /** The first pass over the conversation. */
  method RecordIds(ms: seq<Message>) returns (ids: map<string, string>)
    ensures ids == IdsByName(ms)
  {
    ids := map[];
    for i := 0 to |ms|
      invariant ids == IdsByName(ms[..i])
    {
      assert ms[..i + 1][..i] == ms[..i];
      ids := CollectIds(ms[i].toolCalls, ids);
    }
    assert ms[..|ms|] == ms;
  }

  /** The conversion loop: hoists system text and appends every other message to the alternating turns. */
  method Convert(ms: seq<Message>, newId: nat -> string) returns (system: seq<Part>, turns: seq<Turn<Part>>)
    ensures system == SystemOf(ms) && turns == ConvertTurns(ms, newId)
  {
    hide ConvertMessage, FlattenText, Add, Merge, IdsByName;
    var ids := RecordIds(ms);
    system, turns := [], [];
    var n: nat := 0;
    NothingToMerge<Part>();
    for i := 0 to |ms|
      invariant system == SystemOf(ms[..i])
      invariant turns == Merge(ConvertAll(ms[..i], ids, newId).0) && n == ConvertAll(ms[..i], ids, newId).1
    {
      var m := ms[i];
      assert ms[..i + 1][..i] == ms[..i];
      if m.role == System || m.role == Developer {
        var text := FlattenText(m.content);
        if text != "" {
          system := system + [Part(Text(text), false)];
        }
      } else {
        var (t, k) := ConvertMessage(m, ids, newId, n);
        MergeOneMore(ConvertAll(ms[..i], ids, newId).0, t);
        n := k;
        turns := AppendTurn(turns, t);
      }
    }
    assert ms[..|ms|] == ms;
  }

  method CollectIds(calls: seq<ToolCall>, before: map<string, string>) returns (ids: map<string, string>)
    ensures ids == IdsByCalls(calls, before)
  {
    ids := before;
    for i := 0 to |calls|
      invariant ids == IdsByCalls(calls[..i], before)
    {
      assert calls[..i + 1][..i] == calls[..i];
      if calls[i].id != "" && calls[i].name != "" {
        ids := ids[calls[i].name := calls[i].id];
      }
    }
    assert calls[..|calls|] == calls;
  }
}
