/** The OpenAI side of both translations: streamed delta chunks, the buffered completion, and a reader that
    accumulates the former. */
module Chunks {
  import opened Prelude

  datatype Usage = Usage(prompt: nat, completion: nat, total: nat, cached: nat)

  const NO_USAGE := Usage(0, 0, 0, 0)

  /** One entry of `delta.tool_calls`. An empty id or name is one the frame leaves out. */
  datatype CallDelta = CallDelta(index: nat, id: string, name: string, args: string, signature: string)

  datatype Payload =
    Payload(id: string, choice: int, role: bool, content: string, calls: seq<CallDelta>, finish: Option<string>)

  datatype Chunk = Chunk(payload: Option<Payload>, usage: Option<Usage>) | Done

  datatype Call = Call(id: string, name: string, args: string, signature: string)

  /** A buffered chat completion. Absent content is the JSON null. */
  datatype Completion =
    Completion(id: string, role: string, content: Option<string>, calls: seq<Call>, finish: string, usage: Usage)

  /** A plain stop after tool calls is reported as `tool_calls`. */
  function Upgrade(reason: string, hasCalls: bool): string {
    if hasCalls && reason == "stop" then "tool_calls" else reason
  }

  /** What a reader of the chunks has put together so far. */
  datatype Heard =
    Heard(id: string, role: string, text: string, calls: map<nat, Call>, finish: Option<string>, usage: Option<Usage>)

  const SILENCE := Heard("", "", "", map[], None, None)

  /** Ids and names replace what was there, argument fragments are appended. */
  function HearCall(calls: map<nat, Call>, d: CallDelta): map<nat, Call> {
    var was := if d.index in calls then calls[d.index] else Call("", "", "", "");
    calls[d.index := Call(if d.id == "" then was.id else d.id,
                          if d.name == "" then was.name else d.name,
                          was.args + d.args,
                          if d.signature == "" then was.signature else d.signature)]
  }

  function HearCalls(calls: map<nat, Call>, ds: seq<CallDelta>): map<nat, Call>
    decreases |ds|
  {
    if ds == [] then calls else HearCalls(HearCall(calls, ds[0]), ds[1..])
  }

  /** Text is taken from every choice; the last finish reason and the last usage report stand. */
  function Hear(h: Heard, c: Chunk): Heard {
    match c
    case Done => h
    case Chunk(payload, usage) =>
      var u := if usage.Some? then usage else h.usage;
      match payload
      case None => h.(usage := u)
      case Some(p) =>
        Heard(p.id,
              if p.role then "assistant" else h.role,
              h.text + p.content,
              HearCalls(h.calls, p.calls),
              if p.finish.Some? then p.finish else h.finish,
              u)
  }

  function HearAll(h: Heard, cs: seq<Chunk>): Heard
    decreases |cs|
  {
    if cs == [] then h else HearAll(Hear(h, cs[0]), cs[1..])
  }

  // ---------- what reaches the client ----------

  /** What is written to the client: payloads and the end mark. Usage travels beside them and is not written. */
  datatype Written = DataFrame(payload: Payload) | EndFrame

  function WrittenFor(c: Chunk): seq<Written> {
    match c
    case Done => [EndFrame]
    case Chunk(None, _) => []
    case Chunk(Some(p), _) => [DataFrame(p)]
  }

  function WrittenOf(cs: seq<Chunk>): seq<Written> {
    if cs == [] then [] else WrittenFor(cs[0]) + WrittenOf(cs[1..])
  }

  function UsageOf(c: Chunk): Option<Usage> { if c.Done? then None else c.usage }

  /** The last usage report, which is what the request is settled with. */
  function LastUsage(cs: seq<Chunk>): Option<Usage> {
    if cs == [] then None
    else
      Later(UsageOf(cs[0]), LastUsage(cs[1..]))
  }

  /** A later report replaces an earlier one. */
  function Later(earlier: Option<Usage>, later: Option<Usage>): Option<Usage> {
    if later.Some? then later else earlier
  }

  lemma OneMoreChunk(c: Chunk, rest: seq<Chunk>)
    ensures WrittenOf([c] + rest) == WrittenFor(c) + WrittenOf(rest)
    ensures LastUsage([c] + rest) == Later(UsageOf(c), LastUsage(rest))
    ensures WrittenOf([c]) == WrittenFor(c) && LastUsage([c]) == UsageOf(c)
    ensures WrittenOf([]) == [] && LastUsage([]) == None
  {
    assert ([c] + rest)[1..] == rest && [c][1..] == [];
  }

  function HearFrame(h: Heard, w: Written): Heard {
    if w.EndFrame? then h else Hear(h, Chunk(Some(w.payload), None))
  }

  function HearFrames(h: Heard, ws: seq<Written>): Heard
    decreases |ws|
  {
    if ws == [] then h else HearFrames(HearFrame(h, ws[0]), ws[1..])
  }

  lemma {:induction false} FramesKeepUsage(h: Heard, u: Option<Usage>, ws: seq<Written>)
    ensures HearFrames(h.(usage := u), ws) == HearFrames(h, ws).(usage := u)
    decreases |ws|
  {
    if ws != [] {
      FramesKeepUsage(HearFrame(h, ws[0]), u, ws[1..]);
    }
  }

  /** A reader of the chunks knows what the client hears from the written frames and what the settlement is told, and
      nothing more. */
  lemma {:induction false} HeardIsWrittenAndReported(h: Heard, cs: seq<Chunk>)
    ensures HearAll(h, cs)
         == HearFrames(h, WrittenOf(cs)).(usage := Later(h.usage, LastUsage(cs)))
    decreases |cs|
  {
    hide HearCalls;
    if cs != [] {
      var h' := Hear(h, cs[0]);
      HeardIsWrittenAndReported(h', cs[1..]);
      var ws := WrittenFor(cs[0]);
      if ws == [] {
        assert ws + WrittenOf(cs[1..]) == WrittenOf(cs[1..]);
        FramesKeepUsage(h, h'.usage, WrittenOf(cs[1..]));
      } else {
        assert (ws + WrittenOf(cs[1..]))[1..] == WrittenOf(cs[1..]);
        FramesKeepUsage(HearFrame(h, ws[0]), h'.usage, WrittenOf(cs[1..]));
      }
    }
  }

  /** The map holds exactly the listed calls, at indexes 0, 1, 2, ... without a gap. */
  ghost predicate Lists(calls: map<nat, Call>, expected: seq<Call>) {
    && (forall i: nat :: i in calls <==> i < |expected|)
    && (forall i: nat :: i < |expected| ==> calls[i] == expected[i])
  }

  /** The text of a list of fragments. */
  function Concat(fragments: seq<string>): string {
    if fragments == [] then "" else fragments[0] + Concat(fragments[1..])
  }

  lemma ListsAreEqual(calls: map<nat, Call>, a: seq<Call>, b: seq<Call>)
    requires Lists(calls, a)
    ensures Lists(calls, b) <==> a == b
  {
    if Lists(calls, b) {
      assert |a| in calls <==> |a| < |b|;
      assert |b| in calls <==> |b| < |a|;
      assert forall i: nat :: i < |a| ==> a[i] == b[i];
    }
  }

  lemma HearOne(h: Heard, c: Chunk, rest: seq<Chunk>)
    ensures HearAll(h, [c] + rest) == HearAll(Hear(h, c), rest)
  {
    assert ([c] + rest)[1..] == rest;
  }
}
