/** Gemini's streamed replies rewritten as OpenAI chunks, and the buffered translation they have to agree with. */
module GeminiStreams {
  import opened Prelude
  import opened Sse
  import opened Chunks

  datatype FnCall = FnCall(name: string, args: string, signature: string)

  datatype Part = Part(text: string, call: Option<FnCall>, thought: bool)

  datatype Candidate = Candidate(parts: seq<Part>, finish: string)

  datatype Meta = Meta(prompt: nat, candidates: nat, thoughts: nat, total: nat, cached: nat) {
    predicate Counts() { prompt > 0 || candidates > 0 || thoughts > 0 || total > 0 }

    function AsUsage(): Usage {
      var completion := candidates + thoughts;
      Usage(prompt, completion, if total == 0 then prompt + completion else total, cached)
    }
  }

  const NO_META := Meta(0, 0, 0, 0, 0)

  datatype Response = Response(candidates: seq<Candidate>, meta: Meta) {
    /** Only the first candidate is looked at. */
    function Parts(): seq<Part> { if candidates == [] then [] else candidates[0].parts }

    function Finish(): string { if candidates == [] then "" else candidates[0].finish }
  }

  function MapFinish(reason: string): string {
    if reason == "MAX_TOKENS" then "length"
    else if reason in ["SAFETY", "RECITATION", "PROHIBITED_CONTENT"] then "content_filter"
    else "stop"
  }

  /** A reply is cut short or filtered exactly for the reasons that say so; all others are plain stops. */
  lemma FinishReasons(reason: string)
    ensures MapFinish(reason) == "length" <==> reason == "MAX_TOKENS"
    ensures MapFinish(reason) == "content_filter" <==> reason in ["SAFETY", "RECITATION", "PROHIBITED_CONTENT"]
    ensures MapFinish(reason) in ["length", "content_filter", "stop"]
  {
    assert |"length"| == 6 && |"content_filter"| == 14 && |"stop"| == 4;
    assert |"MAX_TOKENS"| == 10 && |"SAFETY"| == 6 && |"PROHIBITED_CONTENT"| == 18;
    assert "RECITATION"[0] != "MAX_TOKENS"[0];
  }

  /** The answer text; reasoning summaries are dropped. */
  function TextOf(parts: seq<Part>): string
    decreases |parts|
  {
    if parts == [] then ""
    else
      var n := |parts| - 1;
      TextOf(parts[..n]) + (if parts[n].thought then "" else parts[n].text)
  }

  function CallsOf(parts: seq<Part>): seq<FnCall>
    decreases |parts|
  {
    if parts == [] then []
    else
      var n := |parts| - 1;
      CallsOf(parts[..n]) + (if !parts[n].thought && parts[n].call.Some? then [parts[n].call.value] else [])
  }

  /** One call in OpenAI's shape; the n-th call of a message takes the n-th new id. */
  function Render(c: FnCall, n: nat, ids: nat -> string): Call {
    Call("call_" + ids(n), c.name, if c.args == "" then "{}" else c.args, c.signature)
  }

  function RenderAll(cs: seq<FnCall>, ids: nat -> string): seq<Call>
    decreases |cs|
  {
    if cs == [] then []
    else
      var n := |cs| - 1;
      RenderAll(cs[..n], ids) + [Render(cs[n], n, ids)]
  }

  // ---------- the buffered translation (gemini.go:573-634) ----------

  function ToOpenAI(r: Response, ids: nat -> string, replyId: string): Completion {
    var text := TextOf(r.Parts());
    var calls := RenderAll(CallsOf(r.Parts()), ids);
    Completion(replyId, "assistant", if calls != [] && text == "" then None else Some(text), calls,
               Upgrade(MapFinish(r.Finish()), calls != []), r.meta.AsUsage())
  }

  method ReadParts(parts: seq<Part>) returns (text: string, calls: seq<FnCall>)
    ensures text == TextOf(parts) && calls == CallsOf(parts)
  {
    text, calls := "", [];
    for i := 0 to |parts|
      invariant text == TextOf(parts[..i]) && calls == CallsOf(parts[..i])
    {
      assert parts[..i + 1][..i] == parts[..i];
      var p := parts[i];
      if p.thought {
        continue;
      }
      text := text + p.text;
      if p.call.Some? {
        calls := calls + [p.call.value];
      }
    }
    assert parts[..|parts|] == parts;
  }

  // ---------- the stream (gemini.go:749-886) ----------

  datatype Event = Malformed | Reply(response: Response)

  datatype State = State(toolIndex: nat, sawToolCalls: bool, finished: bool)

  const FRESH := State(0, false, false)

  function Deltas(cs: seq<FnCall>, start: nat, ids: nat -> string): seq<CallDelta>
    decreases |cs|
  {
    if cs == [] then []
    else
      var n := |cs| - 1;
      var c := Render(cs[n], start + n, ids);
      Deltas(cs[..n], start, ids) + [CallDelta(start + n, c.id, c.name, c.args, c.signature)]
  }

  function ChunkPayload(text: string, finish: string, cs: seq<FnCall>, start: nat, hadCalls: bool, ids: nat -> string)
    : Option<Payload>
  {
    if text == "" && finish == "" && cs == [] then None
    else
      Some(Payload("", 0, false, text, Deltas(cs, start, ids),
                   if finish == "" then None else Some(Upgrade(MapFinish(finish), cs != [] || hadCalls))))
  }

  /** What one reply chunk does: the new state, and a chunk unless it says nothing. */
  function Act(s: State, r: Response, ids: nat -> string): (State, Option<Chunk>) {
    var cs := CallsOf(r.Parts());
    var payload :=
      ChunkPayload(TextOf(r.Parts()), r.Finish(), cs, s.toolIndex, s.sawToolCalls || cs != [], ids);
    var usage := if r.meta.Counts() then Some(r.meta.AsUsage()) else None;
    (s.(toolIndex := s.toolIndex + |cs|, sawToolCalls := s.sawToolCalls || cs != []),
     if payload.Some? || usage.Some? then Some(Chunk(payload, usage)) else None)
  }

  datatype Answer = Got(chunk: Chunk) | EndOfStream | Failure

  function NextOf(s: State, src: Source<Event>, ids: nat -> string): (r: (Answer, State, Source<Event>))
    ensures r.0.Got? && !r.0.chunk.Done? ==> |r.2.lines| < |src.lines|
    decreases |src.lines|
  {
    if s.finished then (EndOfStream, s, src)
    else
      var (item, rest) := Pull(src);
      match item
      case Eof | Finished => (Got(Done), s.(finished := true), rest)
      case Broken => (Failure, s, rest)
      case Frame(e) =>
        if e.Malformed? then NextOf(s, rest, ids)
        else
          var (t, out) := Act(s, e.response, ids);
          if out.Some? then (Got(out.value), t, rest) else NextOf(t, rest, ids)
  }

  function Drain(s: State, src: Source<Event>, ids: nat -> string): seq<Chunk>
    decreases |src.lines|
  {
    var (a, t, rest) := NextOf(s, src, ids);
    if !a.Got? then [] else if a.chunk.Done? then [Done] else [a.chunk] + Drain(t, rest, ids)
  }

  /** Where a stream stands once it has been drained. */
  function Left(s: State, src: Source<Event>, ids: nat -> string): (State, Source<Event>)
    decreases |src.lines|
  {
    var (a, t, rest) := NextOf(s, src, ids);
    if a.Got? && !a.chunk.Done? then Left(t, rest, ids) else (t, rest)
  }

  lemma DrainUnfolds(s: State, src: Source<Event>, ids: nat -> string)
    ensures var (a, t, rest) := NextOf(s, src, ids);
            && Drain(s, src, ids)
               == (if !a.Got? then [] else if a.chunk.Done? then [Done] else [a.chunk] + Drain(t, rest, ids))
            && Left(s, src, ids) == (if a.Got? && !a.chunk.Done? then Left(t, rest, ids) else (t, rest))
  {
    hide NextOf;
  }

  class GeminiStream {
    const inner: SseStream<Event>
    const ids: nat -> string
    var toolIndex: nat
    var sawToolCalls: bool
    var finished: bool

    constructor (inner: SseStream<Event>, ids: nat -> string)
      ensures Value() == FRESH && this.inner == inner && this.ids == ids
    {
      this.inner, this.ids := inner, ids;
      toolIndex, sawToolCalls, finished := 0, false, false;
    }

    ghost function Value(): State
      reads this
    {
      State(toolIndex, sawToolCalls, finished)
    }

    method BuildPayload(text: string, finish: string, cs: seq<FnCall>, hadCalls: bool) returns (p: Option<Payload>)
      ensures p == ChunkPayload(text, finish, cs, toolIndex, hadCalls, ids)
    {
      hide MapFinish, Render;
      if text == "" && finish == "" && |cs| == 0 {
        return None;
      }
      var calls: seq<CallDelta> := [];
      for i := 0 to |cs|
        invariant calls == Deltas(cs[..i], toolIndex, ids)
      {
        assert cs[..i + 1][..i] == cs[..i];
        var c := Render(cs[i], toolIndex + i, ids);
        calls := calls + [CallDelta(toolIndex + i, c.id, c.name, c.args, c.signature)];
      }
      assert cs[..|cs|] == cs;
      var reason := MapFinish(finish);
      if (|cs| > 0 || hadCalls) && reason == "stop" {
        reason := "tool_calls";
      }
      p := Some(Payload("", 0, false, text, calls, if finish != "" then Some(reason) else None));
    }

    method React(r: Response) returns (out: Option<Chunk>)
      modifies this
      ensures (Value(), out) == Act(old(Value()), r, ids)
    {
      hide MapFinish, Render;
      var text, cs := ReadParts(r.Parts());
      var usage := None;
      if r.meta.Counts() {
        usage := Some(r.meta.AsUsage());
      }
      var payload := BuildPayload(text, r.Finish(), cs, sawToolCalls || |cs| > 0);
      if payload.Some? && |cs| > 0 {
        sawToolCalls := true;
        toolIndex := toolIndex + |cs|;
      }
      out := if payload.Some? || usage.Some? then Some(Chunk(payload, usage)) else None;
    }

    method Next() returns (a: Answer)
      modifies this, inner
      ensures (a, Value(), inner.Src()) == NextOf(old(Value()), old(inner.Src()), ids)
    {
      hide Act;
      while true
        invariant NextOf(Value(), inner.Src(), ids) == NextOf(old(Value()), old(inner.Src()), ids)
        decreases |inner.lines|
      {
        if finished {
          return EndOfStream;
        }
        var item := inner.Next();
        match item {
          case Eof =>
            finished := true;
            return Got(Done);
          case Finished =>
            finished := true;
            return Got(Done);
          case Broken =>
            return Failure;
          case Frame(e) =>
            if e.Reply? {
              var out := React(e.response);
              if out.Some? {
                return Got(out.value);
              }
            }
        }
      }
    }

    /** The loop that drains a stream (proxy.go:867-905): payloads and the end mark are written to the client, the last
        usage report is kept for the settlement. */
    method ReadAll() returns (written: seq<Written>, last: Option<Usage>)
      modifies this, inner
      ensures written == WrittenOf(Drain(old(Value()), old(inner.Src()), ids))
      ensures last == LastUsage(Drain(old(Value()), old(inner.Src()), ids))
      ensures (Value(), inner.Src()) == Left(old(Value()), old(inner.Src()), ids)
    {
      hide NextOf, Drain, WrittenOf, LastUsage, Left;
      ghost var all := Drain(Value(), inner.Src(), ids);
      written, last := [], None;
      while true
        invariant written + WrittenOf(Drain(Value(), inner.Src(), ids)) == WrittenOf(all)
        invariant Later(last, LastUsage(Drain(Value(), inner.Src(), ids))) == LastUsage(all)
        invariant Left(Value(), inner.Src(), ids) == Left(old(Value()), old(inner.Src()), ids)
        decreases |inner.lines|
      {
        DrainUnfolds(Value(), inner.Src(), ids);
        var a := Next();
        if !a.Got? {
          OneMoreChunk(Done, []);
          break;
        }
        OneMoreChunk(a.chunk, Drain(Value(), inner.Src(), ids));
        if a.chunk.Chunk? && a.chunk.usage.Some? {
          last := a.chunk.usage;
        }
        if a.chunk.Done? {
          written := written + [EndFrame];
          break;
        }
        if a.chunk.payload.Some? {
          written := written + [DataFrame(a.chunk.payload.value)];
        }
      }
    }
  }

  // ---------- the main results ----------

  /** The reply chunks of a run of lines, up to the sentinel. */
  function Replies(lines: seq<Line<Event>>): seq<Response>
    decreases |lines|
  {
    if lines == [] || lines[0].Sentinel? then []
    else (if lines[0].Data? && lines[0].data.Reply? then [lines[0].data.response] else []) + Replies(lines[1..])
  }

  function AllParts(rs: seq<Response>): seq<Part>
    decreases |rs|
  {
    if rs == [] then [] else AllParts(rs[..|rs| - 1]) + rs[|rs| - 1].Parts()
  }

  function LastFinish(rs: seq<Response>): string
    decreases |rs|
  {
    if rs == [] then ""
    else if rs[|rs| - 1].Finish() != "" then rs[|rs| - 1].Finish() else LastFinish(rs[..|rs| - 1])
  }

  function LastMeta(rs: seq<Response>): Meta
    decreases |rs|
  {
    if rs == [] then NO_META
    else if rs[|rs| - 1].meta.Counts() then rs[|rs| - 1].meta else LastMeta(rs[..|rs| - 1])
  }

  /** The calls that had arrived when the last finish reason did. */
  function CallsByFinish(rs: seq<Response>): seq<FnCall>
    decreases |rs|
  {
    if rs == [] then []
    else if rs[|rs| - 1].Finish() != "" then CallsOf(AllParts(rs)) else CallsByFinish(rs[..|rs| - 1])
  }

  /** The one response whose first candidate says everything the chunks say. */
  function Joined(rs: seq<Response>): Response {
    Response([Candidate(AllParts(rs), LastFinish(rs))], LastMeta(rs))
  }

  /** What some reply chunks say altogether. */
  datatype Told = Told(text: string, calls: seq<FnCall>, finish: Option<string>, usage: Usage)

  function Tell(rs: seq<Response>): Told {
    Told(TextOf(AllParts(rs)),
         CallsOf(AllParts(rs)),
         if LastFinish(rs) == "" then None
         else Some(Upgrade(MapFinish(LastFinish(rs)), CallsByFinish(rs) != [])),
         LastMeta(rs).AsUsage())
  }

  function TellOne(t: Told, r: Response): Told {
    var cs := t.calls + CallsOf(r.Parts());
    Told(t.text + TextOf(r.Parts()),
         cs,
         if r.Finish() == "" then t.finish else Some(Upgrade(MapFinish(r.Finish()), cs != [])),
         if r.meta.Counts() then r.meta.AsUsage() else t.usage)
  }

  ghost predicate HeardSo(h: Heard, t: Told, ids: nat -> string) {
    h.text == t.text && Lists(h.calls, RenderAll(t.calls, ids)) && h.finish == t.finish
    && h.usage.GetOr(NO_USAGE) == t.usage
  }

  ghost predicate InStep(s: State, t: Told) {
    !s.finished && s.toolIndex == |t.calls| && (s.sawToolCalls <==> t.calls != [])
  }

  lemma {:induction false} PartsAppend(a: seq<Part>, b: seq<Part>)
    ensures TextOf(a + b) == TextOf(a) + TextOf(b)
    ensures CallsOf(a + b) == CallsOf(a) + CallsOf(b)
    decreases |b|
  {
    if b == [] {
      assert a + b == a;
    } else {
      var n := |b| - 1;
      assert (a + b)[..|a + b| - 1] == a + b[..n];
      PartsAppend(a, b[..n]);
    }
  }

  lemma {:induction false} RenderAppend(a: seq<FnCall>, c: FnCall, ids: nat -> string)
    ensures |RenderAll(a, ids)| == |a|
    ensures RenderAll(a + [c], ids) == RenderAll(a, ids) + [Render(c, |a|, ids)]
  {
    hide Render;
    assert (a + [c])[..|a|] == a;
    if a != [] {
      RenderAppend(a[..|a| - 1], a[|a| - 1], ids);
      assert a[..|a| - 1] + [a[|a| - 1]] == a;
    }
  }

  lemma HearRendered(calls: map<nat, Call>, expected: seq<Call>, c: Call)
    requires Lists(calls, expected)
    ensures Lists(HearCall(calls, CallDelta(|expected|, c.id, c.name, c.args, c.signature)), expected + [c])
  {
    assert |expected| !in calls;
    assert "" + c.args == c.args;
  }

  lemma {:induction false} HearCallsAppend(calls: map<nat, Call>, a: seq<CallDelta>, d: CallDelta)
    ensures HearCalls(calls, a + [d]) == HearCall(HearCalls(calls, a), d)
    decreases |a|
  {
    hide HearCall;
    if a == [] {
      assert a + [d] == [d] && [d][1..] == [];
    } else {
      assert (a + [d])[1..] == a[1..] + [d];
      HearCallsAppend(HearCall(calls, a[0]), a[1..], d);
    }
  }

  lemma {:induction false} DeltasHeard(calls: map<nat, Call>, before: seq<FnCall>, cs: seq<FnCall>, ids: nat -> string)
    requires Lists(calls, RenderAll(before, ids))
    ensures Lists(HearCalls(calls, Deltas(cs, |before|, ids)), RenderAll(before + cs, ids))
    decreases |cs|
  {
    hide HearCall, Render, Lists;
    if cs == [] {
      assert before + cs == before;
    } else {
      var n := |cs| - 1;
      DeltasHeard(calls, before, cs[..n], ids);
      var c := Render(cs[n], |before| + n, ids);
      RenderAppend(before + cs[..n], cs[n], ids);
      assert before + cs[..n] + [cs[n]] == before + cs;
      var d := CallDelta(|before| + n, c.id, c.name, c.args, c.signature);
      HearCallsAppend(calls, Deltas(cs[..n], |before|, ids), d);
      HearRendered(HearCalls(calls, Deltas(cs[..n], |before|, ids)), RenderAll(before + cs[..n], ids), c);
    }
  }

  lemma TellStep(past: seq<Response>, r: Response)
    ensures Tell(past + [r]) == TellOne(Tell(past), r)
  {
    hide TextOf, CallsOf, MapFinish;
    var now := past + [r];
    assert now[..|now| - 1] == past && now[|now| - 1] == r;
    PartsAppend(AllParts(past), r.Parts());
  }

  /** One reply chunk keeps reader and translator in step with everything said so far. */
  lemma ReplyHeard(s: State, h: Heard, told: Told, r: Response, ids: nat -> string)
    requires InStep(s, told) && HeardSo(h, told, ids)
    ensures var (t, out) := Act(s, r, ids);
            InStep(t, TellOne(told, r)) && HeardSo(if out.Some? then Hear(h, out.value) else h, TellOne(told, r), ids)
  {
    hide Lists, HearCalls, Deltas, RenderAll, TextOf, CallsOf, MapFinish, Upgrade;
    var (t, out) := Act(s, r, ids);
    var text, cs := TextOf(r.Parts()), CallsOf(r.Parts());
    DeltasHeard(h.calls, told.calls, cs, ids);
    assert h.text + "" == h.text && told.calls + [] == told.calls;
    assert cs != [] || s.sawToolCalls <==> told.calls + cs != [];
    if out.Some? && out.value.payload.Some? {
      var p := out.value.payload.value;
      assert p.content == text && p.calls == Deltas(cs, |told.calls|, ids);
    }
  }

  lemma {:induction false} DrainHears(s: State, h: Heard, past: seq<Response>, lines: seq<Line<Event>>, broken: bool,
                                      ids: nat -> string)
    requires InStep(s, Tell(past)) && HeardSo(h, Tell(past), ids)
    ensures HeardSo(HearAll(h, Drain(s, Source(lines, broken, false), ids)), Tell(past + Replies(lines)), ids)
    decreases |lines|, 1
  {
    hide Act, HeardSo, Hear, Tell, TellOne;
    var src := Source(lines, broken, false);
    if lines == [] || lines[0].Sentinel? {
      assert past + Replies(lines) == past;
      EndsHere(s, lines, broken, ids);
      SilentEnd(h);
    } else if lines[0].Blank? || lines[0].data.Malformed? {
      assert past + Replies(lines) == past + Replies(lines[1..]);
      SkipsLine(s, lines, broken, ids);
      DrainHears(s, h, past, lines[1..], broken, ids);
    } else {
      ReplyLineHears(s, h, past, lines, broken, ids);
    }
  }

  lemma EndsHere(s: State, lines: seq<Line<Event>>, broken: bool, ids: nat -> string)
    requires !s.finished && (lines == [] || lines[0].Sentinel?)
    ensures Drain(s, Source(lines, broken, false), ids) == (if lines == [] && broken then [] else [Done])
  {
    hide Act;
  }

  lemma SkipsLine(s: State, lines: seq<Line<Event>>, broken: bool, ids: nat -> string)
    requires !s.finished && lines != [] && (lines[0].Blank? || (lines[0].Data? && lines[0].data.Malformed?))
    ensures NextOf(s, Source(lines, broken, false), ids) == NextOf(s, Source(lines[1..], broken, false), ids)
    ensures Drain(s, Source(lines, broken, false), ids) == Drain(s, Source(lines[1..], broken, false), ids)
  {
    hide Act;
    var src, rest := Source(lines, broken, false), Source(lines[1..], broken, false);
    if lines[0].Blank? {
      assert Pull(src) == Pull(rest);
    } else {
      assert Pull(src) == (Frame(lines[0].data), rest);
    }
  }

  lemma ReadsReply(s: State, lines: seq<Line<Event>>, broken: bool, ids: nat -> string)
    requires !s.finished && lines != [] && lines[0].Data? && lines[0].data.Reply?
    ensures var rest := Source(lines[1..], broken, false);
            var (t, out) := Act(s, lines[0].data.response, ids);
            Drain(s, Source(lines, broken, false), ids)
            == (if out.Some? then [out.value] else []) + Drain(t, rest, ids)
  {
    var src, rest := Source(lines, broken, false), Source(lines[1..], broken, false);
    var (t, out) := Act(s, lines[0].data.response, ids);
    ActIsNeverDone(s, lines[0].data.response, ids);
    hide Act, Drain, Left;
    assert Pull(src) == (Frame(lines[0].data), rest);
    assert NextOf(s, src, ids) == if out.Some? then (Got(out.value), t, rest) else NextOf(t, rest, ids);
    hide Pull, NextOf;
    DrainUnfolds(s, src, ids);
    DrainUnfolds(t, rest, ids);
    assert [] + Drain(t, rest, ids) == Drain(t, rest, ids);
  }

  lemma {:induction false} ReplyLineHears(s: State, h: Heard, past: seq<Response>, lines: seq<Line<Event>>,
                                          broken: bool, ids: nat -> string)
    requires InStep(s, Tell(past)) && HeardSo(h, Tell(past), ids)
    requires lines != [] && lines[0].Data? && lines[0].data.Reply?
    ensures HeardSo(HearAll(h, Drain(s, Source(lines, broken, false), ids)), Tell(past + Replies(lines)), ids)
    decreases |lines|, 0
  {
    hide Act, HeardSo, Hear, Tell, TellOne, Drain;
    var r := lines[0].data.response;
    var (t, out) := Act(s, r, ids);
    var tail := Drain(t, Source(lines[1..], broken, false), ids);
    assert past + Replies(lines) == past + [r] + Replies(lines[1..]);
    TellStep(past, r);
    ReplyHeard(s, h, Tell(past), r, ids);
    ReadsReply(s, lines, broken, ids);
    if out.Some? {
      HearOne(h, out.value, tail);
      DrainHears(t, Hear(h, out.value), past + [r], lines[1..], broken, ids);
    } else {
      assert [] + tail == tail;
      DrainHears(t, h, past + [r], lines[1..], broken, ids);
    }
  }

  lemma SilentEnd(h: Heard)
    ensures HearAll(h, [Done]) == h && HearAll(h, []) == h
  {
    assert [Done] + [] == [Done];
    HearOne(h, Done, []);
  }

  lemma ActIsNeverDone(s: State, r: Response, ids: nat -> string)
    ensures Act(s, r, ids).1 != Some(Done) && (!s.finished ==> !Act(s, r, ids).0.finished)
  {
  }

  lemma NothingIsSaid(ids: nat -> string)
    ensures AllParts([]) == [] && TextOf([]) == "" && CallsOf([]) == [] && RenderAll([], ids) == []
    ensures LastFinish([]) == "" && LastMeta([]) == NO_META && NO_META.AsUsage() == NO_USAGE
  {
  }

  lemma NothingTold()
    ensures Tell([]) == Told("", [], None, NO_USAGE)
  {
    hide MapFinish, Upgrade, AllParts, TextOf, CallsOf, RenderAll, LastFinish, LastMeta, CallsByFinish;
    NothingIsSaid(n => "");
  }

  lemma SilenceIsHeard(t: Told, ids: nat -> string)
    requires t == Told("", [], None, NO_USAGE)
    ensures HeardSo(SILENCE, t, ids)
  {
    hide RenderAll, Lists, MapFinish, Upgrade, AllParts, TextOf, CallsOf, LastFinish, LastMeta, CallsByFinish;
    NothingIsSaid(ids);
    NothingIsListed();
  }

  lemma FreshIsInStep(t: Told)
    requires t.calls == []
    ensures InStep(FRESH, t)
  {
  }

  lemma NothingHeard(ids: nat -> string)
    ensures InStep(FRESH, Tell([])) && HeardSo(SILENCE, Tell([]), ids)
  {
    hide Tell, InStep, HeardSo, SILENCE, FRESH;
    NothingTold();
    SilenceIsHeard(Tell([]), ids);
    FreshIsInStep(Tell([]));
  }

  lemma NothingIsListed()
    ensures Lists(map[], [])
  {
  }

  function StreamedReply(lines: seq<Line<Event>>, broken: bool, ids: nat -> string): Heard {
    HearAll(SILENCE, Drain(FRESH, Source(lines, broken, false), ids))
  }

  /** For every run of lines the accumulated stream has the text, the calls (contiguous, with the same ids, names,
      arguments and signatures) and the usage that the buffered translation gives the joined response. The finish
      reasons agree exactly when one arrives and no plain stop is announced before the first call. */
  lemma {:induction false} StreamMatchesJoined(lines: seq<Line<Event>>, broken: bool, ids: nat -> string,
                                               replyId: string)
    ensures var rs := Replies(lines);
            var h, c := StreamedReply(lines, broken, ids), ToOpenAI(Joined(rs), ids, replyId);
            && h.text == c.content.GetOr("")
            && Lists(h.calls, c.calls)
            && h.usage.GetOr(NO_USAGE) == c.usage
            && (h.finish == Some(c.finish)
                <==> LastFinish(rs) != ""
                     && (MapFinish(LastFinish(rs)) == "stop" && CallsOf(AllParts(rs)) != []
                         ==> CallsByFinish(rs) != []))
  {
    hide Act, RenderAll, TextOf, CallsOf, Drain, MapFinish, Replies, AllParts, LastFinish, CallsByFinish;
    hide LastMeta, Lists, HearAll;
    var rs := Replies(lines);
    NothingHeard(ids);
    DrainHears(FRESH, SILENCE, [], lines, broken, ids);
    assert [] + rs == rs;
    RenderKeepsLength(CallsOf(AllParts(rs)), ids);
    ByFinishIsPrefix(rs);
    MapFinishIsPlain(LastFinish(rs));
  }

  lemma {:induction false} ByFinishIsPrefix(rs: seq<Response>)
    ensures CallsByFinish(rs) <= CallsOf(AllParts(rs))
    decreases |rs|
  {
    hide CallsOf;
    if rs != [] && rs[|rs| - 1].Finish() == "" {
      ByFinishIsPrefix(rs[..|rs| - 1]);
      PartsAppend(AllParts(rs[..|rs| - 1]), rs[|rs| - 1].Parts());
    } else if rs == [] {
      assert CallsByFinish(rs) == [];
    }
  }

  lemma MapFinishIsPlain(reason: string)
    ensures MapFinish(reason) != "tool_calls"
  {
  }

  lemma {:induction false} RenderKeepsLength(cs: seq<FnCall>, ids: nat -> string)
    ensures |RenderAll(cs, ids)| == |cs|
  {
    if cs != [] {
      assert cs[..|cs| - 1] + [cs[|cs| - 1]] == cs;
      RenderAppend(cs[..|cs| - 1], cs[|cs| - 1], ids);
    }
  }

  /** In particular: a stream whose finish reason comes no earlier than its last call agrees throughout. */
  lemma FinishAfterCallsMatches(lines: seq<Line<Event>>, broken: bool, ids: nat -> string, replyId: string)
    requires LastFinish(Replies(lines)) != ""
    requires CallsByFinish(Replies(lines)) == CallsOf(AllParts(Replies(lines)))
    ensures StreamedReply(lines, broken, ids).finish == Some(ToOpenAI(Joined(Replies(lines)), ids, replyId).finish)
  {
    StreamMatchesJoined(lines, broken, ids, replyId);
  }

  lemma TwoReplies(early: Response, late: Response)
    requires early.Finish() != "" && late.Finish() == ""
    ensures AllParts([early, late]) == early.Parts() + late.Parts()
    ensures LastFinish([early, late]) == early.Finish()
    ensures CallsByFinish([early, late]) == CallsOf(early.Parts())
    ensures Replies([Data(Reply(early)), Data(Reply(late))]) == [early, late]
  {
    hide CallsOf;
    var lines := [Data(Reply(early)), Data(Reply(late))];
    assert [early, late][..1] == [early] && [early][..0] == [];
    assert AllParts([early]) == [] + early.Parts();
    assert AllParts([early]) == early.Parts();
    assert CallsByFinish([early]) == CallsOf(AllParts([early]));
    assert lines[1..] == [Data(Reply(late))] && lines[1..][1..] == [];
    assert Replies(lines[1..]) == [late] + [];
  }

  lemma OneCall(c: FnCall)
    ensures CallsOf([Part("", Some(c), false)]) == [c] && CallsOf([]) == []
  {
    assert [Part("", Some(c), false)][..0] == [];
  }

  /** A plain stop announced before the first call is the case that differs: the client is told `stop`, the buffered
      form says `tool_calls`. */
  lemma EarlyStopDisagrees(c: FnCall, ids: nat -> string, replyId: string)
    ensures var early := Response([Candidate([], "STOP")], NO_META);
            var late := Response([Candidate([Part("", Some(c), false)], "")], NO_META);
            var lines := [Data(Reply(early)), Data(Reply(late))];
            StreamedReply(lines, false, ids).finish != Some(ToOpenAI(Joined(Replies(lines)), ids, replyId).finish)
  {
    hide StreamedReply, ToOpenAI, MapFinish, Joined, AllParts, LastFinish, CallsByFinish, Replies, CallsOf;
    var early := Response([Candidate([], "STOP")], NO_META);
    var late := Response([Candidate([Part("", Some(c), false)], "")], NO_META);
    TwoReplies(early, late);
    OneCall(c);
    assert AllParts([early, late]) == late.Parts();
    StopIsPlain();
    StreamMatchesJoined([Data(Reply(early)), Data(Reply(late))], false, ids, replyId);
  }

  lemma StopIsPlain()
    ensures MapFinish("STOP") == "stop"
  {
    assert |"STOP"| == 4 && |"SAFETY"| == 6 && |"RECITATION"| == 10;
    assert |"PROHIBITED_CONTENT"| == 18 && |"MAX_TOKENS"| == 10;
  }

  /** Whether the input comes to an end of its own rather than breaking off. */
  predicate ComesToAnEnd(src: Source<Event>) { src.done || !src.broken || Sentinel in src.lines }

  lemma {:induction false} PullKeepsTheEnd(src: Source<Event>)
    ensures var (item, rest) := Pull(src);
            && (item.Frame? ==> (ComesToAnEnd(rest) <==> ComesToAnEnd(src)))
            && (item.Finished? || item.Eof? ==> ComesToAnEnd(src))
            && (item.Broken? ==> !ComesToAnEnd(src))
    decreases |src.lines|
  {
    if !src.done && src.lines != [] {
      assert src.lines == [src.lines[0]] + src.lines[1..];
      if src.lines[0].Blank? {
        PullKeepsTheEnd(src.(lines := src.lines[1..]));
      }
    }
  }

  lemma {:induction false} NextKeepsTheEnd(s: State, src: Source<Event>, ids: nat -> string)
    requires !s.finished
    ensures var (a, t, rest) := NextOf(s, src, ids);
            && !a.EndOfStream?
            && (a.Got? && !a.chunk.Done? ==> !t.finished && (ComesToAnEnd(rest) <==> ComesToAnEnd(src)))
            && (a == Got(Done) ==> t.finished && ComesToAnEnd(src))
            && (a.Failure? ==> !t.finished && !ComesToAnEnd(src))
    decreases |src.lines|
  {
    hide Act, ComesToAnEnd;
    PullKeepsTheEnd(src);
    var (item, rest) := Pull(src);
    if item.Frame? {
      if item.data.Malformed? {
        NextKeepsTheEnd(s, rest, ids);
      } else {
        ActIsNeverDone(s, item.data.response, ids);
        var (t, out) := Act(s, item.data.response, ids);
        if out.None? {
          NextKeepsTheEnd(t, rest, ids);
        }
      }
    }
  }

  /** A drained stream delivers exactly one end mark, as its last chunk, unless the input broke off before its end;
      after the mark every further read reports the end and changes nothing. */
  lemma {:induction false} EndsOnce(s: State, src: Source<Event>, ids: nat -> string)
    requires !s.finished
    ensures var cs := Drain(s, src, ids);
            var (t, rest) := Left(s, src, ids);
            && (forall i | 0 <= i < |cs| - 1 :: cs[i] != Done)
            && (t.finished <==> cs != [] && cs[|cs| - 1] == Done)
            && (t.finished <==> ComesToAnEnd(src))
            && (t.finished ==> NextOf(t, rest, ids) == (EndOfStream, t, rest))
    decreases |src.lines|
  {
    hide ComesToAnEnd;
    NextKeepsTheEnd(s, src, ids);
    var (a, t, rest) := NextOf(s, src, ids);
    if a.Got? && !a.chunk.Done? {
      EndsOnce(t, rest, ids);
    }
  }
}
