/** What a provider's reply means, read off its parts or blocks, and that a client hears just that from the buffered and
    from the streamed form. */
module ReplyMeanings {
  import opened Prelude
  import opened Sse
  import opened Chunks
  import A = AnthropicStreams
  import ALaws = AnthropicStreamLaws
  import G = GeminiStreams

  // ---------- Gemini: the reference ----------

  /** The parts that are not thoughts. */
  function Shown(parts: seq<G.Part>): seq<G.Part> {
    if parts == [] then []
    else
      var p := parts[|parts| - 1];
      Shown(parts[..|parts| - 1]) + if p.thought then [] else [p]
  }

  function Texts(parts: seq<G.Part>): seq<string> {
    if parts == [] then [] else Texts(parts[..|parts| - 1]) + [parts[|parts| - 1].text]
  }

  /** The parts that hold a call. */
  function Calling(parts: seq<G.Part>): seq<G.Part> {
    if parts == [] then []
    else
      var p := parts[|parts| - 1];
      Calling(parts[..|parts| - 1]) + if p.call.Some? then [p] else []
  }

  /** The parts of the first candidate, if there is one. */
  function PartsIn(r: G.Response): seq<G.Part> { if r.candidates == [] then [] else r.candidates[0].parts }

  function FinishIn(r: G.Response): string { if r.candidates == [] then "" else r.candidates[0].finish }

  function PartsTold(rs: seq<G.Response>): seq<G.Part> {
    if rs == [] then [] else PartsTold(rs[..|rs| - 1]) + PartsIn(rs[|rs| - 1])
  }

  /** The calls are those of the parts, one for one: new ids in turn, the empty object for missing arguments. */
  ghost predicate Renders(calls: seq<Call>, parts: seq<G.Part>, ids: nat -> string) {
    && |calls| == |parts|
    && forall i | 0 <= i < |parts| ::
         && parts[i].call.Some?
         && var c := parts[i].call.value;
            calls[i] == Call("call_" + ids(i), c.name, if c.args == "" then "{}" else c.args, c.signature)
  }

  /** Cut short or filtered as the provider says; otherwise a reply with calls waits for them, and one without stops. */
  function GeminiFinish(reason: string, calls: bool): string {
    if reason == "MAX_TOKENS" then "length"
    else if reason == "SAFETY" || reason == "RECITATION" || reason == "PROHIBITED_CONTENT" then "content_filter"
    else if calls then "tool_calls" else "stop"
  }

  /** Prompt and answer as counted, thoughts with the answer, and the sum where no total is given. */
  function GeminiUsage(m: G.Meta): Usage {
    Usage(m.prompt, m.candidates + m.thoughts,
          if m.total > 0 then m.total else m.prompt + m.candidates + m.thoughts, m.cached)
  }

  // ---------- Gemini: what is read off ----------

  lemma ConcatAppend(a: seq<string>, x: string)
    ensures Concat(a + [x]) == Concat(a) + x
  {
    if a == [] {
      assert a + [x] == [x] && [x][1..] == [];
      assert x + "" == x && "" + x == x;
    } else {
      assert (a + [x])[1..] == a[1..] + [x];
      ConcatAppend(a[1..], x);
    }
  }

  lemma LastShown(parts: seq<G.Part>, p: G.Part)
    ensures Texts(parts + [p]) == Texts(parts) + [p.text]
    ensures Calling(parts + [p]) == Calling(parts) + if p.call.Some? then [p] else []
  {
    assert (parts + [p])[..|parts|] == parts;
  }

  ghost predicate AreCallsOf(cs: seq<G.FnCall>, parts: seq<G.Part>) {
    |cs| == |parts| && forall i | 0 <= i < |cs| :: parts[i].call == Some(cs[i])
  }

  /** The text read off is that of the parts shown, joined, and the calls are theirs. */
  lemma {:induction false} ReadsWhatIsShown(parts: seq<G.Part>)
    ensures G.TextOf(parts) == Concat(Texts(Shown(parts)))
    ensures AreCallsOf(G.CallsOf(parts), Calling(Shown(parts)))
    decreases |parts|
  {
    if parts != [] {
      var n := |parts| - 1;
      var front, p := parts[..n], parts[n];
      ReadsWhatIsShown(front);
      if p.thought {
        assert Shown(front) + [] == Shown(front) && G.TextOf(front) + "" == G.TextOf(front);
      } else {
        LastShown(Shown(front), p);
        ConcatAppend(Texts(Shown(front)), p.text);
      }
    }
  }

  lemma {:induction false} RendersCalls(cs: seq<G.FnCall>, parts: seq<G.Part>, ids: nat -> string)
    requires AreCallsOf(cs, parts)
    ensures Renders(G.RenderAll(cs, ids), parts, ids)
    decreases |cs|
  {
    if cs != [] {
      RendersCalls(cs[..|cs| - 1], parts[..|cs| - 1], ids);
    }
  }

  lemma FinishIsMapped(reason: string, calls: bool)
    ensures Upgrade(G.MapFinish(reason), calls) == GeminiFinish(reason, calls)
  {
    assert |"length"| == 6 && |"content_filter"| == 14 && |"stop"| == 4;
  }

  /** The buffered completion of a Gemini reply: the text of its parts without the thoughts, their calls one for one, no
      content when there are only calls, and the finish and usage its provider reports. */
  lemma BufferedGeminiReply(r: G.Response, ids: nat -> string, replyId: string)
    ensures var c := G.ToOpenAI(r, ids, replyId);
            var shown := Shown(PartsIn(r));
            var text, calling := Concat(Texts(shown)), Calling(shown);
            && c.id == replyId && c.role == "assistant"
            && c.content == (if calling != [] && text == "" then None else Some(text))
            && Renders(c.calls, calling, ids)
            && c.finish == GeminiFinish(FinishIn(r), calling != [])
            && c.usage == GeminiUsage(r.meta)
  {
    hide G.TextOf, G.CallsOf, G.RenderAll, G.MapFinish, Upgrade, GeminiFinish;
    ReadsWhatIsShown(PartsIn(r));
    var calling := Calling(Shown(PartsIn(r)));
    RendersCalls(G.CallsOf(PartsIn(r)), calling, ids);
    FinishIsMapped(FinishIn(r), calling != []);
  }

  lemma {:induction false} ToldInOrder(rs: seq<G.Response>)
    ensures G.AllParts(rs) == PartsTold(rs)
  {
    if rs != [] {
      ToldInOrder(rs[..|rs| - 1]);
    }
  }

  /** A client of the stream hears the text and the calls that the chunks show, put together. */
  lemma {:induction false} StreamedGeminiReply(lines: seq<Line<G.Event>>, broken: bool, ids: nat -> string)
    returns (calls: seq<Call>)
    ensures var h := G.StreamedReply(lines, broken, ids);
            var shown := Shown(PartsTold(G.Replies(lines)));
            h.text == Concat(Texts(shown)) && Lists(h.calls, calls) && Renders(calls, Calling(shown), ids)
  {
    hide G.Replies, G.StreamedReply, G.AllParts, G.LastFinish, G.LastMeta, G.CallsByFinish, Lists, Renders;
    hide Shown, Texts, Calling, GeminiFinish, G.TextOf, G.CallsOf;
    var joined := G.Joined(G.Replies(lines));
    ToldInOrder(G.Replies(lines));
    G.StreamMatchesJoined(lines, broken, ids, "");
    BufferedGeminiReply(joined, ids, "");
    calls := G.ToOpenAI(joined, ids, "").calls;
  }

  lemma {:induction false} LastFinishStands(rs: seq<G.Response>, i: nat)
    requires i < |rs| && FinishIn(rs[i]) != "" && forall j | i < j < |rs| :: FinishIn(rs[j]) == ""
    ensures G.LastFinish(rs) == FinishIn(rs[i])
    ensures G.CallsByFinish(rs) == G.CallsOf(PartsTold(rs[..i + 1]))
    decreases |rs|
  {
    hide G.CallsOf;
    if i < |rs| - 1 {
      LastFinishStands(rs[..|rs| - 1], i);
      assert rs[..|rs| - 1][..i + 1] == rs[..i + 1];
    } else {
      assert rs[..i + 1] == rs;
      ToldInOrder(rs);
    }
  }

  lemma {:induction false} FinishIsTold(lines: seq<Line<G.Event>>, broken: bool, ids: nat -> string)
    ensures G.StreamedReply(lines, broken, ids).finish == G.Tell(G.Replies(lines)).finish
  {
    hide G.Replies, G.Drain, HearAll, G.Tell, G.InStep, Lists, G.RenderAll;
    G.NothingHeard(ids);
    G.DrainHears(G.FRESH, SILENCE, [], lines, broken, ids);
    assert [] + G.Replies(lines) == G.Replies(lines);
  }

  /** The finish reason a client of the stream is left with is that of the last chunk that has one, with the calls shown
      up to then. */
  lemma {:induction false} StreamedGeminiFinish(lines: seq<Line<G.Event>>, broken: bool, ids: nat -> string, i: nat)
    requires var rs := G.Replies(lines);
             i < |rs| && FinishIn(rs[i]) != "" && forall j | i < j < |rs| :: FinishIn(rs[j]) == ""
    ensures var rs := G.Replies(lines);
            G.StreamedReply(lines, broken, ids).finish
            == Some(GeminiFinish(FinishIn(rs[i]), Calling(Shown(PartsTold(rs[..i + 1]))) != []))
  {
    hide G.Replies, G.LastMeta, G.CallsByFinish, G.LastFinish, Shown, Calling, GeminiFinish, G.StreamedReply;
    hide G.TextOf, G.CallsOf, G.MapFinish, Upgrade, G.AllParts, PartsTold;
    var rs := G.Replies(lines);
    FinishIsTold(lines, broken, ids);
    LastFinishStands(rs, i);
    ReadsWhatIsShown(PartsTold(rs[..i + 1]));
    FinishIsMapped(FinishIn(rs[i]), Calling(Shown(PartsTold(rs[..i + 1]))) != []);
  }

  // ---------- Gemini: thoughts ----------

  lemma {:induction false} ThoughtIsNotShown(p: seq<G.Part>, thought: G.Part, q: seq<G.Part>)
    requires thought.thought
    ensures Shown(p + [thought] + q) == Shown(p + q)
    decreases |q|
  {
    if q == [] {
      assert p + [thought] + q == p + [thought] && (p + [thought])[..|p|] == p && p + q == p;
    } else {
      var n := |q| - 1;
      var with, without := p + [thought] + q, p + q;
      assert with[..|with| - 1] == p + [thought] + q[..n] && without[..|without| - 1] == p + q[..n];
      ThoughtIsNotShown(p, thought, q[..n]);
    }
  }

  /** Without thoughts every part is shown. */
  lemma {:induction false} AllShown(parts: seq<G.Part>)
    requires forall p | p in parts :: !p.thought
    ensures Shown(parts) == parts
  {
    if parts != [] {
      AllShown(parts[..|parts| - 1]);
    }
  }

  /** The reply with these parts in its first candidate. */
  function WithParts(r: G.Response, parts: seq<G.Part>): G.Response
    requires r.candidates != []
  {
    r.(candidates := [r.candidates[0].(parts := parts)] + r.candidates[1..])
  }

  lemma SameShownSameCalls(p: seq<G.Part>, q: seq<G.Part>)
    requires Shown(p) == Shown(q)
    ensures G.TextOf(p) == G.TextOf(q) && G.CallsOf(p) == G.CallsOf(q)
  {
    ReadsWhatIsShown(p);
    ReadsWhatIsShown(q);
    assert forall i | 0 <= i < |G.CallsOf(p)| :: Some(G.CallsOf(p)[i]) == Some(G.CallsOf(q)[i]);
  }

  lemma {:induction false} SameActSameDrain(s: G.State, a: seq<Line<G.Event>>, r: G.Response, r': G.Response,
                                            b: seq<Line<G.Event>>, broken: bool, ids: nat -> string)
    requires !s.finished && forall t: G.State :: G.Act(t, r, ids) == G.Act(t, r', ids)
    ensures G.Drain(s, Source(a + [Data(G.Reply(r))] + b, broken, false), ids)
         == G.Drain(s, Source(a + [Data(G.Reply(r'))] + b, broken, false), ids)
    decreases |a|
  {
    hide G.Act, G.Drain;
    var x, y := a + [Data(G.Reply(r))] + b, a + [Data(G.Reply(r'))] + b;
    if a == [] {
      assert x[1..] == b && y[1..] == b;
      G.ReadsReply(s, x, broken, ids);
      G.ReadsReply(s, y, broken, ids);
    } else {
      assert x[1..] == a[1..] + [Data(G.Reply(r))] + b && y[1..] == a[1..] + [Data(G.Reply(r'))] + b;
      if a[0].Sentinel? {
        G.EndsHere(s, x, broken, ids);
        G.EndsHere(s, y, broken, ids);
      } else if a[0].Blank? || a[0].data.Malformed? {
        G.SkipsLine(s, x, broken, ids);
        G.SkipsLine(s, y, broken, ids);
        SameActSameDrain(s, a[1..], r, r', b, broken, ids);
      } else {
        G.ReadsReply(s, x, broken, ids);
        G.ReadsReply(s, y, broken, ids);
        G.ActIsNeverDone(s, a[0].data.response, ids);
        SameActSameDrain(G.Act(s, a[0].data.response, ids).0, a[1..], r, r', b, broken, ids);
      }
    }
  }

  /** A thought put in anywhere changes neither the buffered completion nor anything a client of the stream hears. */
  lemma {:induction false} ThoughtsStayInside(r: G.Response, p: seq<G.Part>, thought: G.Part, q: seq<G.Part>,
                                              a: seq<Line<G.Event>>, b: seq<Line<G.Event>>, broken: bool,
                                              ids: nat -> string, replyId: string)
    requires r.candidates != [] && thought.thought
    ensures var with, without := WithParts(r, p + [thought] + q), WithParts(r, p + q);
            && G.ToOpenAI(with, ids, replyId) == G.ToOpenAI(without, ids, replyId)
            && G.StreamedReply(a + [Data(G.Reply(with))] + b, broken, ids)
               == G.StreamedReply(a + [Data(G.Reply(without))] + b, broken, ids)
  {
    hide G.TextOf, G.CallsOf, G.RenderAll, G.MapFinish, Upgrade, G.Drain, HearAll, G.Deltas;
    ThoughtIsNotShown(p, thought, q);
    SameShownSameCalls(p + [thought] + q, p + q);
    var with, without := WithParts(r, p + [thought] + q), WithParts(r, p + q);
    SameActSameDrain(G.FRESH, a, with, without, b, broken, ids);
  }

  // ---------- Anthropic ----------

  function BlockTexts(blocks: seq<A.Block>): seq<string> {
    if blocks == [] then []
    else
      var b := blocks[|blocks| - 1];
      BlockTexts(blocks[..|blocks| - 1]) + if b.TextBlock? then [b.text] else []
  }

  /** The positions of the tool uses. */
  function Uses(blocks: seq<A.Block>): seq<nat> {
    if blocks == [] then []
    else
      var n: nat := |blocks| - 1;
      Uses(blocks[..n]) + if blocks[n].ToolUse? then [n] else []
  }

  ghost predicate RendersUses(calls: seq<Call>, blocks: seq<A.Block>, at: seq<nat>, ids: nat -> string) {
    && |calls| == |at|
    && forall i | 0 <= i < |at| ::
         && at[i] < |blocks| && blocks[at[i]].ToolUse?
         && var b := blocks[at[i]];
            calls[i] == Call(if b.id == "" then "call_" + ids(at[i]) else b.id, b.name,
                             if b.input == "" || b.input == "null" then "{}" else b.input, "")
  }

  function AnthropicFinish(reason: string, calls: bool): string {
    if reason == "max_tokens" then "length" else if reason == "tool_use" || calls then "tool_calls" else "stop"
  }

  lemma {:induction false} ReadsTexts(blocks: seq<A.Block>)
    ensures A.TextOf(blocks) == Concat(BlockTexts(blocks))
  {
    if blocks != [] {
      var front, b := blocks[..|blocks| - 1], blocks[|blocks| - 1];
      ReadsTexts(front);
      if b.TextBlock? {
        ConcatAppend(BlockTexts(front), b.text);
      } else {
        assert BlockTexts(front) + [] == BlockTexts(front) && A.TextOf(front) + "" == A.TextOf(front);
      }
    }
  }

  lemma {:induction false} ReadsUses(blocks: seq<A.Block>, ids: nat -> string)
    ensures RendersUses(A.CallsOf(blocks, ids), blocks, Uses(blocks), ids)
  {
    hide FirstNonEmpty;
    if blocks != [] {
      var n := |blocks| - 1;
      ReadsUses(blocks[..n], ids);
      if blocks[n].ToolUse? {
        ALaws.FirstOfTwo(blocks[n].id, "call_" + ids(n));
      }
    }
  }

  lemma StopIsMapped(reason: string, calls: bool)
    ensures Upgrade(A.MapStopReason(reason), calls) == AnthropicFinish(reason, calls)
  {
    assert |"length"| == 6 && |"tool_calls"| == 10 && |"stop"| == 4;
  }

  /** The buffered completion of an Anthropic reply: the text of its text blocks, its tool uses one for one, no content
      when there are only those, and the finish and usage its provider reports. */
  lemma BufferedAnthropicReply(r: A.Reply, ids: nat -> string, replyId: string)
    ensures var c := A.ToOpenAI(r, ids, replyId);
            var text, uses := Concat(BlockTexts(r.content)), Uses(r.content);
            var prompt := r.usage.input + r.usage.cacheRead + r.usage.cacheWrite;
            && c.id == (if r.id == "" then "msg_" + replyId else r.id)
            && c.role == (if r.role == "" then "assistant" else r.role)
            && c.content == (if uses != [] && text == "" then None else Some(text))
            && RendersUses(c.calls, r.content, uses, ids)
            && c.finish == AnthropicFinish(r.stop, uses != [])
            && c.usage == Usage(prompt, r.usage.output, prompt + r.usage.output, r.usage.cacheRead)
  {
    hide A.TextOf, A.CallsOf, A.MapStopReason, Upgrade, AnthropicFinish, FirstNonEmpty;
    ReadsTexts(r.content);
    ReadsUses(r.content, ids);
    StopIsMapped(r.stop, Uses(r.content) != []);
    ALaws.FirstOfTwo(r.id, "msg_" + replyId);
  }

  lemma {:induction false} StreamedUses(blocks: seq<A.Block>)
    ensures ALaws.Streamed(blocks) != [] <==> Uses(blocks) != []
  {
    if blocks != [] {
      StreamedUses(blocks[..|blocks| - 1]);
    }
  }

  /** A client of the stream hears the text of the text blocks, the finish when the reply has a stop reason, and the
      usage counted. */
  lemma {:induction false} StreamedAnthropicReply(r: A.Reply, cuts: seq<seq<string>>, lines: seq<Line<A.Event>>,
                                                  broken: bool)
    requires ALaws.Cuts(r.content, cuts) && ALaws.Signals(lines, A.NoKind) == ALaws.Script(r, cuts)
    ensures var h := ALaws.StreamedReply(lines, broken);
            var prompt := r.usage.input + r.usage.cacheRead + r.usage.cacheWrite;
            && h.text == Concat(BlockTexts(r.content))
            && h.finish == (if r.stop == "" then None else Some(AnthropicFinish(r.stop, Uses(r.content) != [])))
            && h.usage.GetOr(NO_USAGE)
               == Usage(prompt, r.usage.output, prompt + r.usage.output, r.usage.cacheRead)
  {
    hide ALaws.Follow, A.MapStopReason, ALaws.ContentSignals, A.Drain, A.CallsOf, ALaws.Signals, A.TextOf, ALaws.Script;
    hide ALaws.Streamed, Upgrade, AnthropicFinish, HearAll, Lists;
    ALaws.DrainFollowsSignals(A.FRESH, SILENCE, lines, broken);
    ALaws.ScriptHeard(r, cuts);
    ReadsTexts(r.content);
    StreamedUses(r.content);
    StopIsMapped(r.stop, Uses(r.content) != []);
  }
}
