/** What a reader of the chunks accumulates from the Anthropic stream is what the buffered translation of the same
    reply says. */
module AnthropicStreamLaws {
  import opened Prelude
  import opened Sse
  import opened Chunks
  import opened AnthropicStreams

  // ---------- the events that matter ----------

  datatype Signal =
    | Opens(messageId: string, prompt: nat, cached: nat)
    | CallStarts(block: int, id: string, name: string)
    | Says(block: int, text: string)
    | Argues(block: int, partial: string)
    | Closes(stop: string, output: nat)
    | Ends

  function SignalOf(kind: Kind, e: Event): seq<Signal>
    requires e.Envelope?
  {
    match kind
    case MessageStart => [Opens(e.messageId, e.startUsage.PromptTotal(), e.startUsage.cacheRead)]
    case BlockStart => if e.isToolUse then [CallStarts(e.index, e.blockId, e.blockName)] else []
    case BlockDelta =>
      (match e.deltaKind
       case TextDelta => [Says(e.index, e.text)]
       case JsonDelta => [Argues(e.index, e.partial)]
       case OtherDelta => [])
    case MessageDelta => [Closes(e.stop, e.usage.output)]
    case MessageStop => [Ends]
    case NoKind | OtherKind => []
  }

  /** The significant events of a run of lines. Separators, malformed payloads, pings and unknown events carry none,
      an envelope without a type repeats the type before it, and nothing after an end counts. */
  function Signals(lines: seq<Line<Event>>, last: Kind): seq<Signal>
    decreases |lines|
  {
    if lines == [] then []
    else
      match lines[0]
      case Blank => Signals(lines[1..], last)
      case Sentinel => [Ends]
      case Data(e) =>
        if e.Malformed? then Signals(lines[1..], last)
        else if e.EndMark? then [Ends]
        else
          var kind := if e.kind.NoKind? then last else e.kind;
          if kind.MessageStop? then [Ends] else SignalOf(kind, e) + Signals(lines[1..], kind)
  }

  function Step(s: State, g: Signal): (State, Option<Chunk>) {
    match g
    case Opens(id, prompt, cached) =>
      var t := s.(messageId := id, prompt := prompt, cached := cached);
      (t, Some(Frame1(t, 0, true, "", [])))
    case CallStarts(b, id, name) =>
      (s.(toolIndexByBlock := s.toolIndexByBlock[b := s.toolCalls], toolCalls := s.toolCalls + 1, sawToolCalls := true),
       Some(Frame1(s, 0, false, "", [CallDelta(s.toolCalls, id, name, "", "")])))
    case Says(b, text) => (s, if text == "" then None else Some(Frame1(s, b, false, text, [])))
    case Argues(b, partial) =>
      (s, if b !in s.toolIndexByBlock then None
          else Some(Frame1(s, 0, false, "", [CallDelta(s.toolIndexByBlock[b], "", "", partial, "")])))
    case Closes(stop, output) =>
      var t := s.(completion := output, stop := if stop == "" then s.stop else stop);
      (t, Some(FinalChunk(t)))
    case Ends => (s, Some(Done))
  }

  /** The translator and the reader after some events. */
  function Follow(s: State, h: Heard, gs: seq<Signal>): (State, Heard)
    decreases |gs|
  {
    if gs == [] then (s, h)
    else
      var (t, out) := Step(s, gs[0]);
      Follow(t, if out.Some? then Hear(h, out.value) else h, gs[1..])
  }

  lemma {:induction false} FollowAppend(s: State, h: Heard, a: seq<Signal>, b: seq<Signal>)
    ensures var (t, k) := Follow(s, h, a); Follow(s, h, a + b) == Follow(t, k, b)
    decreases |a|
  {
    hide Step, Hear;
    if a == [] {
      assert a + b == b;
    } else {
      assert (a + b)[1..] == a[1..] + b;
      var (t, out) := Step(s, a[0]);
      FollowAppend(t, if out.Some? then Hear(h, out.value) else h, a[1..], b);
    }
  }

  lemma FollowOne(s: State, h: Heard, g: Signal)
    ensures var (t, out) := Step(s, g); Follow(s, h, [g]) == (t, if out.Some? then Hear(h, out.value) else h)
  {
    hide Step, Hear;
    var (t, out) := Step(s, g);
    assert [g][1..] == [];
  }

  function Untyped(s: State): State { s.(eventType := NoKind) }

  /** One payload acts through its signal alone, apart from the remembered event type. */
  lemma ActIsStep(s: State, e: Event)
    requires e.Envelope?
    ensures var kind := if e.kind.NoKind? then s.eventType else e.kind;
            var (t, out) := Act(s, e);
            t.eventType == kind
            && |SignalOf(kind, e)| <= 1
            && (SignalOf(kind, e) == [] ==> out == None && Untyped(t) == Untyped(s))
            && (SignalOf(kind, e) != [] ==> (Untyped(t), out) == Step(Untyped(s), SignalOf(kind, e)[0]))
            && (kind.MessageStop? <==> out == Some(Done))
  {
    hide MapStopReason;
  }

  /** Reading frames one at a time is following their signals. */
  lemma {:induction false} DrainFollowsSignals(s: State, h: Heard, lines: seq<Line<Event>>, broken: bool)
    ensures HearAll(h, Drain(s, Source(lines, broken, false)))
            == Follow(Untyped(s), h, Signals(lines, s.eventType)).1
    decreases |lines|
  {
    hide Act, Step, Hear, SignalOf;
    var src := Source(lines, broken, false);
    if lines == [] {
    } else {
      var rest := Source(lines[1..], broken, false);
      match lines[0]
      case Blank =>
        assert Pull(src) == Pull(rest);
        assert NextOf(s, src) == NextOf(s, rest);
        DrainFollowsSignals(s, h, lines[1..], broken);
      case Sentinel =>
        EndsAreSilent(Untyped(s), h);
      case Data(e) =>
        assert Pull(src) == (Frame(e), rest);
        var (t, out) := Act(s, e);
        assert NextOf(s, src) == if out.Some? then (Got(out.value), t, rest) else NextOf(t, rest);
        if e.Malformed? || e.EndMark? {
          ActOnMarks(s, e);
          if e.Malformed? { DrainFollowsSignals(s, h, lines[1..], broken); } else { EndsAreSilent(Untyped(s), h); }
        } else {
          EnvelopeFollows(s, h, e, lines, broken);
        }
    }
  }

  lemma ActOnMarks(s: State, e: Event)
    ensures e.Malformed? ==> Act(s, e) == (s, None)
    ensures e.EndMark? ==> Act(s, e) == (s, Some(Done))
  {
  }

  lemma EndsAreSilent(s: State, h: Heard)
    ensures Follow(s, h, [Ends]).1 == h && HearAll(h, [Done]) == h
  {
    FollowOne(s, h, Ends);
    assert [Done] + [] == [Done];
    HearOne(h, Done, []);
  }

  lemma {:induction false} EnvelopeFollows(s: State, h: Heard, e: Event, lines: seq<Line<Event>>, broken: bool)
    requires lines != [] && lines[0] == Data(e) && e.Envelope?
    requires var rest := Source(lines[1..], broken, false);
             var (t, out) := Act(s, e);
             NextOf(s, Source(lines, broken, false))
             == if out.Some? then (Got(out.value), t, rest) else NextOf(t, rest)
    ensures HearAll(h, Drain(s, Source(lines, broken, false)))
            == Follow(Untyped(s), h, Signals(lines, s.eventType)).1
    decreases |lines|, 0
  {
    hide Act, Step, Hear, SignalOf, NextOf;
    var rest := Source(lines[1..], broken, false);
    var (t, out) := Act(s, e);
    var kind := if e.kind.NoKind? then s.eventType else e.kind;
    ActIsStep(s, e);
    if out == Some(Done) {
      EndsAreSilent(Untyped(s), h);
    } else {
      var gs := SignalOf(kind, e);
      var h' := if out.Some? then Hear(h, out.value) else h;
      if out.Some? {
        HearOne(h, out.value, Drain(t, rest));
      } else {
        assert Drain(s, Source(lines, broken, false)) == Drain(t, rest);
      }
      DrainFollowsSignals(t, h', lines[1..], broken);
      if gs == [] {
        assert gs + Signals(lines[1..], kind) == Signals(lines[1..], kind);
      } else {
        assert gs == [gs[0]];
        FollowAppend(Untyped(s), h, [gs[0]], Signals(lines[1..], kind));
        FollowOne(Untyped(s), h, gs[0]);
      }
    }
  }

  // ---------- the events a reply is streamed as ----------

  /** The part of a block that arrives in fragments. */
  function Fragmented(b: Block): string {
    match b case TextBlock(t) => t case ToolUse(_, _, input) => input case OtherBlock(t) => t
  }

  ghost predicate Cuts(blocks: seq<Block>, cuts: seq<seq<string>>) {
    |cuts| == |blocks| && forall i | 0 <= i < |blocks| :: Concat(cuts[i]) == Fragmented(blocks[i])
  }

  function SaysAll(b: int, fragments: seq<string>): seq<Signal> {
    if fragments == [] then [] else [Says(b, fragments[0])] + SaysAll(b, fragments[1..])
  }

  function ArguesAll(b: int, fragments: seq<string>): seq<Signal> {
    if fragments == [] then [] else [Argues(b, fragments[0])] + ArguesAll(b, fragments[1..])
  }

  /** One content block at index `n`. Blocks of other types may stream JSON fragments, but open no call. */
  function BlockSignals(b: Block, n: nat, cut: seq<string>): seq<Signal> {
    match b
    case TextBlock(_) => SaysAll(n, cut)
    case ToolUse(id, name, _) => [CallStarts(n, id, name)] + ArguesAll(n, cut)
    case OtherBlock(_) => ArguesAll(n, cut)
  }

  function ContentSignals(blocks: seq<Block>, cuts: seq<seq<string>>): seq<Signal>
    requires |cuts| == |blocks|
    decreases |blocks|
  {
    if blocks == [] then []
    else
      var n := |blocks| - 1;
      ContentSignals(blocks[..n], cuts[..n]) + BlockSignals(blocks[n], n, cuts[n])
  }

  function Script(r: Reply, cuts: seq<seq<string>>): seq<Signal>
    requires |cuts| == |r.content|
  {
    [Opens(r.id, r.usage.PromptTotal(), r.usage.cacheRead)]
    + ContentSignals(r.content, cuts)
    + [Closes(r.stop, r.usage.output), Ends]
  }

  /** The calls of a reply exactly as they arrive. */
  function Streamed(blocks: seq<Block>): seq<Call>
    decreases |blocks|
  {
    if blocks == [] then []
    else
      var n := |blocks| - 1;
      match blocks[n]
      case ToolUse(id, name, input) => Streamed(blocks[..n]) + [Call(id, name, input, "")]
      case TextBlock(_) | OtherBlock(_) => Streamed(blocks[..n])
  }

  lemma {:induction false} SaysHeard(s: State, h: Heard, b: int, fragments: seq<string>)
    requires h.id == s.messageId
    ensures Follow(s, h, SaysAll(b, fragments)) == (s, h.(text := h.text + Concat(fragments)))
    decreases |fragments|
  {
    if fragments == [] {
      assert h.text + "" == h.text;
    } else {
      var f := fragments[0];
      var h' := h.(text := h.text + f);
      FollowOne(s, h, Says(b, f));
      FollowAppend(s, h, [Says(b, f)], SaysAll(b, fragments[1..]));
      if f == "" { assert h.text + f == h.text; }
      SaysHeard(s, h', b, fragments[1..]);
      assert h.text + f + Concat(fragments[1..]) == h.text + (f + Concat(fragments[1..]));
    }
  }

  lemma HearArgument(s: State, h: Heard, b: int, f: string)
    requires h.id == s.messageId && b in s.toolIndexByBlock && s.toolIndexByBlock[b] in h.calls
    ensures var i := s.toolIndexByBlock[b];
            Follow(s, h, [Argues(b, f)]) == (s, h.(calls := h.calls[i := h.calls[i].(args := h.calls[i].args + f)]))
  {
    var i := s.toolIndexByBlock[b];
    FollowOne(s, h, Argues(b, f));
    var d := CallDelta(i, "", "", f, "");
    var was := h.calls[i];
    assert [d][1..] == [];
    assert HearCall(h.calls, d) == h.calls[i := was.(args := was.args + f)];
    assert HearCalls(h.calls, [d]) == HearCall(h.calls, d);
    assert h.text + "" == h.text;
  }

  lemma {:induction false} ArgumentsHeard(s: State, h: Heard, b: int, fragments: seq<string>)
    requires h.id == s.messageId && b in s.toolIndexByBlock && s.toolIndexByBlock[b] in h.calls
    ensures var i := s.toolIndexByBlock[b];
            Follow(s, h, ArguesAll(b, fragments))
            == (s, h.(calls := h.calls[i := h.calls[i].(args := h.calls[i].args + Concat(fragments))]))
    decreases |fragments|
  {
    hide Step, Hear;
    var i := s.toolIndexByBlock[b];
    if fragments == [] {
      assert h.calls[i].args + "" == h.calls[i].args;
      assert h.calls[i := h.calls[i]] == h.calls;
    } else {
      var f := fragments[0];
      HearArgument(s, h, b, f);
      FollowAppend(s, h, [Argues(b, f)], ArguesAll(b, fragments[1..]));
      var h' := h.(calls := h.calls[i := h.calls[i].(args := h.calls[i].args + f)]);
      ArgumentsHeard(s, h', b, fragments[1..]);
      assert h.calls[i].args + f + Concat(fragments[1..]) == h.calls[i].args + (f + Concat(fragments[1..]));
      var c := h.calls[i].(args := h.calls[i].args + Concat(fragments));
      assert h'.calls[i := c] == h.calls[i := c];
    }
  }

  lemma {:induction false} UnknownBlockIsIgnored(s: State, h: Heard, b: int, fragments: seq<string>)
    requires b !in s.toolIndexByBlock
    ensures Follow(s, h, ArguesAll(b, fragments)) == (s, h)
    decreases |fragments|
  {
    if fragments != [] {
      FollowOne(s, h, Argues(b, fragments[0]));
      FollowAppend(s, h, [Argues(b, fragments[0])], ArguesAll(b, fragments[1..]));
      UnknownBlockIsIgnored(s, h, b, fragments[1..]);
    }
  }

  /** What translator and reader agree on between two blocks. */
  ghost predicate InStep(s: State, h: Heard, blocks: seq<Block>) {
    && h.id == s.messageId
    && h.text == TextOf(blocks)
    && Lists(h.calls, Streamed(blocks))
    && s.toolCalls == |Streamed(blocks)|
    && (s.sawToolCalls <==> Streamed(blocks) != [])
    && (forall b | b in s.toolIndexByBlock :: 0 <= b < |blocks|)
  }

  ghost predicate SameHeader(s: State, h: Heard, t: State, k: Heard) {
    && t == s.(toolIndexByBlock := t.toolIndexByBlock, toolCalls := t.toolCalls, sawToolCalls := t.sawToolCalls)
    && k == h.(text := k.text, calls := k.calls)
  }

  lemma CallHeard(s: State, h: Heard, calls: seq<Call>, n: int, id: string, name: string)
    requires h.id == s.messageId && Lists(h.calls, calls) && s.toolCalls == |calls|
    ensures var (t, k) := Follow(s, h, [CallStarts(n, id, name)]);
            SameHeader(s, h, t, k)
            && k.text == h.text
            && Lists(k.calls, calls + [Call(id, name, "", "")])
            && t.toolCalls == |calls| + 1
            && t.sawToolCalls
            && t.toolIndexByBlock == s.toolIndexByBlock[n := |calls|]
  {
    FollowOne(s, h, CallStarts(n, id, name));
    var d := CallDelta(|calls|, id, name, "", "");
    assert [d][1..] == [];
    assert h.text + "" == h.text && "" + "" == "";
    assert |calls| !in h.calls;
    assert HearCalls(h.calls, [d]) == h.calls[|calls| := Call(id, name, "", "")];
  }

  lemma ToolIsOneMore(blocks: seq<Block>, b: Block)
    requires b.ToolUse?
    ensures Streamed(blocks + [b]) == Streamed(blocks) + [Call(b.id, b.name, b.input, "")]
    ensures TextOf(blocks + [b]) == TextOf(blocks)
  {
    assert (blocks + [b])[..|blocks|] == blocks;
    assert TextOf(blocks) + "" == TextOf(blocks);
  }

  lemma ToolHeard(s: State, h: Heard, blocks: seq<Block>, b: Block, cut: seq<string>)
    requires InStep(s, h, blocks) && b.ToolUse? && Concat(cut) == b.input
    ensures var (t, k) := Follow(s, h, BlockSignals(b, |blocks|, cut));
            InStep(t, k, blocks + [b]) && SameHeader(s, h, t, k)
  {
    hide Step, Hear, Follow, Streamed, TextOf, Concat, ArguesAll;
    var n := |blocks|;
    var calls := Streamed(blocks);
    FollowAppend(s, h, [CallStarts(n, b.id, b.name)], ArguesAll(n, cut));
    CallHeard(s, h, calls, n, b.id, b.name);
    var (t, k) := Follow(s, h, [CallStarts(n, b.id, b.name)]);
    ArgumentsHeard(t, k, n, cut);
    ToolIsOneMore(blocks, b);
    assert "" + b.input == b.input;
  }

  lemma BlockHeard(s: State, h: Heard, blocks: seq<Block>, b: Block, cut: seq<string>)
    requires InStep(s, h, blocks) && Concat(cut) == Fragmented(b)
    ensures var (t, k) := Follow(s, h, BlockSignals(b, |blocks|, cut));
            InStep(t, k, blocks + [b]) && SameHeader(s, h, t, k)
  {
    hide Step, Hear, Follow;
    var n := |blocks|;
    assert (blocks + [b])[..n] == blocks;
    match b
    case TextBlock(_) =>
      SaysHeard(s, h, n, cut);
    case OtherBlock(_) =>
      UnknownBlockIsIgnored(s, h, n, cut);
      assert TextOf(blocks) + "" == TextOf(blocks);
    case ToolUse(_, _, _) =>
      ToolHeard(s, h, blocks, b, cut);
  }

  lemma FollowNothing(s: State, h: Heard)
    ensures Follow(s, h, []) == (s, h)
  {
  }

  lemma {:induction false} ContentHeard(s: State, h: Heard, blocks: seq<Block>, cuts: seq<seq<string>>)
    requires InStep(s, h, []) && Cuts(blocks, cuts)
    ensures var (t, k) := Follow(s, h, ContentSignals(blocks, cuts));
            InStep(t, k, blocks) && SameHeader(s, h, t, k)
    decreases |blocks|
  {
    hide InStep, Follow, BlockSignals;
    if blocks == [] {
      FollowNothing(s, h);
    } else {
      var n := |blocks| - 1;
      ContentHeard(s, h, blocks[..n], cuts[..n]);
      var (t, k) := Follow(s, h, ContentSignals(blocks[..n], cuts[..n]));
      BlockHeard(t, k, blocks[..n], blocks[n], cuts[n]);
      FollowAppend(s, h, ContentSignals(blocks[..n], cuts[..n]), BlockSignals(blocks[n], n, cuts[n]));
      assert blocks[..n] + [blocks[n]] == blocks;
    }
  }

  // ---------- the main result ----------

  function StreamedReply(lines: seq<Line<Event>>, broken: bool): Heard {
    HearAll(SILENCE, Drain(FRESH, Source(lines, broken, false)))
  }

  /** The streamed and the buffered form of a reply look the same to a reader of the chunks, who sees their usage
      too. */
  ghost predicate Matches(h: Heard, c: Completion) {
    && h.id == c.id
    && h.role == c.role
    && h.text == c.content.GetOr("")
    && Lists(h.calls, c.calls)
    && h.finish == Some(c.finish)
    && h.usage.GetOr(NO_USAGE) == c.usage
  }

  predicate IsWholeCall(b: Block) { b.ToolUse? ==> b.id != "" && b.input != "" && b.input != "null" }

  /** Nothing the buffered form would fill in is missing. */
  ghost predicate IsWhole(r: Reply) {
    && r.id != ""
    && (r.role == "" || r.role == "assistant")
    && r.stop != ""
    && forall i | 0 <= i < |r.content| :: IsWholeCall(r.content[i])
  }

  lemma {:induction false} CallsAgreeIff(blocks: seq<Block>, ids: nat -> string)
    ensures |Streamed(blocks)| == |CallsOf(blocks, ids)|
    ensures Streamed(blocks) == CallsOf(blocks, ids) <==> forall i | 0 <= i < |blocks| :: IsWholeCall(blocks[i])
    decreases |blocks|
  {
    hide FirstNonEmpty;
    if blocks != [] {
      var n := |blocks| - 1;
      var init := blocks[..n];
      CallsAgreeIff(init, ids);
      assert forall i | 0 <= i < n :: init[i] == blocks[i];
      if blocks[n].ToolUse? {
        var a, b := Streamed(init), CallsOf(init, ids);
        var x := Call(blocks[n].id, blocks[n].name, blocks[n].input, "");
        var y := Call(FirstNonEmpty([x.id, "call_" + ids(n)]), x.name, Arguments(x.args), "");
        FirstOfTwo(x.id, "call_" + ids(n));
        AppendsAgree(a, x, b, y);
        assert x == y <==> IsWholeCall(blocks[n]);
      }
    }
  }

  lemma AppendsAgree(a: seq<Call>, x: Call, b: seq<Call>, y: Call)
    requires |a| == |b|
    ensures a + [x] == b + [y] <==> a == b && x == y
  {
    if a + [x] == b + [y] {
      assert (a + [x])[..|a|] == a && (b + [y])[..|b|] == b;
      assert (a + [x])[|a|] == x && (b + [y])[|b|] == y;
    }
  }

  lemma FirstOfTwo(a: string, b: string)
    requires b != ""
    ensures FirstNonEmpty([a, b]) == if a == "" then b else a
  {
    assert [a, b][1..] == [b];
  }

  lemma ScriptHeard(r: Reply, cuts: seq<seq<string>>)
    requires Cuts(r.content, cuts)
    ensures var h := Follow(FRESH, SILENCE, Script(r, cuts)).1;
            var prompt := r.usage.PromptTotal();
            && h.id == r.id
            && h.role == "assistant"
            && h.text == TextOf(r.content)
            && Lists(h.calls, Streamed(r.content))
            && h.finish == (if r.stop == "" then None
                            else Some(Upgrade(MapStopReason(r.stop), Streamed(r.content) != [])))
            && h.usage.GetOr(NO_USAGE)
               == Usage(prompt, r.usage.output, prompt + r.usage.output, r.usage.cacheRead)
  {
    hide Follow, MapStopReason, ContentSignals;
    var opens := Opens(r.id, r.usage.PromptTotal(), r.usage.cacheRead);
    var content := ContentSignals(r.content, cuts);
    var closes := Closes(r.stop, r.usage.output);
    assert Script(r, cuts) == [opens] + (content + ([closes] + [Ends]));
    FollowAppend(FRESH, SILENCE, [opens], content + ([closes] + [Ends]));
    FollowOne(FRESH, SILENCE, opens);
    var (s, h) := Follow(FRESH, SILENCE, [opens]);
    assert h == Heard(r.id, "assistant", "", map[], None, None);
    assert InStep(s, h, []);
    FollowAppend(s, h, content, [closes] + [Ends]);
    ContentHeard(s, h, r.content, cuts);
    var (t, k) := Follow(s, h, content);
    FollowAppend(t, k, [closes], [Ends]);
    FollowOne(t, k, closes);
    var (u, l) := Follow(t, k, [closes]);
    assert k.text + "" == k.text;
    EndsAreSilent(u, l);
  }

  /** For every reply, every cutting of its blocks into fragments and every run of lines carrying those fragments
      (among separators, pings, malformed payloads and untyped envelopes), the accumulated stream has the text, the
      calls and the usage of the reply, and the two translations agree exactly when the reply leaves nothing for the
      buffered form to fill in. */
  lemma {:induction false} StreamMatchesReply(r: Reply, cuts: seq<seq<string>>, lines: seq<Line<Event>>, broken: bool,
                           ids: nat -> string, replyId: string)
    requires Cuts(r.content, cuts)
    requires Signals(lines, NoKind) == Script(r, cuts)
    ensures StreamedReply(lines, broken).text == ToOpenAI(r, ids, replyId).content.GetOr("")
    ensures Lists(StreamedReply(lines, broken).calls, Streamed(r.content))
    ensures StreamedReply(lines, broken).usage.GetOr(NO_USAGE) == ToOpenAI(r, ids, replyId).usage
    ensures Matches(StreamedReply(lines, broken), ToOpenAI(r, ids, replyId)) <==> IsWhole(r)
  {
    hide Follow, MapStopReason, ContentSignals, Drain, CallsOf, FirstNonEmpty, Signals, TextOf, Script;
    DrainFollowsSignals(FRESH, SILENCE, lines, broken);
    ScriptHeard(r, cuts);
    CallsAgreeIff(r.content, ids);
    var h := StreamedReply(lines, broken);
    var c := ToOpenAI(r, ids, replyId);
    ListsAreEqual(h.calls, Streamed(r.content), c.calls);
    FirstOfTwo(r.id, "msg_" + replyId);
    assert Streamed(r.content) != [] <==> c.calls != [];
  }

  /** A tool call without input is the case that differs even for a well-formed reply: the buffered form fills in an
      empty object where the stream carries no argument text. */
  lemma EmptyInputDisagrees(id: string, cuts: seq<seq<string>>, lines: seq<Line<Event>>, ids: nat -> string,
                            replyId: string)
    requires var r := Reply(id, "assistant", "tool_use", [ToolUse("call", "now", "")], RawUsage(1, 1, 0, 0));
             Cuts(r.content, cuts) && Signals(lines, NoKind) == Script(r, cuts)
    ensures var r := Reply(id, "assistant", "tool_use", [ToolUse("call", "now", "")], RawUsage(1, 1, 0, 0));
            !Matches(StreamedReply(lines, false), ToOpenAI(r, ids, replyId))
  {
    hide Signals, Script, StreamedReply, ToOpenAI, Matches;
    var r := Reply(id, "assistant", "tool_use", [ToolUse("call", "now", "")], RawUsage(1, 1, 0, 0));
    assert !IsWholeCall(r.content[0]);
    StreamMatchesReply(r, cuts, lines, false, ids, replyId);
  }
}
