/** What the Anthropic request translation guarantees: cache breakpoints within the ceiling, and tool results paired
    with the calls they answer. */
module AnthropicRequestLaws {
  import opened Prelude
  import opened Chat
  import opened Turns
  import opened AnthropicRequests

  // ---------- cache breakpoints ----------

  ghost predicate OnlyMarksAdded(a: seq<Part>, b: seq<Part>) {
    |a| == |b| && forall i | 0 <= i < |a| :: b[i].block == a[i].block && (a[i].marked ==> b[i].marked)
  }

  ghost predicate OnlyTurnMarksAdded(a: seq<Turn<Part>>, b: seq<Turn<Part>>) {
    |a| == |b| && forall i | 0 <= i < |a| :: b[i].role == a[i].role && OnlyMarksAdded(a[i].parts, b[i].parts)
  }

  /** Whether marking the end of `parts` adds a mark. */
  function Need(parts: seq<Part>): nat { if parts != [] && !parts[|parts| - 1].marked then 1 else 0 }

  /** Whether marking the first message that has parts adds a mark. */
  function NeedFirst(ts: seq<Turn<Part>>): (r: nat)
    ensures r <= 1
  {
    if ts == [] then 0 else if ts[0].parts == [] then NeedFirst(ts[1..]) else Need(ts[0].parts)
  }

  lemma MarkLastAdds(parts: seq<Part>)
    requires parts != []
    ensures Marks(MarkLast(parts)) == Marks(parts) + Need(parts)
    ensures OnlyMarksAdded(parts, MarkLast(parts))
    ensures MarkLast(MarkLast(parts)) == MarkLast(parts) && Need(MarkLast(parts)) == 0
  {
    var n := |parts| - 1;
    assert MarkLast(parts)[..n] == parts[..n];
  }

  lemma {:induction false} TurnMarksCons(t: Turn<Part>, ts: seq<Turn<Part>>)
    ensures TurnMarks([t] + ts) == Marks(t.parts) + TurnMarks(ts)
    decreases |ts|
  {
    hide Marks;
    if ts == [] {
      assert [t] + ts == [t];
      assert TurnMarks([]) == 0;
    } else {
      var n := |ts| - 1;
      assert ([t] + ts)[..|ts|] == [t] + ts[..n];
      TurnMarksCons(t, ts[..n]);
    }
  }

  lemma {:induction false} MarkFirstAdds(ts: seq<Turn<Part>>)
    ensures TurnMarks(MarkFirst(ts)) == TurnMarks(ts) + NeedFirst(ts)
    ensures OnlyTurnMarksAdded(ts, MarkFirst(ts))
    ensures MarkFirst(MarkFirst(ts)) == MarkFirst(ts) && NeedFirst(MarkFirst(ts)) == 0
    decreases |ts|
  {
    hide Marks, MarkLast, Need;
    if ts != [] {
      var t := ts[0];
      assert ts == [t] + ts[1..];
      TurnMarksCons(t, ts[1..]);
      if t.parts == [] {
        MarkFirstAdds(ts[1..]);
        TurnMarksCons(t, MarkFirst(ts[1..]));
        assert MarkFirst(ts)[1..] == MarkFirst(ts[1..]);
      } else {
        var t' := t.(parts := MarkLast(t.parts));
        MarkLastAdds(t.parts);
        TurnMarksCons(t', ts[1..]);
        assert MarkFirst(ts)[1..] == ts[1..];
        assert MarkLast(t.parts) != [];
      }
    }
  }

  /** Injection adds at most two breakpoints and stops at the ceiling: a request at or over it is left alone. */
  lemma InjectCounts(b: Body)
    ensures BodyMarks(Inject(b))
         == if BodyMarks(b) >= MAX_BREAKPOINTS then BodyMarks(b)
            else Min(MAX_BREAKPOINTS, BodyMarks(b) + Need(b.system) + NeedFirst(b.messages))
    ensures BodyMarks(b) <= BodyMarks(Inject(b)) <= BodyMarks(b) + 2
    ensures BodyMarks(Inject(b)) <= Max(MAX_BREAKPOINTS, BodyMarks(b))
  {
    hide Marks, TurnMarks, MarkLast, MarkFirst, NeedFirst;
    if b.system != [] {
      MarkLastAdds(b.system);
    }
    MarkFirstAdds(b.messages);
  }

  /** Injection removes no breakpoint and changes nothing else. */
  lemma InjectOnlyAddsMarks(b: Body)
    ensures OnlyMarksAdded(b.system, Inject(b).system) && OnlyTurnMarksAdded(b.messages, Inject(b).messages)
  {
    hide Marks, TurnMarks, MarkLast, MarkFirst;
    if b.system != [] {
      MarkLastAdds(b.system);
    }
    MarkFirstAdds(b.messages);
  }

  /** Injecting twice is injecting once. */
  lemma InjectIsIdempotent(b: Body)
    ensures Inject(Inject(b)) == Inject(b)
  {
    hide Marks, TurnMarks, MarkLast, MarkFirst, NeedFirst;
    if b.system != [] {
      MarkLastAdds(b.system);
    }
    MarkFirstAdds(b.messages);
    InjectCounts(b);
  }

  /** A request with four breakpoints or more is left alone; any other gets the end of its system text marked, and then,
      if that leaves fewer than four, the end of its first message. */
  lemma FourAtMost(b: Body)
    ensures BodyMarks(b) >= 4 ==> Inject(b) == b
    ensures BodyMarks(b) < 4 ==>
              && BodyMarks(Inject(b)) <= 4
              && (b.system != [] ==> Inject(b).system[|b.system| - 1].marked)
              && (b.messages != [] && b.messages[0].parts != [] && BodyMarks(b) + Need(b.system) < 4 ==>
                    Inject(b).messages[0].parts[|b.messages[0].parts| - 1].marked)
  {
    hide Marks, TurnMarks;
    InjectCounts(b);
  }

  lemma {:induction false} NoMarksWhenUnmarked(parts: seq<Part>)
    requires forall p | p in parts :: !p.marked
    ensures Marks(parts) == 0
  {
    if parts != [] {
      NoMarksWhenUnmarked(parts[..|parts| - 1]);
    }
  }

  ghost predicate Unmarked(parts: seq<Part>) { forall p | p in parts :: !p.marked }

  lemma {:induction false} ConvertedUnmarked(parts: seq<InPart>)
    ensures Unmarked(ConvertParts(parts))
  {
    if parts != [] {
      ConvertedUnmarked(parts[..|parts| - 1]);
    }
  }

  lemma {:induction false} CallsUnmarked(calls: seq<ToolCall>, newId: nat -> string, n: nat)
    ensures Unmarked(ConvertCalls(calls, newId, n).0)
  {
    if calls != [] {
      CallsUnmarked(calls[..|calls| - 1], newId, n);
    }
  }

  lemma MessageUnmarked(m: Message, ids: map<string, string>, newId: nat -> string, n: nat)
    ensures Unmarked(ConvertMessage(m, ids, newId, n).0.parts)
  {
    hide ResultId, FlattenText, ConvertParts, ConvertCalls;
    if m.content.Multi? {
      ConvertedUnmarked(m.content.parts);
    }
    CallsUnmarked(m.toolCalls, newId, n);
  }

  lemma {:induction false} AllUnmarked(ms: seq<Message>, ids: map<string, string>, newId: nat -> string)
    ensures forall t | t in Merge(ConvertAll(ms, ids, newId).0) :: Unmarked(t.parts)
    ensures Unmarked(SystemOf(ms))
    decreases |ms|
  {
    hide ConvertMessage, FlattenText;
    if ms != [] {
      var front := ms[..|ms| - 1];
      var m := ms[|ms| - 1];
      AllUnmarked(front, ids, newId);
      var (before, n) := ConvertAll(front, ids, newId);
      MessageUnmarked(m, ids, newId, n);
      if !IsSystem(m) {
        var t := ConvertMessage(m, ids, newId, n).0;
        assert (before + [t])[..|before|] == before;
        AddUnmarked(Merge(before), t);
      }
    }
  }

  lemma AddUnmarked(out: seq<Turn<Part>>, t: Turn<Part>)
    requires (forall u | u in out :: Unmarked(u.parts)) && Unmarked(t.parts)
    ensures forall u | u in Add(out, t) :: Unmarked(u.parts)
  {
    if out != [] {
      assert out[|out| - 1] in out;
    }
  }

  lemma {:induction false} UnmarkedTurns(ts: seq<Turn<Part>>)
    requires forall t | t in ts :: Unmarked(t.parts)
    ensures TurnMarks(ts) == 0
  {
    if ts != [] {
      UnmarkedTurns(ts[..|ts| - 1]);
      NoMarksWhenUnmarked(ts[|ts| - 1].parts);
    }
  }

  lemma NeedFirstOfMerged(ts: seq<Turn<Part>>)
    requires Alternating(ts) && forall t | t in ts :: Unmarked(t.parts)
    ensures NeedFirst(ts) == if ts == [] then 0 else 1
  {
    if ts != [] {
      assert ts[0] in ts;
      assert ts[0].parts[|ts[0].parts| - 1] in ts[0].parts;
    }
  }

  /** A translated conversation carries no breakpoint of its caller, since conversion drops cache marks; it ends up with
      exactly one for a system prompt and one for a conversation. */
  lemma TranslatedBreakpoints(ms: seq<Message>, newId: nat -> string)
    ensures var b := Body(SystemOf(ms), ConvertTurns(ms, newId));
            && BodyMarks(b) == 0
            && BodyMarks(Inject(b)) == (if b.system == [] then 0 else 1) + (if b.messages == [] then 0 else 1)
  {
    hide Marks, TurnMarks, NeedFirst, Merge, ConvertAll, SystemOf, IdsByName;
    var b := Body(SystemOf(ms), ConvertTurns(ms, newId));
    AllUnmarked(ms, IdsByName(ms), newId);
    NoMarksWhenUnmarked(b.system);
    UnmarkedTurns(b.messages);
    MergeNormalises(ConvertAll(ms, IdsByName(ms), newId).0);
    NeedFirstOfMerged(b.messages);
    InjectCounts(b);
    if b.system != [] {
      assert b.system[|b.system| - 1] in b.system;
    }
  }

  // ---------- tool results ----------

  predicate Issues(m: Message, id: string) {
    m.role == Assistant && exists c :: c in m.toolCalls && c.id == id
  }

  /** Every tool message answers an id issued by an earlier assistant message. */
  ghost predicate Answered(ms: seq<Message>) {
    forall i | 0 <= i < |ms| && IsToolResult(ms[i]) ::
      ms[i].toolCallId != "" && exists j :: 0 <= j < i && Issues(ms[j], ms[i].toolCallId)
  }

  /** The ids of the tool messages, in order. */
  function AskedIds(ms: seq<Message>): seq<string> {
    if ms == [] then []
    else AskedIds(ms[..|ms| - 1]) + if IsToolResult(ms[|ms| - 1]) then [ms[|ms| - 1].toolCallId] else []
  }

  /** The ids of the tool_result blocks, in order. */
  function ResultIds(said: seq<Said<Part>>): seq<string> {
    if said == [] then []
    else
      var b := said[|said| - 1].part.block;
      ResultIds(said[..|said| - 1]) + if b.ToolResult? then [b.toolUseId] else []
  }

  lemma {:induction false} ResultIdsAppend(a: seq<Said<Part>>, b: seq<Said<Part>>)
    ensures ResultIds(a + b) == ResultIds(a) + ResultIds(b)
    decreases |b|
  {
    if b == [] {
      assert a + b == a;
    } else {
      assert (a + b)[..|a + b| - 1] == a + b[..|b| - 1];
      ResultIdsAppend(a, b[..|b| - 1]);
    }
  }

  lemma {:induction false} NoResultIds(said: seq<Said<Part>>)
    requires forall s | s in said :: !s.part.block.ToolResult?
    ensures ResultIds(said) == []
  {
    if said != [] {
      NoResultIds(said[..|said| - 1]);
    }
  }

  lemma {:induction false} ConvertedHasNoResults(parts: seq<InPart>)
    ensures forall p | p in ConvertParts(parts) :: !p.block.ToolResult? && !p.block.ToolUse?
  {
    if parts != [] {
      ConvertedHasNoResults(parts[..|parts| - 1]);
    }
  }

  /** Converted calls are tool_use blocks only, and every id a call carries is among them. */
  lemma {:induction false} CallsBecomeUses(calls: seq<ToolCall>, newId: nat -> string, n: nat)
    ensures forall p | p in ConvertCalls(calls, newId, n).0 :: p.block.ToolUse?
    ensures |ConvertCalls(calls, newId, n).0| == |calls|
    ensures forall i | 0 <= i < |calls| && calls[i].id != "" ::
              ConvertCalls(calls, newId, n).0[i].block == ToolUse(calls[i].id, calls[i].name,
                                                                  ToolArguments(calls[i].arguments))
  {
    hide ToolArguments;
    if calls != [] {
      CallsBecomeUses(calls[..|calls| - 1], newId, n);
    }
  }

  /** A tool message with an id becomes the one result block that carries it. */
  lemma ResultBlock(m: Message, ids: map<string, string>, newId: nat -> string, n: nat)
    requires IsToolResult(m) && m.toolCallId != ""
    ensures ConvertMessage(m, ids, newId, n).0
         == Turn(User, [Part(ToolResult(m.toolCallId, FlattenText(m.content)), false)])
    ensures ResultIds(Spoken(ConvertMessage(m, ids, newId, n).0)) == [m.toolCallId]
  {
    hide FlattenText;
    var t := ConvertMessage(m, ids, newId, n).0;
    assert ResultId(m, ids) == m.toolCallId;
    assert Spoken(t) == [Said(User, t.parts[0])];
    assert Spoken(t)[..0] == [];
  }

  lemma NothingAnswered(t: Turn<Part>)
    requires forall p | p in t.parts :: !p.block.ToolResult?
    ensures ResultIds(Spoken(t)) == []
  {
    forall s | s in Spoken(t) ensures !s.part.block.ToolResult? {
      assert s.part in t.parts;
    }
    NoResultIds(Spoken(t));
  }

  lemma SpeakerBlocks(m: Message, ids: map<string, string>, newId: nat -> string, n: nat)
    requires !IsToolResult(m)
    ensures var t := ConvertMessage(m, ids, newId, n).0;
            && (forall p | p in t.parts :: !p.block.ToolResult? && (p.block.ToolUse? ==> t.role == Model))
            && (forall id | Issues(m, id) && id != "" :: exists i :: 0 <= i < |t.parts| && IsUse(t.parts[i], id))
  {
    hide ConvertParts, ConvertCalls, ToolArguments;
    var t := ConvertMessage(m, ids, newId, n).0;
    if m.content.Multi? {
      ConvertedHasNoResults(m.content.parts);
    }
    CallsBecomeUses(m.toolCalls, newId, n);
    forall id | Issues(m, id) && id != "" ensures exists i :: 0 <= i < |t.parts| && IsUse(t.parts[i], id) {
      var i :| 0 <= i < |m.toolCalls| && m.toolCalls[i].id == id;
      assert IsUse(t.parts[|ConvertContent(m.content)| + i], id);
    }
  }

  /** The blocks of one message: calls for the model, results for the user. */
  lemma MessageBlocks(m: Message, ids: map<string, string>, newId: nat -> string, n: nat)
    requires IsToolResult(m) ==> m.toolCallId != ""
    ensures var t := ConvertMessage(m, ids, newId, n).0;
            && ResultIds(Spoken(t)) == (if IsToolResult(m) then [m.toolCallId] else [])
            && (forall p | p in t.parts && p.block.ToolUse? :: t.role == Model)
            && (forall p | p in t.parts && p.block.ToolResult? ::
                  t.role == User && IsToolResult(m) && p.block.toolUseId == m.toolCallId)
            && (forall id | Issues(m, id) && id != "" :: exists i :: 0 <= i < |t.parts| && IsUse(t.parts[i], id))
  {
    hide ConvertMessage, FlattenText, Spoken, ResultIds, IsUse;
    if IsToolResult(m) {
      ResultBlock(m, ids, newId, n);
    } else {
      SpeakerBlocks(m, ids, newId, n);
      NothingAnswered(ConvertMessage(m, ids, newId, n).0);
    }
  }

  predicate IsUse(p: Part, id: string) { p.block.ToolUse? && p.block.id == id }

  /** A tool_use with this id is said by the model before position `q`. */
  ghost predicate UsedBefore(said: seq<Said<Part>>, q: nat, id: string) {
    exists p :: 0 <= p < q <= |said| && said[p].role == Model && IsUse(said[p].part, id)
  }

  /** Every result is said by the user after a use of its id. */
  ghost predicate ResultsFollowUses(said: seq<Said<Part>>) {
    forall q: nat | q < |said| && said[q].part.block.ToolResult? ::
      said[q].role == User && UsedBefore(said, q, said[q].part.block.toolUseId)
  }

  /** Every id the messages issue is used. */
  ghost predicate AllUsed(ms: seq<Message>, said: seq<Said<Part>>) {
    forall j, id | 0 <= j < |ms| && Issues(ms[j], id) && id != "" :: UsedBefore(said, |said|, id)
  }

  lemma AllStillUsed(front: seq<Message>, m: Message, said: seq<Said<Part>>, t: Turn<Part>)
    requires AllUsed(front, said) && forall p | p in t.parts && p.block.ToolUse? :: t.role == Model
    requires forall id | Issues(m, id) && id != "" :: exists i :: 0 <= i < |t.parts| && IsUse(t.parts[i], id)
    ensures AllUsed(front + [m], said + Spoken(t))
  {
    hide Issues, Spoken, UsedBefore;
    var ms, all := front + [m], said + Spoken(t);
    forall j, id | 0 <= j < |ms| && Issues(ms[j], id) && id != "" ensures UsedBefore(all, |all|, id) {
      if j < |front| {
        assert Issues(front[j], id);
        StillUsed(said, Spoken(t), id);
      } else {
        UsedNow(said, t, id);
      }
    }
  }

  lemma AllUsedStill(front: seq<Message>, m: Message, said: seq<Said<Part>>)
    requires AllUsed(front, said) && IsSystem(m)
    ensures AllUsed(front + [m], said)
  {
    hide UsedBefore;
    SystemIssuesNothing(m);
  }

  lemma {:induction false} ConversationPairs(ms: seq<Message>, ids: map<string, string>, newId: nat -> string)
    requires Answered(ms)
    ensures var said := Flatten(ConvertAll(ms, ids, newId).0);
            ResultIds(said) == AskedIds(ms) && ResultsFollowUses(said) && AllUsed(ms, said)
    decreases |ms|
  {
    hide ConvertMessage, ResultIds, ResultsFollowUses, Issues, Flatten, Spoken, UsedBefore, AllUsed;
    if ms == [] {
      NothingSaid();
      assert AllUsed([], []) by { NothingIssued(); }
    } else {
      var front := ms[..|ms| - 1];
      var m := ms[|ms| - 1];
      assert ms == front + [m];
      assert forall i | 0 <= i < |front| :: front[i] == ms[i];
      ConversationPairs(front, ids, newId);
      var (before, n) := ConvertAll(front, ids, newId);
      var said := Flatten(before);
      if IsSystem(m) {
        AllUsedStill(front, m, said);
      } else {
        var t := ConvertMessage(m, ids, newId, n).0;
        FlattenAppend(before, [t]);
        FlattenOne(t);
        MessageBlocks(m, ids, newId, n);
        ResultIdsAppend(said, Spoken(t));
        if IsToolResult(m) {
          var j :| 0 <= j < |ms| - 1 && Issues(ms[j], m.toolCallId);
          IssuedIsUsed(front, said, j, m.toolCallId);
        }
        OneMoreMessage(said, t, m);
        AllStillUsed(front, m, said, t);
      }
    }
  }

  lemma IssuedIsUsed(ms: seq<Message>, said: seq<Said<Part>>, j: nat, id: string)
    requires AllUsed(ms, said) && j < |ms| && Issues(ms[j], id) && id != ""
    ensures UsedBefore(said, |said|, id)
  {
  }

  lemma NothingIssued()
    ensures AllUsed([], [])
  {
  }

  lemma NothingSaid()
    ensures ResultIds([]) == [] && ResultsFollowUses([]) && Flatten<Part>([]) == []
  {
  }

  lemma SystemIssuesNothing(m: Message)
    requires IsSystem(m)
    ensures forall id :: !Issues(m, id)
  {
  }

  lemma StillUsed(said: seq<Said<Part>>, more: seq<Said<Part>>, id: string)
    requires UsedBefore(said, |said|, id)
    ensures UsedBefore(said + more, |said + more|, id)
  {
    var p :| 0 <= p < |said| && said[p].role == Model && IsUse(said[p].part, id);
    assert (said + more)[p] == said[p];
  }

  lemma UsedNow(said: seq<Said<Part>>, t: Turn<Part>, id: string)
    requires forall p | p in t.parts && p.block.ToolUse? :: t.role == Model
    requires exists i :: 0 <= i < |t.parts| && IsUse(t.parts[i], id)
    ensures UsedBefore(said + Spoken(t), |said + Spoken(t)|, id)
  {
    var i :| 0 <= i < |t.parts| && IsUse(t.parts[i], id);
    assert t.parts[i] in t.parts;
    assert (said + Spoken(t))[|said| + i] == Said(t.role, t.parts[i]);
  }

  lemma OneMoreMessage(said: seq<Said<Part>>, t: Turn<Part>, m: Message)
    requires ResultsFollowUses(said)
    requires forall p | p in t.parts && p.block.ToolResult? ::
               t.role == User && IsToolResult(m) && p.block.toolUseId == m.toolCallId
    requires IsToolResult(m) ==> UsedBefore(said, |said|, m.toolCallId)
    ensures ResultsFollowUses(said + Spoken(t))
  {
    var all := said + Spoken(t);
    forall q: nat | q < |all| && all[q].part.block.ToolResult?
      ensures all[q].role == User && UsedBefore(all, q, all[q].part.block.toolUseId)
    {
      if q < |said| {
        assert said[q] == all[q];
        var p :| 0 <= p < q && said[p].role == Model && IsUse(said[p].part, said[q].part.block.toolUseId);
        assert all[p] == said[p];
      } else {
        assert all[q] == Said(t.role, t.parts[q - |said|]);
        assert t.parts[q - |said|] in t.parts;
        var p :| 0 <= p < |said| && said[p].role == Model && IsUse(said[p].part, m.toolCallId);
        assert all[p] == said[p];
      }
    }
  }

  /** When every tool message answers an id issued earlier, the translation keeps every result, in order and with its
      exact id, and every result stands in a turn strictly after one that holds a tool_use with that id. */
  lemma ToolResultsPair(ms: seq<Message>, newId: nat -> string)
    requires Answered(ms)
    ensures var out := ConvertTurns(ms, newId);
            && ResultIds(Flatten(out)) == AskedIds(ms)
            && forall b: nat, i: nat | b < |out| && i < |out[b].parts| && out[b].parts[i].block.ToolResult? ::
                 HasUseBefore(out, b, out[b].parts[i].block.toolUseId)
  {
    hide Flatten, ResultIds, Answered, Alternating, IdsByName;
    var converted := ConvertAll(ms, IdsByName(ms), newId).0;
    var out := ConvertTurns(ms, newId);
    ConversationPairs(ms, IdsByName(ms), newId);
    MergeNormalises(converted);
    forall b: nat, i: nat | b < |out| && i < |out[b].parts| && out[b].parts[i].block.ToolResult?
      ensures HasUseBefore(out, b, out[b].parts[i].block.toolUseId)
    {
      ResultComesLater(out, b, i);
    }
  }

  ghost predicate HasUseBefore(out: seq<Turn<Part>>, b: nat, id: string) {
    exists a, j :: 0 <= a < b && a < |out| && 0 <= j < |out[a].parts| && IsUse(out[a].parts[j], id)
  }

  lemma ResultComesLater(out: seq<Turn<Part>>, b: nat, i: nat)
    requires ResultsFollowUses(Flatten(out))
    requires b < |out| && i < |out[b].parts| && out[b].parts[i].block.ToolResult?
    ensures HasUseBefore(out, b, out[b].parts[i].block.toolUseId)
  {
    hide Flatten;
    var said := Flatten(out);
    var q := Position(out, b, i);
    PositionHolds(out, b, i);
    var id := out[b].parts[i].block.toolUseId;
    var p: nat :| p < q && said[p].role == Model && IsUse(said[p].part, id);
    var a, j := EarlierIsInEarlierTurn(out, b, i, p);
    assert out[a].role != out[b].role;
    assert IsUse(out[a].parts[j], id);
  }

  // ---------- where the breakpoints stand ----------

  lemma {:induction false} MarkFirstMarks(ts: seq<Turn<Part>>)
    requires ts != [] && ts[0].parts != []
    ensures MarkFirst(ts) == ts[0 := ts[0].(parts := MarkLast(ts[0].parts))]
  {
  }

  lemma NothingToMark()
    ensures MarkFirst([]) == []
  {
  }

  /** In a translated conversation they stand on the last system text and on the last part of the first message, and
      nowhere else. */
  lemma BreakpointsStand(ms: seq<Message>, newId: nat -> string)
    ensures var b := Inject(Body(SystemOf(ms), ConvertTurns(ms, newId)));
            && (forall i | 0 <= i < |b.system| :: b.system[i].marked <==> i == |b.system| - 1)
            && (forall t, i | 0 <= t < |b.messages| && 0 <= i < |b.messages[t].parts| ::
                  b.messages[t].parts[i].marked <==> t == 0 && i == |b.messages[0].parts| - 1)
  {
    hide Marks, TurnMarks, Merge, ConvertAll, SystemOf, IdsByName, MarkFirst;
    var b := Body(SystemOf(ms), ConvertTurns(ms, newId));
    AllUnmarked(ms, IdsByName(ms), newId);
    TranslatedBreakpoints(ms, newId);
    MergeNormalises(ConvertAll(ms, IdsByName(ms), newId).0);
    assert forall i | 0 <= i < |b.system| :: b.system[i] in b.system;
    forall t, i | 0 <= t < |b.messages| && 0 <= i < |b.messages[t].parts| ensures !b.messages[t].parts[i].marked {
      assert b.messages[t] in b.messages && b.messages[t].parts[i] in b.messages[t].parts;
    }
    if b.messages != [] {
      MarkFirstMarks(b.messages);
    } else {
      NothingToMark();
    }
  }
}
