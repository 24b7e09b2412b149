/** Where the Anthropic translation puts a tool result: results without an id are given the id last recorded for their
    function name anywhere in the conversation, which may belong to a later call or to none. */
module AnthropicResults {
  import opened Prelude
  import opened Chat
  import opened Turns
  import opened AnthropicRequests
  import opened AnthropicRequestLaws

  // ---------- the id a name stands for ----------

  function LastIn(calls: seq<ToolCall>, name: string): Option<string> {
    if calls == [] then None
    else
      var c := calls[|calls| - 1];
      if c.id != "" && c.name != "" && c.name == name then Some(c.id) else LastIn(calls[..|calls| - 1], name)
  }

  /** A call as it was recorded: the message it stands in and its id. */
  datatype Record = Record(at: nat, id: string)

  /** The last call with an id under this name, in any message of the conversation. */
  function LastCall(ms: seq<Message>, name: string): Option<Record> {
    if ms == [] then None
    else
      match LastIn(ms[|ms| - 1].toolCalls, name)
      case Some(id) => Some(Record(|ms| - 1, id))
      case None => LastCall(ms[..|ms| - 1], name)
  }

  /** The message holds a call with this id, whoever says it. */
  predicate Carries(m: Message, id: string) { exists c :: c in m.toolCalls && c.id == id }

  /** The message holds a call that is recorded under this name. */
  predicate Records(m: Message, name: string) {
    exists c :: c in m.toolCalls && c.id != "" && c.name != "" && c.name == name
  }

  lemma {:induction false} LastInIsRecorded(calls: seq<ToolCall>, ids: map<string, string>, name: string)
    ensures Lookup(IdsByCalls(calls, ids), name) == LastIn(calls, name).GetOr(Lookup(ids, name))
    ensures match LastIn(calls, name)
            case None => forall c | c in calls :: !(c.id != "" && c.name != "" && c.name == name)
            case Some(id) => id != "" && exists c :: c in calls && c.id == id && c.name == name && name != ""
  {
    if calls != [] {
      LastInIsRecorded(calls[..|calls| - 1], ids, name);
      assert calls == calls[..|calls| - 1] + [calls[|calls| - 1]];
    }
  }

  /** The id table answers with the last recorded call, or with nothing when no call is recorded under the name. */
  lemma {:induction false} LastCallIsLookedUp(ms: seq<Message>, name: string)
    ensures Lookup(IdsByName(ms), name) == (match LastCall(ms, name) case None => "" case Some(r) => r.id)
    ensures match LastCall(ms, name)
            case None => forall j | 0 <= j < |ms| :: !Records(ms[j], name)
            case Some(r) =>
              && r.id != "" && r.at < |ms| && Records(ms[r.at], name) && Carries(ms[r.at], r.id)
              && forall j | r.at < j < |ms| :: !Records(ms[j], name)
    decreases |ms|
  {
    hide LastIn, IdsByCalls;
    if ms != [] {
      var front, last := ms[..|ms| - 1], ms[|ms| - 1];
      LastCallIsLookedUp(front, name);
      LastInIsRecorded(last.toolCalls, IdsByName(front), name);
      assert forall j | 0 <= j < |front| :: front[j] == ms[j];
    }
  }

  // ---------- where a result stands ----------

  lemma {:induction false} ConvertsInOrder(ms: seq<Message>, i: nat, ids: map<string, string>, newId: nat -> string)
    requires i <= |ms|
    ensures Flatten(ConvertAll(ms[..i], ids, newId).0) <= Flatten(ConvertAll(ms, ids, newId).0)
    decreases |ms|
  {
    hide ConvertMessage, Flatten;
    if i == |ms| {
      assert ms[..i] == ms;
    } else {
      var front := ms[..|ms| - 1];
      assert front[..i] == ms[..i];
      ConvertsInOrder(front, i, ids, newId);
      var (before, n) := ConvertAll(front, ids, newId);
      if !IsSystem(ms[|ms| - 1]) {
        FlattenAppend(before, [ConvertMessage(ms[|ms| - 1], ids, newId, n).0]);
      }
    }
  }

  lemma {:induction false} UsesOfCalls(calls: seq<ToolCall>, newId: nat -> string, n: nat, id: string)
    requires id != "" && forall k: nat :: newId(k) != id
    ensures (exists p :: p in ConvertCalls(calls, newId, n).0 && IsUse(p, id)) <==> exists c :: c in calls && c.id == id
  {
    hide ToolArguments;
    if calls != [] {
      var front, c := calls[..|calls| - 1], calls[|calls| - 1];
      UsesOfCalls(front, newId, n, id);
      assert calls == front + [c];
      var (before, k) := ConvertCalls(front, newId, n);
      var use := Part(ToolUse(if c.id == "" then newId(k) else c.id, c.name, ToolArguments(c.arguments)), false);
      assert ConvertCalls(calls, newId, n).0 == before + [use];
      assert IsUse(use, id) <==> c.id == id;
    }
  }

  /** A message says a use of the id exactly when it issues it, and then the model says it. */
  lemma UsesOfMessage(m: Message, ids: map<string, string>, newId: nat -> string, n: nat, id: string)
    requires id != "" && forall k: nat :: newId(k) != id
    ensures var t := ConvertMessage(m, ids, newId, n).0;
            && (exists p :: p in t.parts && IsUse(p, id)) == Issues(m, id)
            && (Issues(m, id) ==> t.role == Model)
  {
    hide FlattenText, ConvertParts, ConvertCalls, ToolArguments;
    if m.content.Multi? {
      ConvertedHasNoResults(m.content.parts);
    }
    UsesOfCalls(m.toolCalls, newId, n, id);
    if m.role == Assistant {
      var content, calls := ConvertContent(m.content), ConvertCalls(m.toolCalls, newId, n).0;
      assert forall p :: p in content + calls <==> p in content || p in calls;
    }
  }

  lemma SpokenUses(said: seq<Said<Part>>, t: Turn<Part>, id: string)
    requires (exists p :: p in t.parts && IsUse(p, id)) ==> t.role == Model
    ensures var all := said + Spoken(t);
            UsedBefore(all, |all|, id)
            <==> UsedBefore(said, |said|, id) || exists p :: p in t.parts && IsUse(p, id)
  {
    hide Spoken;
    var all := said + Spoken(t);
    if UsedBefore(said, |said|, id) {
      StillUsed(said, Spoken(t), id);
    }
    if p :| p in t.parts && IsUse(p, id) {
      var i :| 0 <= i < |t.parts| && t.parts[i] == p;
      assert all[|said| + i] == Said(t.role, t.parts[i]);
    }
    if UsedBefore(all, |all|, id) {
      var q :| 0 <= q < |all| && all[q].role == Model && IsUse(all[q].part, id);
      if q < |said| {
        assert all[q] == said[q];
      } else {
        assert all[q] == Said(t.role, t.parts[q - |said|]);
      }
    }
  }

  /** Before any point of the conversation the model has used exactly the ids that assistant messages issued. */
  lemma {:induction false} UsedIffIssued(ms: seq<Message>, ids: map<string, string>, newId: nat -> string, id: string)
    requires id != "" && forall k: nat :: newId(k) != id
    ensures var said := Flatten(ConvertAll(ms, ids, newId).0);
            UsedBefore(said, |said|, id) <==> exists j :: 0 <= j < |ms| && Issues(ms[j], id)
    decreases |ms|
  {
    hide ConvertMessage, Issues, Flatten, Spoken, UsedBefore;
    if ms == [] {
      NothingUsed(id);
    } else {
      var front, m := ms[..|ms| - 1], ms[|ms| - 1];
      UsedIffIssued(front, ids, newId, id);
      assert forall j | 0 <= j < |front| :: front[j] == ms[j];
      var (before, n) := ConvertAll(front, ids, newId);
      if IsSystem(m) {
        SystemIssuesNothing(m);
      } else {
        var t := ConvertMessage(m, ids, newId, n).0;
        FlattenAppend(before, [t]);
        FlattenOne(t);
        UsesOfMessage(m, ids, newId, n, id);
        SpokenUses(Flatten(before), t, id);
      }
      if j :| 0 <= j < |ms| && Issues(ms[j], id) {
        assert j < |front| ==> Issues(front[j], id);
      }
      if j :| 0 <= j < |front| && Issues(front[j], id) {
        assert Issues(ms[j], id);
      }
    }
  }

  lemma NothingUsed(id: string)
    ensures !UsedBefore(Flatten([]), |Flatten<Part>([])|, id)
  {
  }

  /** What is said before message `i`, and all that is said in the end. */
  function SaidBefore(ms: seq<Message>, newId: nat -> string, i: nat): seq<Said<Part>>
    requires i <= |ms|
  {
    Flatten(ConvertAll(ms[..i], IdsByName(ms), newId).0)
  }

  function SaidInAll(ms: seq<Message>, newId: nat -> string): seq<Said<Part>> { Flatten(ConvertTurns(ms, newId)) }

  lemma SaidInOrder(ms: seq<Message>, newId: nat -> string, i: nat)
    requires i <= |ms|
    ensures SaidBefore(ms, newId, i) <= SaidInAll(ms, newId)
  {
    hide ConvertAll, Flatten, Merge, Alternating, IdsByName;
    ConvertsInOrder(ms, i, IdsByName(ms), newId);
    MergeNormalises(ConvertAll(ms, IdsByName(ms), newId).0);
  }

  /** A tool message is dropped exactly when it resolves to no id; otherwise it is said by the user with that id, right
      after everything the messages before it say. */
  lemma {:induction false} ResultStandsInPlace(ms: seq<Message>, newId: nat -> string, i: nat)
    requires i < |ms| && IsToolResult(ms[i])
    ensures var id := ResultId(ms[i], IdsByName(ms));
            var before, all := SaidBefore(ms, newId, i), SaidInAll(ms, newId);
            && before <= all
            && (id == "" <==> SaidBefore(ms, newId, i + 1) == before)
            && (id != "" ==>
                  |before| < |all|
                  && all[|before|] == Said(User, Part(ToolResult(id, FlattenText(ms[i].content)), false)))
  {
    hide Flatten, Merge, IdsByName, FlattenText, ResultId;
    var ids := IdsByName(ms);
    var id := ResultId(ms[i], ids);
    var (before, n) := ConvertAll(ms[..i], ids, newId);
    var t := ConvertMessage(ms[i], ids, newId, n).0;
    assert ms[..i + 1][..i] == ms[..i];
    FlattenAppend(before, [t]);
    FlattenOne(t);
    SaidInOrder(ms, newId, i);
    SaidInOrder(ms, newId, i + 1);
    assert |Spoken(t)| == |t.parts|;
  }

  lemma SecondOfTwo(x: string)
    ensures FirstNonEmpty(["", x]) == x
  {
    assert ["", x][1..] == [x] && [x][1..] == [];
    assert FirstNonEmpty([x]) == if x != "" then x else FirstNonEmpty([]);
    assert FirstNonEmpty(["", x]) == FirstNonEmpty([x]);
  }

  /** The id of a result without one is that of the last call recorded under its name, anywhere in the conversation; it
      has none, and is dropped, exactly when no call is recorded under its name. */
  lemma IdOfNamedResult(ms: seq<Message>, i: nat)
    requires i < |ms| && ms[i].toolCallId == ""
    ensures var id, last := ResultId(ms[i], IdsByName(ms)), LastCall(ms, ms[i].name);
            && id == (match last case None => "" case Some(r) => r.id)
            && (id == "" <==> forall j | 0 <= j < |ms| :: !Records(ms[j], ms[i].name))
  {
    hide IdsByName, LastCall, Records, Carries, FirstNonEmpty, Lookup;
    var found := Lookup(IdsByName(ms), ms[i].name);
    assert [ms[i].toolCallId, found] == ["", found];
    SecondOfTwo(found);
    LastCallIsLookedUp(ms, ms[i].name);
  }

  /** A result that resolves to an id new ids avoid stands after a tool_use of it exactly when an earlier assistant
      message issues it. */
  lemma {:induction false} ResultFollowsUseIff(ms: seq<Message>, newId: nat -> string, i: nat)
    requires i < |ms| && IsToolResult(ms[i]) && ResultId(ms[i], IdsByName(ms)) != ""
    requires forall k: nat :: newId(k) != ResultId(ms[i], IdsByName(ms))
    ensures var id, at := ResultId(ms[i], IdsByName(ms)), |SaidBefore(ms, newId, i)|;
            && at < |SaidInAll(ms, newId)|
            && (UsedBefore(SaidInAll(ms, newId), at, id) <==> exists j :: 0 <= j < i && Issues(ms[j], id))
  {
    hide ConvertAll, Flatten, Merge, IdsByName, Issues, ResultId, FlattenText;
    var id := ResultId(ms[i], IdsByName(ms));
    var before, all := SaidBefore(ms, newId, i), SaidInAll(ms, newId);
    ResultStandsInPlace(ms, newId, i);
    UsedIffIssued(ms[..i], IdsByName(ms), newId, id);
    assert forall p | 0 <= p < |before| :: all[p] == before[p];
    if j :| 0 <= j < i && Issues(ms[j], id) {
      assert Issues(ms[..i][j], id);
    }
  }

  /** For a result without an id, and ids that stand for one call each: it stands after the use of its id exactly when
      the last call recorded under its name is issued by an earlier assistant message. */
  lemma {:induction false} NamedResultFollowsUseIff(ms: seq<Message>, newId: nat -> string, i: nat)
    requires i < |ms| && IsToolResult(ms[i]) && ms[i].toolCallId == "" && LastCall(ms, ms[i].name).Some?
    requires forall k: nat :: newId(k) != LastCall(ms, ms[i].name).value.id
    requires forall j, l | 0 <= j < |ms| && 0 <= l < |ms| && Carries(ms[j], LastCall(ms, ms[i].name).value.id)
                           && Carries(ms[l], LastCall(ms, ms[i].name).value.id) :: j == l
    ensures var last, at := LastCall(ms, ms[i].name).value, |SaidBefore(ms, newId, i)|;
            && ResultId(ms[i], IdsByName(ms)) == last.id
            && last.at < |ms|
            && (UsedBefore(SaidInAll(ms, newId), at, last.id) <==> last.at < i && ms[last.at].role == Assistant)
  {
    hide IdsByName, LastCall, ResultId, SaidBefore, SaidInAll, Records;
    var last := LastCall(ms, ms[i].name).value;
    LastCallIsLookedUp(ms, ms[i].name);
    IdOfNamedResult(ms, i);
    ResultFollowsUseIff(ms, newId, i);
    assert forall j | 0 <= j < |ms| :: Issues(ms[j], last.id) <==> ms[j].role == Assistant && Carries(ms[j], last.id);
  }

  /** The case that fails: a second call of the same function after the result takes the result's id for itself. */
  lemma {:induction false} LaterCallTakesTheResult(f: string, x: Arguments, newId: nat -> string)
    requires f != "" && forall k: nat :: newId(k) != "b"
    ensures var ms := [Message(Assistant, Null, [ToolCall("a", f, x, "")], "", ""),
                       Message(ToolRole, Null, [], "", f),
                       Message(Assistant, Null, [ToolCall("b", f, x, "")], "", "")];
            && ResultId(ms[1], IdsByName(ms)) == "b"
            && !UsedBefore(SaidInAll(ms, newId), |SaidBefore(ms, newId, 1)|, "b")
  {
    hide SaidBefore, SaidInAll, IdsByName, ResultId;
    var ms := [Message(Assistant, Null, [ToolCall("a", f, x, "")], "", ""),
               Message(ToolRole, Null, [], "", f),
               Message(Assistant, Null, [ToolCall("b", f, x, "")], "", "")];
    assert ms[2].toolCalls[..0] == [];
    assert LastIn(ms[2].toolCalls, f) == Some("b");
    assert LastCall(ms, f) == Some(Record(2, "b"));
    IdOfNamedResult(ms, 1);
    ResultFollowsUseIff(ms, newId, 1);
    assert ms[0].toolCalls[0].id == "a" && !Issues(ms[0], "b");
  }
}
