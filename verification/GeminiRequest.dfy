/** The Gemini request translation: system text hoisted, calls and results keyed by function name, adjacent roles
    merged. */
module GeminiRequests {
  import opened Prelude
  import opened Chat
  import opened Turns

  datatype GPart =
    | GText(text: string)
    | GInline(mimeType: string, data: string)
    | GCall(name: string, args: string, signature: string)
    | GResponse(name: string, response: string)

  /** The sentinel for a call whose signature was lost. */
  const SKIP_SIGNATURE := "skip_thought_signature_validator"

  function ConvertPart(p: InPart): seq<GPart> {
    match p
    case TextIn(text) => [GText(text)]
    case ImageIn(Some(url)) =>
      (match SplitDataURI(url)
       case Some(m) => [GInline(m.mediaType, m.data)]
       case None => [])
    case ImageIn(None) => []
    case AudioIn(format, data) =>
      if data == "" then []
      else
        var mime := "audio/" + format;
        [GInline(if mime == "audio/mp3" then "audio/mpeg" else mime, data)]
    case UnknownIn => []
  }

  function ConvertParts(parts: seq<InPart>): seq<GPart> {
    if parts == [] then [] else ConvertParts(parts[..|parts| - 1]) + ConvertPart(parts[|parts| - 1])
  }

  function ConvertContent(c: Content): seq<GPart> {
    match c
    case Plain(s) => if s == "" then [] else [GText(s)]
    case Multi(parts) => ConvertParts(parts)
    case Null | Unreadable => []
  }

  /** The last function name seen for each call id, over the whole conversation. */
  function NamesByCalls(calls: seq<ToolCall>, names: map<string, string>): map<string, string> {
    if calls == [] then names
    else
      var c := calls[|calls| - 1];
      var before := NamesByCalls(calls[..|calls| - 1], names);
      if c.id != "" && c.name != "" then before[c.id := c.name] else before
  }

  function NamesById(ms: seq<Message>): map<string, string> {
    if ms == [] then map[] else NamesByCalls(ms[|ms| - 1].toolCalls, NamesById(ms[..|ms| - 1]))
  }

  function ConvertCalls(calls: seq<ToolCall>): seq<GPart> {
    if calls == [] then []
    else
      var c := calls[|calls| - 1];
      ConvertCalls(calls[..|calls| - 1])
      + [GCall(c.name, ToolArguments(c.arguments), if c.signature == "" then SKIP_SIGNATURE else c.signature)]
  }

  function ResultName(m: Message, names: map<string, string>): string {
    FirstNonEmpty([m.name, Lookup(names, m.toolCallId), m.toolCallId, "function"])
  }

  function ConvertMessage(m: Message, names: map<string, string>): Turn<GPart> {
    if m.role == Assistant then Turn(Model, ConvertContent(m.content) + ConvertCalls(m.toolCalls))
    else if IsToolResult(m) then Turn(User, [GResponse(ResultName(m, names), FlattenText(m.content))])
    else Turn(User, ConvertContent(m.content))
  }

  /** Every conversation message converted. Only `system` is hoisted here; `developer` is an ordinary user turn. */
  function ConvertAll(ms: seq<Message>, names: map<string, string>): seq<Turn<GPart>> {
    if ms == [] then []
    else
      var before := ConvertAll(ms[..|ms| - 1], names);
      if ms[|ms| - 1].role == System then before else before + [ConvertMessage(ms[|ms| - 1], names)]
  }

  function SystemOf(ms: seq<Message>): seq<GPart> {
    if ms == [] then []
    else
      var m := ms[|ms| - 1];
      var before := SystemOf(ms[..|ms| - 1]);
      if m.role == System && FlattenText(m.content) != "" then before + [GText(FlattenText(m.content))] else before
  }

  function ConvertTurns(ms: seq<Message>): seq<Turn<GPart>> { Merge(ConvertAll(ms, NamesById(ms))) }

  method CollectNames(calls: seq<ToolCall>, before: map<string, string>) returns (names: map<string, string>)
    ensures names == NamesByCalls(calls, before)
  {
    names := before;
    for i := 0 to |calls|
      invariant names == NamesByCalls(calls[..i], before)
    {
      assert calls[..i + 1][..i] == calls[..i];
      if calls[i].id != "" && calls[i].name != "" {
        names := names[calls[i].id := calls[i].name];
      }
    }
    assert calls[..|calls|] == calls;
  }

  /** The first pass over the conversation. */
  method RecordNames(ms: seq<Message>) returns (names: map<string, string>)
    ensures names == NamesById(ms)
  {
    names := map[];
    for i := 0 to |ms|
      invariant names == NamesById(ms[..i])
    {
      assert ms[..i + 1][..i] == ms[..i];
      names := CollectNames(ms[i].toolCalls, names);
    }
    assert ms[..|ms|] == ms;
  }

  /** The conversion loop. */
  method Convert(ms: seq<Message>) returns (system: seq<GPart>, turns: seq<Turn<GPart>>)
    ensures system == SystemOf(ms) && turns == ConvertTurns(ms)
  {
    hide ConvertMessage, FlattenText, Add, Merge, NamesById;
    var names := RecordNames(ms);
    system, turns := [], [];
    NothingToMerge<GPart>();
    for i := 0 to |ms|
      invariant system == SystemOf(ms[..i])
      invariant turns == Merge(ConvertAll(ms[..i], names))
    {
      var m := ms[i];
      assert ms[..i + 1][..i] == ms[..i];
      if m.role == System {
        var text := FlattenText(m.content);
        if text != "" {
          system := system + [GText(text)];
        }
      } else {
        var t := ConvertMessage(m, names);
        MergeOneMore(ConvertAll(ms[..i], names), t);
        turns := AppendTurn(turns, t);
      }
    }
    assert ms[..|ms|] == ms;
  }

  // ---------- names of results ----------

  predicate Names(m: Message, id: string, name: string) {
    exists c :: c in m.toolCalls && c.id == id && c.name == name
  }

  /** No call id stands for two function names. */
  ghost predicate UniqueIds(ms: seq<Message>) {
    forall i, j, id, a, b | 0 <= i < |ms| && 0 <= j < |ms| && id != "" && a != "" && b != ""
                            && Names(ms[i], id, a) && Names(ms[j], id, b) :: a == b
  }

  lemma {:induction false} CallsRecordNames(calls: seq<ToolCall>, names: map<string, string>, id: string)
    ensures var after := NamesByCalls(calls, names);
            && (id in after ==>
                  || (id in names && after[id] == names[id])
                  || exists c :: c in calls && c.id == id && c.name == after[id] && c.name != "")
            && ((id in names || exists c :: c in calls && c.id == id && c.id != "" && c.name != "") ==> id in after)
  {
    if calls != [] {
      CallsRecordNames(calls[..|calls| - 1], names, id);
    }
  }

  /** A recorded name comes from a call with that id, and every named call with an id is recorded. */
  lemma {:induction false} NamesAreRecorded(ms: seq<Message>, id: string)
    ensures id in NamesById(ms) ==>
              NamesById(ms)[id] != "" && exists i :: 0 <= i < |ms| && Names(ms[i], id, NamesById(ms)[id])
    ensures (exists i, name :: 0 <= i < |ms| && id != "" && name != "" && Names(ms[i], id, name)) ==>
              id in NamesById(ms)
    decreases |ms|
  {
    if ms != [] {
      var front := ms[..|ms| - 1];
      var last := ms[|ms| - 1];
      NamesAreRecorded(front, id);
      CallsRecordNames(last.toolCalls, NamesById(front), id);
      var after := NamesById(ms);
      if id in after {
        if id in NamesById(front) && after[id] == NamesById(front)[id] {
          var i :| 0 <= i < |front| && Names(front[i], id, after[id]);
          assert Names(ms[i], id, after[id]);
        } else {
          assert Names(last, id, after[id]);
        }
      }
      if i: nat, name: string :| i < |ms| && id != "" && name != "" && Names(ms[i], id, name) {
        if i < |front| {
          assert Names(front[i], id, name);
        }
      }
    }
  }

  /** With unique ids, an unnamed result that answers a named call carries that call's function name. */
  lemma {:induction false} ResultCarriesCallName(ms: seq<Message>, result: Message, i: nat, name: string)
    requires UniqueIds(ms) && result.name == ""
    requires i < |ms| && result.toolCallId != "" && name != "" && Names(ms[i], result.toolCallId, name)
    ensures ResultName(result, NamesById(ms)) == name
  {
    hide NamesById, FirstNonEmpty;
    var names := NamesById(ms);
    var id := result.toolCallId;
    NamesAreRecorded(ms, id);
    var j: nat :| j < |ms| && Names(ms[j], id, names[id]);
    assert names[id] == name;
    SecondOfFour(name, id, "function");
  }

  lemma SecondOfFour(x: string, y: string, z: string)
    requires x != ""
    ensures FirstNonEmpty(["", x, y, z]) == x
  {
    assert ["", x, y, z][1..] == [x, y, z];
  }

  /** The names of the functionResponse parts, in order. */
  function ResponseNames(said: seq<Said<GPart>>): seq<string> {
    if said == [] then []
    else
      var p := said[|said| - 1].part;
      ResponseNames(said[..|said| - 1]) + if p.GResponse? then [p.name] else []
  }

  /** The name each tool message of the conversation resolves to, in order. */
  function ResultNames(ms: seq<Message>, names: map<string, string>): seq<string> {
    if ms == [] then []
    else
      var m := ms[|ms| - 1];
      ResultNames(ms[..|ms| - 1], names) + if IsToolResult(m) then [ResultName(m, names)] else []
  }

  lemma {:induction false} ResponseNamesAppend(a: seq<Said<GPart>>, b: seq<Said<GPart>>)
    ensures ResponseNames(a + b) == ResponseNames(a) + ResponseNames(b)
    decreases |b|
  {
    if b == [] {
      assert a + b == a;
    } else {
      assert (a + b)[..|a + b| - 1] == a + b[..|b| - 1];
      ResponseNamesAppend(a, b[..|b| - 1]);
    }
  }

  lemma {:induction false} NoResponses(said: seq<Said<GPart>>)
    requires forall s | s in said :: !s.part.GResponse?
    ensures ResponseNames(said) == []
  {
    if said != [] {
      NoResponses(said[..|said| - 1]);
    }
  }

  lemma {:induction false} ConvertedHasNoResponses(parts: seq<InPart>)
    ensures forall p | p in ConvertParts(parts) :: !p.GResponse?
  {
    if parts != [] {
      ConvertedHasNoResponses(parts[..|parts| - 1]);
    }
  }

  lemma {:induction false} CallsHaveNoResponses(calls: seq<ToolCall>)
    ensures forall p | p in ConvertCalls(calls) :: !p.GResponse?
  {
    if calls != [] {
      CallsHaveNoResponses(calls[..|calls| - 1]);
    }
  }

  lemma MessageResponses(m: Message, names: map<string, string>)
    ensures ResponseNames(Spoken(ConvertMessage(m, names))) == if IsToolResult(m) then [ResultName(m, names)] else []
  {
    hide FlattenText, ConvertParts, ConvertCalls, ResultName, Spoken;
    var t := ConvertMessage(m, names);
    if m.content.Multi? {
      ConvertedHasNoResponses(m.content.parts);
    }
    CallsHaveNoResponses(m.toolCalls);
    if IsToolResult(m) {
      assert Spoken(t) == [Said(User, t.parts[0])];
      assert Spoken(t)[..0] == [];
    } else {
      forall s | s in Spoken(t) ensures !s.part.GResponse? {
        assert s.part in t.parts;
      }
      NoResponses(Spoken(t));
    }
  }

  lemma {:induction false} ResponsesInOrder(ms: seq<Message>, names: map<string, string>)
    ensures ResponseNames(Flatten(ConvertAll(ms, names))) == ResultNames(ms, names)
    decreases |ms|
  {
    hide ConvertMessage, ResultName, ResponseNames, Flatten, Spoken;
    if ms == [] {
      assert ResponseNames(Flatten<GPart>([])) == [] by {
        NothingSaid();
      }
    } else {
      var front := ms[..|ms| - 1];
      var m := ms[|ms| - 1];
      ResponsesInOrder(front, names);
      if m.role != System {
        var t := ConvertMessage(m, names);
        FlattenAppend(ConvertAll(front, names), [t]);
        FlattenOne(t);
        MessageResponses(m, names);
        ResponseNamesAppend(Flatten(ConvertAll(front, names)), Spoken(t));
      }
    }
  }

  lemma NothingSaid()
    ensures ResponseNames(Flatten<GPart>([])) == []
  {
  }

  /** The translated turns hold one functionResponse for every tool message, in order, under the name it resolves to. */
  lemma EveryResultIsTranslated(ms: seq<Message>)
    ensures ResponseNames(Flatten(ConvertTurns(ms))) == ResultNames(ms, NamesById(ms))
  {
    hide ResponseNames, Flatten, NamesById, ConvertAll;
    MergeNormalises(ConvertAll(ms, NamesById(ms)));
    ResponsesInOrder(ms, NamesById(ms));
  }
}
