/** What a conversation means, read off its messages, and that both adapters send just that: every text, image, sound,
    call and result, in order and from the right side, and the system text apart. */
module Meanings {
  import opened Prelude
  import opened Chat
  import opened Turns
  import Chunks
  import A = AnthropicRequests
  import G = GeminiRequests
  import Results = AnthropicResults

  datatype Adapter = ToAnthropic(newId: nat -> string) | ToGemini

  /** Something said, whatever shape a provider gives it. */
  datatype Piece =
    | Words(text: string)
    | Media(mediaType: string, data: string)
    | Asks(id: string, name: string, arguments: string, signature: string)
    | Reports(text: string)

  // ---------- the reference ----------

  /** The texts of some parts. */
  function WordsIn(parts: seq<InPart>): seq<string> {
    if parts == [] then [] else (if parts[0].TextIn? then [parts[0].text] else []) + WordsIn(parts[1..])
  }

  /** Content read as one text: a plain text is itself, parts are joined without what is not text. */
  function Plainly(c: Content): string {
    if c.Plain? then c.text else if c.Multi? then Chunks.Concat(WordsIn(c.parts)) else ""
  }

  /** The URL is a base64 data URI of this media. */
  ghost predicate Encodes(url: string, d: MediaData) {
    url == "data:" + d.mediaType + ";base64" + "," + d.data && d.mediaType != "" && ',' !in d.mediaType
  }

  /** Texts are sent as they are and images when their URL carries the data. Only Gemini takes sound, and knows mp3 as
      mpeg. */
  ghost function PieceOf(a: Adapter, p: InPart): seq<Piece> {
    if p.TextIn? then [Words(p.text)]
    else if p.ImageIn? && p.url.Some? && exists d :: Encodes(p.url.value, d) then
      var d :| Encodes(p.url.value, d);
      [Media(d.mediaType, d.data)]
    else if p.AudioIn? && a.ToGemini? && p.data != "" then
      [Media(if p.format == "mp3" then "audio/mpeg" else "audio/" + p.format, p.data)]
    else []
  }

  ghost function PiecesOf(a: Adapter, parts: seq<InPart>): seq<Piece> {
    if parts == [] then [] else PiecesOf(a, parts[..|parts| - 1]) + PieceOf(a, parts[|parts| - 1])
  }

  ghost function Contents(a: Adapter, c: Content): seq<Piece> {
    if c.Multi? then PiecesOf(a, c.parts) else if c.Plain? && c.text != "" then [Words(c.text)] else []
  }

  /** An object is sent as it was written, another value wrapped, anything else as the empty object. */
  function ArgumentText(a: Arguments): string {
    if a.ObjectText? then a.raw else if a.OtherValue? then a.wrapped else "{}"
  }

  /** The calls without an id among these. */
  function Idless(calls: seq<ToolCall>): nat {
    if calls == [] then 0 else Idless(calls[..|calls| - 1]) + if calls[|calls| - 1].id == "" then 1 else 0
  }

  /** A call keeps its id for Anthropic, or takes the next new one; Gemini gets its signature, or a stand-in. */
  function CallPiece(a: Adapter, c: ToolCall, n: nat): Piece {
    match a
    case ToAnthropic(newId) => Asks(if c.id == "" then newId(n) else c.id, c.name, ArgumentText(c.arguments), "")
    case ToGemini =>
      Asks("", c.name, ArgumentText(c.arguments),
           if c.signature == "" then "skip_thought_signature_validator" else c.signature)
  }

  /** The calls of a message, when `n` new ids were used before it. */
  function CallPieces(a: Adapter, calls: seq<ToolCall>, n: nat): seq<Piece> {
    if calls == [] then []
    else
      var front := calls[..|calls| - 1];
      CallPieces(a, front, n) + [CallPiece(a, calls[|calls| - 1], n + Idless(front))]
  }

  /** The message is an instruction rather than part of the conversation. Gemini takes developer text for a user's. */
  predicate Instructs(a: Adapter, m: Message) { m.role == System || (a.ToAnthropic? && m.role == Developer) }

  /** Anthropic takes a result only for a call it can name: by its own id, or by a recorded call of its function. */
  ghost predicate Taken(a: Adapter, all: seq<Message>, m: Message) {
    a.ToGemini? || m.toolCallId != "" || exists j :: 0 <= j < |all| && Results.Records(all[j], m.name)
  }

  ghost function MessagePieces(a: Adapter, all: seq<Message>, m: Message, n: nat): seq<Piece> {
    match m.role
    case System => []
    case Developer => if a.ToAnthropic? then [] else Contents(a, m.content)
    case Assistant => Contents(a, m.content) + CallPieces(a, m.toolCalls, n)
    case ToolRole => if Taken(a, all, m) then [Reports(Plainly(m.content))] else []
    case FunctionRole => if Taken(a, all, m) then [Reports(Plainly(m.content))] else []
    case OtherRole => Contents(a, m.content)
  }

  /** The calls without an id that the assistant makes. */
  function IdlessIn(ms: seq<Message>): nat {
    if ms == [] then 0
    else
      var m := ms[|ms| - 1];
      IdlessIn(ms[..|ms| - 1]) + if m.role == Assistant then Idless(m.toolCalls) else 0
  }

  function SaidBy(role: Role, pieces: seq<Piece>): (r: seq<Said<Piece>>)
    ensures |r| == |pieces| && forall i | 0 <= i < |r| :: r[i] == Said(role, pieces[i])
  {
    Spoken(Turn(role, pieces))
  }

  /** What the messages of a conversation say, in order. */
  ghost function Meant(a: Adapter, all: seq<Message>, ms: seq<Message>): seq<Said<Piece>> {
    if ms == [] then []
    else
      var front, m := ms[..|ms| - 1], ms[|ms| - 1];
      Meant(a, all, front)
      + SaidBy(if m.role == Assistant then Model else User, MessagePieces(a, all, m, IdlessIn(front)))
  }

  /** The instructions, each as one text, in order. */
  function Instructions(a: Adapter, ms: seq<Message>): seq<string> {
    if ms == [] then []
    else
      var m := ms[|ms| - 1];
      Instructions(a, ms[..|ms| - 1])
      + if Instructs(a, m) && Plainly(m.content) != "" then [Plainly(m.content)] else []
  }

  // ---------- shared by both adapters ----------

  lemma {:induction false} TextIsConcat(parts: seq<InPart>)
    ensures TextOf(parts) == Chunks.Concat(WordsIn(parts))
  {
    if parts != [] {
      TextIsConcat(parts[1..]);
      if parts[0].TextIn? {
        assert WordsIn(parts)[1..] == WordsIn(parts[1..]);
      } else {
        assert [] + WordsIn(parts[1..]) == WordsIn(parts[1..]);
      }
    }
  }

  lemma FlattensPlainly(c: Content)
    ensures FlattenText(c) == Plainly(c)
  {
    if c.Multi? {
      TextIsConcat(c.parts);
    }
  }

  lemma EncodesIffSplits(url: string, d: MediaData)
    ensures Encodes(url, d) <==> SplitDataURI(url) == Some(d)
  {
    SplitDataURIInverts(url, d);
  }

  lemma OneEncoding(url: string)
    ensures SplitDataURI(url).Some? <==> exists d :: Encodes(url, d)
    ensures forall d | Encodes(url, d) :: SplitDataURI(url) == Some(d)
  {
    hide Encodes, SplitDataURI;
    forall d ensures Encodes(url, d) <==> SplitDataURI(url) == Some(d) {
      EncodesIffSplits(url, d);
    }
    if SplitDataURI(url).Some? {
      assert Encodes(url, SplitDataURI(url).value);
    }
  }

  lemma MpegOnlyForMp3(format: string)
    ensures "audio/" + format == "audio/mp3" <==> format == "mp3"
  {
    if "audio/" + format == "audio/mp3" {
      assert format == ("audio/" + format)[6..] == "audio/mp3"[6..] == "mp3";
    }
    assert "audio/" + "mp3" == "audio/mp3";
  }

  // ---------- Anthropic ----------

  function FromAnthropic(p: A.Part): Piece {
    match p.block
    case Text(text) => Words(text)
    case Image(mediaType, data) => Media(mediaType, data)
    case ToolUse(id, name, input) => Asks(id, name, input, "")
    case ToolResult(_, content) => Reports(content)
  }

  ghost predicate PartsShow(parts: seq<A.Part>, pieces: seq<Piece>) {
    |parts| == |pieces| && forall i | 0 <= i < |parts| :: FromAnthropic(parts[i]) == pieces[i]
  }

  ghost predicate Shows(said: seq<Said<A.Part>>, meant: seq<Said<Piece>>) {
    && |said| == |meant|
    && forall i | 0 <= i < |said| :: said[i].role == meant[i].role && FromAnthropic(said[i].part) == meant[i].part
  }

  lemma PartShows(a: Adapter, p: InPart)
    requires a.ToAnthropic?
    ensures PartsShow(A.ConvertPart(p), PieceOf(a, p))
  {
    hide Encodes, SplitDataURI;
    if p.ImageIn? && p.url.Some? {
      OneEncoding(p.url.value);
    }
  }

  lemma {:induction false} AllPartsShow(a: Adapter, parts: seq<InPart>)
    requires a.ToAnthropic?
    ensures PartsShow(A.ConvertParts(parts), PiecesOf(a, parts))
  {
    hide A.ConvertPart, PieceOf;
    if parts != [] {
      AllPartsShow(a, parts[..|parts| - 1]);
      PartShows(a, parts[|parts| - 1]);
    }
  }

  lemma ContentShows(a: Adapter, c: Content)
    requires a.ToAnthropic?
    ensures PartsShow(A.ConvertContent(c), Contents(a, c))
  {
    if c.Multi? {
      AllPartsShow(a, c.parts);
    }
  }

  lemma {:induction false} CallsShow(a: Adapter, calls: seq<ToolCall>, n: nat)
    requires a.ToAnthropic?
    ensures PartsShow(A.ConvertCalls(calls, a.newId, n).0, CallPieces(a, calls, n))
    ensures A.ConvertCalls(calls, a.newId, n).1 == n + Idless(calls)
  {
    if calls != [] {
      CallsShow(a, calls[..|calls| - 1], n);
    }
  }

  lemma {:induction false} ResultIsTaken(a: Adapter, ms: seq<Message>, i: nat)
    requires a.ToAnthropic? && i < |ms|
    ensures A.ResultId(ms[i], A.IdsByName(ms)) != "" <==> Taken(a, ms, ms[i])
  {
    hide A.IdsByName, Results.Records, Results.LastCall;
    if ms[i].toolCallId == "" {
      Results.IdOfNamedResult(ms, i);
    }
  }

  lemma MessageShows(a: Adapter, ms: seq<Message>, i: nat, n: nat)
    requires a.ToAnthropic? && i < |ms| && !A.IsSystem(ms[i])
    ensures var (t, k) := A.ConvertMessage(ms[i], A.IdsByName(ms), a.newId, n);
            && PartsShow(t.parts, MessagePieces(a, ms, ms[i], n))
            && t.role == (if ms[i].role == Assistant then Model else User)
            && k == n + if ms[i].role == Assistant then Idless(ms[i].toolCalls) else 0
  {
    hide A.IdsByName, A.ResultId, Taken, FlattenText, Plainly, A.ConvertContent, Contents, A.ConvertCalls, CallPieces;
    var m := ms[i];
    ContentShows(a, m.content);
    CallsShow(a, m.toolCalls, n);
    ResultIsTaken(a, ms, i);
    FlattensPlainly(m.content);
  }

  lemma SpokenShows(t: Turn<A.Part>, pieces: seq<Piece>)
    requires PartsShow(t.parts, pieces)
    ensures Shows(Spoken(t), SaidBy(t.role, pieces))
  {
    hide FromAnthropic;
  }

  lemma ShowsAppend(a: seq<Said<A.Part>>, b: seq<Said<A.Part>>, c: seq<Said<Piece>>, d: seq<Said<Piece>>)
    requires Shows(a, c) && Shows(b, d)
    ensures Shows(a + b, c + d)
  {
    hide FromAnthropic;
  }

  lemma {:induction false} ConversationShows(a: Adapter, all: seq<Message>, n: nat)
    requires a.ToAnthropic? && n <= |all|
    ensures var (ts, k) := A.ConvertAll(all[..n], A.IdsByName(all), a.newId);
            Shows(Flatten(ts), Meant(a, all, all[..n])) && k == IdlessIn(all[..n])
  {
    hide A.ConvertMessage, A.IdsByName, MessagePieces, Shows, Flatten, Idless;
    var ms := all[..n];
    if n == 0 {
      NothingShown();
    } else {
      var m := all[n - 1];
      assert ms[..n - 1] == all[..n - 1];
      ConversationShows(a, all, n - 1);
      var (before, k) := A.ConvertAll(ms[..n - 1], A.IdsByName(all), a.newId);
      var said, meant := Flatten(before), Meant(a, all, ms[..n - 1]);
      if A.IsSystem(m) {
        SystemSaysNothing(a, all, m, IdlessIn(ms[..n - 1]));
        assert meant + [] == meant;
      } else {
        MessageShows(a, all, n - 1, k);
        var t := A.ConvertMessage(m, A.IdsByName(all), a.newId, k).0;
        FlattenAppend(before, [t]);
        FlattenOne(t);
        var pieces := MessagePieces(a, all, m, k);
        SpokenShows(t, pieces);
        ShowsAppend(said, Spoken(t), meant, SaidBy(t.role, pieces));
      }
    }
  }

  lemma NothingShown()
    ensures Shows(Flatten<A.Part>([]), [])
  {
  }

  lemma SystemSaysNothing(a: Adapter, all: seq<Message>, m: Message, n: nat)
    requires a.ToAnthropic? && A.IsSystem(m)
    ensures MessagePieces(a, all, m, n) == [] && SaidBy(User, MessagePieces(a, all, m, n)) == []
    ensures m.role != Assistant
  {
  }

  ghost predicate InstructsWith(system: seq<A.Part>, texts: seq<string>) {
    |system| == |texts| && forall i | 0 <= i < |system| :: system[i] == A.Part(A.Text(texts[i]), false)
  }

  lemma {:induction false} SystemShows(a: Adapter, ms: seq<Message>)
    requires a.ToAnthropic?
    ensures InstructsWith(A.SystemOf(ms), Instructions(a, ms))
  {
    hide FlattenText, Plainly;
    if ms != [] {
      SystemShows(a, ms[..|ms| - 1]);
      FlattensPlainly(ms[|ms| - 1].content);
    }
  }

  /** The Anthropic request says what the conversation means, piece by piece and from the right side, and instructs with
      the system and developer texts. */
  lemma AnthropicSaysWhatIsMeant(ms: seq<Message>, newId: nat -> string)
    ensures Shows(Flatten(A.ConvertTurns(ms, newId)), Meant(ToAnthropic(newId), ms, ms))
    ensures InstructsWith(A.SystemOf(ms), Instructions(ToAnthropic(newId), ms))
  {
    hide A.ConvertAll, A.IdsByName, Shows, Meant, Flatten, Merge, Alternating, InstructsWith;
    var a := ToAnthropic(newId);
    assert ms[..|ms|] == ms;
    ConversationShows(a, ms, |ms|);
    MergeNormalises(A.ConvertAll(ms, A.IdsByName(ms), newId).0);
    SystemShows(a, ms);
  }

  // ---------- Gemini ----------

  function FromGemini(p: G.GPart): Piece {
    match p
    case GText(text) => Words(text)
    case GInline(mimeType, data) => Media(mimeType, data)
    case GCall(name, args, signature) => Asks("", name, args, signature)
    case GResponse(_, response) => Reports(response)
  }

  ghost predicate GPartsShow(parts: seq<G.GPart>, pieces: seq<Piece>) {
    |parts| == |pieces| && forall i | 0 <= i < |parts| :: FromGemini(parts[i]) == pieces[i]
  }

  ghost predicate GShows(said: seq<Said<G.GPart>>, meant: seq<Said<Piece>>) {
    && |said| == |meant|
    && forall i | 0 <= i < |said| :: said[i].role == meant[i].role && FromGemini(said[i].part) == meant[i].part
  }

  lemma GPartShows(p: InPart)
    ensures GPartsShow(G.ConvertPart(p), PieceOf(ToGemini, p))
  {
    hide Encodes, SplitDataURI;
    if p.ImageIn? && p.url.Some? {
      OneEncoding(p.url.value);
    }
    if p.AudioIn? {
      MpegOnlyForMp3(p.format);
    }
  }

  lemma {:induction false} AllGPartsShow(parts: seq<InPart>)
    ensures GPartsShow(G.ConvertParts(parts), PiecesOf(ToGemini, parts))
  {
    hide G.ConvertPart, PieceOf;
    if parts != [] {
      AllGPartsShow(parts[..|parts| - 1]);
      GPartShows(parts[|parts| - 1]);
    }
  }

  lemma GContentShows(c: Content)
    ensures GPartsShow(G.ConvertContent(c), Contents(ToGemini, c))
  {
    if c.Multi? {
      AllGPartsShow(c.parts);
    }
  }

  lemma {:induction false} GCallsShow(calls: seq<ToolCall>, n: nat)
    ensures GPartsShow(G.ConvertCalls(calls), CallPieces(ToGemini, calls, n))
  {
    if calls != [] {
      GCallsShow(calls[..|calls| - 1], n);
    }
  }

  lemma GMessageShows(all: seq<Message>, m: Message, names: map<string, string>, n: nat)
    requires m.role != System
    ensures var t := G.ConvertMessage(m, names);
            && GPartsShow(t.parts, MessagePieces(ToGemini, all, m, n))
            && t.role == if m.role == Assistant then Model else User
  {
    hide G.ResultName, FlattenText, Plainly, G.ConvertContent, Contents, G.ConvertCalls, CallPieces;
    GContentShows(m.content);
    GCallsShow(m.toolCalls, n);
    FlattensPlainly(m.content);
  }

  lemma GSpokenShows(t: Turn<G.GPart>, pieces: seq<Piece>)
    requires GPartsShow(t.parts, pieces)
    ensures GShows(Spoken(t), SaidBy(t.role, pieces))
  {
    hide FromGemini;
  }

  lemma GShowsAppend(a: seq<Said<G.GPart>>, b: seq<Said<G.GPart>>, c: seq<Said<Piece>>, d: seq<Said<Piece>>)
    requires GShows(a, c) && GShows(b, d)
    ensures GShows(a + b, c + d)
  {
    hide FromGemini;
  }

  lemma {:induction false} GConversationShows(all: seq<Message>, n: nat)
    requires n <= |all|
    ensures GShows(Flatten(G.ConvertAll(all[..n], G.NamesById(all))), Meant(ToGemini, all, all[..n]))
  {
    hide G.ConvertMessage, G.NamesById, MessagePieces, GShows, Flatten, IdlessIn;
    var ms := all[..n];
    if n == 0 {
      NothingGShown();
    } else {
      var m, names := all[n - 1], G.NamesById(all);
      assert ms[..n - 1] == all[..n - 1];
      GConversationShows(all, n - 1);
      var before, meant := G.ConvertAll(ms[..n - 1], names), Meant(ToGemini, all, ms[..n - 1]);
      if m.role == System {
        GSystemSaysNothing(all, m, IdlessIn(ms[..n - 1]));
        assert meant + [] == meant;
      } else {
        var t, pieces := G.ConvertMessage(m, names), MessagePieces(ToGemini, all, m, IdlessIn(ms[..n - 1]));
        GMessageShows(all, m, names, IdlessIn(ms[..n - 1]));
        FlattenAppend(before, [t]);
        FlattenOne(t);
        GSpokenShows(t, pieces);
        GShowsAppend(Flatten(before), Spoken(t), meant, SaidBy(t.role, pieces));
      }
    }
  }

  lemma NothingGShown()
    ensures GShows(Flatten<G.GPart>([]), [])
  {
  }

  lemma GSystemSaysNothing(all: seq<Message>, m: Message, n: nat)
    requires m.role == System
    ensures SaidBy(User, MessagePieces(ToGemini, all, m, n)) == []
  {
  }

  ghost predicate GInstructsWith(system: seq<G.GPart>, texts: seq<string>) {
    |system| == |texts| && forall i | 0 <= i < |system| :: system[i] == G.GText(texts[i])
  }

  lemma {:induction false} GSystemShows(ms: seq<Message>)
    ensures GInstructsWith(G.SystemOf(ms), Instructions(ToGemini, ms))
  {
    hide FlattenText, Plainly;
    if ms != [] {
      GSystemShows(ms[..|ms| - 1]);
      FlattensPlainly(ms[|ms| - 1].content);
    }
  }

  /** The Gemini request says what the conversation means, developer text among it, and instructs with the system texts
      alone. */
  lemma GeminiSaysWhatIsMeant(ms: seq<Message>)
    ensures GShows(Flatten(G.ConvertTurns(ms)), Meant(ToGemini, ms, ms))
    ensures GInstructsWith(G.SystemOf(ms), Instructions(ToGemini, ms))
  {
    hide G.ConvertAll, G.NamesById, GShows, Meant, Flatten, Merge, Alternating, GInstructsWith;
    assert ms[..|ms|] == ms;
    GConversationShows(ms, |ms|);
    MergeNormalises(G.ConvertAll(ms, G.NamesById(ms)));
    GSystemShows(ms);
  }

  /** A result is sent to Gemini under its own name, else under that of its call, else under its id, else under a
      stand-in. */
  lemma ResultNameIs(m: Message, names: map<string, string>)
    ensures var called := if m.toolCallId in names then names[m.toolCallId] else "";
            G.ResultName(m, names) == if m.name != "" then m.name
                                      else if called != "" then called
                                      else if m.toolCallId != "" then m.toolCallId else "function"
  {
    var called := Lookup(names, m.toolCallId);
    var all := [m.name, called, m.toolCallId, "function"];
    assert all[1..] == [called, m.toolCallId, "function"] && all[1..][1..] == [m.toolCallId, "function"];
    assert all[1..][1..][1..] == ["function"];
    assert FirstNonEmpty(["function"]) == "function";
    assert FirstNonEmpty(all[1..][1..]) == if m.toolCallId != "" then m.toolCallId else "function";
    assert FirstNonEmpty(all[1..]) == if called != "" then called else FirstNonEmpty(all[1..][1..]);
  }
}
