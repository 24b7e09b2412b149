/** Decoded OpenAI chat messages, the starting point of both request translations. */
module Chat {
  import opened Prelude

  datatype ChatRole = System | Developer | Assistant | ToolRole | FunctionRole | OtherRole

  datatype InPart =
    | TextIn(text: string)
    | ImageIn(url: Option<string>)
    | AudioIn(format: string, data: string)
    | UnknownIn

  /** `Null` also stands for an absent field. */
  datatype Content = Null | Plain(text: string) | Multi(parts: seq<InPart>) | Unreadable

  /** The argument string of a tool call, as far as its JSON decides what is forwarded. */
  datatype Arguments = NoArguments | ObjectText(raw: string) | NullText | OtherValue(wrapped: string) | NotJson

  datatype ToolCall = ToolCall(id: string, name: string, arguments: Arguments, signature: string)

  datatype Message = Message(role: ChatRole, content: Content, toolCalls: seq<ToolCall>, toolCallId: string,
                             name: string)

  /** A message that answers a tool call. */
  predicate IsToolResult(m: Message) { m.role == ToolRole || m.role == FunctionRole }

  /** A table entry, or the empty string. */
  function Lookup(m: map<string, string>, k: string): string { if k in m then m[k] else "" }

  function TextOf(parts: seq<InPart>): string {
    if parts == [] then "" else (if parts[0].TextIn? then parts[0].text else "") + TextOf(parts[1..])
  }

  /** Content as plain text (anthropic.go:488-505). */
  function FlattenText(c: Content): string {
    match c
    case Plain(s) => s
    case Multi(parts) => TextOf(parts)
    case Null | Unreadable => ""
  }

  /** The JSON object a tool call is forwarded with (gemini.go:464-485). */
  function ToolArguments(a: Arguments): (r: string)
    ensures r != ""  || (a.ObjectText? && a.raw == "") || (a.OtherValue? && a.wrapped == "")
  {
    match a
    case ObjectText(raw) => raw
    case OtherValue(wrapped) => wrapped
    case NoArguments | NullText | NotJson => "{}"
  }

  // ---------- data URIs ----------

  const DATA := "data:"
  const BASE64 := ";base64"

  function IndexOfChar(s: string, c: char): (r: Option<nat>)
    ensures match r case None => c !in s case Some(i) => i < |s| && s[i] == c && c !in s[..i]
  {
    if s == [] then None
    else if s[0] == c then Some(0)
    else match IndexOfChar(s[1..], c) case None => None case Some(i) => Some(i + 1)
  }

  predicate HasSuffix(s: string, suffix: string) { |suffix| <= |s| && s[|s| - |suffix|..] == suffix }

  datatype MediaData = MediaData(mediaType: string, data: string)

  /** Parses a base64 data URI into its media type and payload. */
  function SplitDataURI(uri: string): Option<MediaData> {
    if !(DATA <= uri) then None
    else
      var rest := uri[|DATA|..];
      match IndexOfChar(rest, ',')
      case None => None
      case Some(comma) =>
        var meta := rest[..comma];
        if !HasSuffix(meta, BASE64) then None
        else
          var mediaType := meta[..|meta| - |BASE64|];
          if mediaType == "" then None else Some(MediaData(mediaType, rest[comma + 1..]))
  }

  function DataURI(m: MediaData): string { DATA + m.mediaType + BASE64 + "," + m.data }

  lemma FirstComma(meta: string, payload: string)
    requires ',' !in meta
    ensures IndexOfChar(meta + "," + payload, ',') == Some(|meta|)
  {
    var s := meta + "," + payload;
    assert s[|meta|] == ',';
    var i := IndexOfChar(s, ',').value;
    assert forall j | 0 <= j < |meta| :: s[j] == meta[j];
    assert forall j | 0 <= j < i :: s[j] == s[..i][j];
  }

  lemma AssembledSplits(m: MediaData)
    requires m.mediaType != "" && ',' !in m.mediaType
    ensures SplitDataURI(DataURI(m)) == Some(m)
  {
    var uri := DataURI(m);
    var meta := m.mediaType + BASE64;
    assert uri == DATA + (meta + "," + m.data);
    assert uri[|DATA|..] == meta + "," + m.data;
    FirstComma(meta, m.data);
    assert (meta + "," + m.data)[..|meta|] == meta;
    assert (meta + "," + m.data)[|meta| + 1..] == m.data;
    assert meta[|meta| - |BASE64|..] == BASE64;
    assert meta[..|meta| - |BASE64|] == m.mediaType;
  }

  lemma Regroup(a: string, b: string, c: string, d: string, e: string)
    ensures a + ((b + c) + d + e) == a + b + c + d + e
  {
  }

  lemma SplitWasAssembled(uri: string, m: MediaData)
    requires SplitDataURI(uri) == Some(m)
    ensures uri == DataURI(m) && m.mediaType != "" && ',' !in m.mediaType
  {
    var rest := uri[|DATA|..];
    var comma := IndexOfChar(rest, ',').value;
    var meta := rest[..comma];
    assert meta == m.mediaType + BASE64 by { assert meta == meta[..|meta| - |BASE64|] + meta[|meta| - |BASE64|..]; }
    assert rest == meta + [rest[comma]] + m.data;
    assert uri == uri[..|DATA|] + rest;
    Regroup(DATA, m.mediaType, BASE64, ",", m.data);
    assert forall c | c in m.mediaType :: c in meta;
  }

  /** A URI splits exactly when it was put together from a non-empty media type without commas and a payload, and it
      splits into just those two. */
  lemma SplitDataURIInverts(uri: string, m: MediaData)
    ensures SplitDataURI(uri) == Some(m) <==> uri == DataURI(m) && m.mediaType != "" && ',' !in m.mediaType
  {
    hide SplitDataURI, DataURI;
    if uri == DataURI(m) && m.mediaType != "" && ',' !in m.mediaType {
      AssembledSplits(m);
    }
    if SplitDataURI(uri) == Some(m) {
      SplitWasAssembled(uri, m);
    }
  }
}
