/** Which media a chat request carries (providers.go:334-387), the input of the media gate. */
module Media {
  import opened Prelude
  import opened Chat
  import opened Turns
  import opened GeminiRequests
  import A = AnthropicRequests
  import Laws = AnthropicRequestLaws
  import Estimates

  const VIDEO := "video/"

  /** A video data URI travels on an image part; case is folded for ASCII letters. */
  predicate IsVideo(p: InPart) {
    p.ImageIn? && p.url.Some? && SplitDataURI(p.url.value).Some?
    && VIDEO <= Estimates.FoldAll(SplitDataURI(p.url.value).value.mediaType)
  }

  predicate IsImage(p: InPart) { p.ImageIn? && !IsVideo(p) }

  predicate IsAudio(p: InPart) { p.AudioIn? && p.data != "" }

  function PartsOf(m: Message): seq<InPart> {
    match m.content
    case Multi(parts) => parts
    case Null | Plain(_) | Unreadable => []
  }

  function AllParts(ms: seq<Message>): seq<InPart> {
    if ms == [] then [] else AllParts(ms[..|ms| - 1]) + PartsOf(ms[|ms| - 1])
  }

  ghost predicate HasImage(parts: seq<InPart>) { exists p :: p in parts && IsImage(p) }

  ghost predicate HasAudio(parts: seq<InPart>) { exists p :: p in parts && IsAudio(p) }

  ghost predicate HasVideo(parts: seq<InPart>) { exists p :: p in parts && IsVideo(p) }

  lemma HasAppend(a: seq<InPart>, b: seq<InPart>)
    ensures HasImage(a + b) <==> HasImage(a) || HasImage(b)
    ensures HasAudio(a + b) <==> HasAudio(a) || HasAudio(b)
    ensures HasVideo(a + b) <==> HasVideo(a) || HasVideo(b)
  {
    hide IsImage, IsAudio, IsVideo;
  }

  lemma HasOne(p: InPart)
    ensures HasImage([p]) == IsImage(p) && HasAudio([p]) == IsAudio(p) && HasVideo([p]) == IsVideo(p)
  {
    hide IsImage, IsAudio, IsVideo;
    assert p in [p];
  }

  /** The inner loop, over the parts of one message. */
  method ScanParts(parts: seq<InPart>) returns (image: bool, audio: bool, video: bool)
    ensures image == HasImage(parts) && audio == HasAudio(parts) && video == HasVideo(parts)
  {
    hide IsVideo, HasImage, HasAudio, HasVideo;
    image, audio, video := false, false, false;
    HasNone();
    for j := 0 to |parts|
      invariant image == HasImage(parts[..j]) && audio == HasAudio(parts[..j]) && video == HasVideo(parts[..j])
    {
      var p := parts[j];
      assert parts[..j + 1] == parts[..j] + [p];
      HasAppend(parts[..j], [p]);
      HasOne(p);
      match p {
        case ImageIn(_) =>
          if IsVideo(p) {
            video := true;
            continue;
          }
          image := true;
        case AudioIn(_, data) =>
          if data != "" {
            audio := true;
          }
        case TextIn(_) =>
        case UnknownIn =>
      }
      NeverVideo(p);
    }
    assert parts[..|parts|] == parts;
  }

  lemma HasNone()
    ensures !HasImage([]) && !HasAudio([]) && !HasVideo([])
  {
  }

  lemma NeverVideo(p: InPart)
    ensures !p.ImageIn? ==> !IsVideo(p)
  {
  }

  method HasMediaInput(ms: seq<Message>) returns (image: bool, audio: bool, video: bool)
    ensures image <==> exists p :: p in AllParts(ms) && IsImage(p)
    ensures audio <==> exists p :: p in AllParts(ms) && IsAudio(p)
    ensures video <==> exists p :: p in AllParts(ms) && IsVideo(p)
  {
    hide IsImage, IsAudio, IsVideo;
    image, audio, video := false, false, false;
    for i := 0 to |ms|
      invariant image == HasImage(AllParts(ms[..i]))
      invariant audio == HasAudio(AllParts(ms[..i]))
      invariant video == HasVideo(AllParts(ms[..i]))
    {
      assert ms[..i + 1][..i] == ms[..i];
      var found, heard, seen := ScanParts(PartsOf(ms[i]));
      HasAppend(AllParts(ms[..i]), PartsOf(ms[i]));
      image, audio, video := image || found, audio || heard, video || seen;
    }
    assert ms[..|ms|] == ms;
  }

  predicate IsMedia(p: InPart) { IsImage(p) || IsAudio(p) || IsVideo(p) }

  lemma {:induction false} InlineComesFromMedia(parts: seq<InPart>, g: GPart)
    requires g.GInline? && g in ConvertParts(parts)
    ensures exists p :: p in parts && IsMedia(p)
    decreases |parts|
  {
    hide IsVideo, SplitDataURI;
    var n := |parts| - 1;
    if g in ConvertParts(parts[..n]) {
      InlineComesFromMedia(parts[..n], g);
    } else {
      assert parts[n] in parts && IsMedia(parts[n]);
    }
  }

  lemma {:induction false} CallsAreNotInline(calls: seq<ToolCall>, g: GPart)
    requires g in ConvertCalls(calls)
    ensures !g.GInline?
    decreases |calls|
  {
    if g in ConvertCalls(calls[..|calls| - 1]) {
      CallsAreNotInline(calls[..|calls| - 1], g);
    }
  }

  lemma MessageInlineComesFromMedia(m: Message, names: map<string, string>, g: GPart)
    requires g.GInline? && g in ConvertMessage(m, names).parts
    ensures exists p :: p in PartsOf(m) && IsMedia(p)
  {
    hide IsMedia, ResultName, FlattenText;
    if g in ConvertContent(m.content) {
      InlineComesFromMedia(PartsOf(m), g);
    } else {
      CallsAreNotInline(m.toolCalls, g);
    }
  }

  lemma {:induction false} InlineInTurns(ms: seq<Message>, names: map<string, string>, s: Said<GPart>)
    requires s.part.GInline? && s in Flatten(ConvertAll(ms, names))
    ensures exists p :: p in AllParts(ms) && IsMedia(p)
    decreases |ms|
  {
    hide ConvertMessage, IsMedia, Flatten;
    if ms == [] {
      assert Flatten<GPart>([]) == [] by { NothingSaid(); }
    } else {
      var n := |ms| - 1;
      var before, t := ConvertAll(ms[..n], names), ConvertMessage(ms[n], names);
      FlattenAppend(before, [t]);
      FlattenOne(t);
      if s in Flatten(before) {
        InlineInTurns(ms[..n], names, s);
      } else {
        assert s in Spoken(t);
        MessageInlineComesFromMedia(ms[n], names, s.part);
      }
    }
  }

  lemma NothingSaid()
    ensures Flatten<GPart>([]) == []
  {
  }

  lemma {:induction false} ImageComesFromMedia(parts: seq<InPart>, g: A.Part)
    requires g.block.Image? && g in A.ConvertParts(parts)
    ensures exists p :: p in parts && IsMedia(p)
    decreases |parts|
  {
    hide IsVideo, SplitDataURI;
    var n := |parts| - 1;
    if g in A.ConvertParts(parts[..n]) {
      ImageComesFromMedia(parts[..n], g);
    } else {
      assert parts[n] in parts && IsMedia(parts[n]);
    }
  }

  lemma MessageImageComesFromMedia(m: Message, ids: map<string, string>, newId: nat -> string, n: nat, g: A.Part)
    requires g.block.Image? && g in A.ConvertMessage(m, ids, newId, n).0.parts
    ensures exists p :: p in PartsOf(m) && IsMedia(p)
  {
    hide IsMedia, A.ResultId, FlattenText, A.ConvertCalls;
    Laws.CallsBecomeUses(m.toolCalls, newId, n);
    if g in A.ConvertContent(m.content) {
      ImageComesFromMedia(PartsOf(m), g);
    }
  }

  lemma {:induction false} ImageInTurns(ms: seq<Message>, ids: map<string, string>, newId: nat -> string,
                                        s: Said<A.Part>)
    requires s.part.block.Image? && s in Flatten(A.ConvertAll(ms, ids, newId).0)
    ensures exists p :: p in AllParts(ms) && IsMedia(p)
    decreases |ms|
  {
    hide A.ConvertMessage, IsMedia, Flatten;
    if ms == [] {
      NothingSaidToAnthropic();
    } else {
      var n := |ms| - 1;
      var (before, k) := A.ConvertAll(ms[..n], ids, newId);
      if A.IsSystem(ms[n]) {
        ImageInTurns(ms[..n], ids, newId, s);
      } else {
        var t := A.ConvertMessage(ms[n], ids, newId, k).0;
        FlattenAppend(before, [t]);
        FlattenOne(t);
        if s in Flatten(before) {
          ImageInTurns(ms[..n], ids, newId, s);
        } else {
          assert s in Spoken(t);
          MessageImageComesFromMedia(ms[n], ids, newId, k, s.part);
        }
      }
    }
  }

  lemma NothingSaidToAnthropic()
    ensures Flatten<A.Part>([]) == []
  {
  }

  /** The media gate sees whatever the translations would forward: of a request reported free of media neither sends
      inline data or an image upstream. */
  lemma UngatedRequestsCarryNoMedia(ms: seq<Message>, newId: nat -> string)
    requires forall p | p in AllParts(ms) :: !IsImage(p) && !IsAudio(p) && !IsVideo(p)
    ensures forall s | s in Flatten(ConvertTurns(ms)) :: !s.part.GInline?
    ensures forall s | s in Flatten(A.ConvertTurns(ms, newId)) :: !s.part.block.Image?
  {
    hide IsImage, IsAudio, IsVideo, Flatten;
    MergeNormalises(ConvertAll(ms, NamesById(ms)));
    forall s | s in Flatten(ConvertTurns(ms)) ensures !s.part.GInline? {
      if s.part.GInline? {
        InlineInTurns(ms, NamesById(ms), s);
      }
    }
    MergeNormalises(A.ConvertAll(ms, A.IdsByName(ms), newId).0);
    forall s | s in Flatten(A.ConvertTurns(ms, newId)) ensures !s.part.block.Image? {
      if s.part.block.Image? {
        ImageInTurns(ms, A.IdsByName(ms), newId, s);
      }
    }
  }

  // ---------- the kinds in the fields of a part ----------

  /** The URL is a base64 data URI of this media. */
  ghost predicate Carries(p: InPart, d: MediaData) {
    && p.ImageIn? && d.mediaType != "" && ',' !in d.mediaType
    && p.url == Some("data:" + d.mediaType + ";base64" + "," + d.data)
  }

  /** The media type begins with `video/`, in small or capital letters. */
  ghost predicate SaysVideo(mediaType: string) {
    && |mediaType| >= 6
    && forall i | 0 <= i < 6 :: Estimates.Fold(mediaType[i]) == "video/"[i]
  }

  /** A video is an image part that carries video data; every other image part is an image; a sound part with data is a
      sound. */
  lemma KindsOfParts(p: InPart)
    ensures IsVideo(p) <==> exists d :: Carries(p, d) && SaysVideo(d.mediaType)
    ensures IsImage(p) <==> p.ImageIn? && !exists d :: Carries(p, d) && SaysVideo(d.mediaType)
    ensures IsAudio(p) <==> p.AudioIn? && p.data != ""
  {
    hide SaysVideo, SplitDataURI;
    if p.ImageIn? && p.url.Some? {
      forall d ensures Carries(p, d) <==> SplitDataURI(p.url.value) == Some(d) {
        SplitDataURIInverts(p.url.value, d);
      }
      if SplitDataURI(p.url.value).Some? {
        var d := SplitDataURI(p.url.value).value;
        assert Carries(p, d);
        BeginsWithVideo(d.mediaType);
      }
    }
  }

  lemma BeginsWithVideo(mediaType: string)
    ensures VIDEO <= Estimates.FoldAll(mediaType) <==> SaysVideo(mediaType)
  {
    var folded := Estimates.FoldAll(mediaType);
    if SaysVideo(mediaType) {
      assert folded[..6] == VIDEO;
    }
    if VIDEO <= folded {
      assert forall i | 0 <= i < 6 :: folded[i] == VIDEO[i];
    }
  }
}
