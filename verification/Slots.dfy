/** Provider slots of a model, and the filters a request passes before the walk: operation kind, media, context. */
module Slots {
  import opened Prelude
  import Cells

  datatype Kind = KindChat | KindEmbeddings | KindTTS | KindSTT

  datatype Route = RouteChat | RouteEmbeddings | RouteSTT | RouteTTS

  /** One model on one provider slot. The order of the entries is the declared priority. */
  datatype Slot = Slot(
    model: string, kind: Kind, provider: string,
    ctx: Option<int>, ctxOverride: Option<int>,
    retries: Option<int>, attemptBudget: Option<int>,
    limits: Cells.Limits,
    images: bool, audio: bool, video: bool)

  datatype Media = Media(image: bool, audio: bool, video: bool)

  function KindOf(route: Route): Kind {
    match route
    case RouteEmbeddings => KindEmbeddings
    case RouteSTT => KindSTT
    case RouteTTS => KindTTS
    case RouteChat => KindChat
  }

  /** The provider's context budget wins over the model's, whichever is larger. */
  function EffectiveCtx(s: Slot): Option<int> {
    if s.ctxOverride.Some? then s.ctxOverride else s.ctx
  }

  predicate Serves(s: Slot, model: string, route: Route) { s.model == model && s.kind == KindOf(route) }

  predicate Accepts(s: Slot, m: Media) { (m.image ==> s.images) && (m.audio ==> s.audio) && (m.video ==> s.video) }

  predicate HasRoom(s: Slot, estimate: int) { EffectiveCtx(s).Some? ==> estimate <= EffectiveCtx(s).value }

  predicate NoMedia(m: Media) { !m.image && !m.audio && !m.video }

  /** The entries that satisfy `p`, in their order. */
  function Keep(slots: seq<Slot>, p: Slot -> bool): seq<Slot> {
    if slots == [] then []
    else
      var before := Keep(slots[..|slots| - 1], p);
      if p(slots[|slots| - 1]) then before + [slots[|slots| - 1]] else before
  }

  /** `at` lists, in increasing order, the positions in `slots` of the entries of `out`. */
  ghost predicate PickedAt(slots: seq<Slot>, out: seq<Slot>, at: seq<nat>) {
    && |at| == |out|
    && (forall i | 0 <= i < |at| :: at[i] < |slots| && out[i] == slots[at[i]])
    && (forall i, j | 0 <= i < j < |at| :: at[i] < at[j])
  }

  lemma PickedOneMore(slots: seq<Slot>, out: seq<Slot>, at: seq<nat>)
    requires slots != [] && PickedAt(slots[..|slots| - 1], out, at)
    ensures PickedAt(slots, out, at)
    ensures PickedAt(slots, out + [slots[|slots| - 1]], at + [|slots| - 1])
    ensures |slots| - 1 !in at
  {
  }

  /** `Keep` returns exactly the satisfying entries, each once and in declared order. */
  lemma {:induction false} KeepIsOrdered(slots: seq<Slot>, p: Slot -> bool) returns (at: seq<nat>)
    ensures PickedAt(slots, Keep(slots, p), at)
    ensures forall k: nat | k < |slots| :: k in at <==> p(slots[k])
    decreases |slots|
  {
    hide PickedAt;
    if slots == [] {
      at := [];
      NothingPicked();
    } else {
      var n: nat := |slots| - 1;
      var before := KeepIsOrdered(slots[..n], p);
      PickedOneMore(slots, Keep(slots[..n], p), before);
      at := if p(slots[n]) then before + [n] else before;
      forall k: nat | k < |slots| ensures k in at <==> p(slots[k]) {
        assert k in before + [n] <==> k in before || k == n;
        if k < n {
          assert slots[..n][k] == slots[k];
        }
      }
    }
  }

  lemma {:induction false} KeepNothingIff(slots: seq<Slot>, p: Slot -> bool)
    ensures Keep(slots, p) == [] <==> forall s | s in slots :: !p(s)
    decreases |slots|
  {
    if slots != [] {
      var front, last := slots[..|slots| - 1], slots[|slots| - 1];
      KeepNothingIff(front, p);
      assert slots == front + [last];
    }
  }

  lemma NothingPicked()
    ensures PickedAt([], [], [])
  {
  }

  method KindSlots(list: seq<Slot>, model: string, route: Route) returns (out: seq<Slot>)
    ensures out == Keep(list, s => Serves(s, model, route))
  {
    out := [];
    for i := 0 to |list|
      invariant out == Keep(list[..i], s => Serves(s, model, route))
    {
      assert list[..i + 1][..i] == list[..i];
      if list[i].model == model && KindOf(route) == list[i].kind {
        out := out + [list[i]];
      }
    }
    assert list[..|list|] == list;
  }

  datatype Gate = Passed(slots: seq<Slot>) | Missing(image: bool, audio: bool, video: bool) | NoCombination

  /** A refusal of the media gate: no slot accepts the media of the request, and the refusal names exactly the kinds no
      slot accepts at all, or says that each kind is accepted by some slot but none accepts them together. */
  ghost predicate Refuses(slots: seq<Slot>, m: Media, g: Gate) {
    && (forall s | s in slots :: !Accepts(s, m))
    && match g
       case Passed(_) => false
       case Missing(image, audio, video) =>
         && (image <==> m.image && forall s | s in slots :: !s.images)
         && (audio <==> m.audio && forall s | s in slots :: !s.audio)
         && (video <==> m.video && forall s | s in slots :: !s.video)
         && (image || audio || video)
       case NoCombination =>
         && (m.image ==> exists s :: s in slots && s.images)
         && (m.audio ==> exists s :: s in slots && s.audio)
         && (m.video ==> exists s :: s in slots && s.video)
  }

  /** Keeps the slots that accept all the media of a chat request. When none does, it names the kinds that no slot
      accepts at all, or says that no single slot accepts their combination. */
  method MediaSlots(slots: seq<Slot>, route: Route, m: Media) returns (g: Gate)
    ensures route != RouteChat || NoMedia(m) ==> g == Passed(slots)
    ensures g.Passed? && route == RouteChat && !NoMedia(m) ==>
              g.slots == Keep(slots, s => Accepts(s, m)) && g.slots != []
    ensures !g.Passed? ==> route == RouteChat && !NoMedia(m) && Refuses(slots, m, g)
  {
    if route != RouteChat || NoMedia(m) {
      return Passed(slots);
    }
    var out: seq<Slot> := [];
    var imageOK, audioOK, videoOK := false, false, false;
    for i := 0 to |slots|
      invariant out == Keep(slots[..i], s => Accepts(s, m))
      invariant out == [] ==> forall s | s in slots[..i] :: !Accepts(s, m)
      invariant imageOK <==> exists s :: s in slots[..i] && s.images
      invariant audioOK <==> exists s :: s in slots[..i] && s.audio
      invariant videoOK <==> exists s :: s in slots[..i] && s.video
    {
      assert slots[..i + 1] == slots[..i] + [slots[i]];
      assert slots[..i + 1][..i] == slots[..i];
      imageOK := imageOK || slots[i].images;
      audioOK := audioOK || slots[i].audio;
      videoOK := videoOK || slots[i].video;
      if (!m.image || slots[i].images) && (!m.audio || slots[i].audio) && (!m.video || slots[i].video) {
        out := out + [slots[i]];
      }
    }
    assert slots[..|slots|] == slots;
    if out != [] {
      return Passed(out);
    }
    var image, audio, video := m.image && !imageOK, m.audio && !audioOK, m.video && !videoOK;
    g := if image || audio || video then Missing(image, audio, video) else NoCombination;
  }

  /** Keeps the slots whose context budget holds the estimated request. */
  method SlotsWithinContext(slots: seq<Slot>, estimate: int) returns (out: seq<Slot>)
    ensures out == Keep(slots, s => HasRoom(s, estimate))
  {
    out := [];
    for i := 0 to |slots|
      invariant out == Keep(slots[..i], s => HasRoom(s, estimate))
    {
      assert slots[..i + 1][..i] == slots[..i];
      var ctx := EffectiveCtx(slots[i]);
      if ctx.None? || estimate <= ctx.value {
        out := out + [slots[i]];
      }
    }
    assert slots[..|slots|] == slots;
  }

  predicate Declares(s: Slot, b: int) { s.attemptBudget == Some(b) && b > 0 }

  /** The attempt budget of a walk: the smallest positive budget any slot declares, or zero for none. */
  ghost predicate IsBudget(slots: seq<Slot>, b: int) {
    && b >= 0
    && (b == 0 ==> forall s | s in slots :: s.attemptBudget.Some? ==> s.attemptBudget.value <= 0)
    && (b > 0 ==> exists s :: s in slots && Declares(s, b))
    && (b > 0 ==>
          forall s | s in slots && s.attemptBudget.Some? && s.attemptBudget.value > 0 :: b <= s.attemptBudget.value)
  }

  method Budget(slots: seq<Slot>) returns (b: int)
    ensures IsBudget(slots, b)
  {
    b := 0;
    for i := 0 to |slots|
      invariant IsBudget(slots[..i], b)
    {
      assert slots[..i + 1] == slots[..i] + [slots[i]];
      var declared := slots[i].attemptBudget;
      if declared.None? || declared.value <= 0 {
        continue;
      }
      if b == 0 || declared.value < b {
        b := declared.value;
        assert Declares(slots[i], b);
      }
    }
    assert slots[..|slots|] == slots;
  }

  /** The estimate charged and compared with context budgets is never below one. */
  function EstimateTokens(bodyTokens: int, maxTokens: int): (r: nat)
    ensures r >= 1 && r >= bodyTokens + maxTokens
  {
    if bodyTokens + maxTokens <= 0 then 1 else bodyTokens + maxTokens
  }
}
