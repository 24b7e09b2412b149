/** Who is asked, what for and what comes back, in the fields of the request and of the slots. */
module Selections {
  import opened Prelude
  import opened Slots
  import opened Errors
  import opened Cells
  import opened LimiterRuns
  import opened Walks
  import opened Charges
  import opened Dispatcher
  import opened Retries
  import Windows

  // ---------- which slots ----------

  /** The slot offers the model for this kind of request, takes the media of a chat, and has room in its context: the
      provider's own where it declares one, else the model's, else any. */
  predicate Offers(s: Slot, req: Request, media: Media) {
    && s.model == req.model
    && (req.route == RouteChat <==> s.kind == KindChat)
    && (req.route == RouteEmbeddings <==> s.kind == KindEmbeddings)
    && (req.route == RouteSTT <==> s.kind == KindSTT)
    && (req.route == RouteTTS <==> s.kind == KindTTS)
    && (req.route == RouteChat ==>
          (media.image ==> s.images) && (media.audio ==> s.audio) && (media.video ==> s.video))
    && match s.ctxOverride
       case Some(own) => req.c.tokens <= own
       case None => match s.ctx case Some(ctx) => req.c.tokens <= ctx case None => true
  }

  lemma OffersIfSuitable(s: Slot, req: Request, media: Media)
    ensures Suitable(s, req, media) <==> Offers(s, req, media)
  {
  }

  /** The walk is over exactly the slots that offer what is asked, in declared order. */
  lemma WalkedIffOffered(list: seq<Slot>, req: Request, media: Media) returns (at: seq<nat>)
    ensures PickedAt(list, EligibleSlots(list, req, media), at)
    ensures forall i: nat | i < |list| :: i in at <==> Offers(list[i], req, media)
  {
    hide Suitable, Offers, EligibleSlots, PickedAt;
    at := EligibleIffSuitable(list, req, media);
    forall i: nat | i < |list| ensures Suitable(list[i], req, media) <==> Offers(list[i], req, media) {
      OffersIfSuitable(list[i], req, media);
    }
  }

  // ---------- what it costs ----------

  /** A request as it comes in is admitted on a slot exactly when the caller's cell at that provider has room for its
      estimated body and completion, at least one token, its characters and its seconds. */
  lemma InputIsAdmittedIff(i: Input, slot: Slot, m: Counters, now: int)
    requires Timely(m, now)
    ensures var req := RequestOf(i);
            var id := CellId(i.keyHash, i.model, slot.provider, LevelModel);
            var asked := Windows.Costs(Max(1, i.bodyTokens + i.maxTokens), i.chars, i.audioSec);
            var (m', r) := Reserve(m, CellOf(req, slot), slot.limits, req.c, now);
            && (r.None? <==>
                  forall w: Windows.Window | LimitOf(slot.limits, w).Some? ::
                    RoomFor(w, asked, LimitOf(slot.limits, w).value - Reading(m, Key(id, w), now)))
            && (r.None? ==>
                  forall w: Windows.Window | LimitOf(slot.limits, w).Some? ::
                    CountsFor(w, asked, Reading(m', Key(id, w), now) - Reading(m, Key(id, w), now)))
            && req.route == i.route && req.stream == i.stream && req.hasFile == i.hasFile
  {
    hide Reserve, Reading, RoomFor, CountsFor, Timely;
    AdmittedIff(m, CellOf(RequestOf(i), slot), slot.limits, RequestOf(i).c, now);
  }

  // ---------- whose counters ----------

  /** One of the cells of the caller, at one of the providers. */
  predicate OwnCell(req: Request, slots: seq<Slot>, id: CellId) {
    && id.keyHash == req.keyHash && id.model == req.model && id.level == LevelModel
    && exists s :: s in slots && s.provider == id.slot
  }

  lemma EffectElsewhere(req: Request, slot: Slot, m: Counters, from: int, to: int, outcome: Outcome, k: Key)
    requires Timely(m, from) && from <= to && Sound(req, slot, m, from, to, outcome) && k.id != CellOf(req, slot)
    ensures Reading(Effect(m, outcome), k, to) == Reading(m, k, to)
  {
    hide Windows.Label, Reserve, Reconcile, Reading;
    match OpenOrServed(outcome)
    case None =>
    case Some(res) =>
      LaterReading(m, k, from, res.at);
      LaterReading(m, k, from, to);
      ReserveAllOrNothing(m, res.id, res.limits, res.c, res.at);
      LaterReading(m, k, res.at, to);
      LaterReading(Holding(m, res), k, res.at, to);
      if outcome.Served? {
        LaterReading(m, k, res.at, outcome.at);
        LaterReading(Holding(m, res), k, res.at, outcome.at);
        ReconcileReadings(Holding(m, res), res.id, outcome.actual, res.c.tokens, outcome.at);
        LaterReading(m, k, outcome.at, to);
        LaterReading(Effect(m, outcome), k, outcome.at, to);
      }
  }

  lemma {:induction false} EffectsElsewhere(req: Request, slots: seq<Slot>, m: Counters, from: int, to: int,
                                            visits: seq<SlotRun>, k: Key)
    requires Timely(m, from) && from <= to && SoundWalk(req, slots, m, from, to, visits)
    requires !OwnCell(req, slots, k.id)
    ensures Reading(EffectOf(m, visits), k, to) == Reading(m, k, to)
    decreases |visits|
  {
    hide Windows.Label, Effect, Reading, Sound;
    if visits != [] {
      var m1 := Effect(m, visits[0].outcome);
      var mid :| from <= mid <= to && Sound(req, slots[0], m, from, mid, visits[0].outcome) && Timely(m1, mid)
                 && SoundWalk(req, slots[1..], m1, mid, to, visits[1..]);
      assert slots[0] in slots;
      EffectElsewhere(req, slots[0], m, from, mid, visits[0].outcome, k);
      LaterReading(m1, k, mid, to);
      LaterReading(m, k, from, mid);
      LaterReading(m, k, mid, to);
      assert !OwnCell(req, slots[1..], k.id) by {
        assert forall s | s in slots[1..] :: s in slots;
      }
      EffectsElsewhere(req, slots[1..], m1, mid, to, visits[1..], k);
    }
  }

  /** A walk moves no count of another caller, another model or another provider. */
  lemma {:induction false} WalkKeepsOtherCells(plan: Plan, req: Request, slots: seq<Slot>, m: Counters, meter: Meter,
                                               k: Key)
    requires ClockAdvances(plan.env) && Timely(m, Now(plan, meter)) && !OwnCell(req, slots, k.id)
    ensures var visits := Walk(plan, req, slots, m, meter).visits;
            var to := Now(plan, EndMeter(meter, visits));
            Reading(EndCounters(m, visits), k, to) == Reading(m, k, to)
  {
    hide Windows.Label, Walk, Reading, SoundWalk, OwnCell;
    SameStoreAlike(m, Now(plan, meter), Now(plan, meter));
    WalkAccounting(plan, req, slots, m, m, meter);
    var visits := Walk(plan, req, slots, m, meter).visits;
    EffectsElsewhere(req, slots, m, Now(plan, meter), Now(plan, EndMeter(meter, visits)), visits, k);
  }

  // ---------- what comes back ----------

  lemma {:induction false} ProvidersInOrder(slots: seq<Slot>)
    ensures |Providers(slots)| == |slots| && forall j | 0 <= j < |slots| :: Providers(slots)[j] == slots[j].provider
  {
    if slots != [] {
      ProvidersInOrder(slots[..|slots| - 1]);
    }
  }

  /** A finished walk answers with its last visit: the slots tried up to it, in order, and all the calls made; or, as an
      error, what became of the last call, or that there is no capacity left. */
  lemma WalkIsAnswered(plan: Plan, req: Request, slots: seq<Slot>, m: Counters)
    requires Walk(plan, req, slots, m, Meter(0, 0, 0, 0)).visits != []
    ensures var visits := Walk(plan, req, slots, m, Meter(0, 0, 0, 0)).visits;
            && |visits| <= |slots|
            && var last := visits[|visits| - 1];
               var n := |last.contacts|;
               match ResponseTo(slots, visits)
               case Answered(hops, tried, attempts, outcome) =>
                 && n > 0 && last.contacts[n - 1].reply.Ok?
                 && hops + 1 == |visits| == |tried| && (forall j | 0 <= j <= hops :: tried[j] == slots[j].provider)
                 && attempts == ContactCount(visits) && outcome == last.outcome
               case Failure(e, attempts) =>
                 && (n > 0 ==> !last.contacts[n - 1].reply.Ok?)
                 && attempts == ContactCount(visits)
                 && if last.outcome.Lost? && last.outcome.exit.Refunded? then
                      n > 0 && Tells(e, last.contacts[n - 1].reply)
                    else e == ApiError(429, "rate_limit_exceeded", CallerFault)
               case _ => false
  {
    hide Walk, MaxTries, Decisive, Tells, Persists, HearsInTurn, TriesOn;
    WalkIsOrderly(plan, req, slots, m, Meter(0, 0, 0, 0));
    WalkPersists(plan, req, slots, m, Meter(0, 0, 0, 0));
    var visits := Walk(plan, req, slots, m, Meter(0, 0, 0, 0)).visits;
    var i := |visits| - 1;
    assert Orderly(plan, req, TriesOn(plan, slots[i]), BeforeVisit(Meter(0, 0, 0, 0), visits, i), None, visits[i]);
    ProvidersInOrder(slots[..|visits|]);
  }
}
