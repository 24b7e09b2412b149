/** The dispatcher: the retry loop on one slot, the walk, and the settlement of streams, over the real limiter. */
module Dispatcher {
  import opened Prelude
  import opened Slots
  import opened Errors
  import opened Cells
  import opened Limiters
  import opened LimiterRuns
  import opened Walks
  import Windows
  import Groups
  import KeyPools
  import Routers

  const MILLISECOND: int := 1_000_000

  /** Grows from 100ms to a 2s cap. */
  function RetryBackoff(attempt: nat): int {
    var factor := match Min(attempt, 5) case 0 => 1 case 1 => 2 case 2 => 4 case 3 => 8 case 4 => 16 case _ => 32;
    var d := 100 * MILLISECOND * factor;
    Min(d, 2 * Windows.SECOND)
  }

  /** The mutable part of one dispatched request. */
  class AttemptCtx {
    const plan: Plan
    var attempts: nat
    var resolves: nat
    var sleeps: nat
    var ticks: nat

    function View(): Meter
      reads this
    {
      Meter(attempts, resolves, sleeps, ticks)
    }

    constructor (plan: Plan)
      ensures this.plan == plan && View() == Meter(0, 0, 0, 0)
    {
      this.plan := plan;
      attempts, resolves, sleeps, ticks := 0, 0, 0, 0;
    }

    method ResolveNext() returns (r: Routers.Resolution)
      modifies this`resolves
      ensures r == plan.env.resolve(old(resolves)) && resolves == old(resolves) + 1
    {
      r := plan.env.resolve(resolves);
      resolves := resolves + 1;
    }

    method ReadClock() returns (now: int)
      modifies this`ticks
      ensures now == plan.env.clock(old(ticks)) && ticks == old(ticks) + 1
    {
      now := plan.env.clock(ticks);
      ticks := ticks + 1;
    }

    method Backoff() returns (awake: bool)
      modifies this`sleeps
      ensures awake == plan.env.awake(old(sleeps)) && sleeps == old(sleeps) + 1
    {
      awake := plan.env.awake(sleeps);
      sleeps := sleeps + 1;
    }
  }

  /** The open accounting of a streamed response. */
  class StreamHandle {
    const res: Reservation
    var done: bool

    constructor (res: Reservation)
      ensures this.res == res && !done
    {
      this.res := res;
      done := false;
    }
  }

  datatype Response =
    | NotSupported
    | MediaRefused(gate: Gate)
    | ContextTooLong(requested: nat)
    | Answered(hops: nat, tried: seq<string>, attempts: nat, outcome: Outcome)
    | Failure(e: ApiError, attempts: nat)

  function Providers(slots: seq<Slot>): seq<string> {
    if slots == [] then [] else Providers(slots[..|slots| - 1]) + [slots[|slots| - 1].provider]
  }

  lemma ProvidersAppend(slots: seq<Slot>, i: nat)
    requires i < |slots|
    ensures Providers(slots[..i + 1]) == Providers(slots[..i]) + [slots[i].provider]
  {
    assert slots[..i + 1][..i] == slots[..i];
  }

  /** The response a finished walk gives: the last visit decides, and a success lists every provider tried. */
  function ResponseTo(slots: seq<Slot>, visits: seq<SlotRun>): Response
    requires visits != [] && |visits| <= |slots|
  {
    var last := visits[|visits| - 1];
    if last.outcome.Lost? then Failure(last.outcome.err.e, last.meter.attempts)
    else Answered(|visits| - 1, Providers(slots[..|visits|]), last.meter.attempts, last.outcome)
  }

  /** Where the walk stands after visiting the first slots without a response. */
  ghost predicate Visited(slots: seq<Slot>, visits: seq<SlotRun>, tried: seq<string>, lastErr: Option<Error>,
                          m0: Counters, m: Counters, meter: Meter)
  {
    && |visits| <= |slots|
    && tried == Providers(slots[..|visits|])
    && m == EndCounters(m0, visits) && meter == EndMeter(Meter(0, 0, 0, 0), visits)
    && (if visits == [] then lastErr == None
        else
          var last := visits[|visits| - 1];
          last.outcome.Lost? && lastErr == Some(last.outcome.err) && last.meter == meter)
  }

  lemma NoRecords()
    ensures AllRecords([]) == []
  {
  }

  lemma RecordsOneMore(visits: seq<SlotRun>, run: SlotRun)
    ensures AllRecords(visits + [run]) == AllRecords(visits) + RecordsOf(run.contacts)
  {
    assert (visits + [run])[..|visits|] == visits;
  }

  lemma VisitedNone(slots: seq<Slot>, m: Counters)
    ensures Visited(slots, [], [], None, m, m, Meter(0, 0, 0, 0))
  {
  }

  lemma VisitedOneMore(slots: seq<Slot>, visits: seq<SlotRun>, tried: seq<string>, lastErr: Option<Error>,
                       m0: Counters, m: Counters, meter: Meter, run: SlotRun)
    requires Visited(slots, visits, tried, lastErr, m0, m, meter) && |visits| < |slots|
    ensures var tried' := tried + [slots[|visits|].provider];
            && EndCounters(m0, visits + [run]) == run.m
            && (if run.outcome.Lost?
                then Visited(slots, visits + [run], tried', Some(run.outcome.err), m0, run.m, run.meter)
                else ResponseTo(slots, visits + [run]) == Answered(|visits|, tried', run.meter.attempts, run.outcome))
  {
    ProvidersAppend(slots, |visits|);
  }

  lemma VisitedAll(slots: seq<Slot>, visits: seq<SlotRun>, tried: seq<string>, lastErr: Option<Error>,
                   m0: Counters, m: Counters, meter: Meter)
    requires Visited(slots, visits, tried, lastErr, m0, m, meter)
    ensures m == EndCounters(m0, visits)
    ensures visits == [] ==> meter == Meter(0, 0, 0, 0) && lastErr == None
    ensures visits != [] ==> lastErr.Some? && ResponseTo(slots, visits) == Failure(lastErr.value.e, meter.attempts)
  {
  }

  /** `whole` is `contacts` followed by `rest`. */
  ghost predicate Continues(whole: SlotRun, contacts: seq<Contact>, rest: SlotRun) {
    whole == rest.(contacts := contacts + rest.contacts)
  }

  lemma ContinuesStart(run: SlotRun)
    ensures Continues(run, [], run)
  {
    assert [] + run.contacts == run.contacts;
  }

  lemma ContinuesStep(whole: SlotRun, contacts: seq<Contact>, c: Contact, rest: SlotRun, next: SlotRun)
    requires Continues(whole, contacts, rest) && Continues(rest, [c], next)
    ensures Continues(whole, contacts + [c], next)
  {
    assert contacts + ([c] + next.contacts) == contacts + [c] + next.contacts;
  }

  lemma ContinuesEnd(whole: SlotRun, contacts: seq<Contact>, rest: SlotRun)
    requires Continues(whole, contacts, rest)
    ensures whole == SlotRun(rest.m, rest.meter, contacts + rest.contacts, rest.outcome)
    ensures rest.contacts == [] ==> whole == SlotRun(rest.m, rest.meter, contacts, rest.outcome)
  {
  }

  /** One round of the retry loop. */
  lemma TriesUnfolds(plan: Plan, req: Request, slot: Slot, left: nat, m: Counters, meter: Meter,
                     held: Option<Reservation>, lastErr: Option<Error>)
    ensures left == 0 || Spent(plan, meter)
        ==> Tries(plan, req, slot, left, m, meter, held, lastErr) == GiveUp(plan, m, meter, held, lastErr)
    ensures left > 0 && !Spent(plan, meter) ==>
              Tries(plan, req, slot, left, m, meter, held, lastErr)
              == Round(plan, req, slot, left, m, meter.(resolves := meter.resolves + 1), held,
                       plan.env.resolve(meter.resolves))
  {
    hide Send, Reserve, GiveUp;
  }

  function Round(plan: Plan, req: Request, slot: Slot, left: nat, m: Counters, meter: Meter,
                 held: Option<Reservation>, resolution: Routers.Resolution): SlotRun
    requires left > 0
  {
    if !resolution.Resolved? then
      SlotRun(m, meter, [], Lost(Quota(RateLimited()), if held.Some? then Kept(held.value) else Unreserved))
    else if held.Some? then Send(plan, req, slot, left, m, meter, held.value, resolution.target)
    else
      var now := plan.env.clock(meter.ticks);
      var (m', rejection) := Reserve(m, CellOf(req, slot), slot.limits, req.c, now);
      var meter' := meter.(ticks := meter.ticks + 1);
      if rejection.Some? then SlotRun(m', meter', [], Lost(Quota(RateLimited()), TurnedAway))
      else Send(plan, req, slot, left, m', meter', Reservation(CellOf(req, slot), slot.limits, req.c, now),
                resolution.target)
  }

  /** What one call leads to: the slot is done, it may be tried again, or the caller gave up during the backoff. */
  datatype Verdict = Final(outcome: Outcome) | Again(err: Error) | Cancelled(err: Error)

  datatype Secured = Blocked(outcome: Outcome) | Held(res: Reservation)

  // ---------- filters ----------

  function ServesRequest(req: Request): Slot -> bool { s => Serves(s, req.model, req.route) }

  function AcceptsMedia(media: Media): Slot -> bool { s => Accepts(s, media) }

  function HasRoomFor(req: Request): Slot -> bool { s => HasRoom(s, req.c.tokens) }

  /** The slots that survive the kind and media filters. */
  function GatedSlots(list: seq<Slot>, req: Request, media: Media): seq<Slot> {
    var kind := Keep(list, ServesRequest(req));
    if req.route != RouteChat || NoMedia(media) then kind else Keep(kind, AcceptsMedia(media))
  }

  function EligibleSlots(list: seq<Slot>, req: Request, media: Media): seq<Slot> {
    Keep(GatedSlots(list, req, media), HasRoomFor(req))
  }

  lemma NothingServes(list: seq<Slot>, req: Request, media: Media)
    requires Keep(list, s => Serves(s, req.model, req.route)) == []
    ensures EligibleSlots(list, req, media) == []
  {
  }

  lemma GateIsKeep(list: seq<Slot>, req: Request, media: Media, slots: seq<Slot>)
    requires var kind := Keep(list, s => Serves(s, req.model, req.route));
             slots == if req.route != RouteChat || NoMedia(media) then kind else Keep(kind, s => Accepts(s, media))
    ensures slots == GatedSlots(list, req, media)
  {
  }

  // ---------- streams ----------

  function StreamClosed(m: Counters, res: Reservation, failed: bool, usage: CallUsage, now: int): Counters {
    if failed then Refund(m, res.id, res.limits, res.c, now)
    else Reconcile(m, res.id, ActualTokens(usage, res.c.tokens), res.c.tokens, now)
  }

  // ---------- the service ----------

  class Service {
    const limiter: Limiter

    constructor (limiter: Limiter)
      ensures this.limiter == limiter
    {
      this.limiter := limiter;
    }

    method RefundReservation(ctx: AttemptCtx, res: Reservation)
      requires limiter.Valid()
      modifies limiter, ctx`ticks
      ensures limiter.Valid() && ctx.ticks == old(ctx.ticks) + 1
      ensures limiter.cells == Refund(old(limiter.cells), res.id, res.limits, res.c, ctx.plan.env.clock(old(ctx.ticks)))
    {
      var now := ctx.ReadClock();
      limiter.RefundReservation(res.id, res.limits, res.c, now);
    }

    /** Makes the configured number of tries against one slot, and tells the router of each call. */
    method AttemptSlot(ctx: AttemptCtx, req: Request, slot: Slot)
      returns (contacts: seq<Contact>, outcome: Outcome, records: seq<Record>)
      requires limiter.Valid()
      modifies limiter, ctx
      ensures limiter.Valid()
      ensures SlotRun(limiter.cells, ctx.View(), contacts, outcome)
           == Attempt(ctx.plan, req, slot, old(limiter.cells), old(ctx.View()))
      ensures records == RecordsOf(contacts)
    {
      hide Limiter.Valid, Send, GiveUp, MaxTries, Tries, Continues, Round, RecordOf;
      var maxTries := MaxTries(ctx.plan, slot);
      var held: Option<Reservation> := None;
      var lastErr: Option<Error> := None;
      contacts, records := [], [];
      var attempt := 0;
      ghost var rest := Tries(ctx.plan, req, slot, maxTries, limiter.cells, ctx.View(), held, lastErr);
      ghost var whole := rest;
      ContinuesStart(whole);
      while attempt < maxTries
        invariant 0 <= attempt <= maxTries && limiter.Valid()
        invariant rest == Tries(ctx.plan, req, slot, maxTries - attempt, limiter.cells, ctx.View(), held, lastErr)
        invariant Continues(whole, contacts, rest) && records == RecordsOf(contacts)
        decreases maxTries - attempt
      {
        TriesUnfolds(ctx.plan, req, slot, maxTries - attempt, limiter.cells, ctx.View(), held, lastErr);
        if ctx.plan.budget > 0 && ctx.attempts >= ctx.plan.budget {
          break;
        }
        var resolution := ctx.ResolveNext();
        ghost var left := maxTries - attempt;
        assert rest == Round(ctx.plan, req, slot, left, limiter.cells, ctx.View(), held, resolution);
        var early := Secure(ctx, req, slot, left, held, resolution);
        if early.Blocked? {
          ContinuesEnd(whole, contacts, rest);
          return contacts, early.outcome, records;
        }
        held := Some(early.res);
        var contact, verdict, record := SendOnce(ctx, req, slot, maxTries - attempt, early.res, resolution.target);
        records := records + [record];
        OneMoreRecord(contacts, contact);
        if verdict.Final? {
          ContinuesEnd(whole, contacts, rest);
          return contacts + [contact], verdict.outcome, records;
        }
        lastErr := Some(verdict.err);
        ghost var next := if verdict.Cancelled? then GiveUp(ctx.plan, limiter.cells, ctx.View(), held, lastErr)
                          else Tries(ctx.plan, req, slot, maxTries - attempt - 1, limiter.cells, ctx.View(), held,
                                     lastErr);
        ContinuesStep(whole, contacts, contact, rest, next);
        contacts := contacts + [contact];
        rest := next;
        if verdict.Cancelled? {
          break;
        }
        attempt := attempt + 1;
      }
      TriesUnfolds(ctx.plan, req, slot, maxTries - attempt, limiter.cells, ctx.View(), held, lastErr);
      assert rest == GiveUp(ctx.plan, limiter.cells, ctx.View(), held, lastErr);
      outcome := Leave(ctx, held, lastErr);
      ContinuesEnd(whole, contacts, rest);
    }

    /** After a resolve: keeps the reservation already held, or takes one; both are skipped when the resolve failed. */
    method Secure(ctx: AttemptCtx, req: Request, slot: Slot, ghost left: nat, held: Option<Reservation>,
                  resolution: Routers.Resolution)
      returns (r: Secured)
      requires limiter.Valid() && left > 0
      modifies limiter, ctx`ticks
      ensures limiter.Valid()
      ensures r.Held? ==> resolution.Resolved?
      ensures Round(ctx.plan, req, slot, left, old(limiter.cells), old(ctx.View()), held, resolution)
           == match r
              case Blocked(outcome) => SlotRun(limiter.cells, ctx.View(), [], outcome)
              case Held(res) => Send(ctx.plan, req, slot, left, limiter.cells, ctx.View(), res, resolution.target)
    {
      hide Limiter.Valid, Send, Reserve;
      if !resolution.Resolved? {
        return Blocked(Lost(Quota(RateLimited()), if held.Some? then Kept(held.value) else Unreserved));
      }
      if held.Some? {
        return Held(held.value);
      }
      var now := ctx.ReadClock();
      var rejection := limiter.CheckAndReserve(CellOf(req, slot), slot.limits, req.c, now);
      r := if rejection.Some? then Blocked(Lost(Quota(RateLimited()), TurnedAway))
           else Held(Reservation(CellOf(req, slot), slot.limits, req.c, now));
    }

    /** One upstream call under a reservation, with the settlement, refund or backoff that follows its reply. */
    method SendOnce(ctx: AttemptCtx, req: Request, slot: Slot, left: nat, res: Reservation, target: Routers.Target)
      returns (contact: Contact, verdict: Verdict, record: Record)
      requires limiter.Valid() && left > 0
      modifies limiter, ctx
      ensures limiter.Valid() && contact.slot == slot && contact.target == target && record == RecordOf(contact)
      ensures var run := Send(ctx.plan, req, slot, left, old(limiter.cells), old(ctx.View()), res, target);
              match verdict
              case Final(outcome) => run == SlotRun(limiter.cells, ctx.View(), [contact], outcome)
              case Again(err) =>
                Continues(run, [contact], Tries(ctx.plan, req, slot, left - 1, limiter.cells, ctx.View(), Some(res),
                                                Some(err)))
              case Cancelled(err) =>
                Continues(run, [contact], GiveUp(ctx.plan, limiter.cells, ctx.View(), Some(res), Some(err)))
    {
      hide Limiter.Valid, Refund, Reconcile, Tries, GiveUp, UpstreamError, IsTerminal, RetryableUpstream;
      hide ReplyOf, Reported, ActualTokens;
      var reply := ReplyOf(ctx.plan, req, ctx.View());
      contact := Contact(slot, target, reply);
      ctx.attempts := ctx.attempts + 1;
      if reply.Ok? {
        record := Credited(target);
        if Streams(req) {
          return contact, Final(Streaming(res)), record;
        }
        var actual := ActualTokens(Reported(req.route, reply.usage), res.c.tokens);
        var now := ctx.ReadClock();
        limiter.ReconcileTokens(res.id, actual, res.c.tokens, now);
        return contact, Final(Served(res, actual, now)), record;
      }
      var err := UpstreamError(reply);
      record := Blamed(target, err.status);
      if IsTerminal(err) {
        RefundReservation(ctx, res);
        return contact, Final(Lost(Api(err), Refunded)), record;
      }
      if left > 1 && RetryableUpstream(err) {
        var awake := ctx.Backoff();
        if !awake {
          return contact, Cancelled(Api(err)), record;
        }
      }
      verdict := Again(Api(err));
    }

    /** Every attempt failed: releases what is held. */
    method Leave(ctx: AttemptCtx, held: Option<Reservation>, lastErr: Option<Error>) returns (outcome: Outcome)
      requires limiter.Valid()
      modifies limiter, ctx`ticks
      ensures limiter.Valid()
      ensures SlotRun(limiter.cells, ctx.View(), [], outcome)
           == GiveUp(ctx.plan, old(limiter.cells), old(ctx.View()), held, lastErr)
    {
      hide Refund;
      if held.Some? {
        RefundReservation(ctx, held.value);
      }
      outcome := Lost(if lastErr.Some? then lastErr.value else Quota(RateLimited()),
                      if held.Some? then Refunded else Unreserved);
    }

    /** Filters the slots of the model and walks the rest in declared order. */
    method Dispatch(list: seq<Slot>, input: Input, media: Media, env: Env, numRetries: int)
      returns (resp: Response, modelFailed: bool, records: seq<Record>, req: Request, ghost budget: int,
               ghost eligible: seq<Slot>, ghost visits: seq<SlotRun>)
      requires limiter.Valid()
      modifies limiter
      ensures limiter.Valid() && req == RequestOf(input)
      ensures resp.NotSupported? || resp.MediaRefused? || resp.ContextTooLong? ==>
                visits == [] && !modelFailed && limiter.cells == old(limiter.cells)
      ensures records == AllRecords(visits)
      ensures eligible == EligibleSlots(list, req, media)
      ensures resp.NotSupported? <==> Keep(list, ServesRequest(req)) == []
      ensures resp.MediaRefused? <==> Keep(list, ServesRequest(req)) != [] && GatedSlots(list, req, media) == []
      ensures resp.MediaRefused? ==>
                req.route == RouteChat && !NoMedia(media) && Refuses(Keep(list, ServesRequest(req)), media, resp.gate)
      ensures resp.ContextTooLong? <==> GatedSlots(list, req, media) != [] && eligible == []
      ensures resp.ContextTooLong? ==> resp.requested == req.c.tokens
      ensures resp.Answered? || resp.Failure? <==> eligible != []
      ensures resp.Answered? || resp.Failure? ==>
                && IsBudget(GatedSlots(list, req, media), budget)
                && WalkRun(visits, modelFailed) == Walk(Plan(env, numRetries, budget), req, eligible,
                                                        old(limiter.cells), Meter(0, 0, 0, 0))
                && limiter.cells == EndCounters(old(limiter.cells), visits)
                && visits != [] && |visits| <= |eligible| && resp == ResponseTo(eligible, visits)
    {
      visits, modelFailed, records, budget := [], false, [], 0;
      req := RequestOf(input);
      eligible := EligibleSlots(list, req, media);
      var kind := KindSlots(list, req.model, req.route);
      if kind == [] {
        NothingServes(list, req, media);
        resp := NotSupported;
        return;
      }
      var gate := MediaSlots(kind, req.route, media);
      if !gate.Passed? {
        KeepNothingIff(kind, AcceptsMedia(media));
        resp := MediaRefused(gate);
        return;
      }
      GateIsKeep(list, req, media, gate.slots);
      var slots := SlotsWithinContext(gate.slots, req.c.tokens);
      assert slots == eligible;
      if slots == [] {
        resp := ContextTooLong(req.c.tokens);
        return;
      }
      var b := Budget(gate.slots);
      budget := b;
      resp, modelFailed, records, visits := WalkSlots(slots, req, Plan(env, numRetries, b));
    }

    /** The walk itself. */
    method WalkSlots(slots: seq<Slot>, req: Request, plan: Plan)
      returns (resp: Response, modelFailed: bool, records: seq<Record>, ghost visits: seq<SlotRun>)
      requires limiter.Valid() && slots != [] && plan.budget >= 0
      modifies limiter
      ensures limiter.Valid()
      ensures WalkRun(visits, modelFailed) == Walk(plan, req, slots, old(limiter.cells), Meter(0, 0, 0, 0))
      ensures limiter.cells == EndCounters(old(limiter.cells), visits) && visits != [] && |visits| <= |slots|
      ensures resp == ResponseTo(slots, visits) && records == AllRecords(visits)
    {
      hide Limiter.Valid, Attempt, IsTerminal, IsClientRejection, Walk, Joins, Visited, ResponseTo, EndCounters;
      hide Providers, AllRecords, RecordsOf;
      NoRecords();
      var ctx := new AttemptCtx(plan);
      ghost var m0 := limiter.cells;
      ghost var rest := Walk(plan, req, slots, m0, ctx.View());
      ghost var whole := rest;
      JoinsStart(whole);
      VisitedNone(slots, m0);
      visits, modelFailed, records := [], false, [];
      var tried: seq<string> := [];
      ghost var triedBefore := tried;
      var lastErr: Option<Error> := None;
      var i := 0;
      while i < |slots|
        invariant 0 <= i <= |slots| && limiter.Valid() && |visits| == i && ctx.plan == plan && tried == triedBefore
        invariant Visited(slots, visits, tried, lastErr, m0, limiter.cells, ctx.View())
        invariant rest == Walk(plan, req, slots[i..], limiter.cells, ctx.View())
        invariant Joins(whole, visits, modelFailed, rest) && records == AllRecords(visits)
        invariant i < |slots| ==> !modelFailed
      {
        WalkUnfolds(plan, req, slots[i..], limiter.cells, ctx.View());
        tried := tried + [slots[i].provider];
        if ctx.plan.budget > 0 && ctx.attempts >= ctx.plan.budget {
          break;
        }
        ghost var m, meter := limiter.cells, ctx.View();
        var contacts, outcome, told := AttemptSlot(ctx, req, slots[i]);
        ghost var run := SlotRun(limiter.cells, ctx.View(), contacts, outcome);
        records := records + told;
        RecordsOneMore(visits, run);
        VisitedOneMore(slots, visits, triedBefore, lastErr, m0, m, meter, run);
        if !outcome.Lost? {
          JoinsEnd(whole, visits, modelFailed, rest);
          visits := visits + [run];
          resp := Answered(i, tried, ctx.attempts, outcome);
          return;
        }
        lastErr := Some(outcome.err);
        triedBefore := tried;
        if outcome.err.Api? && (IsTerminal(outcome.err.e) || IsClientRejection(outcome.err.e)) {
          JoinsStep(whole, visits, run, rest, false, WalkRun([], false));
          visits := visits + [run];
          rest := WalkRun([], false);
          break;
        }
        ghost var tail := Walk(plan, req, slots[i + 1..], limiter.cells, ctx.View());
        assert slots[i..][1..] == slots[i + 1..];
        var failed := outcome.err.Api? && i == |slots| - 1;
        JoinsStep(whole, visits, run, rest, failed, tail);
        visits := visits + [run];
        rest := tail;
        modelFailed := failed;
        i := i + 1;
      }
      if i == |slots| {
        WalkUnfolds(plan, req, slots[i..], limiter.cells, ctx.View());
      }
      JoinsEnd(whole, visits, modelFailed, rest);
      VisitedAll(slots, visits, triedBefore, lastErr, m0, limiter.cells, ctx.View());
      var e := if lastErr.Some? then lastErr.value.e else ApiError(502, TYPE_UPSTREAM, CallerFault);
      resp := Failure(e, ctx.attempts);
    }

    lemma WalkUnfolds(plan: Plan, req: Request, slots: seq<Slot>, m: Counters, meter: Meter)
      ensures Walk(plan, req, slots, m, meter)
           == if slots == [] || Spent(plan, meter) then WalkRun([], false)
              else
                var run := Attempt(plan, req, slots[0], m, meter);
                if Stops(run.outcome) then WalkRun([run], false)
                else
                  var rest := Walk(plan, req, slots[1..], run.m, run.meter);
                  WalkRun([run] + rest.visits, rest.modelFailed || (|slots| == 1 && run.outcome.err.Api?))
    {
      hide Attempt;
    }

    /** `whole` is the visits so far followed by `rest`. */
    static ghost predicate Joins(whole: WalkRun, visits: seq<SlotRun>, modelFailed: bool, rest: WalkRun) {
      whole == WalkRun(visits + rest.visits, modelFailed || rest.modelFailed)
    }

    static lemma JoinsStart(whole: WalkRun)
      ensures Joins(whole, [], false, whole)
    {
      assert [] + whole.visits == whole.visits;
    }

    static lemma JoinsEnd(whole: WalkRun, visits: seq<SlotRun>, modelFailed: bool, rest: WalkRun)
      requires Joins(whole, visits, modelFailed, rest)
      ensures whole == WalkRun(visits + rest.visits, modelFailed || rest.modelFailed)
      ensures rest.visits == [] ==> whole.visits == visits
    {
    }

    static lemma JoinsStep(whole: WalkRun, visits: seq<SlotRun>, run: SlotRun, rest: WalkRun, failed: bool,
                           tail: WalkRun)
      requires Joins(whole, visits, false, rest)
      requires rest == WalkRun([run] + tail.visits, tail.modelFailed || failed)
      ensures Joins(whole, visits + [run], failed, tail)
    {
      assert visits + ([run] + tail.visits) == visits + [run] + tail.visits;
    }

    /** Settles a stream once it is drained, or refunds it when it broke off. Only the first call counts. */
    method FinalizeStream(h: StreamHandle, failed: bool, usage: CallUsage, now: int)
      requires limiter.Valid()
      modifies limiter, h
      ensures limiter.Valid() && h.done
      ensures old(h.done) ==> limiter.cells == old(limiter.cells)
      ensures !old(h.done) ==> limiter.cells == StreamClosed(old(limiter.cells), h.res, failed, usage, now)
    {
      if h.done {
        return;
      }
      h.done := true;
      if failed {
        limiter.RefundReservation(h.res.id, h.res.limits, h.res.c, now);
      } else {
        limiter.ReconcileTokens(h.res.id, ActualTokens(usage, h.res.c.tokens), h.res.c.tokens, now);
      }
    }
  }

  // ---------- what the walk may contact ----------

  /** The slot serves the route of the model, accepts the media of a chat request and has room for the request. */
  predicate Suitable(s: Slot, req: Request, media: Media) {
    && Serves(s, req.model, req.route)
    && (req.route == RouteChat ==> Accepts(s, media))
    && HasRoom(s, req.c.tokens)
  }

  lemma {:induction false} KeepTwice(slots: seq<Slot>, p: Slot -> bool, q: Slot -> bool)
    ensures Keep(Keep(slots, p), q) == Keep(slots, s => p(s) && q(s))
    decreases |slots|
  {
    if slots != [] {
      var front := slots[..|slots| - 1];
      var last := slots[|slots| - 1];
      KeepTwice(front, p, q);
      var k := Keep(front, p);
      if p(last) {
        assert (k + [last])[..|k|] == k;
      }
    }
  }

  lemma {:induction false} KeepSame(slots: seq<Slot>, p: Slot -> bool, q: Slot -> bool)
    requires forall s | s in slots :: p(s) == q(s)
    ensures Keep(slots, p) == Keep(slots, q)
    decreases |slots|
  {
    if slots != [] {
      KeepSame(slots[..|slots| - 1], p, q);
    }
  }

  /** Keeping by two conditions in turn is keeping by one that says the same. */
  lemma KeepBoth(slots: seq<Slot>, p: Slot -> bool, q: Slot -> bool, r: Slot -> bool)
    requires forall s | s in slots :: r(s) <==> p(s) && q(s)
    ensures Keep(Keep(slots, p), q) == Keep(slots, r)
  {
    KeepTwice(slots, p, q);
    KeepSame(slots, (s: Slot) => p(s) && q(s), r);
  }

  function SuitableFor(req: Request, media: Media): Slot -> bool { s => Suitable(s, req, media) }

  function Gated(req: Request, media: Media): Slot -> bool {
    s => Serves(s, req.model, req.route) && (req.route == RouteChat ==> Accepts(s, media))
  }

  /** The slots walked are exactly the suitable ones, each in its declared place. */
  lemma EligibleIffSuitable(list: seq<Slot>, req: Request, media: Media) returns (at: seq<nat>)
    ensures PickedAt(list, EligibleSlots(list, req, media), at)
    ensures forall i: nat | i < |list| :: i in at <==> Suitable(list[i], req, media)
  {
    hide PickedAt, Keep, Serves, HasRoom;
    if req.route != RouteChat || NoMedia(media) {
      NoMediaIsAccepted(list, media);
      KeepSame(list, ServesRequest(req), Gated(req, media));
    } else {
      KeepBoth(list, ServesRequest(req), AcceptsMedia(media), Gated(req, media));
    }
    assert GatedSlots(list, req, media) == Keep(list, Gated(req, media));
    KeepBoth(list, Gated(req, media), HasRoomFor(req), SuitableFor(req, media));
    at := KeepIsOrdered(list, SuitableFor(req, media));
  }

  lemma NoMediaIsAccepted(list: seq<Slot>, media: Media)
    ensures NoMedia(media) ==> forall s: Slot :: Accepts(s, media)
  {
  }

  /** A dispatched request contacts only suitable slots. */
  lemma ContactsAreSuitable(list: seq<Slot>, req: Request, media: Media, plan: Plan, m: Counters, meter: Meter, i: nat,
                            j: nat)
    requires var visits := Walk(plan, req, EligibleSlots(list, req, media), m, meter).visits;
             i < |visits| && j < |visits[i].contacts|
    ensures var c := Walk(plan, req, EligibleSlots(list, req, media), m, meter).visits[i].contacts[j];
            c.slot in list && Suitable(c.slot, req, media)
  {
    hide Walk, EligibleSlots, Suitable, MaxTries;
    var slots := EligibleSlots(list, req, media);
    WalkIsOrderly(plan, req, slots, m, meter);
    var at := EligibleIffSuitable(list, req, media);
    assert at[i] in at;
  }

  // ---------- closing a stream ----------

  /** A stream is closed once: breaking off leaves no trace of its reservation, draining leaves the charge a buffered
      reply with the same usage would have left. */
  lemma {:induction false} StreamCloses(m0: Counters, m: Counters, res: Reservation, from: int, failed: bool,
                                        usage: CallUsage, now: int)
    requires Timely(m0, res.at) && res.at <= from <= now && Reservable(m0, res)
    requires Alike(Holding(m0, res), m, from)
    ensures failed ==> Alike(m0, StreamClosed(m, res, failed, usage, now), now)
    ensures !failed ==> Alike(Effect(m0, Served(res, ActualTokens(usage, res.c.tokens), now)),
                              StreamClosed(m, res, failed, usage, now), now)
  {
    hide Windows.Label, Reserve, Refund, Reconcile, Reading;
    var h := Holding(m0, res);
    AlikeLater(h, m, from, now);
    LaterReading(m0, Key(res.id, Windows.RPM), res.at, now);
    if failed {
      RefundUndoesReserve(m0, res.id, res.limits, res.c, res.at, now);
      ApplyAlike(h, m, Call(now, RefundOp(res.id, res.limits, res.c)));
    } else {
      ApplyAlike(h, m, Call(now, ReconcileOp(res.id, ActualTokens(usage, res.c.tokens), res.c.tokens)));
    }
  }

  // ---------- the exit that keeps a charge ----------

  lemma BackoffIsShort(attempt: nat)
    ensures 100 * MILLISECOND <= RetryBackoff(attempt) <= RetryBackoff(attempt + 1) <= 2 * Windows.SECOND
    ensures RetryBackoff(attempt) < KeyPools.SHORT_COOLDOWN
  {
  }

  /** The first wait is a tenth of a second, and each further one twice the last, up to two seconds. */
  lemma BackoffDoubles(attempt: nat)
    ensures RetryBackoff(0) == 100_000_000
    ensures RetryBackoff(attempt + 1) == Min(2 * RetryBackoff(attempt), 2_000_000_000)
  {
  }

  /** A group with one credential that has just been rate-limited hands out nothing for ten seconds. */
  lemma SingleKeyCoolsDown(g: Groups.GroupView, t0: nat, t1: nat, t2: nat)
    requires |g.keys| == 1 && Groups.Serve(g, t0).1.Handed?
    requires t1 <= t2 < t1 + KeyPools.SHORT_COOLDOWN
    ensures var (g1, answer) := Groups.Serve(g, t0);
            !Groups.Serve(Groups.Fail(g1, answer.apiKey, 429, t1), t2).1.Handed?
  {
    var (g1, answer) := Groups.Serve(g, t0);
    KeyPools.PickIsOutsideCooldown(g.keys, g.lastKey, t0);
    KeyPools.IndexOfFinds(g.keys, answer.apiKey);
    var g2 := Groups.Fail(g1, answer.apiKey, 429, t1);
    assert g2.keys[0].cooldownUntil > t2;
    KeyPools.PickFailsIff(g2.keys, g2.lastKey, t2);
  }

  /** So on a slot with one credential and at least one retry, a first reply of 429 always leaves the slot with its
      reservation kept: the retry comes within the two-second backoff, the credential is cooling down for ten seconds,
      the resolve fails, and that exit does not refund. */
  lemma RateLimitedSingleKeyKeepsCharge(plan: Plan, req: Request, slot: Slot, g: Groups.GroupView, m: Counters,
                                        meter: Meter, t0: nat, t1: nat, t2: nat)
    requires |g.keys| == 1 && Groups.Serve(g, t0).1.Handed?
    requires t1 <= t2 < t1 + KeyPools.SHORT_COOLDOWN
    // the router is this group: asked at t0, told of the 429 at t1, asked again at t2
    requires plan.env.resolve(meter.resolves).Resolved?
    requires plan.env.resolve(meter.resolves + 1).Resolved?
        <==> Groups.Serve(Groups.Fail(Groups.Serve(g, t0).0, Groups.Serve(g, t0).1.apiKey, 429, t1), t2).1.Handed?
    requires ReplyOf(plan, req, meter).EndpointError? && ReplyOf(plan, req, meter).status == 429
    requires plan.env.awake(meter.sleeps) && MaxTries(plan, slot) >= 2
    requires plan.budget <= 0 || meter.attempts + 1 < plan.budget
    requires Reservable(m, Reservation(CellOf(req, slot), slot.limits, req.c, Now(plan, meter)))
    ensures var res := Reservation(CellOf(req, slot), slot.limits, req.c, Now(plan, meter));
            var run := Attempt(plan, req, slot, m, meter);
            && run.outcome == Lost(Quota(RateLimited()), Kept(res))
            && run.m == Holding(m, res)
            && |run.contacts| == 1
  {
    hide Reserve, Refund, Reconcile, MaxTries, GiveUp;
    SingleKeyCoolsDown(g, t0, t1, t2);
    var n := MaxTries(plan, slot);
    var res := Reservation(CellOf(req, slot), slot.limits, req.c, Now(plan, meter));
    var target := plan.env.resolve(meter.resolves).target;
    var meter1 := meter.(resolves := meter.resolves + 1, ticks := meter.ticks + 1);
    assert Attempt(plan, req, slot, m, meter) == Send(plan, req, slot, n, Holding(m, res), meter1, res, target);
    var meter2 := meter1.(attempts := meter.attempts + 1, sleeps := meter.sleeps + 1);
    var err := UpstreamError(ReplyOf(plan, req, meter));
    assert ReplyOf(plan, req, meter1) == ReplyOf(plan, req, meter);
    assert RetryableUpstream(err) && !IsTerminal(err);
    var last := Tries(plan, req, slot, n - 1, Holding(m, res), meter2, Some(res), Some(Api(err)));
    var meter3 := meter2.(resolves := meter2.resolves + 1);
    assert last == SlotRun(Holding(m, res), meter3, [], Lost(Quota(RateLimited()), Kept(res)));
  }
}
