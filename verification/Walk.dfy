/** The slot walk of one request as a function of an arbitrary upstream: tries on a slot, the walk over the slots, and
    what both do to the rate-limit counters. Nothing is assumed about the upstream, the router or the caller's patience
    beyond a clock that does not go back. */
module Walks {
  import opened Prelude
  import opened Slots
  import opened Errors
  import opened Cells
  import opened LimiterRuns
  import Windows
  import Routers

  /** Everything outside the dispatcher: the n-th resolve, the reply to the n-th call, whether the n-th backoff ended
      before the caller gave up, and the n-th clock reading. */
  datatype Env = Env(resolve: nat -> Routers.Resolution, reply: nat -> Reply, awake: nat -> bool, clock: nat -> int)

  ghost predicate ClockAdvances(env: Env) {
    forall i: nat, j: nat | i <= j :: env.clock(i) <= env.clock(j)
  }

  datatype Request = Request(keyHash: string, model: string, route: Route, stream: bool, hasFile: bool,
                             c: Windows.Costs)

  /** What a caller hands in: the request with the estimate of its body, before the costs are worked out. */
  datatype Input = Input(keyHash: string, model: string, route: Route, stream: bool, hasFile: bool,
                         bodyTokens: int, maxTokens: int, chars: nat, audioSec: nat)

  /** The request that is walked: its token cost is the preflight estimate, hence at least one. */
  function RequestOf(i: Input): (r: Request)
    ensures r.c.tokens >= 1 && r.c.tokens >= i.bodyTokens + i.maxTokens
  {
    Request(i.keyHash, i.model, i.route, i.stream, i.hasFile,
            Windows.Costs(EstimateTokens(i.bodyTokens, i.maxTokens), i.chars, i.audioSec))
  }

  datatype Plan = Plan(env: Env, numRetries: int, budget: int)

  /** How much of the environment has been used up. */
  datatype Meter = Meter(attempts: nat, resolves: nat, sleeps: nat, ticks: nat)

  datatype Reservation = Reservation(id: CellId, limits: Limits, c: Windows.Costs, at: int)

  datatype Contact = Contact(slot: Slot, target: Routers.Target, reply: Reply)

  /** What the router is told of one upstream call. */
  datatype Record = Credited(target: Routers.Target) | Blamed(target: Routers.Target, status: int)

  /** A call that went through is credited, any other is blamed with the status the error is reported with. */
  function RecordOf(c: Contact): Record {
    if c.reply.Ok? then Credited(c.target) else Blamed(c.target, UpstreamError(c.reply).status)
  }

  function RecordsOf(cs: seq<Contact>): seq<Record> {
    if cs == [] then [] else RecordsOf(cs[..|cs| - 1]) + [RecordOf(cs[|cs| - 1])]
  }

  lemma OneMoreRecord(cs: seq<Contact>, c: Contact)
    ensures RecordsOf(cs + [c]) == RecordsOf(cs) + [RecordOf(c)]
  {
    assert (cs + [c])[..|cs|] == cs;
  }

  /** How a slot is left without a response. `Kept` still holds its reservation. */
  datatype Exit = Unreserved | TurnedAway | Refunded | Kept(res: Reservation)

  datatype Outcome =
    | Served(res: Reservation, actual: nat, at: int)
    | Streaming(res: Reservation)
    | Lost(err: Error, exit: Exit)

  datatype SlotRun = SlotRun(m: Counters, meter: Meter, contacts: seq<Contact>, outcome: Outcome)

  function CellOf(req: Request, slot: Slot): CellId { CellId(req.keyHash, req.model, slot.provider, LevelModel) }

  /** A slot's own retry count beats the global one; there is always one try. */
  function MaxTries(plan: Plan, slot: Slot): nat {
    Max(1, (if slot.retries.Some? then slot.retries.value else plan.numRetries) + 1)
  }

  predicate Spent(plan: Plan, meter: Meter) { plan.budget > 0 && meter.attempts >= plan.budget }

  predicate Streams(req: Request) { req.route == RouteChat && req.stream }

  /** Only chat replies report tokens; transcription and speech count one, embeddings report nothing. */
  function Reported(route: Route, u: CallUsage): CallUsage {
    match route
    case RouteChat => u
    case RouteEmbeddings => CallUsage(0, 0)
    case RouteSTT | RouteTTS => CallUsage(1, 0)
  }

  function ReplyOf(plan: Plan, req: Request, meter: Meter): Reply {
    if req.route == RouteSTT && !req.hasFile then MissingFile else plan.env.reply(meter.attempts)
  }

  /** Leaving the retry loop refunds whatever is held. */
  function GiveUp(plan: Plan, m: Counters, meter: Meter, held: Option<Reservation>, lastErr: Option<Error>): SlotRun {
    var err := if lastErr.Some? then lastErr.value else Quota(RateLimited());
    match held
    case None => SlotRun(m, meter, [], Lost(err, Unreserved))
    case Some(res) =>
      SlotRun(Refund(m, res.id, res.limits, res.c, plan.env.clock(meter.ticks)), meter.(ticks := meter.ticks + 1), [],
              Lost(err, Refunded))
  }

  /** The retry loop on one slot with `left` tries to go. */
  function Tries(plan: Plan, req: Request, slot: Slot, left: nat, m: Counters, meter: Meter,
                 held: Option<Reservation>, lastErr: Option<Error>): SlotRun
    decreases left, 1
  {
    if left == 0 || Spent(plan, meter) then GiveUp(plan, m, meter, held, lastErr)
    else
      var meter1 := meter.(resolves := meter.resolves + 1);
      var resolution := plan.env.resolve(meter.resolves);
      if !resolution.Resolved? then
        SlotRun(m, meter1, [], Lost(Quota(RateLimited()), if held.Some? then Kept(held.value) else Unreserved))
      else if held.Some? then
        Send(plan, req, slot, left, m, meter1, held.value, resolution.target)
      else
        var now := plan.env.clock(meter1.ticks);
        var meter2 := meter1.(ticks := meter1.ticks + 1);
        var (m', rejection) := Reserve(m, CellOf(req, slot), slot.limits, req.c, now);
        if rejection.Some? then SlotRun(m', meter2, [], Lost(Quota(RateLimited()), TurnedAway))
        else Send(plan, req, slot, left, m', meter2, Reservation(CellOf(req, slot), slot.limits, req.c, now),
                  resolution.target)
  }

  /** One upstream call under a reservation, and what follows from its reply. */
  function Send(plan: Plan, req: Request, slot: Slot, left: nat, m: Counters, meter: Meter,
                res: Reservation, target: Routers.Target): SlotRun
    requires left > 0
    decreases left, 0
  {
    var reply := ReplyOf(plan, req, meter);
    var contact := Contact(slot, target, reply);
    var meter1 := meter.(attempts := meter.attempts + 1);
    var now := plan.env.clock(meter.ticks);
    var ticked := meter1.(ticks := meter.ticks + 1);
    if reply.Ok? then
      if Streams(req) then SlotRun(m, meter1, [contact], Streaming(res))
      else
        var actual := ActualTokens(Reported(req.route, reply.usage), res.c.tokens);
        SlotRun(Reconcile(m, res.id, actual, res.c.tokens, now), ticked, [contact], Served(res, actual, now))
    else
      var err := UpstreamError(reply);
      if IsTerminal(err) then
        SlotRun(Refund(m, res.id, res.limits, res.c, now), ticked, [contact], Lost(Api(err), Refunded))
      else
        var backsOff := left > 1 && RetryableUpstream(err);
        var meter2 := if backsOff then meter1.(sleeps := meter.sleeps + 1) else meter1;
        var rest :=
          if backsOff && !plan.env.awake(meter.sleeps) then GiveUp(plan, m, meter2, Some(res), Some(Api(err)))
          else Tries(plan, req, slot, left - 1, m, meter2, Some(res), Some(Api(err)));
        rest.(contacts := [contact] + rest.contacts)
  }

  function Attempt(plan: Plan, req: Request, slot: Slot, m: Counters, meter: Meter): SlotRun {
    Tries(plan, req, slot, MaxTries(plan, slot), m, meter, None, None)
  }

  // ---------- accounting on one slot ----------

  function Now(plan: Plan, meter: Meter): int { plan.env.clock(meter.ticks) }

  /** The counters with the reservation taken. */
  function Holding(m: Counters, res: Reservation): Counters { Reserve(m, res.id, res.limits, res.c, res.at).0 }

  ghost predicate Reservable(m: Counters, res: Reservation) { Reserve(m, res.id, res.limits, res.c, res.at).1.None? }

  /** What a slot should leave behind: nothing, an open charge, or a settled one. */
  function Effect(m: Counters, outcome: Outcome): Counters {
    match outcome
    case Served(res, actual, at) => Reconcile(Holding(m, res), res.id, actual, res.c.tokens, at)
    case Streaming(res) => Holding(m, res)
    case Lost(_, Kept(res)) => Holding(m, res)
    case Lost(_, _) => m
  }

  /** The reservation an outcome still stands for. */
  function OpenOrServed(outcome: Outcome): Option<Reservation> {
    match outcome
    case Served(res, _, _) => Some(res)
    case Streaming(res) => Some(res)
    case Lost(_, Kept(res)) => Some(res)
    case Lost(_, _) => None
  }

  /** The outcome is one the slot could have, reserved from `m` no earlier than `from` and closed no later than `to`. */
  ghost predicate Sound(req: Request, slot: Slot, m: Counters, from: int, to: int, outcome: Outcome) {
    && (OpenOrServed(outcome).Some? ==>
          var res := OpenOrServed(outcome).value;
          res.id == CellOf(req, slot) && res.limits == slot.limits && res.c == req.c
          && from <= res.at <= to && Reservable(m, res))
    && (outcome.Served? ==> outcome.res.at <= outcome.at <= to)
  }

  /** What a try finds in hand: nothing, or a reservation taken from `m0` and not touched since. */
  ghost predicate InHand(req: Request, slot: Slot, m0: Counters, m: Counters, from: int, now: int,
                         held: Option<Reservation>) {
    match held
    case None => m == m0
    case Some(res) =>
      && res.id == CellOf(req, slot) && res.limits == slot.limits && res.c == req.c
      && from <= res.at <= now && Reservable(m0, res) && m == Holding(m0, res)
  }

  ghost predicate Accounted(plan: Plan, req: Request, slot: Slot, m0: Counters, from: int, run: SlotRun) {
    var to := Now(plan, run.meter);
    && from <= to
    && Sound(req, slot, m0, from, to, run.outcome)
    && Alike(Effect(m0, run.outcome), run.m, to)
  }

  lemma RefundCloses(plan: Plan, req: Request, slot: Slot, m0: Counters, m: Counters, from: int, meter: Meter,
                     held: Option<Reservation>)
    requires ClockAdvances(plan.env) && Timely(m0, from) && from <= Now(plan, meter)
    requires InHand(req, slot, m0, m, from, Now(plan, meter), held) && held.Some?
    ensures var res := held.value;
            var to := plan.env.clock(meter.ticks + 1);
            from <= to && Alike(m0, Refund(m, res.id, res.limits, res.c, Now(plan, meter)), to)
  {
    hide Windows.Label, Reserve, Refund, Reading;
    var res := held.value;
    var now := Now(plan, meter);
    LaterReading(m0, Key(res.id, Windows.RPM), from, res.at);
    ReserveAllOrNothing(m0, res.id, res.limits, res.c, res.at);
    RefundUndoesReserve(m0, res.id, res.limits, res.c, res.at, now);
    LaterReading(m0, Key(res.id, Windows.RPM), res.at, now);
    LaterReading(m, Key(res.id, Windows.RPM), res.at, now);
    RefundReadings(m, res.id, res.limits, res.c, now);
    AlikeLater(m0, Refund(m, res.id, res.limits, res.c, now), now, plan.env.clock(meter.ticks + 1));
  }

  lemma HoldingIsTimely(m0: Counters, res: Reservation, from: int, to: int)
    requires Timely(m0, from) && from <= res.at <= to
    ensures Timely(Holding(m0, res), res.at)
    ensures Alike(Holding(m0, res), Holding(m0, res), to)
    ensures !Reservable(m0, res) ==> Alike(m0, Holding(m0, res), to)
  {
    hide Windows.Label, Reserve, Reading;
    LaterReading(m0, Key(res.id, Windows.RPM), from, res.at);
    ReserveAllOrNothing(m0, res.id, res.limits, res.c, res.at);
    AlikeLater(Holding(m0, res), Holding(m0, res), res.at, to);
    if !Reservable(m0, res) {
      AlikeLater(m0, Holding(m0, res), res.at, to);
    }
  }

  lemma SettledIsTimely(m0: Counters, res: Reservation, from: int, actual: nat, at: int, to: int)
    requires Timely(m0, from) && from <= res.at <= at <= to
    ensures var m' := Reconcile(Holding(m0, res), res.id, actual, res.c.tokens, at); Alike(m', m', to)
  {
    hide Windows.Label, Reserve, Reconcile, Reading;
    HoldingIsTimely(m0, res, from, at);
    ReconcileReadings(Holding(m0, res), res.id, actual, res.c.tokens, at);
    var m' := Reconcile(Holding(m0, res), res.id, actual, res.c.tokens, at);
    AlikeLater(m', m', at, to);
  }

  lemma GiveUpAccounted(plan: Plan, req: Request, slot: Slot, m0: Counters, m: Counters, from: int, meter: Meter,
                        held: Option<Reservation>, lastErr: Option<Error>)
    requires ClockAdvances(plan.env) && Timely(m0, from) && from <= Now(plan, meter)
    requires InHand(req, slot, m0, m, from, Now(plan, meter), held)
    ensures Accounted(plan, req, slot, m0, from, GiveUp(plan, m, meter, held, lastErr))
  {
    hide Windows.Label, Reserve, Refund, Reading;
    if held.Some? {
      RefundCloses(plan, req, slot, m0, m, from, meter, held);
    } else {
      LaterReading(m0, Key(CellOf(req, slot), Windows.RPM), from, Now(plan, meter));
    }
  }

  /** Whatever the upstream, the router and the caller do, a slot leaves the counters exactly as its outcome says:
      untouched when nothing was reserved, the reservation was refused or it was refunded; with one settled charge when
      it served; with one open charge when it streams or when a later resolve failed. */
  lemma {:induction false} TriesAccounted(plan: Plan, req: Request, slot: Slot, left: nat, m0: Counters, m: Counters,
                                          from: int, meter: Meter, held: Option<Reservation>, lastErr: Option<Error>)
    requires ClockAdvances(plan.env) && Timely(m0, from) && from <= Now(plan, meter)
    requires InHand(req, slot, m0, m, from, Now(plan, meter), held)
    ensures Accounted(plan, req, slot, m0, from, Tries(plan, req, slot, left, m, meter, held, lastErr))
    decreases left, 1
  {
    hide Windows.Label, Reserve, Refund, Reconcile, Reading, Send, GiveUp, Alike;
    if left == 0 || Spent(plan, meter) {
      GiveUpAccounted(plan, req, slot, m0, m, from, meter, held, lastErr);
    } else {
      var meter1 := meter.(resolves := meter.resolves + 1);
      var resolution := plan.env.resolve(meter.resolves);
      if !resolution.Resolved? {
        if held.Some? {
          HoldingIsTimely(m0, held.value, from, Now(plan, meter));
        } else {
          SameStoreAlike(m0, from, Now(plan, meter));
        }
      } else if held.Some? {
        SendAccounted(plan, req, slot, left, m0, m, from, meter1, held.value, resolution.target);
      } else {
        var now := Now(plan, meter);
        var meter2 := meter1.(ticks := meter1.ticks + 1);
        var res := Reservation(CellOf(req, slot), slot.limits, req.c, now);
        if Reservable(m, res) {
          SendAccounted(plan, req, slot, left, m0, Holding(m, res), from, meter2, res, resolution.target);
        } else {
          HoldingIsTimely(m0, res, from, plan.env.clock(meter2.ticks));
        }
      }
    }
  }

  lemma SameStoreAlike(m: Counters, from: int, to: int)
    requires Timely(m, from) && from <= to
    ensures Alike(m, m, to)
  {
    hide Windows.Label;
    AlikeLater(m, m, from, to);
  }

  lemma {:induction false} SendAccounted(plan: Plan, req: Request, slot: Slot, left: nat, m0: Counters, m: Counters,
                                         from: int, meter: Meter, res: Reservation, target: Routers.Target)
    requires left > 0
    requires ClockAdvances(plan.env) && Timely(m0, from) && from <= Now(plan, meter)
    requires InHand(req, slot, m0, m, from, Now(plan, meter), Some(res))
    ensures Accounted(plan, req, slot, m0, from, Send(plan, req, slot, left, m, meter, res, target))
    decreases left, 0
  {
    hide Windows.Label, Reserve, Refund, Reconcile, Reading, Tries, GiveUp, Alike;
    var reply := ReplyOf(plan, req, meter);
    var meter1 := meter.(attempts := meter.attempts + 1);
    var now := Now(plan, meter);
    if reply.Ok? {
      HoldingIsTimely(m0, res, from, now);
      if !Streams(req) {
        var actual := ActualTokens(Reported(req.route, reply.usage), res.c.tokens);
        SettledIsTimely(m0, res, from, actual, now, plan.env.clock(meter.ticks + 1));
      }
    } else {
      var err := UpstreamError(reply);
      if IsTerminal(err) {
        RefundCloses(plan, req, slot, m0, m, from, meter, Some(res));
      } else {
        var backsOff := left > 1 && RetryableUpstream(err);
        var meter2 := if backsOff then meter1.(sleeps := meter.sleeps + 1) else meter1;
        if backsOff && !plan.env.awake(meter.sleeps) {
          GiveUpAccounted(plan, req, slot, m0, m, from, meter2, Some(res), Some(Api(err)));
        } else {
          TriesAccounted(plan, req, slot, left - 1, m0, m, from, meter2, Some(res), Some(Api(err)));
        }
      }
    }
  }

  lemma SlotAccounting(plan: Plan, req: Request, slot: Slot, m: Counters, meter: Meter)
    requires ClockAdvances(plan.env) && Timely(m, Now(plan, meter))
    ensures Accounted(plan, req, slot, m, Now(plan, meter), Attempt(plan, req, slot, m, meter))
  {
    hide Tries, Accounted;
    TriesAccounted(plan, req, slot, MaxTries(plan, slot), m, m, Now(plan, meter), meter, None, None);
  }

  // ---------- contacts on one slot ----------

  /** The reply ends the walk: a success, or an error that is the caller's to fix. */
  predicate Decisive(r: Reply) { r.Ok? || IsTerminal(UpstreamError(r)) }

  ghost predicate OrderlyTries(plan: Plan, slot: Slot, left: nat, before: Meter, held: bool, lastErr: Option<Error>,
                               run: SlotRun) {
    var n := |run.contacts|;
    && n <= left
    && run.meter.attempts == before.attempts + n
    && (plan.budget > 0 && before.attempts <= plan.budget ==> run.meter.attempts <= plan.budget)
    && (forall i | 0 <= i < n :: run.contacts[i].slot == slot)
    && (forall i | 0 <= i < n - 1 :: !Decisive(run.contacts[i].reply))
    && (!run.outcome.Lost? <==> n > 0 && run.contacts[n - 1].reply.Ok?)
    && (run.outcome.Lost? ==>
          match run.outcome.err
          case Quota(e) => e == RateLimited() && (n > 0 ==> !Decisive(run.contacts[n - 1].reply))
          case Api(e) => if n > 0 then e == UpstreamError(run.contacts[n - 1].reply) else lastErr == Some(Api(e)))
    && (run.outcome.Lost? && run.outcome.exit.Kept?
        <==> (held || n > 0) && run.meter.resolves > before.resolves
             && !plan.env.resolve(run.meter.resolves - 1).Resolved?)
    && (run.outcome.Lost? && run.outcome.exit.Kept? ==> n < left)
    && run.meter.resolves >= before.resolves + n
  }

  lemma {:induction false} TriesAreOrderly(plan: Plan, req: Request, slot: Slot, left: nat, m: Counters, meter: Meter,
                                           held: Option<Reservation>, lastErr: Option<Error>)
    requires lastErr.Some? ==> held.Some? && lastErr.value.Api?
    ensures OrderlyTries(plan, slot, left, meter, held.Some?, lastErr,
                         Tries(plan, req, slot, left, m, meter, held, lastErr))
    decreases left, 1
  {
    hide Reserve, Refund, Reconcile, Send, CellOf, UpstreamError, IsTerminal;
    if left > 0 && !Spent(plan, meter) && plan.env.resolve(meter.resolves).Resolved? {
      var meter1 := meter.(resolves := meter.resolves + 1);
      var target := plan.env.resolve(meter.resolves).target;
      if held.Some? {
        SendIsOrderly(plan, req, slot, left, m, meter1, held.value, target);
      } else {
        var now := Now(plan, meter);
        var meter2 := meter1.(ticks := meter1.ticks + 1);
        var res := Reservation(CellOf(req, slot), slot.limits, req.c, now);
        SendIsOrderly(plan, req, slot, left, Holding(m, res), meter2, res, target);
      }
    }
  }

  lemma {:induction false} SendIsOrderly(plan: Plan, req: Request, slot: Slot, left: nat, m: Counters, meter: Meter,
                                         res: Reservation, target: Routers.Target)
    requires left > 0 && !Spent(plan, meter) && meter.resolves > 0 && plan.env.resolve(meter.resolves - 1).Resolved?
    ensures var run := Send(plan, req, slot, left, m, meter, res, target);
            && run.contacts != []
            && OrderlyTries(plan, slot, left, meter.(resolves := meter.resolves - 1), false, None, run)
    decreases left, 0
  {
    hide Reserve, Refund, Reconcile, Tries;
    var reply := ReplyOf(plan, req, meter);
    if !reply.Ok? && !IsTerminal(UpstreamError(reply)) {
      var err := UpstreamError(reply);
      var meter1 := meter.(attempts := meter.attempts + 1);
      var backsOff := left > 1 && RetryableUpstream(err);
      var meter2 := if backsOff then meter1.(sleeps := meter.sleeps + 1) else meter1;
      if !(backsOff && !plan.env.awake(meter.sleeps)) {
        TriesAreOrderly(plan, req, slot, left - 1, m, meter2, Some(res), Some(Api(err)));
      }
    }
  }

  /** On one slot: at most `MaxTries` calls, never beyond the attempt budget, a decisive reply only at the very end,
      success exactly on a final `Ok`; and the reservation is kept unserved exactly when a call was made and the resolve
      after it failed, which takes a second try. */
  lemma SlotIsOrderly(plan: Plan, req: Request, slot: Slot, m: Counters, meter: Meter)
    ensures OrderlyTries(plan, slot, MaxTries(plan, slot), meter, false, None, Attempt(plan, req, slot, m, meter))
  {
    hide Tries, OrderlyTries;
    TriesAreOrderly(plan, req, slot, MaxTries(plan, slot), m, meter, None, None);
  }

  // ---------- the walk over the slots ----------

  /** One run per slot visited, in declared order, and whether the model as a whole is recorded as failed. */
  datatype WalkRun = WalkRun(visits: seq<SlotRun>, modelFailed: bool)

  /** The walk stops after this outcome. */
  predicate Stops(outcome: Outcome) {
    outcome.Lost? ==> outcome.err.Api? && (IsTerminal(outcome.err.e) || IsClientRejection(outcome.err.e))
  }

  function Walk(plan: Plan, req: Request, slots: seq<Slot>, m: Counters, meter: Meter): WalkRun
    decreases |slots|
  {
    if slots == [] || Spent(plan, meter) then WalkRun([], false)
    else
      var run := Attempt(plan, req, slots[0], m, meter);
      if Stops(run.outcome) then WalkRun([run], false)
      else
        var rest := Walk(plan, req, slots[1..], run.m, run.meter);
        WalkRun([run] + rest.visits, rest.modelFailed || (|slots| == 1 && run.outcome.err.Api?))
  }

  function EndCounters(m: Counters, visits: seq<SlotRun>): Counters {
    if visits == [] then m else visits[|visits| - 1].m
  }

  function EndMeter(meter: Meter, visits: seq<SlotRun>): Meter {
    if visits == [] then meter else visits[|visits| - 1].meter
  }

  /** Every record of a walk, in order. */
  function AllRecords(visits: seq<SlotRun>): seq<Record> {
    if visits == [] then []
    else AllRecords(visits[..|visits| - 1]) + RecordsOf(visits[|visits| - 1].contacts)
  }

  function ContactCount(visits: seq<SlotRun>): nat {
    if visits == [] then 0 else |visits[0].contacts| + ContactCount(visits[1..])
  }

  /** A contact whose reply ends the walk. */
  predicate DecisiveAt(visits: seq<SlotRun>, i: nat, j: nat)
    requires i < |visits| && j < |visits[i].contacts|
  {
    Decisive(visits[i].contacts[j].reply)
  }

  ghost predicate OrderlyWalk(plan: Plan, slots: seq<Slot>, meter: Meter, run: WalkRun) {
    var visits := run.visits;
    var end := EndMeter(meter, visits);
    && |visits| <= |slots|
    && end.attempts == meter.attempts + ContactCount(visits)
    && (plan.budget > 0 && meter.attempts <= plan.budget ==> end.attempts <= plan.budget)
    // every call goes to the slot being visited, at most so many times
    && (forall i | 0 <= i < |visits| :: |visits[i].contacts| <= MaxTries(plan, slots[i]))
    && (forall i, j | 0 <= i < |visits| && 0 <= j < |visits[i].contacts| :: visits[i].contacts[j].slot == slots[i])
    // the first success or caller fault is the last call of all
    && (forall i: nat, j: nat | i < |visits| && j < |visits[i].contacts| && DecisiveAt(visits, i, j) ::
          i == |visits| - 1 && j == |visits[i].contacts| - 1)
    && (forall i | 0 <= i < |visits| - 1 :: visits[i].outcome.Lost?)
    // the walk ends early for no other reason, save a spent budget
    && (|visits| < |slots| ==>
          || Spent(plan, end)
          || (visits != [] && visits[|visits| - 1].contacts != []
              && Decisive(visits[|visits| - 1].contacts[|visits[|visits| - 1].contacts| - 1].reply)))
    // a model failure needs the last slot to fail on its upstream
    && (run.modelFailed <==> |visits| == |slots| > 0 && visits[|visits| - 1].outcome.Lost?
                             && visits[|visits| - 1].outcome.err.Api?
                             && !IsTerminal(visits[|visits| - 1].outcome.err.e))
  }

  /** A visit stops the walk exactly when its last call was decisive. */
  lemma StopsIffDecisive(plan: Plan, req: Request, slot: Slot, m: Counters, meter: Meter)
    ensures var run := Attempt(plan, req, slot, m, meter);
            var n := |run.contacts|;
            && (Stops(run.outcome) <==> n > 0 && Decisive(run.contacts[n - 1].reply))
            && (run.outcome.Lost? && run.outcome.err.Api? ==> !IsClientRejection(run.outcome.err.e))
  {
    hide Attempt, MaxTries;
    SlotIsOrderly(plan, req, slot, m, meter);
    var run := Attempt(plan, req, slot, m, meter);
    var n := |run.contacts|;
    if n > 0 && !run.contacts[n - 1].reply.Ok? {
      StopsWalkIff(run.contacts[n - 1].reply);
    }
  }

  /** The walk calls only the slots it is given, in order, each at most `MaxTries` times and all together within the
      budget; it ends at the first success or caller fault, and continues past everything else. */
  lemma {:induction false} WalkIsOrderly(plan: Plan, req: Request, slots: seq<Slot>, m: Counters, meter: Meter)
    ensures OrderlyWalk(plan, slots, meter, Walk(plan, req, slots, m, meter))
    decreases |slots|
  {
    hide Attempt, MaxTries, Stops, IsTerminal, IsClientRejection, Decisive;
    if slots != [] && !Spent(plan, meter) {
      var run := Attempt(plan, req, slots[0], m, meter);
      FirstVisitIsOrderly(plan, req, slots[0], m, meter);
      if !Stops(run.outcome) {
        WalkIsOrderly(plan, req, slots[1..], run.m, run.meter);
        ConsOrderly(plan, slots, meter, run, Walk(plan, req, slots[1..], run.m, run.meter));
      } else {
        LastOrderly(plan, slots, meter, run);
      }
    }
  }

  /** What the walk needs to know of one visit. */
  ghost predicate OrderlyVisit(plan: Plan, slot: Slot, meter: Meter, run: SlotRun) {
    var n := |run.contacts|;
    && n <= MaxTries(plan, slot)
    && run.meter.attempts == meter.attempts + n
    && (plan.budget > 0 && meter.attempts <= plan.budget ==> run.meter.attempts <= plan.budget)
    && (forall j | 0 <= j < n :: run.contacts[j].slot == slot)
    && (forall j | 0 <= j < n - 1 :: !Decisive(run.contacts[j].reply))
    && (Stops(run.outcome) <==> n > 0 && Decisive(run.contacts[n - 1].reply))
    && (run.outcome.Lost? && run.outcome.err.Api? ==> (Stops(run.outcome) <==> IsTerminal(run.outcome.err.e)))
    && (!Stops(run.outcome) ==> run.outcome.Lost?)
  }

  lemma FirstVisitIsOrderly(plan: Plan, req: Request, slot: Slot, m: Counters, meter: Meter)
    ensures OrderlyVisit(plan, slot, meter, Attempt(plan, req, slot, m, meter))
  {
    hide Attempt, MaxTries, IsTerminal, IsClientRejection, Decisive;
    SlotIsOrderly(plan, req, slot, m, meter);
    StopsIffDecisive(plan, req, slot, m, meter);
  }

  lemma LastOrderly(plan: Plan, slots: seq<Slot>, meter: Meter, run: SlotRun)
    requires slots != [] && OrderlyVisit(plan, slots[0], meter, run) && Stops(run.outcome)
    ensures OrderlyWalk(plan, slots, meter, WalkRun([run], false))
  {
    hide MaxTries, IsTerminal, IsClientRejection, Decisive;
    assert [run][1..] == [];
    assert ContactCount([run]) == |run.contacts|;
  }

  lemma ConsOrderly(plan: Plan, slots: seq<Slot>, meter: Meter, run: SlotRun, rest: WalkRun)
    requires slots != [] && OrderlyVisit(plan, slots[0], meter, run) && !Stops(run.outcome)
    requires OrderlyWalk(plan, slots[1..], run.meter, rest)
    ensures OrderlyWalk(plan, slots, meter,
                        WalkRun([run] + rest.visits, rest.modelFailed || (|slots| == 1 && run.outcome.err.Api?)))
  {
    hide MaxTries, Stops, IsTerminal, IsClientRejection, Decisive;
    var visits := [run] + rest.visits;
    assert visits[1..] == rest.visits;
    forall i: nat, j: nat | i < |visits| && j < |visits[i].contacts| && DecisiveAt(visits, i, j)
      ensures i == |visits| - 1 && j == |visits[i].contacts| - 1
    {
      assert i > 0;
      assert DecisiveAt(rest.visits, i - 1, j);
    }
  }

  // ---------- accounting over the walk ----------

  /** What the outcomes of a walk should leave behind, one after another. */
  function EffectOf(m: Counters, visits: seq<SlotRun>): Counters
    decreases |visits|
  {
    if visits == [] then m else EffectOf(Effect(m, visits[0].outcome), visits[1..])
  }

  /** Outcomes act alike on stores that are alike. */
  lemma EffectAlike(req: Request, slot: Slot, m1: Counters, m2: Counters, from: int, to: int, outcome: Outcome)
    requires Alike(m1, m2, from) && from <= to && Sound(req, slot, m2, from, to, outcome)
    ensures Sound(req, slot, m1, from, to, outcome)
    ensures Alike(Effect(m1, outcome), Effect(m2, outcome), to)
  {
    hide Windows.Label, Reserve, Reconcile, Alike, Reading;
    match OpenOrServed(outcome)
    case None => AlikeLater(m1, m2, from, to);
    case Some(res) =>
      AlikeLater(m1, m2, from, res.at);
      ReserveAlike(m1, m2, res.id, res.limits, res.c, res.at);
      if outcome.Served? {
        AlikeLater(Holding(m1, res), Holding(m2, res), res.at, outcome.at);
        ApplyAlike(Holding(m1, res), Holding(m2, res),
                   Call(outcome.at, ReconcileOp(res.id, outcome.actual, res.c.tokens)));
        AlikeLater(Effect(m1, outcome), Effect(m2, outcome), outcome.at, to);
      } else {
        AlikeLater(Holding(m1, res), Holding(m2, res), res.at, to);
      }
  }

  lemma AlikeCompose(m1: Counters, m2: Counters, m3: Counters, t: int)
    requires Alike(m1, m2, t) && Alike(m2, m3, t)
    ensures Alike(m1, m3, t)
  {
    hide Windows.Label, Reading;
  }

  /** Each outcome is sound for the store its predecessors should have left. */
  ghost predicate SoundWalk(req: Request, slots: seq<Slot>, m: Counters, from: int, to: int, visits: seq<SlotRun>)
    decreases |visits|
  {
    visits == [] ||
    (&& slots != []
     && exists mid :: from <= mid <= to
                      && Sound(req, slots[0], m, from, mid, visits[0].outcome)
                      && Timely(Effect(m, visits[0].outcome), mid)
                      && SoundWalk(req, slots[1..], Effect(m, visits[0].outcome), mid, to, visits[1..]))
  }

  lemma ConsSound(req: Request, slots: seq<Slot>, m: Counters, from: int, mid: int, to: int, visits: seq<SlotRun>)
    requires visits != [] && slots != [] && from <= mid <= to
    requires Sound(req, slots[0], m, from, mid, visits[0].outcome) && Timely(Effect(m, visits[0].outcome), mid)
    requires SoundWalk(req, slots[1..], Effect(m, visits[0].outcome), mid, to, visits[1..])
    ensures SoundWalk(req, slots, m, from, to, visits)
  {
    hide Sound, Effect;
  }

  /** Whatever happens, a walk leaves the counters as the outcomes of its slots say, one after another. */
  lemma {:induction false} WalkAccounting(plan: Plan, req: Request, slots: seq<Slot>, ideal: Counters, m: Counters,
                                          meter: Meter)
    requires ClockAdvances(plan.env) && Alike(ideal, m, Now(plan, meter))
    ensures var visits := Walk(plan, req, slots, m, meter).visits;
            var to := Now(plan, EndMeter(meter, visits));
            && Now(plan, meter) <= to
            && SoundWalk(req, slots, ideal, Now(plan, meter), to, visits)
            && Alike(EffectOf(ideal, visits), EndCounters(m, visits), to)
    decreases |slots|
  {
    hide Attempt, Stops, Effect, Reading, Windows.Label, Sound;
    if slots != [] && !Spent(plan, meter) {
      var from := Now(plan, meter);
      var run := Attempt(plan, req, slots[0], m, meter);
      var mid := Now(plan, run.meter);
      SlotAccounting(plan, req, slots[0], m, meter);
      EffectAlike(req, slots[0], ideal, m, from, mid, run.outcome);
      AlikeCompose(Effect(ideal, run.outcome), Effect(m, run.outcome), run.m, mid);
      var visits := Walk(plan, req, slots, m, meter).visits;
      var to := Now(plan, EndMeter(meter, visits));
      if Stops(run.outcome) {
        assert visits == [run] && visits[1..] == [];
      } else {
        WalkAccounting(plan, req, slots[1..], Effect(ideal, run.outcome), run.m, run.meter);
        assert visits[1..] == Walk(plan, req, slots[1..], run.m, run.meter).visits;
      }
      ConsSound(req, slots, ideal, from, mid, to, visits);
    }
  }

  // ---------- the ledger of one walk in one bucket ----------

  /** What an outcome adds to a constrained cell. */
  function Contribution(outcome: Outcome, k: Key): nat {
    match outcome
    case Served(res, actual, _) => if res.id == k.id then ServedCharge(res.limits, res.c, actual, k.window) else 0
    case Streaming(res) => if res.id == k.id then Charged(res.limits, res.c, k.window) else 0
    case Lost(_, Kept(res)) => if res.id == k.id then Charged(res.limits, res.c, k.window) else 0
    case Lost(_, _) => 0
  }

  function Contributions(visits: seq<SlotRun>, k: Key): nat {
    if visits == [] then 0 else Contribution(visits[0].outcome, k) + Contributions(visits[1..], k)
  }

  /** Every slot whose cell is `k`'s constrains its window. */
  ghost predicate ConstrainedBy(req: Request, slots: seq<Slot>, k: Key) {
    forall s | s in slots && CellOf(req, s) == k.id :: LimitOf(s.limits, k.window).Some?
  }

  /** The two times lie in the same bucket of a window. */
  predicate OneBucket(w: Windows.Window, from: int, to: int) { Windows.Label(w, from) == Windows.Label(w, to) }

  lemma BetweenBuckets(w: Windows.Window, from: int, mid: int, to: int)
    requires from <= mid <= to && OneBucket(w, from, to)
    ensures OneBucket(w, from, mid) && OneBucket(w, mid, to)
  {
    hide Windows.Label;
    Windows.LabelMonotone(w, from, mid);
    Windows.LabelMonotone(w, mid, to);
  }

  lemma EffectContributes(req: Request, slot: Slot, m: Counters, from: int, to: int, outcome: Outcome, k: Key)
    requires Timely(m, from) && from <= to && OneBucket(k.window, from, to)
    requires Sound(req, slot, m, from, to, outcome)
    requires CellOf(req, slot) == k.id ==> LimitOf(slot.limits, k.window).Some?
    ensures Reading(Effect(m, outcome), k, to) == Reading(m, k, to) + Contribution(outcome, k)
  {
    hide Windows.Label, Reserve, Reconcile, Reading, Charged, ServedCharge;
    match OpenOrServed(outcome)
    case None =>
    case Some(res) =>
      BetweenBuckets(k.window, from, res.at, to);
      LaterReading(m, k, from, res.at);
      LaterReading(m, k, from, to);
      ReserveAllOrNothing(m, res.id, res.limits, res.c, res.at);
      LaterReading(Holding(m, res), k, res.at, to);
      if outcome.Served? {
        BetweenBuckets(k.window, res.at, outcome.at, to);
        SettleReplacesTokens(m, res.id, res.limits, res.c, outcome.actual, res.at, outcome.at);
        LaterReading(m, k, res.at, outcome.at);
        LaterReading(Holding(m, res), k, res.at, outcome.at);
        ReconcileReadings(Holding(m, res), res.id, outcome.actual, res.c.tokens, outcome.at);
        LaterReading(Effect(m, outcome), k, outcome.at, to);
      }
  }

  lemma {:induction false} EffectsAddUp(req: Request, slots: seq<Slot>, m: Counters, from: int, to: int,
                                        visits: seq<SlotRun>, k: Key)
    requires Timely(m, from) && from <= to && OneBucket(k.window, from, to)
    requires SoundWalk(req, slots, m, from, to, visits)
    requires ConstrainedBy(req, slots, k)
    ensures Reading(EffectOf(m, visits), k, to) == Reading(m, k, to) + Contributions(visits, k)
    decreases |visits|
  {
    hide Windows.Label, Effect, Reading, Contribution, Sound;
    if visits != [] {
      var m1 := Effect(m, visits[0].outcome);
      var mid :| from <= mid <= to && Sound(req, slots[0], m, from, mid, visits[0].outcome) && Timely(m1, mid)
                 && SoundWalk(req, slots[1..], m1, mid, to, visits[1..]);
      BetweenBuckets(k.window, from, mid, to);
      EffectContributes(req, slots[0], m, from, mid, visits[0].outcome, k);
      LaterReading(m1, k, mid, to);
      LaterReading(m, k, from, mid);
      LaterReading(m, k, mid, to);
      EffectsAddUp(req, slots[1..], m1, mid, to, visits[1..], k);
    }
  }

  /** The walk begins and ends in one bucket of the window. */
  ghost predicate WalkInBucket(plan: Plan, req: Request, slots: seq<Slot>, m: Counters, meter: Meter,
                               w: Windows.Window) {
    OneBucket(w, Now(plan, meter), Now(plan, EndMeter(meter, Walk(plan, req, slots, m, meter).visits)))
  }

  /** In one bucket of a window the count of a constrained cell rises over a walk by exactly the charges of its
      outcomes: the actual usage of the slot that served, the open charge of a stream, and the charge of every slot
      left by a failed resolve on a later try; refunded, refused and unreserved slots add nothing. */
  lemma {:induction false} WalkLedger(plan: Plan, req: Request, slots: seq<Slot>, m: Counters, meter: Meter, k: Key)
    requires ClockAdvances(plan.env) && Timely(m, Now(plan, meter))
    requires ConstrainedBy(req, slots, k)
    requires WalkInBucket(plan, req, slots, m, meter, k.window)
    ensures var visits := Walk(plan, req, slots, m, meter).visits;
            var to := Now(plan, EndMeter(meter, visits));
            Reading(EndCounters(m, visits), k, to) == Reading(m, k, to) + Contributions(visits, k)
  {
    hide Windows.Label, Walk, Reading, SoundWalk;
    SameStoreAlike(m, Now(plan, meter), Now(plan, meter));
    WalkAccounting(plan, req, slots, m, m, meter);
    var visits := Walk(plan, req, slots, m, meter).visits;
    EffectsAddUp(req, slots, m, Now(plan, meter), Now(plan, EndMeter(meter, visits)), visits, k);
  }
}
