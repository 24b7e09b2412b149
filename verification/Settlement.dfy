/** What a served request is billed, in the fields of the reply: on a slot, over a walk, and for a drained stream. */
module Settlements {
  import opened Prelude
  import opened Slots
  import opened Errors
  import opened Cells
  import opened LimiterRuns
  import opened Walks
  import opened Charges
  import opened Retries
  import Windows
  import WalkTraces
  import Dispatcher
  import Shared = SharedWalks

  /** What a served request adds to a limited window: on a token window what its reply is billed at, elsewhere what it
      asks of the window. */
  predicate Adds(w: Windows.Window, route: Route, c: Windows.Costs, u: CallUsage, n: int) {
    if w == Windows.TPM || w == Windows.TPD then Billed(route, u, c.tokens, n) else CountsFor(w, c, n)
  }

  lemma ServedAdds(res: Reservation, route: Route, u: CallUsage, actual: nat, at: int, k: Key)
    requires Billed(route, u, res.c.tokens, actual) && LimitOf(res.limits, k.window).Some? && k.id == res.id
    ensures Adds(k.window, route, res.c, u, Contribution(Served(res, actual, at), k))
  {
    hide Billed;
  }

  /** In one bucket, a slot that served raises every limited window of the caller's cell at that provider by what the
      reply is billed at or what the request asks. */
  lemma {:induction false} ServedSlotIsBilled(plan: Plan, req: Request, slot: Slot, m: Counters, meter: Meter,
                                              w: Windows.Window)
    requires ClockAdvances(plan.env) && Timely(m, Now(plan, meter))
    requires Attempt(plan, req, slot, m, meter).outcome.Served? && LimitOf(slot.limits, w).Some?
    requires OneBucket(w, Now(plan, meter), Now(plan, Attempt(plan, req, slot, m, meter).meter))
    ensures var run := Attempt(plan, req, slot, m, meter);
            var k := Key(CellId(req.keyHash, req.model, slot.provider, LevelModel), w);
            var to := Now(plan, run.meter);
            && run.contacts != []
            && var reply := run.contacts[|run.contacts| - 1].reply;
               reply.Ok? && Adds(w, req.route, req.c, reply.usage, Reading(run.m, k, to) - Reading(m, k, to))
  {
    hide Windows.Label, Tries, Reading, Effect, Contribution, Adds, Billed, OneBucket, MaxTries, Reservable;
    var run := Attempt(plan, req, slot, m, meter);
    var from, to := Now(plan, meter), Now(plan, run.meter);
    var k := Key(CellId(req.keyHash, req.model, slot.provider, LevelModel), w);
    TriesPersist(plan, req, slot, MaxTries(plan, slot), m, meter, None, None);
    SlotAccounting(plan, req, slot, m, meter);
    EffectContributes(req, slot, m, from, to, run.outcome, k);
    ServedAdds(run.outcome.res, req.route, run.contacts[|run.contacts| - 1].reply.usage, run.outcome.actual,
               run.outcome.at, k);
  }

  /** In one bucket, a stream that is drained raises every limited window of its cell as a buffered reply with the same
      usage would, and one that breaks off raises none. */
  lemma {:induction false} ClosedStreamIsBilled(m0: Counters, m: Counters, res: Reservation, from: int, failed: bool,
                                                usage: CallUsage, now: int, w: Windows.Window)
    requires Timely(m0, res.at) && res.at <= from <= now && Reservable(m0, res)
    requires Alike(Holding(m0, res), m, from)
    requires LimitOf(res.limits, w).Some? && OneBucket(w, res.at, now)
    ensures var k := Key(res.id, w);
            var rise := Reading(Dispatcher.StreamClosed(m, res, failed, usage, now), k, now) - Reading(m0, k, now);
            if failed then rise == 0 else Adds(w, RouteChat, res.c, usage, rise)
  {
    hide Windows.Label, Reading, Adds, Billed, ActualTokens, Holding, Reservable, Dispatcher.StreamClosed;
    hide Contribution, Effect, Reported;
    var k := Key(res.id, w);
    Dispatcher.StreamCloses(m0, m, res, from, failed, usage, now);
    if !failed {
      var actual := ActualTokens(usage, res.c.tokens);
      OneBill(RouteChat, usage, res.c.tokens);
      ChatReportsAll(usage);
      ServedContributes(m0, res, actual, now, w);
      ServedAdds(res, RouteChat, usage, actual, now, k);
    }
  }

  lemma ChatReportsAll(u: CallUsage)
    ensures Reported(RouteChat, u) == u
  {
  }

  lemma ServedContributes(m0: Counters, res: Reservation, actual: nat, now: int, w: Windows.Window)
    requires Timely(m0, res.at) && res.at <= now && Reservable(m0, res)
    requires LimitOf(res.limits, w).Some? && OneBucket(w, res.at, now)
    ensures var k := Key(res.id, w);
            Reading(Effect(m0, Served(res, actual, now)), k, now)
            == Reading(m0, k, now) + Contribution(Served(res, actual, now), k)
  {
    hide Windows.Label, Reading, Reserve, Reconcile;
    SettleReplacesTokens(m0, res.id, res.limits, res.c, actual, res.at, now);
  }

  // ---------- over a walk ----------

  /** The caller's cell at a provider. */
  function CellAt(req: Request, slot: Slot, w: Windows.Window): Key {
    Key(CellId(req.keyHash, req.model, slot.provider, LevelModel), w)
  }

  lemma VisitIsBilled(plan: Plan, req: Request, slots: seq<Slot>, meter: Meter, visits: seq<SlotRun>, i: nat,
                      w: Windows.Window)
    requires AllOrderly(plan, req, slots, meter, visits) && Shared.OwnReservations(req, slots, visits)
    requires i < |visits| && visits[i].outcome.Served? && LimitOf(slots[i].limits, w).Some?
    ensures var cs := visits[i].contacts;
            && cs != [] && cs[|cs| - 1].reply.Ok?
            && Adds(w, req.route, req.c, cs[|cs| - 1].reply.usage,
                    Contribution(visits[i].outcome, CellAt(req, slots[i], w)))
  {
    hide Adds, Billed, Contribution, Persists, HearsInTurn;
    var run := visits[i];
    assert Orderly(plan, req, TriesOn(plan, slots[i]), BeforeVisit(meter, visits, i), None, run);
    assert Shared.OwnReservation(req, slots[i], run.outcome);
    ServedAdds(run.outcome.res, req.route, run.contacts[|run.contacts| - 1].reply.usage, run.outcome.actual,
               run.outcome.at, CellAt(req, slots[i], w));
  }

  /** In one bucket, a walk that is served raises every limited window of the cell at the serving provider by what the
      last reply is billed at or what the request asks, beside the charges that slots left midway keep in that cell. */
  lemma {:induction false} ServedWalkIsBilled(plan: Plan, req: Request, slots: seq<Slot>, m: Counters, meter: Meter,
                                              w: Windows.Window)
    requires ClockAdvances(plan.env) && Timely(m, Now(plan, meter))
    requires WalkInBucket(plan, req, slots, m, meter, w)
    requires var visits := Walk(plan, req, slots, m, meter).visits;
             && visits != [] && visits[|visits| - 1].outcome.Served?
             && ConstrainedBy(req, slots, Key(visits[|visits| - 1].outcome.res.id, w))
    ensures var visits := Walk(plan, req, slots, m, meter).visits;
            var n := |visits| - 1;
            n < |slots|
            && var k, to, cs := CellAt(req, slots[n], w), Now(plan, EndMeter(meter, visits)), visits[n].contacts;
               && cs != [] && cs[|cs| - 1].reply.Ok?
               && Adds(w, req.route, req.c, cs[|cs| - 1].reply.usage,
                       Reading(EndCounters(m, visits), k, to) - Reading(m, k, to) - Contributions(visits[..n], k))
  {
    hide Walk, Reading, Adds, AllOrderly, Contribution, Contributions, WalkInBucket, Timely, ClockAdvances;
    WalkPersists(plan, req, slots, m, meter);
    Shared.WalksTakeOwnReservations(plan, req, slots, m, meter);
    var visits := Walk(plan, req, slots, m, meter).visits;
    var n := |visits| - 1;
    assert slots[n] in slots && Shared.OwnReservation(req, slots[n], visits[n].outcome);
    VisitIsBilled(plan, req, slots, meter, visits, n, w);
    WalkTraces.ContributionsSplit(visits, CellAt(req, slots[n], w));
    WalkLedger(plan, req, slots, m, meter, CellAt(req, slots[n], w));
  }

  /** Among others a served slot owes the same, so that is what `SharedWalks.WalkUnderInterference` finds counted. */
  lemma {:induction false} ServedAmongOthersIsBilled(c: Shared.Crowd, plan: Plan, req: Request, slots: seq<Slot>,
                                                     s: Shared.P.State, meter: Meter, i: nat, w: Windows.Window)
    requires Shared.Begins(c, req, slots, s)
    requires var visits := Shared.WalkAmong(c, plan, req, slots, s, meter).1.visits;
             i < |visits| <= |slots| && visits[i].outcome.Served? && LimitOf(slots[i].limits, w).Some?
    ensures var visits := Shared.WalkAmong(c, plan, req, slots, s, meter).1.visits;
            var cs := visits[i].contacts;
            && cs != [] && cs[|cs| - 1].reply.Ok?
            && Adds(w, req.route, req.c, cs[|cs| - 1].reply.usage,
                    Contribution(visits[i].outcome, CellAt(req, slots[i], w)))
  {
    hide Shared.SharedWalk, Adds, AllOrderly, Contribution, Shared.Arrived, Shared.AllForeign, Shared.Configured;
    Shared.NothingLogged(c, s);
    SharedWalkPersists(c, plan, req, slots, c.base, Shared.World(s, [], 0), meter);
    Shared.SharedWalkArrives(c, s, plan, req, slots, c.base, Shared.World(s, [], 0), meter);
    VisitIsBilled(plan, req, slots, meter, Shared.WalkAmong(c, plan, req, slots, s, meter).1.visits, i, w);
  }

  /** A stream that is drained among others leaves its request owing what a buffered reply with the same usage is billed
      at; one that breaks off owes nothing. */
  lemma {:induction false} StreamAmongOthersIsBilled(c: Shared.Crowd, s0: Shared.P.State, req: Request, slot: Slot,
                                                     tid: nat, w: Shared.World, res: Reservation, failed: bool,
                                                     usage: CallUsage, now: int, v: Windows.Window)
    requires Shared.AllForeign(c) && Shared.Ours(c, w, tid)
    requires Shared.OwnReservation(req, slot, Streaming(res)) && LimitOf(slot.limits, v).Some?
    requires w.s.threads[tid] == Shared.P.Thread(Shared.P.Request(CellOf(req, slot), req.c), Shared.P.Held)
    ensures var e := if failed then Shared.P.Cancel(tid, now)
                     else Shared.P.Finish(tid, now, ActualTokens(usage, req.c.tokens));
            var owed := Shared.P.Owes(slot.limits, Shared.Operate(c, w, e, tid).s.threads[tid], CellAt(req, slot, v));
            if failed then owed == 0 else Adds(v, RouteChat, req.c, usage, owed)
  {
    hide Shared.AllForeign, Shared.Operate, Adds, Billed, ActualTokens, Contribution, Shared.KeepsOthers, Reported;
    Shared.StreamClosesAmong(c, s0, req, slot, tid, w, res, failed, usage, now);
    if !failed {
      var actual := ActualTokens(usage, req.c.tokens);
      OneBill(RouteChat, usage, req.c.tokens);
      ChatReportsAll(usage);
      ServedAdds(res, RouteChat, usage, actual, now, CellAt(req, slot, v));
      Shared.SlotOwesItsContribution(req, slot, Served(res, actual, now), CellAt(req, slot, v));
    }
  }
}
