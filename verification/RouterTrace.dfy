/** What a dispatched request does to the router: its resolves and the records of its calls as router events, and what
    that makes of the provider groups it is served from. */
module RouterTraces {
  import opened Prelude
  import opened Slots
  import opened Errors
  import opened Walks
  import Cells
  import opened Routers
  import Groups
  import Breakers

  // ---------- the resolves of a visit ----------

  /** The call goes to the target of the r-th resolve. */
  predicate Answered(env: Env, r: nat, c: Contact) { env.resolve(r) == Resolved(c.target) }

  /** The i-th call goes to the target of the i-th resolve, and at most one resolve has no call: the one that ends the
      visit, by failing or because the limiter turns the slot away. */
  ghost predicate CallsWhatItResolves(plan: Plan, before: nat, held: bool, run: SlotRun) {
    var n := |run.contacts|;
    && before + n <= run.meter.resolves <= before + n + 1
    && (forall i | 0 <= i < n :: Answered(plan.env, before + i, run.contacts[i]))
    && (run.meter.resolves == before + n + 1 ==>
          run.outcome.Lost? && (if run.outcome.exit.TurnedAway? then n == 0 && !held
                                else !plan.env.resolve(before + n).Resolved?))
    && (run.outcome.Lost? && run.outcome.exit.TurnedAway? ==>
          !held && n == 0 && run.meter.resolves == before + 1 && plan.env.resolve(before).Resolved?)
  }

  lemma {:induction false} TriesCallWhatTheyResolve(plan: Plan, req: Request, slot: Slot, left: nat, m: Cells.Counters,
                                                    meter: Meter, held: Option<Reservation>, lastErr: Option<Error>)
    ensures CallsWhatItResolves(plan, meter.resolves, held.Some?,
                                Tries(plan, req, slot, left, m, meter, held, lastErr))
    decreases left, 1
  {
    hide Cells.Reserve, Cells.Refund, Cells.Reconcile, Send, CellOf, UpstreamError, IsTerminal;
    if left > 0 && !Spent(plan, meter) && plan.env.resolve(meter.resolves).Resolved? {
      var meter1 := meter.(resolves := meter.resolves + 1);
      var target := plan.env.resolve(meter.resolves).target;
      if held.Some? {
        SendCallsWhatItResolves(plan, req, slot, left, m, meter1, held.value, target);
      } else {
        var meter2 := meter1.(ticks := meter1.ticks + 1);
        var res := Reservation(CellOf(req, slot), slot.limits, req.c, Now(plan, meter));
        SendCallsWhatItResolves(plan, req, slot, left, Holding(m, res), meter2, res, target);
      }
    }
  }

  lemma {:induction false} SendCallsWhatItResolves(plan: Plan, req: Request, slot: Slot, left: nat, m: Cells.Counters,
                                                   meter: Meter, res: Reservation, target: Target)
    requires left > 0 && meter.resolves > 0 && plan.env.resolve(meter.resolves - 1) == Resolved(target)
    ensures CallsWhatItResolves(plan, meter.resolves - 1, false, Send(plan, req, slot, left, m, meter, res, target))
    ensures var run := Send(plan, req, slot, left, m, meter, res, target);
            run.contacts != [] && !(run.outcome.Lost? && run.outcome.exit.TurnedAway?)
    decreases left, 0
  {
    hide Cells.Reserve, Cells.Refund, Cells.Reconcile, Tries;
    var reply := ReplyOf(plan, req, meter);
    if !reply.Ok? && !IsTerminal(UpstreamError(reply)) {
      var err := UpstreamError(reply);
      var meter1 := meter.(attempts := meter.attempts + 1);
      var backsOff := left > 1 && RetryableUpstream(err);
      var meter2 := if backsOff then meter1.(sleeps := meter.sleeps + 1) else meter1;
      if !(backsOff && !plan.env.awake(meter.sleeps)) {
        TriesCallWhatTheyResolve(plan, req, slot, left - 1, m, meter2, Some(res), Some(Api(err)));
        var rest := Tries(plan, req, slot, left - 1, m, meter2, Some(res), Some(Api(err)));
        OneMoreCall(plan, meter.resolves - 1, Contact(slot, target, reply), rest);
      }
    }
  }

  lemma OneMoreCall(plan: Plan, before: nat, c: Contact, rest: SlotRun)
    requires plan.env.resolve(before) == Resolved(c.target) && CallsWhatItResolves(plan, before + 1, true, rest)
    ensures CallsWhatItResolves(plan, before, false, rest.(contacts := [c] + rest.contacts))
    ensures !(rest.outcome.Lost? && rest.outcome.exit.TurnedAway?)
  {
    var run := rest.(contacts := [c] + rest.contacts);
    forall i | 0 <= i < |run.contacts|
      ensures Answered(plan.env, before + i, run.contacts[i])
    {
      if i > 0 {
        assert Answered(plan.env, before + 1 + (i - 1), rest.contacts[i - 1]);
      }
    }
  }

  /** On every slot. */
  lemma {:induction false} SlotCallsWhatItResolves(plan: Plan, req: Request, slot: Slot, m: Cells.Counters,
                                                   meter: Meter)
    ensures CallsWhatItResolves(plan, meter.resolves, false, Attempt(plan, req, slot, m, meter))
  {
    hide Tries, CallsWhatItResolves;
    TriesCallWhatTheyResolve(plan, req, slot, MaxTries(plan, slot), m, meter, None, None);
  }

  // ---------- a visit as router events ----------

  /** The record of a call as a router event. */
  function EventOf(r: Record, at: nat): RouterEvent {
    match r
    case Credited(t) => Succeeding(t)
    case Blamed(t, status) => Failing(t, status, at)
  }

  /** Each call is a resolve followed by its record. `at` gives the router's clock readings, from the n-th on. */
  function CallEvents(model: string, provider: string, calls: seq<Contact>, at: nat -> nat, n: nat): seq<RouterEvent>
    decreases |calls|
  {
    if calls == [] then []
    else
      [Resolving(model, provider, at(n)), EventOf(RecordOf(calls[0]), at(n + 1))]
      + CallEvents(model, provider, calls[1..], at, n + 2)
  }

  /** The router behind the resolves: from `r` on, they are what the router answers at each point of the visit. */
  ghost predicate RouterAnswers(v: RouterView, env: Env, r: nat, model: string, provider: string, calls: seq<Contact>,
                          at: nat -> nat, n: nat)
    decreases |calls|
  {
    calls == [] ||
    (var (v1, answer) := Resolve(v, model, provider, at(n));
     && env.resolve(r) == answer
     && RouterAnswers(NextRouter(v1, EventOf(RecordOf(calls[0]), at(n + 1))), env, r + 1, model, provider, calls[1..],
                      at, n + 2))
  }

  // ---------- a visit as events of one group ----------

  function GroupEventOf(r: Record, at: nat): Groups.Event {
    match r
    case Credited(t) => Groups.SucceedAt(t.apiKey, at)
    case Blamed(t, status) => Groups.FailAt(t.apiKey, status, at)
  }

  function GroupEvents(calls: seq<Contact>, at: nat -> nat, n: nat): seq<Groups.Event>
    decreases |calls|
  {
    if calls == [] then []
    else
      [Groups.ServeAt(at(n)), GroupEventOf(RecordOf(calls[0]), at(n + 1))] + GroupEvents(calls[1..], at, n + 2)
  }

  lemma {:induction false} StateAtAppend(g: Groups.GroupView, a: seq<Groups.Event>, b: seq<Groups.Event>, j: nat)
    requires j <= |b|
    ensures Groups.StateAt(g, a + b, |a|) == Groups.StateAt(g, a, |a|)
    ensures Groups.StateAt(g, a + b, |a| + j) == Groups.StateAt(Groups.StateAt(g, a, |a|), b, j)
    decreases j
  {
    hide Groups.Next;
    PrefixState(g, a, b, |a|);
    if j > 0 {
      StateAtAppend(g, a, b, j - 1);
    }
  }

  lemma {:induction false} PrefixState(g: Groups.GroupView, a: seq<Groups.Event>, b: seq<Groups.Event>, i: nat)
    requires i <= |a|
    ensures Groups.StateAt(g, a + b, i) == Groups.StateAt(g, a, i)
    decreases i
  {
    hide Groups.Next;
    if i > 0 {
      PrefixState(g, a, b, i - 1);
    }
  }

  /** Paired runs one after another are paired. */
  lemma {:induction false} PairedAppend(g: Groups.GroupView, a: seq<Groups.Event>, b: seq<Groups.Event>)
    requires Groups.Paired(g, a) && Groups.Paired(Groups.StateAt(g, a, |a|), b)
    ensures Groups.Paired(g, a + b)
  {
    hide Groups.Next, Groups.Serve;
    var all, mid := a + b, Groups.StateAt(g, a, |a|);
    forall i | 0 <= i < |all| && !all[i].ServeAt?
      ensures i > 0 && all[i - 1].ServeAt? && Groups.HandedAt(g, all, i - 1) == Some(all[i].apiKey)
    {
      if i < |a| {
        assert a[i] == all[i] && a[i - 1] == all[i - 1];
        PrefixState(g, a, b, i - 1);
      } else {
        assert b[i - |a|] == all[i] && b[i - |a| - 1] == all[i - 1];
        StateAtAppend(g, a, b, i - |a| - 1);
      }
    }
  }

  /** One call: the group that answers the resolve is the one its record lands on. */
  lemma CallMovesItsGroup(v: RouterView, model: string, provider: string, c: Contact, t: nat, u: nat)
    requires Filed(v) && Resolve(v, model, provider, t).1 == Resolved(c.target)
    ensures var i := ChooseGroup(GroupsOf(v, model), provider);
            i.Some?
            && var g := GroupsOf(v, model)[i.value];
               var v2 := NextRouter(Resolve(v, model, provider, t).0, EventOf(RecordOf(c), u));
               && Filed(v2) && ChooseGroup(GroupsOf(v2, model), provider) == i
               && Groups.Serve(g, t).1 == Groups.Handed(c.target.apiKey)
               && GroupsOf(v2, model)[i.value] == Groups.Next(Groups.Serve(g, t).0, GroupEventOf(RecordOf(c), u))
  {
    hide Groups.Serve, Groups.Fail, Groups.Succeed, FindGroup, SameShape, RecordOf;
    var (v1, r) := Resolve(v, model, provider, t);
    OutcomeFindsItsGroup(v, model, provider, t);
    var e := EventOf(RecordOf(c), u);
    NextKeepsShape(v, Resolving(model, provider, t));
    NextKeepsShape(v1, e);
    ShapeKeepsFiling(v, v1, model, provider);
    ShapeKeepsFiling(v1, NextRouter(v1, e), model, provider);
    RecordTarget(c);
  }

  lemma RecordTarget(c: Contact)
    ensures RecordOf(c).target == c.target
  {
    hide UpstreamError;
  }

  lemma ShapeKeepsFiling(v: RouterView, w: RouterView, model: string, slot: string)
    requires Filed(v) && SameShape(v, w)
    ensures Filed(w) && ChooseGroup(GroupsOf(w, model), slot) == ChooseGroup(GroupsOf(v, model), slot)
  {
    forall m, i | m in w.groups && 0 <= i < |w.groups[m]| ensures w.groups[m][i].model == m {
      assert SameGroups(v.groups[m], w.groups[m]);
      assert SameGroup(v.groups[m][i], w.groups[m][i]);
    }
    var gs, hs := GroupsOf(v, model), GroupsOf(w, model);
    assert |gs| == |hs| && forall i | 0 <= i < |gs| :: SameGroup(gs[i], hs[i]);
    assert forall i | 0 <= i < |gs| :: Routers.Answers(hs[i], slot) == Routers.Answers(gs[i], slot);
  }

  /** Two events of a group: a request it serves and the outcome recorded for it. */
  lemma CallIsPaired(g: Groups.GroupView, c: Contact, t: nat, u: nat)
    requires Groups.Serve(g, t).1 == Groups.Handed(c.target.apiKey)
    ensures var run := [Groups.ServeAt(t), GroupEventOf(RecordOf(c), u)];
            && Groups.Paired(g, run) && Groups.HandedAt(g, run, 0) == Some(c.target.apiKey)
            && Groups.StateAt(g, run, 2) == Groups.Next(Groups.Serve(g, t).0, GroupEventOf(RecordOf(c), u))
  {
    hide Groups.Serve, Groups.Fail, Groups.Succeed, RecordOf;
    RecordTarget(c);
    var run := [Groups.ServeAt(t), GroupEventOf(RecordOf(c), u)];
    assert Groups.StateAt(g, run, 0) == g;
    assert Groups.StateAt(g, run, 1) == Groups.Serve(g, t).0;
  }

  /** Every call of a visit is served by the group the slot name chooses and recorded there right after: in the events
      of that group each outcome directly follows the request it answers. */
  lemma {:induction false} CallsArePaired(v: RouterView, env: Env, r: nat, model: string, provider: string,
                                          calls: seq<Contact>, at: nat -> nat, n: nat, i: nat)
    requires Filed(v) && RouterAnswers(v, env, r, model, provider, calls, at, n)
    requires ChooseGroup(GroupsOf(v, model), provider) == Some(i)
    requires forall j | 0 <= j < |calls| :: Answered(env, r + j, calls[j])
    ensures var g, run := GroupsOf(v, model)[i], GroupEvents(calls, at, n);
            var w := CallsLeave(v, model, provider, calls, at, n);
            && Groups.Paired(g, run)
            && i < |GroupsOf(w, model)| && GroupsOf(w, model)[i] == Groups.StateAt(g, run, |run|)
    decreases |calls|
  {
    hide Resolve, NextRouter, Groups.Serve, Groups.Next, Groups.Paired, Filed, RecordOf;
    var g := GroupsOf(v, model)[i];
    if calls == [] {
      NothingIsPaired(g);
    } else {
      var c, t, u := calls[0], at(n), at(n + 1);
      CallMovesItsGroup(v, model, provider, c, t, u);
      CallIsPaired(g, c, t, u);
      var v2 := NextRouter(Resolve(v, model, provider, t).0, EventOf(RecordOf(c), u));
      forall j | 0 <= j < |calls| - 1 ensures Answered(env, r + 1 + j, calls[1..][j]) {
        assert Answered(env, r + (j + 1), calls[j + 1]);
      }
      CallsArePaired(v2, env, r + 1, model, provider, calls[1..], at, n + 2, i);
      var head, rest := [Groups.ServeAt(t), GroupEventOf(RecordOf(c), u)], GroupEvents(calls[1..], at, n + 2);
      PairedAppend(g, head, rest);
      StateAtAppend(g, head, rest, |rest|);
    }
  }

  lemma NothingIsPaired(g: Groups.GroupView)
    ensures Groups.Paired(g, []) && Groups.StateAt(g, [], 0) == g
  {
  }

  /** The router after the calls of a visit. */
  function CallsLeave(v: RouterView, model: string, provider: string, calls: seq<Contact>, at: nat -> nat, n: nat)
    : RouterView
    decreases |calls|
  {
    if calls == [] then v
    else
      var v2 := NextRouter(Resolve(v, model, provider, at(n)).0, EventOf(RecordOf(calls[0]), at(n + 1)));
      CallsLeave(v2, model, provider, calls[1..], at, n + 2)
  }

  lemma {:induction false} RouterRunAppend(v: RouterView, a: seq<RouterEvent>, b: seq<RouterEvent>)
    ensures RouterRun(v, a + b) == RouterRun(RouterRun(v, a), b)
    decreases |b|
  {
    hide NextRouter;
    if b == [] {
      assert a + b == a;
    } else {
      assert (a + b)[..|a + b| - 1] == a + b[..|b| - 1];
      RouterRunAppend(v, a, b[..|b| - 1]);
    }
  }

  /** What the calls of a visit leave is the run of their events. */
  lemma {:induction false} CallsLeaveTheirRun(v: RouterView, model: string, provider: string, calls: seq<Contact>,
                                              at: nat -> nat, n: nat)
    ensures CallsLeave(v, model, provider, calls, at, n) == RouterRun(v, CallEvents(model, provider, calls, at, n))
    decreases |calls|
  {
    hide Resolve, RecordOf, EventOf;
    if calls != [] {
      var resolving, record := Resolving(model, provider, at(n)), EventOf(RecordOf(calls[0]), at(n + 1));
      var v1 := NextRouter(v, resolving);
      var v2 := NextRouter(v1, record);
      assert [resolving][..0] == [] && RouterRun(v, [resolving]) == v1;
      assert [resolving, record][..1] == [resolving] && RouterRun(v, [resolving, record]) == v2;
      RouterRunAppend(v, [resolving, record], CallEvents(model, provider, calls[1..], at, n + 2));
      CallsLeaveTheirRun(v2, model, provider, calls[1..], at, n + 2);
    }
  }

  /** A visit of the dispatcher keeps the group it is served from paired: for a service that works on one request at a
      time a quarantined credential stays out for its whole year (`Groups.QuarantineHoldsWhenPaired`,
      `PairedAppend`). */
  lemma {:induction false} VisitIsPaired(v: RouterView, plan: Plan, req: Request, slot: Slot, m: Cells.Counters,
                                         meter: Meter, at: nat -> nat, i: nat)
    requires Filed(v) && ChooseGroup(GroupsOf(v, req.model), slot.provider) == Some(i)
    requires var calls := Attempt(plan, req, slot, m, meter).contacts;
             RouterAnswers(v, plan.env, meter.resolves, req.model, slot.provider, calls, at, 0)
    ensures var calls := Attempt(plan, req, slot, m, meter).contacts;
            var g, run := GroupsOf(v, req.model)[i], GroupEvents(calls, at, 0);
            var w := CallsLeave(v, req.model, slot.provider, calls, at, 0);
            && Groups.Paired(g, run)
            && i < |GroupsOf(w, req.model)| && GroupsOf(w, req.model)[i] == Groups.StateAt(g, run, |run|)
  {
    hide Attempt, RouterAnswers, Groups.Paired, Filed;
    SlotCallsWhatItResolves(plan, req, slot, m, meter);
    var calls := Attempt(plan, req, slot, m, meter).contacts;
    CallsArePaired(v, plan.env, meter.resolves, req.model, slot.provider, calls, at, 0, i);
  }

  /** A slot the limiter turns away has been resolved once, records no outcome, and leaves the seat it was granted
      taken: if the resolve was the probe of an open breaker, the group refuses every later request. */
  lemma {:induction false} TurnedAwayKeepsTheSeat(v: RouterView, plan: Plan, req: Request, slot: Slot,
                                                  m: Cells.Counters, meter: Meter, t: nat, u: nat)
    requires Filed(v)
    requires var out := Attempt(plan, req, slot, m, meter).outcome; out.Lost? && out.exit.TurnedAway?
    requires plan.env.resolve(meter.resolves) == Resolve(v, req.model, slot.provider, t).1
    ensures var run := Attempt(plan, req, slot, m, meter);
            var i := ChooseGroup(GroupsOf(v, req.model), slot.provider);
            && RecordsOf(run.contacts) == [] && run.meter.resolves == meter.resolves + 1
            && i.Some?
            && var g := GroupsOf(v, req.model)[i.value];
               var gs := GroupsOf(Resolve(v, req.model, slot.provider, t).0, req.model);
               && i.value < |gs|
               && (g.health.mode != Breakers.Closed ==> Groups.Serve(gs[i.value], u).1 == Groups.Refused)
  {
    hide Attempt;
    SlotCallsWhatItResolves(plan, req, slot, m, meter);
    OutcomeFindsItsGroup(v, req.model, slot.provider, t);
    var i := ChooseGroup(GroupsOf(v, req.model), slot.provider).value;
    var g := GroupsOf(v, req.model)[i];
    GrantTakesTheSeat(g, t);
    ResolveServes(v, req.model, slot.provider, t, i);
    if g.health.mode != Breakers.Closed {
      Groups.TakenSeatRefuses(Groups.Serve(g, t).0, u);
    }
  }

  lemma ResolveServes(v: RouterView, model: string, slot: string, t: nat, i: nat)
    requires Resolve(v, model, slot, t).1.Resolved? && ChooseGroup(GroupsOf(v, model), slot) == Some(i)
    ensures var gs := GroupsOf(Resolve(v, model, slot, t).0, model);
            && i < |gs| && gs[i] == Groups.Serve(GroupsOf(v, model)[i], t).0
            && Groups.Serve(GroupsOf(v, model)[i], t).1.Handed?
  {
    hide Groups.Serve;
  }

  /** Handing out a credential from a breaker that is not closed takes its one seat. */
  lemma GrantTakesTheSeat(g: Groups.GroupView, t: nat)
    ensures Groups.Serve(g, t).1.Handed? && g.health.mode != Breakers.Closed ==>
              var h := Groups.Serve(g, t).0.health; h.mode == Breakers.HalfOpen && h.probes > 0
  {
  }
}
