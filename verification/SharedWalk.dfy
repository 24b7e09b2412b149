/** The slot walk over shared counters. The walk's own events are the locked sections of the limiter protocol; before
    each of them any number of other requests may run any of theirs. Every slot visited is one request of the
    protocol. */
module SharedWalks {
  import opened Prelude
  import opened Slots
  import opened Errors
  import opened Cells
  import opened LimiterRuns
  import opened Walks
  import P = LimiterProtocol
  import Windows
  import Routers

  /** Where a visited slot leaves its request in the protocol. A stream is held until it is settled or refunded. */
  function PhaseOf(outcome: Outcome): P.Phase {
    match outcome
    case Served(_, actual, at) => P.Settled(at, actual)
    case Streaming(_) => P.Held
    case Lost(_, Kept(_)) => P.Held
    case Lost(_, Refunded) => P.Refunded
    case Lost(_, TurnedAway) => P.Rejected
    case Lost(_, Unreserved) => P.Idle
  }

  /** The requests a walk makes of the limiter, one per visited slot. */
  function RequestsOf(req: Request, slots: seq<Slot>, visits: seq<SlotRun>): seq<P.Thread>
    requires |visits| <= |slots|
  {
    if visits == [] then []
    else
      [P.Thread(P.Request(CellOf(req, slots[0]), req.c), PhaseOf(visits[0].outcome))]
      + RequestsOf(req, slots[1..], visits[1..])
  }

  /** A reservation that is still open or was settled is the one its slot makes for the request. */
  ghost predicate OwnReservation(req: Request, slot: Slot, outcome: Outcome) {
    OpenOrServed(outcome).Some? ==>
      var res := OpenOrServed(outcome).value;
      res.id == CellOf(req, slot) && res.limits == slot.limits && res.c == req.c
  }

  ghost predicate OwnReservations(req: Request, slots: seq<Slot>, visits: seq<SlotRun>) {
    |visits| <= |slots| && forall i | 0 <= i < |visits| :: OwnReservation(req, slots[i], visits[i].outcome)
  }

  /** The limiter is configured with the limits of the slots. */
  ghost predicate Configured(config: P.Config, req: Request, slots: seq<Slot>) {
    forall s | s in slots :: P.LimitsFor(config, CellOf(req, s)) == s.limits
  }

  lemma SlotOwesItsContribution(req: Request, slot: Slot, outcome: Outcome, k: Key)
    requires OwnReservation(req, slot, outcome)
    ensures P.Owes(slot.limits, P.Thread(P.Request(CellOf(req, slot), req.c), PhaseOf(outcome)), k)
         == Contribution(outcome, k)
  {
    hide Charged, ServedCharge;
  }

  lemma {:induction false} WalkOwesItsContributions(config: P.Config, req: Request, slots: seq<Slot>,
                                                    visits: seq<SlotRun>, k: Key)
    requires OwnReservations(req, slots, visits) && Configured(config, req, slots)
    ensures P.TotalOwed(config, RequestsOf(req, slots, visits), k) == Contributions(visits, k)
    decreases |visits|
  {
    hide P.Owes, Contribution, PhaseOf;
    if visits != [] {
      SlotOwesItsContribution(req, slots[0], visits[0].outcome, k);
      assert slots[0] in slots;
      assert forall i | 0 <= i < |visits| - 1 :: visits[1..][i] == visits[i + 1] && slots[1..][i] == slots[i + 1];
      WalkOwesItsContributions(config, req, slots[1..], visits[1..], k);
      var ts := RequestsOf(req, slots, visits);
      assert ts[1..] == RequestsOf(req, slots[1..], visits[1..]);
    }
  }

  lemma {:induction false} OwedAppend(config: P.Config, a: seq<P.Thread>, b: seq<P.Thread>, k: Key)
    ensures P.TotalOwed(config, a + b, k) == P.TotalOwed(config, a, k) + P.TotalOwed(config, b, k)
    decreases |a|
  {
    hide P.Owes;
    if a == [] {
      assert a + b == b;
    } else {
      assert (a + b)[1..] == a[1..] + b;
      OwedAppend(config, a[1..], b, k);
    }
  }

  /** Every walk of the dispatcher takes only reservations of its own slots. */
  lemma {:induction false} WalksTakeOwnReservations(plan: Plan, req: Request, slots: seq<Slot>, m: Counters,
                                                    meter: Meter)
    requires ClockAdvances(plan.env) && Timely(m, Now(plan, meter))
    ensures OwnReservations(req, slots, Walk(plan, req, slots, m, meter).visits)
    decreases |slots|
  {
    hide Attempt, Stops, OwnReservation, Alike, Timely, Effect, Reading, Windows.Label;
    if slots != [] && !Spent(plan, meter) {
      var run := Attempt(plan, req, slots[0], m, meter);
      SlotAccounting(plan, req, slots[0], m, meter);
      SoundIsOwn(req, slots[0], m, Now(plan, meter), Now(plan, run.meter), run.outcome);
      if !Stops(run.outcome) {
        AlikeIsTimely(Effect(m, run.outcome), run.m, Now(plan, run.meter));
        WalksTakeOwnReservations(plan, req, slots[1..], run.m, run.meter);
      }
    }
  }

  lemma SoundIsOwn(req: Request, slot: Slot, m: Counters, from: int, to: int, outcome: Outcome)
    requires Sound(req, slot, m, from, to, outcome)
    ensures OwnReservation(req, slot, outcome)
  {
  }

  lemma AlikeIsTimely(m1: Counters, m2: Counters, now: int)
    requires Alike(m1, m2, now)
    ensures Timely(m2, now)
  {
  }

  // ---------- a walk's own events among others ----------

  /** The limits in force and what the other requests do: `others(n)` runs just before the walk's n-th own event. The
      walk's requests are those from `base` on. */
  datatype Crowd = Crowd(config: P.Config, others: nat -> seq<P.Event>, base: nat)

  /** The others work on requests of their own; they may sweep any counter. */
  ghost predicate Foreign(c: Crowd, events: seq<P.Event>) {
    forall e | e in events :: e.Sweep? || e.tid < c.base
  }

  ghost predicate AllForeign(c: Crowd) { forall n: nat :: Foreign(c, c.others(n)) }

  /** The shared state, every event so far, and the number of own events so far. */
  datatype World = World(s: P.State, log: seq<P.Event>, turn: nat)

  lemma {:induction false} ForeignKeeps(c: Crowd, s: P.State, events: seq<P.Event>)
    requires Foreign(c, events)
    ensures var s' := P.Exec(c.config, s, events);
            |s'.threads| == |s.threads| && forall j | c.base <= j < |s.threads| :: s'.threads[j] == s.threads[j]
    decreases |events|
  {
    hide P.Advance, P.Start, P.Evict;
    if events != [] {
      ForeignKeeps(c, P.Step(c.config, s, events[0]), events[1..]);
    }
  }

  /** The state in which the walk's next own event finds the limiter. */
  function Met(c: Crowd, w: World): (s: P.State)
    requires AllForeign(c)
    ensures |s.threads| == |w.s.threads| && forall j | c.base <= j < |s.threads| :: s.threads[j] == w.s.threads[j]
  {
    ForeignKeeps(c, w.s, c.others(w.turn));
    P.Exec(c.config, w.s, c.others(w.turn))
  }

  /** The others run, then the walk takes one own event. */
  function Own(c: Crowd, w: World, e: P.Event): (w': World)
    requires AllForeign(c)
    ensures |w'.s.threads| == |w.s.threads|
  {
    World(P.Step(c.config, Met(c, w), e), w.log + c.others(w.turn) + [e], w.turn + 1)
  }

  predicate Ours(c: Crowd, w: World, tid: nat) { c.base <= tid < |w.s.threads| }

  lemma OwnProceeds(c: Crowd, w: World, tid: nat)
    requires AllForeign(c) && Ours(c, w, tid)
    ensures Own(c, w, P.Proceed(tid)).s.threads[tid]
         == P.Advance(Met(c, w).cells, P.LimitsFor(c.config, w.s.threads[tid].req.id), w.s.threads[tid]).1
  {
    hide P.Advance, Met;
  }

  lemma AdvanceDecreases(m: Counters, limits: Limits, th: P.Thread)
    requires P.Busy(th)
    ensures var th' := P.Advance(m, limits, th).1;
            P.Busy(th') ==>
              || (th.phase.Reserving? && !th'.phase.Reserving?)
              || (th.phase.Reserving? == th'.phase.Reserving? && P.Remaining(th') < P.Remaining(th))
  {
    hide Windows.Label;
  }

  /** The locked sections of request `tid` until it rests, the others running before each. */
  function ToRest(c: Crowd, w: World, tid: nat): (w': World)
    requires AllForeign(c) && Ours(c, w, tid)
    ensures |w'.s.threads| == |w.s.threads|
    decreases P.Busy(w.s.threads[tid]), w.s.threads[tid].phase.Reserving?, P.Remaining(w.s.threads[tid])
  {
    if !P.Busy(w.s.threads[tid]) then w
    else
      OwnProceeds(c, w, tid);
      AdvanceDecreases(Met(c, w).cells, P.LimitsFor(c.config, w.s.threads[tid].req.id), w.s.threads[tid]);
      ToRest(c, Own(c, w, P.Proceed(tid)), tid)
  }

  /** One whole operation of request `tid`: the event that starts it and its locked sections. */
  function Operate(c: Crowd, w: World, e: P.Event, tid: nat): (w': World)
    requires AllForeign(c) && Ours(c, w, tid)
    ensures |w'.s.threads| == |w.s.threads|
  {
    ToRest(c, Own(c, w, e), tid)
  }

  // ---------- the retry loop and the walk over shared counters ----------

  /** A visit and the world it leaves. */
  datatype Shared = Shared(w: World, run: SlotRun)

  function Leave(w: World, meter: Meter, contacts: seq<Contact>, outcome: Outcome): Shared {
    Shared(w, SlotRun(w.s.cells, meter, contacts, outcome))
  }

  /** As `GiveUp`: a refund is an operation of the slot's request. */
  function SharedGiveUp(c: Crowd, plan: Plan, tid: nat, w: World, meter: Meter, held: Option<Reservation>,
                        lastErr: Option<Error>): (x: Shared)
    requires AllForeign(c) && Ours(c, w, tid)
    ensures |x.w.s.threads| == |w.s.threads|
  {
    var err := if lastErr.Some? then lastErr.value else Quota(RateLimited());
    if held.None? then Leave(w, meter, [], Lost(err, Unreserved))
    else
      var w1 := Operate(c, w, P.Cancel(tid, Now(plan, meter)), tid);
      Leave(w1, meter.(ticks := meter.ticks + 1), [], Lost(err, Refunded))
  }

  /** As `Tries`: a reservation is an operation of the slot's request, and holds when the request comes to rest held. */
  function SharedTries(c: Crowd, plan: Plan, req: Request, slot: Slot, tid: nat, left: nat, w: World, meter: Meter,
                       held: Option<Reservation>, lastErr: Option<Error>): (x: Shared)
    requires AllForeign(c) && Ours(c, w, tid)
    ensures |x.w.s.threads| == |w.s.threads|
    decreases left, 1
  {
    if left == 0 || Spent(plan, meter) then SharedGiveUp(c, plan, tid, w, meter, held, lastErr)
    else
      var meter1 := meter.(resolves := meter.resolves + 1);
      var resolution := plan.env.resolve(meter.resolves);
      if !resolution.Resolved? then
        Leave(w, meter1, [], Lost(Quota(RateLimited()), if held.Some? then Kept(held.value) else Unreserved))
      else if held.Some? then
        SharedSend(c, plan, req, slot, tid, left, w, meter1, held.value, resolution.target)
      else
        var now := Now(plan, meter1);
        var meter2 := meter1.(ticks := meter1.ticks + 1);
        var w1 := Operate(c, w, P.Begin(tid, now), tid);
        if !w1.s.threads[tid].phase.Held? then Leave(w1, meter2, [], Lost(Quota(RateLimited()), TurnedAway))
        else
          SharedSend(c, plan, req, slot, tid, left, w1, meter2,
                     Reservation(CellOf(req, slot), slot.limits, req.c, now), resolution.target)
  }

  /** As `Send`: a settlement is an operation of the slot's request. */
  function SharedSend(c: Crowd, plan: Plan, req: Request, slot: Slot, tid: nat, left: nat, w: World, meter: Meter,
                      res: Reservation, target: Routers.Target): (x: Shared)
    requires left > 0 && AllForeign(c) && Ours(c, w, tid)
    ensures |x.w.s.threads| == |w.s.threads|
    decreases left, 0
  {
    var reply := ReplyOf(plan, req, meter);
    var contact := Contact(slot, target, reply);
    var meter1 := meter.(attempts := meter.attempts + 1);
    var now := Now(plan, meter);
    var ticked := meter1.(ticks := meter.ticks + 1);
    if reply.Ok? then
      if Streams(req) then Leave(w, meter1, [contact], Streaming(res))
      else
        var actual := ActualTokens(Reported(req.route, reply.usage), res.c.tokens);
        Leave(Operate(c, w, P.Finish(tid, now, actual), tid), ticked, [contact], Served(res, actual, now))
    else
      var err := UpstreamError(reply);
      if IsTerminal(err) then
        Leave(Operate(c, w, P.Cancel(tid, now), tid), ticked, [contact], Lost(Api(err), Refunded))
      else
        var backsOff := left > 1 && RetryableUpstream(err);
        var meter2 := if backsOff then meter1.(sleeps := meter.sleeps + 1) else meter1;
        var rest :=
          if backsOff && !plan.env.awake(meter.sleeps) then
            SharedGiveUp(c, plan, tid, w, meter2, Some(res), Some(Api(err)))
          else SharedTries(c, plan, req, slot, tid, left - 1, w, meter2, Some(res), Some(Api(err)));
        rest.(run := rest.run.(contacts := [contact] + rest.run.contacts))
  }

  function SharedAttempt(c: Crowd, plan: Plan, req: Request, slot: Slot, tid: nat, w: World, meter: Meter): (x: Shared)
    requires AllForeign(c) && Ours(c, w, tid)
    ensures |x.w.s.threads| == |w.s.threads|
  {
    SharedTries(c, plan, req, slot, tid, MaxTries(plan, slot), w, meter, None, None)
  }

  /** As `Walk`: slot `i` is visited as request `tid + i`. */
  function SharedWalk(c: Crowd, plan: Plan, req: Request, slots: seq<Slot>, tid: nat, w: World, meter: Meter)
    : (x: (World, WalkRun))
    requires AllForeign(c) && c.base <= tid && tid + |slots| <= |w.s.threads|
    ensures |x.0.s.threads| == |w.s.threads|
    decreases |slots|
  {
    if slots == [] || Spent(plan, meter) then (w, WalkRun([], false))
    else
      var x := SharedAttempt(c, plan, req, slots[0], tid, w, meter);
      if Stops(x.run.outcome) then (x.w, WalkRun([x.run], false))
      else
        var (w', rest) := SharedWalk(c, plan, req, slots[1..], tid + 1, x.w, x.run.meter);
        (w', WalkRun([x.run] + rest.visits, rest.modelFailed || (|slots| == 1 && x.run.outcome.err.Api?)))
  }

  // ---------- where each operation ends ----------

  /** The log explains the state. */
  ghost predicate Explained(c: Crowd, s0: P.State, w: World) { P.Exec(c.config, s0, w.log) == w.s }

  /** What one visit keeps: the log explains the state, and the walk's other requests are where they were. */
  ghost predicate KeepsOthers(c: Crowd, s0: P.State, w: World, w': World, tid: nat) {
    && |w'.s.threads| == |w.s.threads|
    && (forall j | c.base <= j < |w.s.threads| && j != tid :: w'.s.threads[j] == w.s.threads[j])
    && (Explained(c, s0, w) ==> Explained(c, s0, w'))
  }

  lemma {:induction false} ExecAppend(config: P.Config, s: P.State, a: seq<P.Event>, b: seq<P.Event>)
    ensures P.Exec(config, s, a + b) == P.Exec(config, P.Exec(config, s, a), b)
    decreases |a|
  {
    hide P.Step;
    if a == [] {
      assert a + b == b;
    } else {
      assert (a + b)[1..] == a[1..] + b;
      ExecAppend(config, P.Step(config, s, a[0]), a[1..], b);
    }
  }

  lemma OwnKeeps(c: Crowd, s0: P.State, w: World, e: P.Event, tid: nat)
    requires AllForeign(c) && Ours(c, w, tid) && !e.Sweep? && e.tid == tid
    ensures KeepsOthers(c, s0, w, Own(c, w, e), tid)
  {
    hide P.Advance, P.Start;
    var before := c.others(w.turn);
    ExecAppend(c.config, s0, w.log, before);
    ExecAppend(c.config, s0, w.log + before, [e]);
    assert [e][1..] == [];
    assert w.log + before + [e] == (w.log + before) + [e];
  }

  /** Where a busy request may come to rest. */
  ghost predicate Lands(from: P.Phase, to: P.Phase) {
    match from
    case Reserving(_, _, _) => to.Held? || to.Rejected?
    case RollingBack(_, _) => to.Rejected?
    case Refunding(_, _) => to.Refunded?
    case Settling(now, actual, _) => to == P.Settled(now, actual)
    case _ => to == from
  }

  lemma AdvanceLands(m: Counters, limits: Limits, th: P.Thread, to: P.Phase)
    requires Lands(P.Advance(m, limits, th).1.phase, to)
    ensures Lands(th.phase, to)
  {
    hide Windows.Label;
  }

  lemma {:induction false} RestLands(c: Crowd, s0: P.State, w: World, tid: nat)
    requires AllForeign(c) && Ours(c, w, tid)
    ensures var w' := ToRest(c, w, tid);
            && KeepsOthers(c, s0, w, w', tid)
            && w'.s.threads[tid].req == w.s.threads[tid].req
            && Lands(w.s.threads[tid].phase, w'.s.threads[tid].phase)
    decreases P.Busy(w.s.threads[tid]), w.s.threads[tid].phase.Reserving?, P.Remaining(w.s.threads[tid])
  {
    hide P.Advance, Own, Met, Explained, Lands;
    var th := w.s.threads[tid];
    if P.Busy(th) {
      var w1 := Own(c, w, P.Proceed(tid));
      var m, limits := Met(c, w).cells, P.LimitsFor(c.config, th.req.id);
      OwnProceeds(c, w, tid);
      OwnKeeps(c, s0, w, P.Proceed(tid), tid);
      AdvanceDecreases(m, limits, th);
      P.AdvanceKeepsRequest(m, limits, th);
      RestLands(c, s0, w1, tid);
      AdvanceLands(m, limits, th, ToRest(c, w1, tid).s.threads[tid].phase);
    } else {
      RestingLands(th);
    }
  }

  lemma RestingLands(th: P.Thread)
    requires !P.Busy(th)
    ensures Lands(th.phase, th.phase)
  {
  }

  /** One operation takes its request from rest to rest and leaves the walk's other requests alone. */
  lemma OperationLands(c: Crowd, s0: P.State, w: World, e: P.Event, tid: nat)
    requires AllForeign(c) && Ours(c, w, tid) && !e.Sweep? && !e.Proceed? && e.tid == tid
    ensures var th, w' := w.s.threads[tid], Operate(c, w, e, tid);
            && KeepsOthers(c, s0, w, w', tid)
            && w'.s.threads[tid].req == th.req
            && (e.Begin? && th.phase.Idle? ==> w'.s.threads[tid].phase.Held? || w'.s.threads[tid].phase.Rejected?)
            && (e.Cancel? && th.phase.Held? ==> w'.s.threads[tid].phase.Refunded?)
            && (e.Finish? && th.phase.Held? ==> w'.s.threads[tid].phase == P.Settled(e.now, e.actual))
  {
    hide P.Advance, Explained, P.Busy;
    OwnKeeps(c, s0, w, e, tid);
    RestLands(c, s0, Own(c, w, e), tid);
  }

  // ---------- where each visit ends ----------

  /** What a try finds of the slot's request: idle, or held with the reservation it was admitted for. */
  ghost predicate Holds(req: Request, slot: Slot, th: P.Thread, held: Option<Reservation>) {
    && th.req == P.Request(CellOf(req, slot), req.c)
    && match held
       case None => th.phase.Idle?
       case Some(res) =>
         th.phase.Held? && res.id == CellOf(req, slot) && res.limits == slot.limits && res.c == req.c
  }

  /** A visit leaves its request where its outcome says, with a reservation of its own, and the walk's other requests
      where they were; and the log explains the state. */
  ghost predicate Settles(c: Crowd, s0: P.State, req: Request, slot: Slot, w: World, tid: nat, x: Shared) {
    && KeepsOthers(c, s0, w, x.w, tid)
    && Ours(c, x.w, tid)
    && x.w.s.threads[tid] == P.Thread(P.Request(CellOf(req, slot), req.c), PhaseOf(x.run.outcome))
    && OwnReservation(req, slot, x.run.outcome)
  }

  lemma StaysPut(c: Crowd, s0: P.State, req: Request, slot: Slot, w: World, tid: nat, meter: Meter,
                 contacts: seq<Contact>, outcome: Outcome)
    requires Ours(c, w, tid) && OwnReservation(req, slot, outcome)
    requires w.s.threads[tid] == P.Thread(P.Request(CellOf(req, slot), req.c), PhaseOf(outcome))
    ensures Settles(c, s0, req, slot, w, tid, Leave(w, meter, contacts, outcome))
  {
  }

  lemma KeepsCompose(c: Crowd, s0: P.State, w: World, w1: World, w2: World, tid: nat)
    requires KeepsOthers(c, s0, w, w1, tid) && KeepsOthers(c, s0, w1, w2, tid)
    ensures KeepsOthers(c, s0, w, w2, tid)
  {
    hide Explained;
  }

  lemma GiveUpSettles(c: Crowd, s0: P.State, plan: Plan, req: Request, slot: Slot, tid: nat, w: World, meter: Meter,
                      held: Option<Reservation>, lastErr: Option<Error>)
    requires AllForeign(c) && Ours(c, w, tid) && Holds(req, slot, w.s.threads[tid], held)
    ensures Settles(c, s0, req, slot, w, tid, SharedGiveUp(c, plan, tid, w, meter, held, lastErr))
  {
    hide Operate, Explained, AllForeign;
    if held.Some? {
      OperationLands(c, s0, w, P.Cancel(tid, Now(plan, meter)), tid);
    }
  }

  lemma {:induction false} TriesSettle(c: Crowd, s0: P.State, plan: Plan, req: Request, slot: Slot, tid: nat, left: nat,
                                       w: World, meter: Meter, held: Option<Reservation>, lastErr: Option<Error>)
    requires AllForeign(c) && Ours(c, w, tid) && Holds(req, slot, w.s.threads[tid], held)
    ensures Settles(c, s0, req, slot, w, tid, SharedTries(c, plan, req, slot, tid, left, w, meter, held, lastErr))
    decreases left, 1
  {
    hide Operate, Explained, AllForeign, SharedSend, SharedGiveUp, Settles, KeepsOthers, CellOf;
    if left == 0 || Spent(plan, meter) {
      GiveUpSettles(c, s0, plan, req, slot, tid, w, meter, held, lastErr);
    } else {
      var meter1 := meter.(resolves := meter.resolves + 1);
      var resolution := plan.env.resolve(meter.resolves);
      if !resolution.Resolved? {
        var outcome := Lost(Quota(RateLimited()), if held.Some? then Kept(held.value) else Unreserved);
        StaysPut(c, s0, req, slot, w, tid, meter1, [], outcome);
      } else if held.Some? {
        SendSettles(c, s0, plan, req, slot, tid, left, w, meter1, held.value, resolution.target);
      } else {
        var now := Now(plan, meter1);
        var meter2 := meter1.(ticks := meter1.ticks + 1);
        var w1 := Operate(c, w, P.Begin(tid, now), tid);
        OperationLands(c, s0, w, P.Begin(tid, now), tid);
        if w1.s.threads[tid].phase.Held? {
          var res := Reservation(CellOf(req, slot), slot.limits, req.c, now);
          SendSettles(c, s0, plan, req, slot, tid, left, w1, meter2, res, resolution.target);
          var x := SharedSend(c, plan, req, slot, tid, left, w1, meter2, res, resolution.target);
          SettlesFrom(c, s0, req, slot, w, w1, tid, x);
        } else {
          var x := Leave(w1, meter2, [], Lost(Quota(RateLimited()), TurnedAway));
          StaysPut(c, s0, req, slot, w1, tid, meter2, [], Lost(Quota(RateLimited()), TurnedAway));
          SettlesFrom(c, s0, req, slot, w, w1, tid, x);
        }
      }
    }
  }

  lemma SettlesFrom(c: Crowd, s0: P.State, req: Request, slot: Slot, w: World, w1: World, tid: nat, x: Shared)
    requires KeepsOthers(c, s0, w, w1, tid) && Settles(c, s0, req, slot, w1, tid, x)
    ensures Settles(c, s0, req, slot, w, tid, x)
  {
    hide Explained;
    KeepsCompose(c, s0, w, w1, x.w, tid);
  }

  lemma {:induction false} SendSettles(c: Crowd, s0: P.State, plan: Plan, req: Request, slot: Slot, tid: nat, left: nat,
                                       w: World, meter: Meter, res: Reservation, target: Routers.Target)
    requires left > 0 && AllForeign(c) && Ours(c, w, tid) && Holds(req, slot, w.s.threads[tid], Some(res))
    ensures Settles(c, s0, req, slot, w, tid, SharedSend(c, plan, req, slot, tid, left, w, meter, res, target))
    decreases left, 0
  {
    hide Operate, Explained, AllForeign, SharedTries, SharedGiveUp, KeepsOthers, CellOf;
    var reply := ReplyOf(plan, req, meter);
    var contact := Contact(slot, target, reply);
    var meter1 := meter.(attempts := meter.attempts + 1);
    var now := Now(plan, meter);
    if reply.Ok? {
      if Streams(req) {
        StaysPut(c, s0, req, slot, w, tid, meter1, [contact], Streaming(res));
      } else {
        var actual := ActualTokens(Reported(req.route, reply.usage), res.c.tokens);
        OperationLands(c, s0, w, P.Finish(tid, now, actual), tid);
      }
    } else {
      var err := UpstreamError(reply);
      if IsTerminal(err) {
        OperationLands(c, s0, w, P.Cancel(tid, now), tid);
      } else {
        var backsOff := left > 1 && RetryableUpstream(err);
        var meter2 := if backsOff then meter1.(sleeps := meter.sleeps + 1) else meter1;
        if backsOff && !plan.env.awake(meter.sleeps) {
          GiveUpSettles(c, s0, plan, req, slot, tid, w, meter2, Some(res), Some(Api(err)));
        } else {
          TriesSettle(c, s0, plan, req, slot, tid, left - 1, w, meter2, Some(res), Some(Api(err)));
        }
      }
    }
  }

  // ---------- contacts under interference ----------

  /** The call limits of the undisturbed loop hold among others: they depend on the replies and resolves alone. */
  lemma {:induction false} SharedTriesAreOrderly(c: Crowd, plan: Plan, req: Request, slot: Slot, tid: nat, left: nat,
                                                 w: World, meter: Meter, held: Option<Reservation>,
                                                 lastErr: Option<Error>)
    requires AllForeign(c) && Ours(c, w, tid)
    requires lastErr.Some? ==> held.Some? && lastErr.value.Api?
    ensures OrderlyTries(plan, slot, left, meter, held.Some?, lastErr,
                         SharedTries(c, plan, req, slot, tid, left, w, meter, held, lastErr).run)
    decreases left, 1
  {
    hide Operate, AllForeign, SharedSend, CellOf, UpstreamError, IsTerminal;
    if left > 0 && !Spent(plan, meter) && plan.env.resolve(meter.resolves).Resolved? {
      var meter1 := meter.(resolves := meter.resolves + 1);
      var target := plan.env.resolve(meter.resolves).target;
      if held.Some? {
        SharedSendIsOrderly(c, plan, req, slot, tid, left, w, meter1, held.value, target);
      } else {
        var now := Now(plan, meter1);
        var meter2 := meter1.(ticks := meter1.ticks + 1);
        var w1 := Operate(c, w, P.Begin(tid, now), tid);
        if w1.s.threads[tid].phase.Held? {
          var res := Reservation(CellOf(req, slot), slot.limits, req.c, now);
          SharedSendIsOrderly(c, plan, req, slot, tid, left, w1, meter2, res, target);
        }
      }
    }
  }

  lemma {:induction false} SharedSendIsOrderly(c: Crowd, plan: Plan, req: Request, slot: Slot, tid: nat, left: nat,
                                               w: World, meter: Meter, res: Reservation, target: Routers.Target)
    requires left > 0 && AllForeign(c) && Ours(c, w, tid)
    requires !Spent(plan, meter) && meter.resolves > 0 && plan.env.resolve(meter.resolves - 1).Resolved?
    ensures var run := SharedSend(c, plan, req, slot, tid, left, w, meter, res, target).run;
            && run.contacts != []
            && OrderlyTries(plan, slot, left, meter.(resolves := meter.resolves - 1), false, None, run)
    decreases left, 0
  {
    hide Operate, AllForeign, SharedTries;
    var reply := ReplyOf(plan, req, meter);
    if !reply.Ok? && !IsTerminal(UpstreamError(reply)) {
      var err := UpstreamError(reply);
      var meter1 := meter.(attempts := meter.attempts + 1);
      var backsOff := left > 1 && RetryableUpstream(err);
      var meter2 := if backsOff then meter1.(sleeps := meter.sleeps + 1) else meter1;
      if !(backsOff && !plan.env.awake(meter.sleeps)) {
        SharedTriesAreOrderly(c, plan, req, slot, tid, left - 1, w, meter2, Some(res), Some(Api(err)));
      }
    }
  }

  /** On one slot and among others: at most `MaxTries` calls within the budget, a decisive reply only at the end, and
      the reservation kept unserved exactly when a call was made and the resolve after it failed. */
  lemma {:induction false} SharedSlotIsOrderly(c: Crowd, plan: Plan, req: Request, slot: Slot, tid: nat, w: World,
                                               meter: Meter)
    requires AllForeign(c) && Ours(c, w, tid)
    ensures OrderlyTries(plan, slot, MaxTries(plan, slot), meter, false, None,
                         SharedAttempt(c, plan, req, slot, tid, w, meter).run)
  {
    hide SharedTries, OrderlyTries, AllForeign;
    SharedTriesAreOrderly(c, plan, req, slot, tid, MaxTries(plan, slot), w, meter, None, None);
  }

  lemma OrderlyTriesStop(plan: Plan, slot: Slot, left: nat, meter: Meter, run: SlotRun)
    requires OrderlyTries(plan, slot, left, meter, false, None, run) && left <= MaxTries(plan, slot)
    ensures OrderlyVisit(plan, slot, meter, run)
  {
    hide MaxTries, UpstreamError, RetryableUpstream;
    var n := |run.contacts|;
    if n > 0 && !run.contacts[n - 1].reply.Ok? {
      StopsWalkIff(run.contacts[n - 1].reply);
    }
  }

  /** Among others too, the walk calls only the slots it is given, in order, each at most `MaxTries` times and all
      within the budget; it ends at the first success or caller fault, and continues past everything else. */
  lemma {:induction false} SharedWalkIsOrderly(c: Crowd, plan: Plan, req: Request, slots: seq<Slot>, tid: nat, w: World,
                                               meter: Meter)
    requires AllForeign(c) && c.base <= tid && tid + |slots| <= |w.s.threads|
    ensures OrderlyWalk(plan, slots, meter, SharedWalk(c, plan, req, slots, tid, w, meter).1)
    decreases |slots|
  {
    hide SharedAttempt, AllForeign, MaxTries, Stops, IsTerminal, IsClientRejection, Decisive, OrderlyVisit;
    if slots != [] && !Spent(plan, meter) {
      var x := SharedAttempt(c, plan, req, slots[0], tid, w, meter);
      SharedSlotIsOrderly(c, plan, req, slots[0], tid, w, meter);
      OrderlyTriesStop(plan, slots[0], MaxTries(plan, slots[0]), meter, x.run);
      if Stops(x.run.outcome) {
        LastOrderly(plan, slots, meter, x.run);
      } else {
        SharedWalkIsOrderly(c, plan, req, slots[1..], tid + 1, x.w, x.run.meter);
        ConsOrderly(plan, slots, meter, x.run, SharedWalk(c, plan, req, slots[1..], tid + 1, x.w, x.run.meter).1);
      }
    }
  }

  // ---------- the main results ----------

  /** The walk's requests, one idle request per slot, are those from `tid` on. */
  ghost predicate Awaits(req: Request, slots: seq<Slot>, s: P.State, tid: nat) {
    tid + |slots| == |s.threads|
    && forall i | 0 <= i < |slots| ::
         s.threads[tid + i] == P.Thread(P.Request(CellOf(req, slots[i]), req.c), P.Idle)
  }

  /** Visited slots have their requests where the outcomes say, the others are still idle. */
  ghost predicate Arrived(req: Request, slots: seq<Slot>, visits: seq<SlotRun>, s: P.State, tid: nat) {
    && |visits| <= |slots| && tid + |slots| == |s.threads|
    && forall i | 0 <= i < |slots| ::
         s.threads[tid + i] == P.Thread(P.Request(CellOf(req, slots[i]), req.c),
                                        if i < |visits| then PhaseOf(visits[i].outcome) else P.Idle)
  }

  lemma ArrivedOneMore(req: Request, slots: seq<Slot>, run: SlotRun, rest: seq<SlotRun>, s: P.State, tid: nat)
    requires slots != [] && tid < |s.threads|
    requires s.threads[tid] == P.Thread(P.Request(CellOf(req, slots[0]), req.c), PhaseOf(run.outcome))
    requires Arrived(req, slots[1..], rest, s, tid + 1)
    ensures Arrived(req, slots, [run] + rest, s, tid)
  {
    hide CellOf, PhaseOf;
    forall i | 0 <= i < |slots|
      ensures s.threads[tid + i] == P.Thread(P.Request(CellOf(req, slots[i]), req.c),
                                             if i < 1 + |rest| then PhaseOf(([run] + rest)[i].outcome) else P.Idle)
    {
      if i > 0 {
        assert s.threads[tid + 1 + (i - 1)].req == P.Request(CellOf(req, slots[1..][i - 1]), req.c);
      }
    }
  }

  /** Every visit of a walk among others ends its request where its outcome says, and the log explains the state. */
  lemma {:induction false} SharedWalkArrives(c: Crowd, s0: P.State, plan: Plan, req: Request, slots: seq<Slot>,
                                             tid: nat, w: World, meter: Meter)
    requires AllForeign(c) && c.base <= tid && Awaits(req, slots, w.s, tid) && Explained(c, s0, w)
    ensures var (w', run) := SharedWalk(c, plan, req, slots, tid, w, meter);
            && Arrived(req, slots, run.visits, w'.s, tid)
            && OwnReservations(req, slots, run.visits)
            && Explained(c, s0, w')
            && forall j | c.base <= j < tid :: w'.s.threads[j] == w.s.threads[j]
    decreases |slots|
  {
    hide SharedAttempt, AllForeign, Explained, Stops, CellOf, PhaseOf, OwnReservation, Arrived;
    if slots == [] || Spent(plan, meter) {
      NobodyArrived(req, slots, w.s, tid);
    } else {
      var x := SharedAttempt(c, plan, req, slots[0], tid, w, meter);
      AttemptSettles(c, s0, plan, req, slots[0], tid, w, meter);
      forall i | 0 <= i < |slots| - 1
        ensures x.w.s.threads[tid + 1 + i] == P.Thread(P.Request(CellOf(req, slots[1..][i]), req.c), P.Idle)
      {
        assert w.s.threads[tid + (1 + i)].req == P.Request(CellOf(req, slots[1 + i]), req.c);
      }
      assert Awaits(req, slots[1..], x.w.s, tid + 1);
      if Stops(x.run.outcome) {
        NobodyArrived(req, slots[1..], x.w.s, tid + 1);
        ArrivedOneMore(req, slots, x.run, [], x.w.s, tid);
        assert [x.run] + [] == [x.run];
      } else {
        SharedWalkArrives(c, s0, plan, req, slots[1..], tid + 1, x.w, x.run.meter);
        var (w', rest) := SharedWalk(c, plan, req, slots[1..], tid + 1, x.w, x.run.meter);
        assert w'.s.threads[tid] == x.w.s.threads[tid];
        ArrivedOneMore(req, slots, x.run, rest.visits, w'.s, tid);
        OneMoreOwn(req, slots, x.run, rest.visits);
      }
    }
  }

  lemma NobodyArrived(req: Request, slots: seq<Slot>, s: P.State, tid: nat)
    requires Awaits(req, slots, s, tid)
    ensures Arrived(req, slots, [], s, tid)
  {
  }

  lemma OneMoreOwn(req: Request, slots: seq<Slot>, run: SlotRun, rest: seq<SlotRun>)
    requires slots != [] && OwnReservation(req, slots[0], run.outcome) && OwnReservations(req, slots[1..], rest)
    ensures OwnReservations(req, slots, [run] + rest)
  {
    hide OwnReservation;
    forall i | 0 <= i < 1 + |rest| ensures OwnReservation(req, slots[i], ([run] + rest)[i].outcome) {
      if i > 0 {
        assert OwnReservation(req, slots[1..][i - 1], rest[i - 1].outcome);
      }
    }
  }

  lemma AttemptSettles(c: Crowd, s0: P.State, plan: Plan, req: Request, slot: Slot, tid: nat, w: World, meter: Meter)
    requires AllForeign(c) && Ours(c, w, tid)
    requires w.s.threads[tid] == P.Thread(P.Request(CellOf(req, slot), req.c), P.Idle)
    ensures Settles(c, s0, req, slot, w, tid, SharedAttempt(c, plan, req, slot, tid, w, meter))
  {
    hide SharedTries, AllForeign, Settles;
    TriesSettle(c, s0, plan, req, slot, tid, MaxTries(plan, slot), w, meter, None, None);
  }

  lemma {:induction false} ArrivedOwes(c: Crowd, req: Request, slots: seq<Slot>, visits: seq<SlotRun>, s: P.State,
                                       tid: nat, k: Key)
    requires Arrived(req, slots, visits, s, tid) && OwnReservations(req, slots, visits)
    requires Configured(c.config, req, slots)
    ensures P.TotalOwed(c.config, s.threads[tid..], k) == Contributions(visits, k)
  {
    hide P.Owes, Contribution, PhaseOf, CellOf, OwnReservation;
    var ours := RequestsOf(req, slots, visits);
    RequestsAre(req, slots, visits);
    assert s.threads[tid..] == ours + s.threads[tid + |visits|..] by {
      forall i | 0 <= i < |visits| ensures s.threads[tid..][i] == ours[i] {
        assert s.threads[tid + i].phase == PhaseOf(visits[i].outcome);
      }
    }
    OwedAppend(c.config, ours, s.threads[tid + |visits|..], k);
    WalkOwesItsContributions(c.config, req, slots, visits, k);
    var waiting := s.threads[tid + |visits|..];
    forall j | 0 <= j < |waiting| ensures waiting[j].phase.Idle? {
      var i := |visits| + j;
      assert waiting[j] == s.threads[tid + i] && s.threads[tid + i].req == P.Request(CellOf(req, slots[i]), req.c);
    }
    P.FreshOwesNothing(c.config, waiting, k);
  }

  lemma {:induction false} RequestsAre(req: Request, slots: seq<Slot>, visits: seq<SlotRun>)
    requires |visits| <= |slots|
    ensures |RequestsOf(req, slots, visits)| == |visits|
    ensures forall i | 0 <= i < |visits| ::
              RequestsOf(req, slots, visits)[i]
              == P.Thread(P.Request(CellOf(req, slots[i]), req.c), PhaseOf(visits[i].outcome))
    decreases |visits|
  {
    hide CellOf, PhaseOf;
    if visits != [] {
      RequestsAre(req, slots[1..], visits[1..]);
    }
  }

  /** A walk begun in a state of rest, its own requests behind those of the others. */
  ghost predicate Begins(c: Crowd, req: Request, slots: seq<Slot>, s: P.State) {
    AllForeign(c) && P.Fresh(s) && Awaits(req, slots, s, c.base) && Configured(c.config, req, slots)
  }

  /** The walk among others, from a state of rest. */
  function WalkAmong(c: Crowd, plan: Plan, req: Request, slots: seq<Slot>, s: P.State, meter: Meter): (World, WalkRun)
    requires Begins(c, req, slots, s)
  {
    SharedWalk(c, plan, req, slots, c.base, World(s, [], 0), meter)
  }

  /** The ledger of a walk under interference. Whatever the others do between any two locked sections of the walk, and
      in `tail` after its last one: in one bucket of a window the count of a constrained cell is its start value, what
      the others owe, and exactly what the outcomes of the visited slots contribute. */
  lemma {:induction false} WalkUnderInterference(c: Crowd, plan: Plan, req: Request, slots: seq<Slot>, s: P.State,
                                                 meter: Meter, tail: seq<P.Event>, k: Key, t: int)
    requires Begins(c, req, slots, s) && Foreign(c, tail) && P.LimitAt(c.config, k).Some?
    requires P.RunInBucket(s, WalkAmong(c, plan, req, slots, s, meter).0.log + tail, k.window, t)
    ensures var (w, run) := WalkAmong(c, plan, req, slots, s, meter);
            var end := P.Exec(c.config, w.s, tail);
            && |end.threads| == c.base + |slots|
            && Reading(end.cells, k, t)
               == Reading(s.cells, k, t) + P.TotalOwed(c.config, end.threads[..c.base], k)
                  + Contributions(run.visits, k)
  {
    hide SharedWalk, AllForeign, P.Exec, P.RunInBucket, Reading, Arrived, Configured, OwnReservations, Contributions;
    var start := World(s, [], 0);
    var (w, run) := WalkAmong(c, plan, req, slots, s, meter);
    NothingLogged(c, s);
    SharedWalkArrives(c, s, plan, req, slots, c.base, start, meter);
    ExecAppend(c.config, s, w.log, tail);
    var end := P.Exec(c.config, w.s, tail);
    ForeignKeeps(c, w.s, tail);
    StaysArrived(req, slots, run.visits, w.s, end, c.base);
    P.Conservation(c.config, s, w.log + tail, k, t);
    ArrivedOwes(c, req, slots, run.visits, end, c.base, k);
    OwedAppend(c.config, end.threads[..c.base], end.threads[c.base..], k);
    assert end.threads[..c.base] + end.threads[c.base..] == end.threads;
  }

  lemma NothingLogged(c: Crowd, s: P.State)
    ensures Explained(c, s, World(s, [], 0))
  {
  }

  lemma StaysArrived(req: Request, slots: seq<Slot>, visits: seq<SlotRun>, s: P.State, s': P.State, tid: nat)
    requires Arrived(req, slots, visits, s, tid) && |s'.threads| == |s.threads|
    requires forall j | tid <= j < |s.threads| :: s'.threads[j] == s.threads[j]
    ensures Arrived(req, slots, visits, s', tid) && tid + |slots| == |s'.threads|
  {
  }

  /** A stream left open by a walk is one more operation of its request: settled it owes the actual usage, broken off it
      owes nothing, and the log goes on explaining the state. */
  lemma {:induction false} StreamClosesAmong(c: Crowd, s0: P.State, req: Request, slot: Slot, tid: nat, w: World,
                                             res: Reservation, failed: bool, usage: CallUsage, now: int)
    requires AllForeign(c) && Ours(c, w, tid) && OwnReservation(req, slot, Streaming(res))
    requires w.s.threads[tid] == P.Thread(P.Request(CellOf(req, slot), req.c), PhaseOf(Streaming(res)))
    ensures var actual := ActualTokens(usage, res.c.tokens);
            var w' := Operate(c, w, if failed then P.Cancel(tid, now) else P.Finish(tid, now, actual), tid);
            && KeepsOthers(c, s0, w, w', tid)
            && w'.s.threads[tid].req == w.s.threads[tid].req
            && (failed ==> w'.s.threads[tid].phase.Refunded?)
            && (!failed ==> w'.s.threads[tid].phase == PhaseOf(Served(res, actual, now)))
  {
    hide Operate, AllForeign, KeepsOthers;
    var actual := ActualTokens(usage, res.c.tokens);
    OperationLands(c, s0, w, if failed then P.Cancel(tid, now) else P.Finish(tid, now, actual), tid);
  }

  // ---------- with nobody else about ----------

  /** The others do nothing. */
  ghost predicate NobodyElse(c: Crowd) { forall n: nat :: c.others(n) == [] }

  lemma OwnAlone(c: Crowd, w: World, e: P.Event)
    requires NobodyElse(c) && AllForeign(c)
    ensures Own(c, w, e).s == P.Step(c.config, w.s, e)
  {
    hide P.Step;
    assert c.others(w.turn) == [];
  }

  lemma {:induction false} ToRestAlone(c: Crowd, w: World, tid: nat)
    requires NobodyElse(c) && AllForeign(c) && Ours(c, w, tid)
    ensures var th, w' := w.s.threads[tid], ToRest(c, w, tid);
            (w'.s.cells, w'.s.threads[tid]) == P.Solo(w.s.cells, P.LimitsFor(c.config, th.req.id), th)
    decreases P.Busy(w.s.threads[tid]), w.s.threads[tid].phase.Reserving?, P.Remaining(w.s.threads[tid])
  {
    hide P.Advance, Own, AllForeign, NobodyElse;
    var th := w.s.threads[tid];
    if P.Busy(th) {
      var limits := P.LimitsFor(c.config, th.req.id);
      OwnAlone(c, w, P.Proceed(tid));
      P.AdvanceKeepsRequest(w.s.cells, limits, th);
      AdvanceDecreases(w.s.cells, limits, th);
      assert ToRest(c, w, tid) == ToRest(c, Own(c, w, P.Proceed(tid)), tid) by {
        OwnProceeds(c, w, tid);
      }
      ToRestAlone(c, Own(c, w, P.Proceed(tid)), tid);
    }
  }

  /** Alone, an operation does to the counters what the sequential one does. */
  lemma OperateAlone(c: Crowd, w: World, req: Request, slot: Slot, e: P.Event, tid: nat)
    requires NobodyElse(c) && AllForeign(c) && Ours(c, w, tid)
    requires P.LimitsFor(c.config, CellOf(req, slot)) == slot.limits
    requires w.s.threads[tid].req == P.Request(CellOf(req, slot), req.c)
    requires (e.Begin? && w.s.threads[tid].phase.Idle?) || ((e.Cancel? || e.Finish?) && w.s.threads[tid].phase.Held?)
    requires e.tid == tid
    ensures var id, w' := CellOf(req, slot), Operate(c, w, e, tid);
            match e
            case Begin(_, now) =>
              var (m, r) := Reserve(w.s.cells, id, slot.limits, req.c, now);
              w'.s.cells == m && (w'.s.threads[tid].phase.Held? <==> r.None?)
            case Cancel(_, now) => w'.s.cells == Refund(w.s.cells, id, slot.limits, req.c, now)
            case Finish(_, now, actual) => w'.s.cells == Reconcile(w.s.cells, id, actual, req.c.tokens, now)
            case _ => true
  {
    hide AllForeign, NobodyElse, P.Solo, Reserve, Refund, Reconcile, CellOf, Own, ToRest;
    var th := w.s.threads[tid];
    OwnAlone(c, w, e);
    ToRestAlone(c, Own(c, w, e), tid);
    match e
    case Begin(_, now) => P.AloneIsSequential(w.s.cells, slot.limits, th.req, now, 0);
    case Cancel(_, now) => P.AloneIsSequential(w.s.cells, slot.limits, th.req, now, 0);
    case Finish(_, now, actual) => P.AloneIsSequential(w.s.cells, slot.limits, th.req, now, actual);
  }

  lemma GiveUpAlone(c: Crowd, plan: Plan, req: Request, slot: Slot, tid: nat, w: World, meter: Meter,
                    held: Option<Reservation>, lastErr: Option<Error>)
    requires NobodyElse(c) && AllForeign(c) && Ours(c, w, tid) && Holds(req, slot, w.s.threads[tid], held)
    requires P.LimitsFor(c.config, CellOf(req, slot)) == slot.limits
    ensures var x := SharedGiveUp(c, plan, tid, w, meter, held, lastErr);
            x.run == GiveUp(plan, w.s.cells, meter, held, lastErr) && x.run.m == x.w.s.cells
  {
    hide AllForeign, NobodyElse, Operate, Refund, CellOf;
    if held.Some? {
      OperateAlone(c, w, req, slot, P.Cancel(tid, Now(plan, meter)), tid);
    }
  }

  lemma {:induction false} TriesAlone(c: Crowd, plan: Plan, req: Request, slot: Slot, tid: nat, left: nat, w: World,
                                      meter: Meter, held: Option<Reservation>, lastErr: Option<Error>)
    requires NobodyElse(c) && AllForeign(c) && Ours(c, w, tid) && Holds(req, slot, w.s.threads[tid], held)
    requires P.LimitsFor(c.config, CellOf(req, slot)) == slot.limits
    ensures var x := SharedTries(c, plan, req, slot, tid, left, w, meter, held, lastErr);
            x.run == Tries(plan, req, slot, left, w.s.cells, meter, held, lastErr) && x.run.m == x.w.s.cells
    decreases left, 1
  {
    hide AllForeign, NobodyElse, Operate, Reserve, Refund, Reconcile, CellOf, SharedSend, Send, SharedGiveUp, GiveUp;
    if left == 0 || Spent(plan, meter) {
      GiveUpAlone(c, plan, req, slot, tid, w, meter, held, lastErr);
    } else if plan.env.resolve(meter.resolves).Resolved? {
      var meter1 := meter.(resolves := meter.resolves + 1);
      var target := plan.env.resolve(meter.resolves).target;
      if held.Some? {
        SendAlone(c, plan, req, slot, tid, left, w, meter1, held.value, target);
      } else {
        var now := Now(plan, meter1);
        var meter2 := meter1.(ticks := meter1.ticks + 1);
        var w1 := Operate(c, w, P.Begin(tid, now), tid);
        OperateAlone(c, w, req, slot, P.Begin(tid, now), tid);
        if w1.s.threads[tid].phase.Held? {
          OperationLands(c, w.s, w, P.Begin(tid, now), tid);
          var res := Reservation(CellOf(req, slot), slot.limits, req.c, now);
          SendAlone(c, plan, req, slot, tid, left, w1, meter2, res, target);
        } else {
          var (m, r) := Reserve(w.s.cells, CellOf(req, slot), slot.limits, req.c, now);
          assert r.Some? && w1.s.cells == m;
          assert Tries(plan, req, slot, left, w.s.cells, meter, held, lastErr)
              == SlotRun(m, meter2, [], Lost(Quota(RateLimited()), TurnedAway));
        }
      }
    }
  }

  lemma {:induction false} SendAlone(c: Crowd, plan: Plan, req: Request, slot: Slot, tid: nat, left: nat, w: World,
                                     meter: Meter, res: Reservation, target: Routers.Target)
    requires left > 0 && NobodyElse(c) && AllForeign(c) && Ours(c, w, tid)
    requires Holds(req, slot, w.s.threads[tid], Some(res))
    requires P.LimitsFor(c.config, CellOf(req, slot)) == slot.limits
    ensures var x := SharedSend(c, plan, req, slot, tid, left, w, meter, res, target);
            x.run == Send(plan, req, slot, left, w.s.cells, meter, res, target) && x.run.m == x.w.s.cells
    decreases left, 0
  {
    hide AllForeign, NobodyElse, Operate, Refund, Reconcile, CellOf, SharedTries, Tries, SharedGiveUp, GiveUp;
    var reply := ReplyOf(plan, req, meter);
    var meter1 := meter.(attempts := meter.attempts + 1);
    var now := Now(plan, meter);
    if reply.Ok? {
      if !Streams(req) {
        var actual := ActualTokens(Reported(req.route, reply.usage), res.c.tokens);
        OperateAlone(c, w, req, slot, P.Finish(tid, now, actual), tid);
      }
    } else {
      var err := UpstreamError(reply);
      if IsTerminal(err) {
        OperateAlone(c, w, req, slot, P.Cancel(tid, now), tid);
      } else {
        var backsOff := left > 1 && RetryableUpstream(err);
        var meter2 := if backsOff then meter1.(sleeps := meter.sleeps + 1) else meter1;
        if backsOff && !plan.env.awake(meter.sleeps) {
          GiveUpAlone(c, plan, req, slot, tid, w, meter2, Some(res), Some(Api(err)));
        } else {
          TriesAlone(c, plan, req, slot, tid, left - 1, w, meter2, Some(res), Some(Api(err)));
        }
      }
    }
  }

  /** A walk that meets nobody is the sequential walk: the same visits, calls, outcomes and counters. */
  lemma {:induction false} SharedWalkAloneIsWalk(c: Crowd, plan: Plan, req: Request, slots: seq<Slot>, tid: nat,
                                                 w: World, meter: Meter)
    requires NobodyElse(c) && AllForeign(c) && c.base <= tid && Awaits(req, slots, w.s, tid)
    requires Configured(c.config, req, slots)
    ensures SharedWalk(c, plan, req, slots, tid, w, meter).1 == Walk(plan, req, slots, w.s.cells, meter)
    ensures SharedWalk(c, plan, req, slots, tid, w, meter).0.s.cells
         == EndCounters(w.s.cells, Walk(plan, req, slots, w.s.cells, meter).visits)
    decreases |slots|
  {
    hide AllForeign, NobodyElse, SharedTries, Tries, Stops, CellOf, MaxTries;
    if slots != [] && !Spent(plan, meter) {
      assert slots[0] in slots;
      assert w.s.threads[tid + 0].req == P.Request(CellOf(req, slots[0]), req.c);
      TriesAlone(c, plan, req, slots[0], tid, MaxTries(plan, slots[0]), w, meter, None, None);
      var x := SharedAttempt(c, plan, req, slots[0], tid, w, meter);
      if !Stops(x.run.outcome) {
        AttemptSettles(c, w.s, plan, req, slots[0], tid, w, meter);
        forall i | 0 <= i < |slots| - 1
          ensures x.w.s.threads[tid + 1 + i] == P.Thread(P.Request(CellOf(req, slots[1..][i]), req.c), P.Idle)
        {
          assert w.s.threads[tid + (1 + i)].req == P.Request(CellOf(req, slots[1 + i]), req.c);
        }
        assert Awaits(req, slots[1..], x.w.s, tid + 1);
        SharedWalkAloneIsWalk(c, plan, req, slots[1..], tid + 1, x.w, x.run.meter);
      }
    }
  }
}
