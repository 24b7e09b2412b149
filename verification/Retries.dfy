/** The retry loop on one slot in the fields of its replies, alone and among other requests: when it goes on, when it
    stops, how it is billed, and what each reply tells the router. */
module Retries {
  import opened Prelude
  import opened Slots
  import opened Errors
  import opened Cells
  import opened Walks
  import Windows
  import Routers
  import Groups
  import KeyPools
  import Breakers
  import Shared = SharedWalks

  /** The request cannot succeed anywhere: its file is missing, or the provider finds fault with it. */
  predicate CallersFault(r: Reply) {
    r.MissingFile? || (r.EndpointError? && 400 <= r.status < 500 && r.status != 429)
  }

  /** The status a failed call is recorded and reported with. */
  function StatusOf(r: Reply): int
    requires !r.Ok?
  {
    match r
    case EndpointError(status, _) => if status >= 400 then status else 502
    case DeadlineExceeded => 504
    case TransportFault => 502
    case MissingFile => 400
  }

  /** What kind of error a failed call is reported as. */
  function TypeOf(r: Reply): string
    requires !r.Ok?
  {
    match r
    case DeadlineExceeded => "upstream_timeout"
    case TransportFault => "upstream_error"
    case MissingFile => "bad_request"
    case EndpointError(status, filtered) =>
      if status in {401, 402, 429, 503, 504} then
        (match status
         case 401 => "invalid_key"
         case 402 => "quota_exceeded"
         case 429 => "rate_limit"
         case 503 => "model_overloaded"
         case _ => "timeout")
      else if filtered then "content_filter"
      else if status < 400 || status >= 500 then "upstream_error" else "unknown"
  }

  /** The error tells the caller what became of this call. */
  predicate Tells(e: ApiError, r: Reply) {
    !r.Ok? && e == ApiError(StatusOf(r), TypeOf(r), if r.MissingFile? then CallerFault else SourceUpstream)
  }

  lemma ErrorsTell(r: Reply)
    requires !r.Ok?
    ensures Tells(UpstreamError(r), r)
  {
  }

  /** The tokens a reply is billed at: what the provider reports less the cached part, and the reservation when it
      reports nothing. Transcription and speech are billed one token, embeddings what was reserved. */
  predicate Billed(route: Route, u: CallUsage, reserved: nat, t: int) {
    match route
    case RouteChat =>
      if u.total == 0 then t == reserved else if u.cached <= u.total then t + u.cached == u.total else t == 0
    case RouteEmbeddings => t == reserved
    case RouteSTT => t == 1
    case RouteTTS => t == 1
  }

  lemma OneBill(route: Route, u: CallUsage, reserved: nat)
    ensures Billed(route, u, reserved, ActualTokens(Reported(route, u), reserved))
    ensures forall t, t' | Billed(route, u, reserved, t) && Billed(route, u, reserved, t') :: t == t'
  {
  }

  /** The provider's replies are heard in turn; a transcription without a file hears none. */
  ghost predicate HearsInTurn(plan: Plan, req: Request, before: Meter, run: SlotRun) {
    forall i | 0 <= i < |run.contacts| ::
      run.contacts[i].reply
      == if req.route == RouteSTT && !req.hasFile then MissingFile else plan.env.reply(before.attempts + i)
  }

  /** The first call that goes through or finds the caller at fault is the last one; with a success the slot has served
      what the reply is billed at, or streams. */
  ghost predicate EndsWithReply(req: Request, run: SlotRun) {
    var n := |run.contacts|;
    && (forall i | 0 <= i < n - 1 :: !run.contacts[i].reply.Ok? && !CallersFault(run.contacts[i].reply))
    && (run.outcome.Lost? <==> n == 0 || !run.contacts[n - 1].reply.Ok?)
    && (!run.outcome.Lost? ==> (run.outcome.Streaming? <==> req.route == RouteChat && req.stream))
    && (run.outcome.Served? ==>
          Billed(req.route, run.contacts[n - 1].reply.usage, run.outcome.res.c.tokens, run.outcome.actual))
  }

  /** The failed calls that another try could follow. */
  function Failures(cs: seq<Contact>): nat {
    var n := |cs|;
    if n > 0 && (cs[n - 1].reply.Ok? || CallersFault(cs[n - 1].reply)) then n - 1 else n
  }

  /** With `left` tries to go, the loop goes on after every failure until the tries or the attempts are used up, the
      slot cannot be resolved, the limiter refuses, the caller is at fault or has gone away; and it waits once after
      every failure but that of the last try. */
  ghost predicate Persists(plan: Plan, left: nat, before: Meter, run: SlotRun) {
    var n := |run.contacts|;
    && (run.outcome.Lost? ==>
          || n == left
          || (plan.budget > 0 && run.meter.attempts >= plan.budget)
          || (run.meter.resolves > before.resolves && !plan.env.resolve(run.meter.resolves - 1).Resolved?)
          || run.outcome.exit.TurnedAway?
          || (n > 0 && CallersFault(run.contacts[n - 1].reply))
          || (run.meter.sleeps > before.sleeps && !plan.env.awake(run.meter.sleeps - 1)))
    && run.meter.sleeps == before.sleeps + Min(Failures(run.contacts), Max(0, left - 1))
    && (forall i | before.sleeps <= i < run.meter.sleeps - 1 :: plan.env.awake(i))
    && (run.meter.sleeps > before.sleeps && !plan.env.awake(run.meter.sleeps - 1) ==>
          n == run.meter.sleeps - before.sleeps && run.outcome.Lost? && run.outcome.exit.Refunded?)
  }

  /** A slot that gives its reservation back fails with the error of its last call, which may lie before this run; one
      that is left otherwise has no capacity. */
  ghost predicate FailsAs(lastErr: Option<Error>, run: SlotRun) {
    var n := |run.contacts|;
    run.outcome.Lost? ==>
      if !run.outcome.exit.Refunded? then run.outcome.err == Quota(RateLimited())
      else if n > 0 then run.outcome.err.Api? && Tells(run.outcome.err.e, run.contacts[n - 1].reply)
      else Some(run.outcome.err) == lastErr
  }

  ghost predicate Orderly(plan: Plan, req: Request, left: nat, before: Meter, lastErr: Option<Error>, run: SlotRun) {
    HearsInTurn(plan, req, before, run) && EndsWithReply(req, run) && Persists(plan, left, before, run)
    && FailsAs(lastErr, run)
  }

  lemma WaitsOnceMore(plan: Plan, left: nat, before: Meter, contact: Contact, after: Meter, rest: SlotRun)
    requires left > 0 && !contact.reply.Ok? && !CallersFault(contact.reply)
    requires after.sleeps == (if left > 1 then before.sleeps + 1 else before.sleeps)
    requires after.resolves == before.resolves
    requires left > 1 ==> plan.env.awake(before.sleeps)
    requires Persists(plan, left - 1, after, rest)
    ensures Persists(plan, left, before, rest.(contacts := [contact] + rest.contacts))
  {
    hide CallersFault;
  }

  lemma OneMoreCall(plan: Plan, req: Request, left: nat, before: Meter, contact: Contact, after: Meter, rest: SlotRun,
                    lastErr: Option<Error>)
    requires left > 0 && !contact.reply.Ok? && !CallersFault(contact.reply)
    requires contact.reply == ReplyOf(plan, req, before)
    requires after == before.(attempts := before.attempts + 1,
                              sleeps := if left > 1 then before.sleeps + 1 else before.sleeps)
    requires left > 1 ==> plan.env.awake(before.sleeps)
    requires Orderly(plan, req, left - 1, after, Some(Api(UpstreamError(contact.reply))), rest)
    ensures Orderly(plan, req, left, before, lastErr, rest.(contacts := [contact] + rest.contacts))
  {
    hide Billed, CallersFault, Tells, UpstreamError, Persists;
    ErrorsTell(contact.reply);
    WaitsOnceMore(plan, left, before, contact, after, rest);
    var run := rest.(contacts := [contact] + rest.contacts);
    assert forall i | 0 < i < |run.contacts| :: run.contacts[i] == rest.contacts[i - 1];
  }

  lemma GoneAway(plan: Plan, req: Request, left: nat, before: Meter, contact: Contact, rest: SlotRun,
                 lastErr: Option<Error>)
    requires left > 1 && !contact.reply.Ok? && !CallersFault(contact.reply) && !plan.env.awake(before.sleeps)
    requires contact.reply == ReplyOf(plan, req, before)
    requires rest.contacts == [] && rest.meter.sleeps == before.sleeps + 1
    requires rest.outcome == Lost(Api(UpstreamError(contact.reply)), Refunded)
    ensures Orderly(plan, req, left, before, lastErr, rest.(contacts := [contact] + rest.contacts))
  {
    hide Billed, CallersFault, Tells, UpstreamError;
    ErrorsTell(contact.reply);
  }

  lemma OnlyCall(plan: Plan, req: Request, left: nat, before: Meter, run: SlotRun, lastErr: Option<Error>)
    requires left > 0 && |run.contacts| == 1 && run.meter.sleeps == before.sleeps
    requires run.contacts[0].reply == ReplyOf(plan, req, before)
    requires var reply := run.contacts[0].reply;
             if reply.Ok? then
               if req.route == RouteChat && req.stream then run.outcome.Streaming?
               else
                 run.outcome.Served? && Billed(req.route, reply.usage, run.outcome.res.c.tokens, run.outcome.actual)
             else CallersFault(reply) && run.outcome == Lost(Api(UpstreamError(reply)), Refunded)
    ensures Orderly(plan, req, left, before, lastErr, run)
  {
    hide Billed, CallersFault, Tells, UpstreamError;
    if !run.contacts[0].reply.Ok? {
      ErrorsTell(run.contacts[0].reply);
    }
  }

  lemma NoCall(plan: Plan, req: Request, left: nat, before: Meter, run: SlotRun, lastErr: Option<Error>)
    requires run.contacts == [] && run.outcome.Lost? && run.meter.sleeps == before.sleeps
    requires || left == 0 || (plan.budget > 0 && run.meter.attempts >= plan.budget) || run.outcome.exit.TurnedAway?
             || (run.meter.resolves > before.resolves && !plan.env.resolve(run.meter.resolves - 1).Resolved?)
    requires if run.outcome.exit.Refunded? then Some(run.outcome.err) == lastErr
             else run.outcome.err == Quota(RateLimited())
    ensures Orderly(plan, req, left, before, lastErr, run)
  {
  }

  lemma SinceEarlier(plan: Plan, req: Request, left: nat, before: Meter, after: Meter, run: SlotRun,
                     lastErr: Option<Error>)
    requires after.sleeps == before.sleeps && after.attempts == before.attempts && after.resolves >= before.resolves
    requires Orderly(plan, req, left, after, lastErr, run)
    ensures Orderly(plan, req, left, before, lastErr, run)
  {
    hide EndsWithReply, CallersFault, FailsAs;
  }

  lemma FaultsStop(r: Reply)
    requires !r.Ok?
    ensures IsTerminal(UpstreamError(r)) <==> CallersFault(r)
    ensures !IsTerminal(UpstreamError(r)) <==> RetryableUpstream(UpstreamError(r))
  {
    StopsWalkIff(r);
  }

  lemma {:induction false} TriesPersist(plan: Plan, req: Request, slot: Slot, left: nat, m: Counters, meter: Meter,
                                        held: Option<Reservation>, lastErr: Option<Error>)
    requires held.Some? <==> lastErr.Some?
    ensures Orderly(plan, req, left, meter, lastErr, Tries(plan, req, slot, left, m, meter, held, lastErr))
    decreases left, 1
  {
    hide Reserve, Refund, Reconcile, Send, Orderly;
    var run := Tries(plan, req, slot, left, m, meter, held, lastErr);
    var meter1 := meter.(resolves := meter.resolves + 1);
    if left == 0 || Spent(plan, meter) || !plan.env.resolve(meter.resolves).Resolved? {
      NoCall(plan, req, left, meter, run, lastErr);
    } else if held.Some? {
      SendPersists(plan, req, slot, left, m, meter1, held.value, plan.env.resolve(meter.resolves).target, lastErr);
      SinceEarlier(plan, req, left, meter, meter1, run, lastErr);
    } else {
      var meter2 := meter1.(ticks := meter1.ticks + 1);
      var res := Reservation(CellOf(req, slot), slot.limits, req.c, Now(plan, meter));
      if Reservable(m, res) {
        SendPersists(plan, req, slot, left, Holding(m, res), meter2, res, plan.env.resolve(meter.resolves).target,
                     lastErr);
        SinceEarlier(plan, req, left, meter, meter2, run, lastErr);
      } else {
        NoCall(plan, req, left, meter, run, lastErr);
      }
    }
  }

  lemma {:induction false} SendPersists(plan: Plan, req: Request, slot: Slot, left: nat, m: Counters, meter: Meter,
                                        res: Reservation, target: Routers.Target, lastErr: Option<Error>)
    requires left > 0
    ensures Orderly(plan, req, left, meter, lastErr, Send(plan, req, slot, left, m, meter, res, target))
    decreases left, 0
  {
    hide Reserve, Refund, Reconcile, Tries, Billed, ActualTokens, Reported, CallersFault, IsTerminal, UpstreamError;
    hide RetryableUpstream, Orderly;
    var run := Send(plan, req, slot, left, m, meter, res, target);
    var reply := ReplyOf(plan, req, meter);
    if reply.Ok? {
      OneBill(req.route, reply.usage, res.c.tokens);
      OnlyCall(plan, req, left, meter, run, lastErr);
    } else {
      FaultsStop(reply);
      if CallersFault(reply) {
        OnlyCall(plan, req, left, meter, run, lastErr);
      } else {
        var contact, held, err := Contact(slot, target, reply), Some(res), Some(Api(UpstreamError(reply)));
        var meter1 := meter.(attempts := meter.attempts + 1);
        var meter2 := if left > 1 then meter1.(sleeps := meter.sleeps + 1) else meter1;
        if left > 1 && !plan.env.awake(meter.sleeps) {
          GoneAway(plan, req, left, meter, contact, GiveUp(plan, m, meter2, held, err), lastErr);
        } else {
          TriesPersist(plan, req, slot, left - 1, m, meter2, held, err);
          OneMoreCall(plan, req, left, meter, contact, meter2, Tries(plan, req, slot, left - 1, m, meter2, held, err),
                      lastErr);
        }
      }
    }
  }

  // ---------- among others ----------

  lemma {:induction false} SharedTriesPersist(c: Shared.Crowd, plan: Plan, req: Request, slot: Slot, tid: nat,
                                              left: nat, w: Shared.World, meter: Meter, held: Option<Reservation>,
                                              lastErr: Option<Error>)
    requires Shared.AllForeign(c) && Shared.Ours(c, w, tid) && (held.Some? <==> lastErr.Some?)
    ensures Orderly(plan, req, left, meter, lastErr,
                    Shared.SharedTries(c, plan, req, slot, tid, left, w, meter, held, lastErr).run)
    decreases left, 1
  {
    hide Shared.Operate, Shared.AllForeign, Shared.SharedSend, Orderly;
    var run := Shared.SharedTries(c, plan, req, slot, tid, left, w, meter, held, lastErr).run;
    var meter1 := meter.(resolves := meter.resolves + 1);
    if left == 0 || Spent(plan, meter) || !plan.env.resolve(meter.resolves).Resolved? {
      NoCall(plan, req, left, meter, run, lastErr);
    } else if held.Some? {
      SharedSendPersists(c, plan, req, slot, tid, left, w, meter1, held.value,
                         plan.env.resolve(meter.resolves).target, lastErr);
      SinceEarlier(plan, req, left, meter, meter1, run, lastErr);
    } else {
      var now := Now(plan, meter1);
      var meter2 := meter1.(ticks := meter1.ticks + 1);
      var w1 := Shared.Operate(c, w, Shared.P.Begin(tid, now), tid);
      if w1.s.threads[tid].phase.Held? {
        SharedSendPersists(c, plan, req, slot, tid, left, w1, meter2,
                           Reservation(CellOf(req, slot), slot.limits, req.c, now),
                           plan.env.resolve(meter.resolves).target, lastErr);
        SinceEarlier(plan, req, left, meter, meter2, run, lastErr);
      } else {
        NoCall(plan, req, left, meter, run, lastErr);
      }
    }
  }

  lemma {:induction false} SharedSendPersists(c: Shared.Crowd, plan: Plan, req: Request, slot: Slot, tid: nat,
                                              left: nat, w: Shared.World, meter: Meter, res: Reservation,
                                              target: Routers.Target, lastErr: Option<Error>)
    requires left > 0 && Shared.AllForeign(c) && Shared.Ours(c, w, tid)
    ensures Orderly(plan, req, left, meter, lastErr,
                    Shared.SharedSend(c, plan, req, slot, tid, left, w, meter, res, target).run)
    decreases left, 0
  {
    hide Shared.Operate, Shared.AllForeign, Shared.SharedTries, Billed, ActualTokens, Reported, CallersFault;
    hide IsTerminal, UpstreamError, RetryableUpstream, Orderly;
    var run := Shared.SharedSend(c, plan, req, slot, tid, left, w, meter, res, target).run;
    var reply := ReplyOf(plan, req, meter);
    if reply.Ok? {
      OneBill(req.route, reply.usage, res.c.tokens);
      OnlyCall(plan, req, left, meter, run, lastErr);
    } else {
      FaultsStop(reply);
      if CallersFault(reply) {
        OnlyCall(plan, req, left, meter, run, lastErr);
      } else {
        var contact, held, err := Contact(slot, target, reply), Some(res), Some(Api(UpstreamError(reply)));
        var meter1 := meter.(attempts := meter.attempts + 1);
        var meter2 := if left > 1 then meter1.(sleeps := meter.sleeps + 1) else meter1;
        if left > 1 && !plan.env.awake(meter.sleeps) {
          GoneAway(plan, req, left, meter, contact, Shared.SharedGiveUp(c, plan, tid, w, meter2, held, err).run,
                   lastErr);
        } else {
          SharedTriesPersist(c, plan, req, slot, tid, left - 1, w, meter2, held, err);
          OneMoreCall(plan, req, left, meter, contact, meter2,
                      Shared.SharedTries(c, plan, req, slot, tid, left - 1, w, meter2, held, err).run, lastErr);
        }
      }
    }
  }

  // ---------- over a walk ----------

  /** The slot's own retries count before the global number, and there is always one try. */
  function TriesOn(plan: Plan, slot: Slot): nat {
    match slot.retries
    case Some(r) => Max(1, r + 1)
    case None => Max(1, plan.numRetries + 1)
  }

  function BeforeVisit(meter: Meter, visits: seq<SlotRun>, i: nat): Meter
    requires i < |visits|
  {
    if i == 0 then meter else visits[i - 1].meter
  }

  /** Every visit is orderly from where the one before it ended. */
  ghost predicate AllOrderly(plan: Plan, req: Request, slots: seq<Slot>, meter: Meter, visits: seq<SlotRun>) {
    && |visits| <= |slots|
    && forall i | 0 <= i < |visits| ::
         Orderly(plan, req, TriesOn(plan, slots[i]), BeforeVisit(meter, visits, i), None, visits[i])
  }

  lemma OneMoreVisit(plan: Plan, req: Request, slots: seq<Slot>, meter: Meter, run: SlotRun, rest: seq<SlotRun>)
    requires slots != [] && Orderly(plan, req, MaxTries(plan, slots[0]), meter, None, run)
    requires AllOrderly(plan, req, slots[1..], run.meter, rest)
    ensures AllOrderly(plan, req, slots, meter, [run] + rest)
  {
    hide Orderly;
    var visits := [run] + rest;
    forall i | 0 <= i < |visits|
      ensures Orderly(plan, req, TriesOn(plan, slots[i]), BeforeVisit(meter, visits, i), None, visits[i])
    {
      if i == 0 {
        assert MaxTries(plan, slots[0]) == TriesOn(plan, slots[0]);
      } else {
        assert slots[1..][i - 1] == slots[i] && rest[i - 1] == visits[i];
        assert BeforeVisit(meter, visits, i) == BeforeVisit(run.meter, rest, i - 1);
      }
    }
  }

  /** A walk tries on and stops for the reasons each reply gives, and nothing else. */
  lemma {:induction false} WalkPersists(plan: Plan, req: Request, slots: seq<Slot>, m: Counters, meter: Meter)
    ensures AllOrderly(plan, req, slots, meter, Walk(plan, req, slots, m, meter).visits)
    decreases |slots|
  {
    hide Tries, Stops, Orderly, AllOrderly, MaxTries;
    if slots == [] || Spent(plan, meter) {
      NoVisit(plan, req, slots, meter);
    } else {
      var run := Attempt(plan, req, slots[0], m, meter);
      TriesPersist(plan, req, slots[0], MaxTries(plan, slots[0]), m, meter, None, None);
      NoVisit(plan, req, slots[1..], run.meter);
      OneMoreVisit(plan, req, slots, meter, run, []);
      assert [run] + [] == [run];
      if !Stops(run.outcome) {
        WalkPersists(plan, req, slots[1..], run.m, run.meter);
        OneMoreVisit(plan, req, slots, meter, run, Walk(plan, req, slots[1..], run.m, run.meter).visits);
      }
    }
  }

  lemma NoVisit(plan: Plan, req: Request, slots: seq<Slot>, meter: Meter)
    ensures AllOrderly(plan, req, slots, meter, [])
  {
  }

  /** The same among other requests. */
  lemma {:induction false} SharedWalkPersists(c: Shared.Crowd, plan: Plan, req: Request, slots: seq<Slot>, tid: nat,
                                              w: Shared.World, meter: Meter)
    requires Shared.AllForeign(c) && c.base <= tid && tid + |slots| <= |w.s.threads|
    ensures AllOrderly(plan, req, slots, meter, Shared.SharedWalk(c, plan, req, slots, tid, w, meter).1.visits)
    decreases |slots|
  {
    hide Shared.SharedTries, Shared.AllForeign, Stops, Orderly, AllOrderly, MaxTries;
    if slots == [] || Spent(plan, meter) {
      NoVisit(plan, req, slots, meter);
    } else {
      var x := Shared.SharedAttempt(c, plan, req, slots[0], tid, w, meter);
      SharedTriesPersist(c, plan, req, slots[0], tid, MaxTries(plan, slots[0]), w, meter, None, None);
      NoVisit(plan, req, slots[1..], x.run.meter);
      OneMoreVisit(plan, req, slots, meter, x.run, []);
      assert [x.run] + [] == [x.run];
      if !Stops(x.run.outcome) {
        SharedWalkPersists(c, plan, req, slots[1..], tid + 1, x.w, x.run.meter);
        OneMoreVisit(plan, req, slots, meter, x.run,
                     Shared.SharedWalk(c, plan, req, slots[1..], tid + 1, x.w, x.run.meter).1.visits);
      }
    }
  }

  // ---------- what a reply tells the router ----------

  /** Each call is recorded once, in order: credited when it went through, blamed with its status when it did not. */
  lemma {:induction false} RecordsOfReplies(cs: seq<Contact>)
    ensures |RecordsOf(cs)| == |cs|
    ensures forall i | 0 <= i < |cs| ::
              RecordsOf(cs)[i]
              == if cs[i].reply.Ok? then Credited(cs[i].target) else Blamed(cs[i].target, StatusOf(cs[i].reply))
  {
    if cs != [] {
      RecordsOfReplies(cs[..|cs| - 1]);
    }
  }

  const YEAR: int := 31_536_000_000_000_000

  /** A rejected, unpaid or forbidden credential is out for 365 days; a rate-limited one for ten seconds, from the
      fourth time in a row for thirty; the breaker counts server errors, broken calls and timeouts, and nothing else
      changes. */
  lemma BlameFor(g: Groups.GroupView, apiKey: string, r: Reply, now: nat, i: nat)
    requires !r.Ok? && i < |g.keys|
    requires g.keys[i].apiKey == apiKey && forall j | 0 <= j < i :: g.keys[j].apiKey != apiKey
    ensures var g' := Groups.Fail(g, apiKey, StatusOf(r), now);
            var broken := r.DeadlineExceeded? || r.TransportFault?
                          || (r.EndpointError? && (r.status < 400 || 500 <= r.status < 600));
            && |g'.keys| == |g.keys|
            && (forall j | 0 <= j < |g.keys| && j != i :: g'.keys[j] == g.keys[j])
            && g'.keys[i].apiKey == apiKey
            && (r.EndpointError? && r.status in {401, 402, 403} ==>
                  g'.keys[i] == g.keys[i].(cooldownUntil := now + YEAR))
            && (r.EndpointError? && r.status == 429 ==>
                  && g'.keys[i].fails == g.keys[i].fails + 1
                  && g'.keys[i].cooldownUntil == now + if g.keys[i].fails < 3 then 10_000_000_000 else 30_000_000_000)
            && (!r.EndpointError? || r.status !in {401, 402, 403, 429} ==> g'.keys[i] == g.keys[i])
            && g'.health == (if broken then Breakers.Failed(g.policy, g.health, now) else g.health)
            && g' == g.(keys := g'.keys, health := g'.health)
  {
    hide Breakers.Failed;
    KeyPools.IndexOfFinds(g.keys, apiKey);
  }

  /** A failure of a credential the group does not hold counts against the breaker at most. */
  lemma BlameForUnknown(g: Groups.GroupView, apiKey: string, r: Reply, now: nat)
    requires !r.Ok? && forall j | 0 <= j < |g.keys| :: g.keys[j].apiKey != apiKey
    ensures var broken := r.DeadlineExceeded? || r.TransportFault?
                          || (r.EndpointError? && (r.status < 400 || 500 <= r.status < 600));
            Groups.Fail(g, apiKey, StatusOf(r), now)
            == if broken then g.(health := Breakers.Failed(g.policy, g.health, now)) else g
  {
    hide Breakers.Failed;
    KeyPools.IndexOfFinds(g.keys, apiKey);
  }

  /** A success closes the breaker, forgets its errors and every credential's failures, and ends no cooldown. */
  lemma {:induction false} CreditFor(g: Groups.GroupView)
    ensures var g' := Groups.Succeed(g);
            && |g'.keys| == |g.keys|
            && (forall j | 0 <= j < |g.keys| :: g'.keys[j] == g.keys[j].(fails := 0))
            && g'.health == Breakers.Health(Breakers.Closed, 0, 0, 0)
            && g' == g.(keys := g'.keys, health := g'.health)
  {
    Groups.ClearFailsLength(g.keys);
  }
}
