/** Whole runs of the limiter under a clock that does not go back, and the background purge inside them. */
module LimiterRuns {
  import opened Prelude
  import opened Windows
  import opened Cells

  datatype Op =
    | ReserveOp(id: CellId, limits: Limits, c: Costs)
    | RefundOp(id: CellId, limits: Limits, c: Costs)
    | ReconcileOp(id: CellId, actual: int, reserved: int)
    | UsageOp(key: Key)
    | PurgeOp

  datatype Call = Call(at: int, op: Op)

  /** What a caller gets back. */
  datatype Answer = Verdict(r: Option<Rejection>) | Count(n: int)

  function Apply(m: Counters, call: Call): Counters {
    match call.op
    case ReserveOp(id, limits, c) => Reserve(m, id, limits, c, call.at).0
    case RefundOp(id, limits, c) => Refund(m, id, limits, c, call.at)
    case ReconcileOp(id, actual, reserved) => Reconcile(m, id, actual, reserved, call.at)
    case UsageOp(_) => m
    case PurgeOp => Purge(m, call.at)
  }

  function AnswersOf(m: Counters, call: Call): seq<Answer> {
    match call.op
    case ReserveOp(id, limits, c) => [Verdict(Reserve(m, id, limits, c, call.at).1)]
    case UsageOp(key) => [Count(Reading(m, key, call.at))]
    case _ => []
  }

  function Run(m: Counters, calls: seq<Call>): Counters
    decreases |calls|
  {
    if calls == [] then m else Run(Apply(m, calls[0]), calls[1..])
  }

  /** Every answer the calls produce, in order. */
  function Transcript(m: Counters, calls: seq<Call>): seq<Answer>
    decreases |calls|
  {
    if calls == [] then [] else AnswersOf(m, calls[0]) + Transcript(Apply(m, calls[0]), calls[1..])
  }

  function WithoutPurges(calls: seq<Call>): seq<Call> {
    if calls == [] then []
    else (if calls[0].op.PurgeOp? then [] else [calls[0]]) + WithoutPurges(calls[1..])
  }

  /** The clock never goes back, starting from `t`. */
  predicate Monotone(calls: seq<Call>, t: int) {
    calls == [] || (t <= calls[0].at && Monotone(calls[1..], calls[0].at))
  }

  /** The time of the last call. */
  function EndTime(calls: seq<Call>, t: int): int {
    if calls == [] then t else EndTime(calls[1..], calls[0].at)
  }

  /** Two stores that no caller can tell apart from `now` on. */
  ghost predicate Alike(m1: Counters, m2: Counters, now: int) {
    Timely(m1, now) && Timely(m2, now) && SameReadings(m1, m2, now)
  }

  lemma AlikeLater(m1: Counters, m2: Counters, now: int, t: int)
    requires Alike(m1, m2, now) && now <= t
    ensures Alike(m1, m2, t)
  {
    hide Label;
    forall k ensures Timely(m1, t) && Timely(m2, t) && Reading(m2, k, t) == Reading(m1, k, t) {
      LaterReading(m1, k, now, t);
      LaterReading(m2, k, now, t);
    }
    LaterReading(m1, Key(CellId("", "", "", LevelUser), RPM), now, t);
    LaterReading(m2, Key(CellId("", "", "", LevelUser), RPM), now, t);
  }

  lemma ReserveAlike(m1: Counters, m2: Counters, id: CellId, limits: Limits, c: Costs, now: int)
    requires Alike(m1, m2, now)
    ensures Reserve(m1, id, limits, c, now).1 == Reserve(m2, id, limits, c, now).1
    ensures Alike(Reserve(m1, id, limits, c, now).0, Reserve(m2, id, limits, c, now).0, now)
  {
    hide Label, Reserve, Reading;
    ReserveAllOrNothing(m1, id, limits, c, now);
    ReserveAllOrNothing(m2, id, limits, c, now);
    var r1 := Reserve(m1, id, limits, c, now).1;
    var r2 := Reserve(m2, id, limits, c, now).1;
    forall w: Window ensures Fits(m1, id, limits, c, now, w) == Fits(m2, id, limits, c, now, w) {
    }
    if r1.Some? {
      assert r2.Some?;
      assert Index(r1.value.window) == Index(r2.value.window);
      assert WINDOWS[Index(r1.value.window)] == WINDOWS[Index(r2.value.window)];
    }
  }

  lemma PurgeAlike(m: Counters, now: int)
    requires Timely(m, now)
    ensures Alike(Purge(m, now), m, now)
  {
    hide Label;
  }

  lemma ApplyAlike(m1: Counters, m2: Counters, call: Call)
    requires Alike(m1, m2, call.at)
    ensures AnswersOf(m1, call) == AnswersOf(m2, call)
    ensures Alike(Apply(m1, call), Apply(m2, call), call.at)
  {
    hide Label, Reserve, Refund, Reconcile;
    match call.op
    case ReserveOp(id, limits, c) => ReserveAlike(m1, m2, id, limits, c, call.at);
    case RefundOp(id, limits, c) =>
      RefundReadings(m1, id, limits, c, call.at);
      RefundReadings(m2, id, limits, c, call.at);
    case ReconcileOp(id, actual, reserved) =>
      ReconcileReadings(m1, id, actual, reserved, call.at);
      ReconcileReadings(m2, id, actual, reserved, call.at);
    case UsageOp(key) =>
    case PurgeOp =>
      PurgeAlike(m1, call.at);
      PurgeAlike(m2, call.at);
  }

  /** Under a clock that does not go back, purging anywhere in a run changes no answer and no reading after it. */
  lemma {:induction false} PurgesAreInvisible(m1: Counters, m2: Counters, calls: seq<Call>, t: int)
    requires Alike(m1, m2, t) && Monotone(calls, t)
    ensures Transcript(m1, calls) == Transcript(m2, WithoutPurges(calls))
    ensures Alike(Run(m1, calls), Run(m2, WithoutPurges(calls)), EndTime(calls, t))
    decreases |calls|
  {
    hide Alike, Apply, AnswersOf;
    if calls != [] {
      var call := calls[0];
      AlikeLater(m1, m2, t, call.at);
      if call.op.PurgeOp? {
        PurgeKeepsAlike(m1, m2, call);
        PurgesAreInvisible(Apply(m1, call), m2, calls[1..], call.at);
        assert WithoutPurges(calls) == WithoutPurges(calls[1..]);
      } else {
        ApplyAlike(m1, m2, call);
        PurgesAreInvisible(Apply(m1, call), Apply(m2, call), calls[1..], call.at);
        assert WithoutPurges(calls)[1..] == WithoutPurges(calls[1..]);
      }
    }
  }

  lemma PurgeKeepsAlike(m1: Counters, m2: Counters, call: Call)
    requires call.op.PurgeOp? && Alike(m1, m2, call.at)
    ensures AnswersOf(m1, call) == []
    ensures Alike(Apply(m1, call), m2, call.at)
  {
    hide Label;
    PurgeAlike(m1, call.at);
  }

  /** A rejected caller who waits the whole-second hint finds the window that rejected it empty, unless others have
      used the new bucket in the meantime. */
  lemma {:induction false} HintFreesRejectingWindow(m: Counters, id: CellId, limits: Limits, c: Costs, now: int,
                                                    later: int)
    requires Timely(m, now)
    requires Reserve(m, id, limits, c, now).1.Some?
    requires later >= now + HintSeconds(Reserve(m, id, limits, c, now).1.value.retryAfter) * SECOND
    ensures var (m', r) := Reserve(m, id, limits, c, now);
            && Reading(m', Key(id, r.value.window), later) == 0
            && (AmountOf(r.value.window, c) <= r.value.limit ==> Fits(m', id, limits, c, later, r.value.window))
  {
    hide Label, Reserve;
    ReserveAllOrNothing(m, id, limits, c, now);
    var (m', r) := Reserve(m, id, limits, c, now);
    var w := r.value.window;
    HintReachesNextBucket(w, now, later);
    LabelConstantUntilWindowEnd(w, now, now);
    HintOutlastsDelay(r.value.retryAfter);
    LaterReading(m', Key(id, w), now, later);
  }
}
