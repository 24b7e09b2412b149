/** The rate-limit headers reported to callers, and what they let a caller predict. */
module Headers {
  import opened Prelude
  import opened Windows
  import opened Cells
  import opened Limiters
  import opened LimiterProtocol

  datatype Report = Report(limit: int, remaining: int, reset: int)

  /** The order in which headers are rendered. */
  const HEADER_WINDOWS: seq<Window> := [RPM, RPD, TPM, TPD, CPM, CPD, ASEC, AMIN]

  predicate HasAny(limits: Limits) {
    exists w | w in limits :: limits[w].Some?
  }

  /** The remaining quota of a window: never reported below zero. */
  function Remaining(limit: int, used: int): int { Max(0, limit - used) }

  lemma EveryWindowHasAHeader(w: Window)
    ensures w in HEADER_WINDOWS
  {
    match w
    case RPM => assert HEADER_WINDOWS[0] == w;
    case RPD => assert HEADER_WINDOWS[1] == w;
    case TPM => assert HEADER_WINDOWS[2] == w;
    case TPD => assert HEADER_WINDOWS[3] == w;
    case CPM => assert HEADER_WINDOWS[4] == w;
    case CPD => assert HEADER_WINDOWS[5] == w;
    case ASEC => assert HEADER_WINDOWS[6] == w;
    case AMIN => assert HEADER_WINDOWS[7] == w;
  }

  /** Reports every constrained window and no other. `now` is the clock of the limiter and of the reset time. */
  method RateLimitHeaders(limiter: Limiter?, id: CellId, limits: Limits, now: int) returns (h: map<Window, Report>)
    requires limiter != null ==> limiter.Valid()
    ensures limiter == null ==> h == map[]
    ensures limiter != null ==> forall w: Window :: w in h <==> LimitOf(limits, w).Some?
    ensures limiter != null ==> forall w | w in h && LimitOf(limits, w).Some? ::
              h[w] == Report(limits[w].value, Remaining(limits[w].value, Reading(limiter.cells, Key(id, w), now)),
                             WindowEnd(w, now))
  {
    hide Label;
    h := map[];
    if limiter == null || !HasAny(limits) {
      return;
    }
    var ws := HEADER_WINDOWS;
    while ws != []
      invariant forall w: Window :: w in h ==> LimitOf(limits, w).Some?
      invariant forall w: Window | LimitOf(limits, w).Some? && w in HEADER_WINDOWS :: w in h || w in ws
      invariant forall w | w in h && LimitOf(limits, w).Some? ::
                  h[w] == Report(limits[w].value, Remaining(limits[w].value, Reading(limiter.cells, Key(id, w), now)),
                                 WindowEnd(w, now))
      decreases |ws|
    {
      var w := ws[0];
      if LimitOf(limits, w).Some? {
        var limit := limits[w].value;
        var used := limiter.Usage(Key(id, w), now);
        var remaining := limit - used;
        if remaining < 0 {
          remaining := 0;
        }
        h := h[w := Report(limit, remaining, WindowEnd(w, now))];
      }
      ws := ws[1..];
    }
    forall w: Window ensures w in HEADER_WINDOWS {
      EveryWindowHasAHeader(w);
    }
  }

  /** On one window the reported remainder decides admission exactly, unless the window is over its limit and the
      request asks nothing of it: then zero remains, zero is asked, and the request is refused all the same. */
  lemma RemainingDecidesWindowIff(m: Counters, id: CellId, limits: Limits, c: Costs, now: int, w: Window)
    requires LimitOf(limits, w).Some?
    ensures var limit := LimitOf(limits, w).value;
            var used := Reading(m, Key(id, w), now);
            (Fits(m, id, limits, c, now, w) <==> AmountOf(w, c) <= Remaining(limit, used))
            <==> (used <= limit || AmountOf(w, c) > 0)
  {
    hide Label, AmountOf;
  }

  /** A window reports zero, the request asks nothing of it, and the window is over its limit all the same. */
  ghost predicate Misleads(m: Counters, id: CellId, limits: Limits, c: Costs, now: int, w: Window) {
    LimitOf(limits, w).Some? && Reading(m, Key(id, w), now) > LimitOf(limits, w).value && AmountOf(w, c) == 0
  }

  /** The request asks no more of any constrained window than the remainder reported for it. */
  ghost predicate WithinReport(m: Counters, id: CellId, limits: Limits, c: Costs, now: int) {
    forall w: Window | LimitOf(limits, w).Some? ::
      AmountOf(w, c) <= Remaining(LimitOf(limits, w).value, Reading(m, Key(id, w), now))
  }

  /** No constrained window begins a new bucket between the report and the request. */
  ghost predicate SameBuckets(limits: Limits, now: int, next: int) {
    forall w: Window | LimitOf(limits, w).Some? :: Label(w, next) == Label(w, now)
  }

  /** What is admitted was within the report, and what is within the report is admitted exactly when no window
      misleads. */
  lemma {:induction false} RemainingPredictsAdmission(m: Counters, id: CellId, limits: Limits, c: Costs, now: int,
                                                      next: int)
    requires Timely(m, now) && now <= next && SameBuckets(limits, now, next)
    ensures Reserve(m, id, limits, c, next).1.None?
       <==> WithinReport(m, id, limits, c, now) && forall w: Window :: !Misleads(m, id, limits, c, now, w)
  {
    hide Label, Reserve, AmountOf, Reading;
    LaterReading(m, Key(id, RPM), now, next);
    ReserveAllOrNothing(m, id, limits, c, next);
    forall w: Window | LimitOf(limits, w).Some?
      ensures Fits(m, id, limits, c, next, w)
         <==> AmountOf(w, c) <= Remaining(LimitOf(limits, w).value, Reading(m, Key(id, w), now))
              && !Misleads(m, id, limits, c, now, w)
    {
      LaterReading(m, Key(id, w), now, next);
      RemainingDecidesWindowIff(m, id, limits, c, now, w);
    }
  }

  /** Under unchanged limits no report misleads a dispatched request: whatever ran before, however interleaved, a
      request of at least one token is admitted in the same buckets exactly when it is within the report. Settlements
      may have pushed the token windows over their limits; of those it asks something. */
  lemma {:induction false} ReportsPredictAfterAnyRun(config: Config, s: State, events: seq<Event>, id: CellId, c: Costs,
                                                     now: int, next: int)
    requires WithinLimits(config, s) && Timely(s.cells, now) && c.tokens >= 1
    requires forall e | e in events :: ReadsClockBy(e, now)
    requires now <= next && SameBuckets(LimitsFor(config, id), now, next)
    ensures var m, limits := Exec(config, s, events).cells, LimitsFor(config, id);
            Reserve(m, id, limits, c, next).1.None? <==> WithinReport(m, id, limits, c, now)
  {
    hide Label, Reserve, Exec, Reading, LimitsAreNatural;
    var m, limits := Exec(config, s, events).cells, LimitsFor(config, id);
    RunIsTimely(config, s, events, now);
    forall w: Window ensures !Misleads(m, id, limits, c, now, w) {
      RunNeverMisleads(config, s, events, id, c, now, w);
    }
    RemainingPredictsAdmission(m, id, limits, c, now, next);
  }

  lemma {:induction false} RunNeverMisleads(config: Config, s: State, events: seq<Event>, id: CellId, c: Costs,
                                            now: int, w: Window)
    requires WithinLimits(config, s) && c.tokens >= 1
    ensures !Misleads(Exec(config, s, events).cells, id, LimitsFor(config, id), c, now, w)
  {
    hide Label, Exec;
    var k, s' := Key(id, w), Exec(config, s, events);
    if LimitAt(config, k).Some? && k in s'.cells {
      CeilingsHold(config, s, events, k);
    }
    assert LimitAt(config, k).Some? ==> LimitAt(config, k).value >= 0;
  }

  /** Lowering a limit is what makes a report mislead: after eight characters under a limit of ten, a limit of five
      reports nothing left, and a request without characters, which is within that report, is refused. */
  lemma {:induction false} LoweredLimitMisleads(id: CellId, t: int)
    ensures var lowered := map[CPM := Some(5)];
            var (m, r) := Reserve(map[], id, map[CPM := Some(10)], Costs(1, 8, 0), t);
            && r.None?
            && WithinReport(m, id, lowered, Costs(1, 0, 0), t)
            && Reserve(m, id, lowered, Costs(1, 0, 0), t).1.Some?
  {
    hide Label, Reserve, Reading;
    var lowered: Limits := map[CPM := Some(5)];
    var before: Limits := map[CPM := Some(10)];
    NothingCounted(id, t);
    ReserveAllOrNothing(map[], id, before, Costs(1, 8, 0), t);
    var m := Reserve(map[], id, before, Costs(1, 8, 0), t).0;
    assert Reading(m, Key(id, CPM), t) == 8;
    assert Misleads(m, id, lowered, Costs(1, 0, 0), t, CPM);
    RemainingPredictsAdmission(m, id, lowered, Costs(1, 0, 0), t, t);
  }
}
