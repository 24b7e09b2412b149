/** How interleaved requests are decided: exactly when a locked section turns a request away, when it does so only for
    charges that may still be rolled back, and when the decision is that of the sequential reservation. */
module LimiterDecisions {
  import opened Prelude
  import opened Windows
  import opened Cells
  import opened LimiterProtocol

  /** The request holds charges of which it is still open whether they stay. */
  predicate Undecided(th: Thread) { th.phase.Reserving? || th.phase.RollingBack? }

  /** The charges of requests that were admitted: held, being refunded, being settled, settled. */
  function FirmOwed(config: Config, threads: seq<Thread>, k: Key): int {
    if threads == [] then 0
    else
      (if Undecided(threads[0]) then 0 else Owes(LimitsFor(config, threads[0].req.id), threads[0], k))
      + FirmOwed(config, threads[1..], k)
  }

  /** The staged charges of requests that are still reserving or already rolling back. */
  function UndecidedOwed(config: Config, threads: seq<Thread>, k: Key): int {
    if threads == [] then 0
    else
      (if Undecided(threads[0]) then Owes(LimitsFor(config, threads[0].req.id), threads[0], k) else 0)
      + UndecidedOwed(config, threads[1..], k)
  }

  lemma {:induction false} OwedSplits(config: Config, threads: seq<Thread>, k: Key)
    ensures TotalOwed(config, threads, k) == FirmOwed(config, threads, k) + UndecidedOwed(config, threads, k)
    decreases |threads|
  {
    hide Owes;
    if threads != [] {
      OwedSplits(config, threads[1..], k);
    }
  }

  /** Request `tid` is about to check window `k.window` of cell `k.id`, which its limits constrain. */
  ghost predicate AboutToCheck(config: Config, s: State, tid: nat, k: Key) {
    && tid < |s.threads| && s.threads[tid].req.id == k.id && LimitAt(config, k).Some?
    && s.threads[tid].phase.Reserving? && s.threads[tid].phase.ws != [] && s.threads[tid].phase.ws[0] == k.window
  }

  /** The next locked section of request `tid` turns it away. */
  predicate TurnsAway(config: Config, s: State, tid: nat)
    requires tid < |s.threads|
  {
    Advance(s.cells, LimitsFor(config, s.threads[tid].req.id), s.threads[tid]).1.phase.RollingBack?
  }

  /** In one bucket of a window, after any interleaving, the check of that window turns a request away exactly when the
      start value, the firm charges, the undecided charges of the other requests and its own amount exceed the limit. */
  lemma {:induction false} TurnedAwayIff(config: Config, s: State, events: seq<Event>, tid: nat, k: Key, t: int)
    requires RunInBucket(s, events, k.window, t) && AboutToCheck(config, Exec(config, s, events), tid, k)
    ensures var s' := Exec(config, s, events);
            TurnsAway(config, s', tid)
            <==> Reading(s.cells, k, t) + FirmOwed(config, s'.threads, k) + UndecidedOwed(config, s'.threads, k)
                 + AmountOf(k.window, s'.threads[tid].req.c) > LimitAt(config, k).value
  {
    hide Label, Exec, Owes, TotalOwed, AmountOf, RunInBucket;
    var s' := Exec(config, s, events);
    RunConserves(config, s, events, k.window, t);
    OwedSplits(config, s'.threads, k);
    assert ThreadOk(LimitsFor(config, k.id), s'.threads[tid], k.window, t);
  }

  /** A request is turned away although it would fit among the firm charges exactly when the undecided charges of others
      fill the room that is left for it. */
  lemma {:induction false} TurnedAwayNeedlesslyIff(config: Config, s: State, events: seq<Event>, tid: nat, k: Key,
                                                   t: int)
    requires RunInBucket(s, events, k.window, t) && AboutToCheck(config, Exec(config, s, events), tid, k)
    ensures var s' := Exec(config, s, events);
            var room := LimitAt(config, k).value - Reading(s.cells, k, t) - FirmOwed(config, s'.threads, k)
                        - AmountOf(k.window, s'.threads[tid].req.c);
            TurnsAway(config, s', tid) && room >= 0 <==> 0 <= room < UndecidedOwed(config, s'.threads, k)
  {
    hide Exec, Reading, AmountOf, TurnsAway, RunInBucket, AboutToCheck;
    TurnedAwayIff(config, s, events, tid, k, t);
  }

  /** No request of the cell but `tid` is undecided. */
  ghost predicate AloneUndecided(s: State, tid: nat, id: CellId) {
    forall i | 0 <= i < |s.threads| && i != tid && s.threads[i].req.id == id :: !Undecided(s.threads[i])
  }

  lemma {:induction false} NoneUndecidedOwesNothing(config: Config, threads: seq<Thread>, k: Key)
    requires forall i | 0 <= i < |threads| && threads[i].req.id == k.id ::
               Undecided(threads[i]) ==> Owes(LimitsFor(config, k.id), threads[i], k) == 0
    ensures UndecidedOwed(config, threads, k) == 0
    decreases |threads|
  {
    if threads != [] {
      assert forall i | 0 <= i < |threads| - 1 :: threads[1..][i] == threads[i + 1];
      NoneUndecidedOwesNothing(config, threads[1..], k);
    }
  }

  /** With no other request of the cell undecided, only firm charges count: the request is turned away exactly when it
      does not fit among them. */
  lemma {:induction false} AloneUndecidedIsFair(config: Config, s: State, events: seq<Event>, tid: nat, k: Key, t: int)
    requires RunInBucket(s, events, k.window, t) && AboutToCheck(config, Exec(config, s, events), tid, k)
    requires AloneUndecided(Exec(config, s, events), tid, k.id)
    ensures var s' := Exec(config, s, events);
            TurnsAway(config, s', tid)
            <==> Reading(s.cells, k, t) + FirmOwed(config, s'.threads, k)
                 + AmountOf(k.window, s'.threads[tid].req.c) > LimitAt(config, k).value
  {
    hide Exec, Reading, AmountOf, TurnsAway, RunInBucket, Label;
    var s' := Exec(config, s, events);
    RunConserves(config, s, events, k.window, t);
    assert ThreadOk(LimitsFor(config, k.id), s'.threads[tid], k.window, t);
    NoneUndecidedOwesNothing(config, s'.threads, k);
    TurnedAwayIff(config, s, events, tid, k, t);
  }

  // ---------- a cell nobody else touches ----------

  /** The stores agree on what cell `id` reads at `now`. */
  ghost predicate SameCell(m1: Counters, m2: Counters, id: CellId, now: int) {
    forall k: Key | k.id == id :: Reading(m1, k, now) == Reading(m2, k, now)
  }

  /** A reservation under way with the clock reading `now`. */
  ghost predicate ReservesAt(th: Thread, now: int) {
    match th.phase
    case Reserving(n, _, _) => n == now
    case RollingBack(n, _) => n == now
    case Held | Rejected => true
    case _ => false
  }

  lemma AdvanceReadsItsCell(m1: Counters, m2: Counters, limits: Limits, th: Thread, now: int)
    requires ReservesAt(th, now) && SameCell(m1, m2, th.req.id, now)
    ensures Advance(m1, limits, th).1 == Advance(m2, limits, th).1
    ensures ReservesAt(Advance(m1, limits, th).1, now) && Advance(m1, limits, th).1.req == th.req
    ensures SameCell(Advance(m1, limits, th).0, Advance(m2, limits, th).0, th.req.id, now)
  {
    hide Label, AmountOf;
  }

  /** What a reservation decides and does to its cell depends on what its cell reads, and on nothing else. */
  lemma {:induction false} SoloReadsItsCell(m1: Counters, m2: Counters, limits: Limits, th: Thread, now: int)
    requires ReservesAt(th, now) && SameCell(m1, m2, th.req.id, now)
    ensures Solo(m1, limits, th).1 == Solo(m2, limits, th).1
    ensures SameCell(Solo(m1, limits, th).0, Solo(m2, limits, th).0, th.req.id, now)
    decreases Busy(th), th.phase.Reserving?, Remaining(th)
  {
    hide Label, AmountOf, SameCell, ReservesAt;
    if Busy(th) {
      AdvanceReadsItsCell(m1, m2, limits, th, now);
      var (n1, t1) := Advance(m1, limits, th);
      var (n2, t2) := Advance(m2, limits, th);
      SoloReadsItsCell(n1, n2, limits, t1, now);
    }
  }

  /** The event is a step of request `tid` or does not touch its cell: other requests work on other cells, and purges of
      this cell read the clock in the buckets of `now`. */
  ghost predicate Quiet(s: State, tid: nat, e: Event, id: CellId, now: int) {
    match e
    case Sweep(key, at) => key.id == id ==> SameBucket(key.window, at, now)
    case Proceed(i) => i == tid || i >= |s.threads| || s.threads[i].req.id != id
    case Begin(i, _) => i != tid
    case Cancel(i, _) => i != tid
    case Finish(i, _, _) => i != tid
  }

  lemma QuietStep(config: Config, s: State, tid: nat, e: Event, now: int)
    requires tid < |s.threads| && ReservesAt(s.threads[tid], now)
    requires Quiet(s, tid, e, s.threads[tid].req.id, now)
    ensures var s', th := Step(config, s, e), s.threads[tid];
            && |s'.threads| == |s.threads|
            && (forall i | 0 <= i < |s.threads| :: s'.threads[i].req == s.threads[i].req)
            && (if e == Proceed(tid) then
                  (s'.cells, s'.threads[tid]) == Advance(s.cells, LimitsFor(config, th.req.id), th)
                else s'.threads[tid] == th && SameCell(s'.cells, s.cells, th.req.id, now))
  {
    hide Label, AmountOf;
    var th, s' := s.threads[tid], Step(config, s, e);
    if e.Sweep? {
      forall k: Key | k.id == th.req.id ensures Reading(s'.cells, k, now) == Reading(s.cells, k, now) {
        if e.key == k {
          EvictKeepsReading(s.cells, e.key, e.now, k, now);
        }
      }
    } else if e.tid < |s.threads| {
      AdvanceKeepsRequest(s.cells, LimitsFor(config, s.threads[e.tid].req.id), s.threads[e.tid]);
    }
  }

  /** Requests keep their cells, so an event is quiet later exactly when it is quiet now. */
  lemma StillQuiet(s: State, s1: State, tid: nat, e: Event, id: CellId, now: int)
    requires |s1.threads| == |s.threads| && forall i | 0 <= i < |s.threads| :: s1.threads[i].req == s.threads[i].req
    ensures Quiet(s1, tid, e, id, now) == Quiet(s, tid, e, id, now)
  {
    hide Label;
  }

  lemma {:induction false} QuietRunIsSolo(config: Config, s: State, tid: nat, events: seq<Event>, now: int)
    requires tid < |s.threads| && ReservesAt(s.threads[tid], now)
    requires forall e | e in events :: Quiet(s, tid, e, s.threads[tid].req.id, now)
    ensures var s', th := Exec(config, s, events), s.threads[tid];
            var limits := LimitsFor(config, th.req.id);
            && tid < |s'.threads| && s'.threads[tid].req == th.req && ReservesAt(s'.threads[tid], now)
            && Solo(s'.cells, limits, s'.threads[tid]).1 == Solo(s.cells, limits, th).1
            && SameCell(Solo(s'.cells, limits, s'.threads[tid]).0, Solo(s.cells, limits, th).0, th.req.id, now)
    decreases |events|
  {
    hide Label, Step, Advance, Quiet, SameCell, ReservesAt;
    if events == [] {
      SameCellAsItself(s.cells, s.threads[tid].req.id, now);
      SoloReadsItsCell(s.cells, s.cells, LimitsFor(config, s.threads[tid].req.id), s.threads[tid], now);
    } else {
      var th := s.threads[tid];
      var limits := LimitsFor(config, th.req.id);
      var s1 := Step(config, s, events[0]);
      QuietStep(config, s, tid, events[0], now);
      if events[0] == Proceed(tid) {
        SameCellAsItself(s.cells, th.req.id, now);
        AdvanceReadsItsCell(s.cells, s.cells, limits, th, now);
        MayUnfold(th, now);
        SoloUnfolds(s.cells, limits, th);
        SameCellAsItself(Solo(s.cells, limits, th).0, th.req.id, now);
      } else {
        SoloReadsItsCell(s1.cells, s.cells, limits, th, now);
      }
      forall e | e in events[1..] ensures Quiet(s1, tid, e, th.req.id, now) {
        StillQuiet(s, s1, tid, e, th.req.id, now);
      }
      QuietRunIsSolo(config, s1, tid, events[1..], now);
      var s' := Exec(config, s1, events[1..]);
      SameCellComposes(Solo(s'.cells, limits, s'.threads[tid]).0, Solo(s1.cells, limits, s1.threads[tid]).0,
                       Solo(s.cells, limits, th).0, th.req.id, now);
    }
  }

  lemma SameCellAsItself(m: Counters, id: CellId, now: int)
    ensures SameCell(m, m, id, now)
  {
  }

  lemma SameCellComposes(m1: Counters, m2: Counters, m3: Counters, id: CellId, now: int)
    requires SameCell(m1, m2, id, now) && SameCell(m2, m3, id, now)
    ensures SameCell(m1, m3, id, now)
  {
  }

  lemma MayUnfold(th: Thread, now: int)
    requires ReservesAt(th, now)
    ensures Undecided(th) || th.phase.Held? || th.phase.Rejected?
  {
  }

  lemma SoloUnfolds(m: Counters, limits: Limits, th: Thread)
    requires Undecided(th) || th.phase.Held? || th.phase.Rejected?
    ensures Solo(m, limits, th) == Solo(Advance(m, limits, th).0, limits, Advance(m, limits, th).1)
  {
    hide Label;
  }

  /** A reservation that nobody else touches the cell of is decided as the sequential one, and leaves the cell reading
      as the sequential one does, whatever runs on other cells between its locked sections. */
  lemma {:induction false} QuietCellDecidesAsReserve(config: Config, s: State, tid: nat, events: seq<Event>, now: int)
    requires tid < |s.threads| && s.threads[tid].phase == Reserving(now, WINDOWS, [])
    requires forall e | e in events :: Quiet(s, tid, e, s.threads[tid].req.id, now)
    requires tid < |Exec(config, s, events).threads| && !Busy(Exec(config, s, events).threads[tid])
    ensures var s', th := Exec(config, s, events), s.threads[tid];
            var (m, r) := Reserve(s.cells, th.req.id, LimitsFor(config, th.req.id), th.req.c, now);
            && s'.threads[tid].phase == (if r.None? then Held else Rejected)
            && SameCell(s'.cells, m, th.req.id, now)
  {
    hide Label, Exec, Step, Quiet, SameCell, Stage;
    var th := s.threads[tid];
    QuietRunIsSolo(config, s, tid, events, now);
    SoloStage(s.cells, LimitsFor(config, th.req.id), th.req, now, WINDOWS, []);
  }

  // ---------- what interleaving costs ----------

  const CELL := CellId("", "", "", LevelModel)
  const TIGHT: Config := map[CELL := map[RPM := Some(1), TPM := Some(5)]]

  /** Two requests on one cell: the first can never fit, the second fits whenever it runs alone. */
  const RIVALS: State :=
    State(map[], [Thread(Request(CELL, Costs(10, 0, 0)), Idle), Thread(Request(CELL, Costs(1, 0, 0)), Idle)])

  /** Reservations are not atomic as a whole: the second request is turned away by a charge the first is about to
      roll back, although it would have been admitted both before and after the first. */
  lemma InterleavingMayRejectWhatFits(t: int)
    ensures var s := Exec(TIGHT, RIVALS, [Begin(0, t), Proceed(0), Begin(1, t), Proceed(1), Proceed(1)]);
            |s.threads| == 2 && s.threads[1].phase == Rejected
    ensures Reserve(map[], CELL, LimitsFor(TIGHT, CELL), RIVALS.threads[1].req.c, t).1.None?
    ensures var (m, r) := Reserve(map[], CELL, LimitsFor(TIGHT, CELL), RIVALS.threads[0].req.c, t);
            r.Some? && Reserve(m, CELL, LimitsFor(TIGHT, CELL), RIVALS.threads[1].req.c, t).1.None?
  {
    hide Label;
    var s1 := Step(TIGHT, RIVALS, Begin(0, t));
    var s2 := Step(TIGHT, s1, Proceed(0));
    assert s2.cells == map[Key(CELL, RPM) := Counter(Label(RPM, t), 1)];
    var s3 := Step(TIGHT, s2, Begin(1, t));
    var s4 := Step(TIGHT, s3, Proceed(1));
    assert s4.threads[1].phase == RollingBack(t, []);
    var s5 := Step(TIGHT, s4, Proceed(1));
    assert s5 == Exec(TIGHT, s4, [Proceed(1)]);
    assert s5 == Exec(TIGHT, s3, [Proceed(1), Proceed(1)]) by {
      assert [Proceed(1), Proceed(1)][1..] == [Proceed(1)];
    }
    assert s5 == Exec(TIGHT, s2, [Begin(1, t), Proceed(1), Proceed(1)]) by {
      assert [Begin(1, t), Proceed(1), Proceed(1)][1..] == [Proceed(1), Proceed(1)];
    }
    assert s5 == Exec(TIGHT, s1, [Proceed(0), Begin(1, t), Proceed(1), Proceed(1)]) by {
      assert [Proceed(0), Begin(1, t), Proceed(1), Proceed(1)][1..] == [Begin(1, t), Proceed(1), Proceed(1)];
    }
    assert [Begin(0, t), Proceed(0), Begin(1, t), Proceed(1), Proceed(1)][1..]
        == [Proceed(0), Begin(1, t), Proceed(1), Proceed(1)];
    AloneTheyDiffer(t);
  }

  lemma AloneTheyDiffer(t: int)
    ensures Reserve(map[], CELL, LimitsFor(TIGHT, CELL), RIVALS.threads[1].req.c, t).1.None?
    ensures var (m, r) := Reserve(map[], CELL, LimitsFor(TIGHT, CELL), RIVALS.threads[0].req.c, t);
            r.Some? && Reserve(m, CELL, LimitsFor(TIGHT, CELL), RIVALS.threads[1].req.c, t).1.None?
  {
    hide Label, Reserve;
    var limits := LimitsFor(TIGHT, CELL);
    var first := RIVALS.threads[0].req.c;
    var second := RIVALS.threads[1].req.c;
    ReserveAllOrNothing(map[], CELL, limits, second, t);
    ReserveAllOrNothing(map[], CELL, limits, first, t);
    assert !Fits(map[], CELL, limits, first, t, TPM);
    var m := Reserve(map[], CELL, limits, first, t).0;
    ReserveAllOrNothing(m, CELL, limits, second, t);
    forall w: Window ensures Fits(m, CELL, limits, second, t, w) {
      assert Reading(m, Key(CELL, w), t) == Reading(map[], Key(CELL, w), t) == 0;
    }
  }
}
