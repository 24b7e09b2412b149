/** The limiter as a concurrent protocol. Any number of requests and purge sweeps interleave, one locked section at a
    time: between two windows of one reservation every other request may run. A request is charged while it reserves,
    keeps its charge while it is held, and closes by being rolled back, refunded or settled. */
module LimiterProtocol {
  import opened Prelude
  import opened Windows
  import opened Cells

  datatype Request = Request(id: CellId, c: Costs)

  /** Where a request stands. `now` is the clock reading the operation took before its first lock. */
  datatype Phase =
    | Idle
    | Reserving(now: int, ws: seq<Window>, pending: seq<Charge>)
    | RollingBack(now: int, pending: seq<Charge>)
    | Rejected
    | Held
    | Refunding(now: int, ws: seq<Window>)
    | Refunded
    | Settling(now: int, actual: nat, ws: seq<Window>)
    | Settled(now: int, actual: nat)

  datatype Thread = Thread(req: Request, phase: Phase)

  type Config = map<CellId, Limits>

  datatype State = State(cells: Counters, threads: seq<Thread>)

  function LimitsFor(config: Config, id: CellId): Limits {
    if id in config then config[id] else map[]
  }

  function LimitAt(config: Config, k: Key): Option<int> {
    LimitOf(LimitsFor(config, k.id), k.window)
  }

  datatype Event =
    | Begin(tid: nat, now: int)
    | Proceed(tid: nat)
    | Cancel(tid: nat, now: int)
    | Finish(tid: nat, now: int, actual: nat)
    | Sweep(key: Key, now: int)

  /** One locked section of a request under way. */
  function Advance(m: Counters, limits: Limits, th: Thread): (Counters, Thread) {
    var Request(id, c) := th.req;
    match th.phase
    case Reserving(now, ws, pending) =>
      if ws == [] then (m, th.(phase := Held))
      else
        var w := ws[0];
        var k := Key(id, w);
        (match LimitOf(limits, w)
         case None => (m, th.(phase := Reserving(now, ws[1..], pending)))
         case Some(limit) =>
           var n := Reading(m, k, now) + AmountOf(w, c);
           if n > limit then (Touch(m, k, now), th.(phase := RollingBack(now, pending)))
           else (SetCount(m, k, now, n), th.(phase := Reserving(now, ws[1..], pending + [Charge(w, AmountOf(w, c))]))))
    case RollingBack(now, pending) =>
      if pending == [] then (m, th.(phase := Rejected))
      else (Credit(m, Key(id, pending[0].window), now, pending[0].amount), th.(phase := RollingBack(now, pending[1..])))
    case Refunding(now, ws) =>
      if ws == [] then (m, th.(phase := Refunded))
      else
        (if LimitOf(limits, ws[0]).Some? then Credit(m, Key(id, ws[0]), now, AmountOf(ws[0], c)) else m,
         th.(phase := Refunding(now, ws[1..])))
    case Settling(now, actual, ws) =>
      if ws == [] then (m, th.(phase := Settled(now, actual)))
      else (Adjust(m, Key(id, ws[0]), now, actual - c.tokens), th.(phase := Settling(now, actual, ws[1..])))
    case _ => (m, th)
  }

  /** Starting an operation reads the clock and takes no lock. */
  function Start(th: Thread, e: Event): Thread {
    match e
    case Begin(_, now) => if th.phase.Idle? then th.(phase := Reserving(now, WINDOWS, [])) else th
    case Cancel(_, now) => if th.phase.Held? then th.(phase := Refunding(now, WINDOWS)) else th
    case Finish(_, now, actual) =>
      if !th.phase.Held? then th
      else if actual == th.req.c.tokens then th.(phase := Settled(now, actual))
      else th.(phase := Settling(now, actual, [TPM, TPD]))
    case Proceed(_) | Sweep(_, _) => th
  }

  /** The purge drops one stale counter. Whole sweeps are runs of these, so they interleave at any point. */
  function Evict(m: Counters, k: Key, now: int): Counters {
    if k in m && m[k].bucket != Label(k.window, now) then m - {k} else m
  }

  function Step(config: Config, s: State, e: Event): State {
    if e.Sweep? then s.(cells := Evict(s.cells, e.key, e.now))
    else if e.tid >= |s.threads| then s
    else
      var th := s.threads[e.tid];
      var (m, th') :=
        if e.Proceed? then Advance(s.cells, LimitsFor(config, th.req.id), th) else (s.cells, Start(th, e));
      State(m, s.threads[e.tid := th'])
  }

  function Exec(config: Config, s: State, events: seq<Event>): State
    decreases |events|
  {
    if events == [] then s else Exec(config, Step(config, s, events[0]), events[1..])
  }

  // ---------- one request on its own ----------

  predicate Busy(th: Thread) {
    th.phase.Reserving? || th.phase.RollingBack? || th.phase.Refunding? || th.phase.Settling?
  }

  function Remaining(th: Thread): nat {
    match th.phase
    case Reserving(_, ws, _) => |ws|
    case RollingBack(_, pending) => |pending|
    case Refunding(_, ws) => |ws|
    case Settling(_, _, ws) => |ws|
    case _ => 0
  }

  /** The locked sections of one request one after another, with nothing in between. */
  function Solo(m: Counters, limits: Limits, th: Thread): (Counters, Thread)
    decreases Busy(th), th.phase.Reserving?, Remaining(th)
  {
    if !Busy(th) then (m, th)
    else
      var (m', th') := Advance(m, limits, th);
      Solo(m', limits, th')
  }

  lemma {:induction false} SoloRollback(m: Counters, limits: Limits, req: Request, now: int, pending: seq<Charge>)
    ensures Solo(m, limits, Thread(req, RollingBack(now, pending)))
         == (Rollback(m, req.id, pending, now), Thread(req, Rejected))
    decreases |pending|
  {
    hide Label, Credit;
    if pending != [] {
      SoloRollback(Credit(m, Key(req.id, pending[0].window), now, pending[0].amount), limits, req, now, pending[1..]);
    } else {
      assert Advance(m, limits, Thread(req, RollingBack(now, pending))) == (m, Thread(req, Rejected));
    }
  }

  lemma {:induction false} SoloStage(m: Counters, limits: Limits, req: Request, now: int, ws: seq<Window>,
                                     pending: seq<Charge>)
    ensures var (m', r) := Stage(m, req.id, limits, req.c, now, ws, pending);
            Solo(m, limits, Thread(req, Reserving(now, ws, pending)))
            == (m', Thread(req, if r.None? then Held else Rejected))
    decreases |ws|
  {
    hide Label, Touch, SetCount, Reading, AmountOf, Rollback;
    var th := Thread(req, Reserving(now, ws, pending));
    var (m', th') := Advance(m, limits, th);
    assert Solo(m, limits, th) == Solo(m', limits, th');
    if ws == [] {
      assert th' == Thread(req, Held);
    } else if LimitOf(limits, ws[0]).None? {
      SoloStage(m, limits, req, now, ws[1..], pending);
    } else if th'.phase.RollingBack? {
      SoloRollback(m', limits, req, now, pending);
    } else {
      SoloStage(m', limits, req, now, ws[1..], pending + [Charge(ws[0], AmountOf(ws[0], req.c))]);
    }
  }

  lemma {:induction false} SoloRefund(m: Counters, limits: Limits, req: Request, now: int, ws: seq<Window>)
    ensures Solo(m, limits, Thread(req, Refunding(now, ws)))
         == (RefundOver(m, req.id, limits, req.c, now, ws), Thread(req, Refunded))
    decreases |ws|
  {
    hide Label, Credit, AmountOf;
    var th := Thread(req, Refunding(now, ws));
    assert Solo(m, limits, th) == Solo(Advance(m, limits, th).0, limits, Advance(m, limits, th).1);
    if ws != [] {
      SoloRefund(Advance(m, limits, th).0, limits, req, now, ws[1..]);
    } else {
      assert Advance(m, limits, th) == (m, Thread(req, Refunded));
    }
  }

  /** A request that meets nobody does just what the sequential operations do: reserve, refund, reconcile. */
  lemma AloneIsSequential(m: Counters, limits: Limits, req: Request, now: int, actual: nat)
    ensures var (m', r) := Reserve(m, req.id, limits, req.c, now);
            Solo(m, limits, Start(Thread(req, Idle), Begin(0, now)))
            == (m', Thread(req, if r.None? then Held else Rejected))
    ensures Solo(m, limits, Start(Thread(req, Held), Cancel(0, now)))
         == (Refund(m, req.id, limits, req.c, now), Thread(req, Refunded))
    ensures Solo(m, limits, Start(Thread(req, Held), Finish(0, now, actual)))
         == (Reconcile(m, req.id, actual, req.c.tokens, now), Thread(req, Settled(now, actual)))
  {
    hide Label, Adjust, AmountOf, Stage, RefundOver;
    SoloStage(m, limits, req, now, WINDOWS, []);
    SoloRefund(m, limits, req, now, WINDOWS);
    if actual != req.c.tokens {
      var delta := actual - req.c.tokens;
      var m1 := Adjust(m, Key(req.id, TPM), now, delta);
      var m2 := Adjust(m1, Key(req.id, TPD), now, delta);
      SoloSettling(m, limits, req, now, actual, [TPM, TPD]);
      assert [TPM, TPD][1..] == [TPD];
      SoloSettling(m1, limits, req, now, actual, [TPD]);
      assert [TPD][1..] == [];
      SoloSettling(m2, limits, req, now, actual, []);
    }
  }

  lemma SoloSettling(m: Counters, limits: Limits, req: Request, now: int, actual: nat, ws: seq<Window>)
    ensures Solo(m, limits, Thread(req, Settling(now, actual, ws)))
         == if ws == [] then (m, Thread(req, Settled(now, actual)))
            else Solo(Adjust(m, Key(req.id, ws[0]), now, actual - req.c.tokens), limits,
                      Thread(req, Settling(now, actual, ws[1..])))
  {
    hide Label, Adjust;
    var th := Thread(req, Settling(now, actual, ws));
    assert Solo(m, limits, th) == Solo(Advance(m, limits, th).0, limits, Advance(m, limits, th).1);
  }

  // ---------- the ledger ----------

  /** What a request is charged on a cell at its present phase. */
  function Owes(limits: Limits, th: Thread, k: Key): int {
    if th.req.id != k.id then 0
    else
      var w := k.window;
      match th.phase
      case Reserving(_, _, pending) => PendingFor(pending, w)
      case RollingBack(_, pending) => PendingFor(pending, w)
      case Held => Charged(limits, th.req.c, w)
      case Refunding(_, ws) => if w in ws then Charged(limits, th.req.c, w) else 0
      case Settling(_, actual, ws) =>
        if w in ws then Charged(limits, th.req.c, w) else ServedCharge(limits, th.req.c, actual, w)
      case Settled(_, actual) => ServedCharge(limits, th.req.c, actual, w)
      case _ => 0
  }

  /** What a settlement has pushed a bucket of a cell up by, beyond what was reserved. */
  function Excess(th: Thread, k: Key, bucket: int): int {
    if th.req.id != k.id || !TokenWindow(k.window) then 0
    else
      match th.phase
      case Settling(now, actual, ws) =>
        if k.window in ws || Label(k.window, now) != bucket then 0 else Max(0, actual - th.req.c.tokens)
      case Settled(now, actual) => if Label(k.window, now) != bucket then 0 else Max(0, actual - th.req.c.tokens)
      case _ => 0
  }

  function TotalOwed(config: Config, threads: seq<Thread>, k: Key): int {
    if threads == [] then 0
    else Owes(LimitsFor(config, threads[0].req.id), threads[0], k) + TotalOwed(config, threads[1..], k)
  }

  function TotalExcess(threads: seq<Thread>, k: Key, bucket: int): int {
    if threads == [] then 0 else Excess(threads[0], k, bucket) + TotalExcess(threads[1..], k, bucket)
  }

  lemma {:induction false} TotalOwedUpdate(config: Config, threads: seq<Thread>, i: nat, th: Thread, k: Key)
    requires i < |threads| && th.req == threads[i].req
    ensures TotalOwed(config, threads[i := th], k)
         == TotalOwed(config, threads, k) - Owes(LimitsFor(config, th.req.id), threads[i], k)
                                          + Owes(LimitsFor(config, th.req.id), th, k)
    decreases |threads|
  {
    hide Owes;
    if i == 0 {
      assert threads[i := th][1..] == threads[1..];
    } else {
      assert threads[i := th][1..] == threads[1..][i - 1 := th];
      TotalOwedUpdate(config, threads[1..], i - 1, th, k);
    }
  }

  lemma {:induction false} TotalExcessUpdate(threads: seq<Thread>, i: nat, th: Thread, k: Key, bucket: int)
    requires i < |threads|
    ensures TotalExcess(threads[i := th], k, bucket)
         == TotalExcess(threads, k, bucket) - Excess(threads[i], k, bucket) + Excess(th, k, bucket)
    decreases |threads|
  {
    hide Excess;
    if i == 0 {
      assert threads[i := th][1..] == threads[1..];
    } else {
      assert threads[i := th][1..] == threads[1..][i - 1 := th];
      TotalExcessUpdate(threads[1..], i - 1, th, k, bucket);
    }
  }

  lemma {:induction false} TotalOwedCovers(config: Config, threads: seq<Thread>, i: nat, k: Key)
    requires i < |threads|
    ensures 0 <= Owes(LimitsFor(config, threads[i].req.id), threads[i], k) <= TotalOwed(config, threads, k)
    decreases |threads|
  {
    TotalOwedNonNegative(config, threads[1..], k);
    if i > 0 {
      TotalOwedCovers(config, threads[1..], i - 1, k);
    }
  }

  lemma {:induction false} TotalOwedNonNegative(config: Config, threads: seq<Thread>, k: Key)
    ensures TotalOwed(config, threads, k) >= 0
    decreases |threads|
  {
    if threads != [] {
      TotalOwedNonNegative(config, threads[1..], k);
    }
  }

  // ---------- conservation inside one bucket of one window ----------

  /** Two clock readings in the same bucket of a window. */
  predicate SameBucket(v: Window, now: int, t: int) { Label(v, now) == Label(v, t) }

  /** Only constrained windows have staged charges. */
  ghost predicate StagedUnder(limits: Limits, pending: seq<Charge>) {
    forall p | p in pending :: LimitOf(limits, p.window).Some?
  }

  ghost predicate ThreadOk(limits: Limits, th: Thread, v: Window, t: int) {
    match th.phase
    case Reserving(now, ws, pending) =>
      && SameBucket(v, now, t) && InOrder(ws) && StagedUnder(limits, pending)
      && PendingFor(pending, v) == if v in ws then 0 else Charged(limits, th.req.c, v)
    case RollingBack(now, pending) => SameBucket(v, now, t) && StagedUnder(limits, pending)
    case Refunding(now, ws) => SameBucket(v, now, t) && InOrder(ws)
    case Settling(now, actual, ws) => SameBucket(v, now, t) && (ws == [TPM, TPD] || ws == [TPD] || ws == [])
    case _ => true
  }

  /** The next locked section is on window `v`, the window is constrained, and its counter would have to be clamped at
      zero. */
  ghost predicate Clamps(m: Counters, limits: Limits, th: Thread, v: Window) {
    var k := Key(th.req.id, v);
    match th.phase
    case RollingBack(now, pending) =>
      pending != [] && pending[0].window == v && Reading(m, k, now) < pending[0].amount
    case Refunding(now, ws) =>
      ws != [] && ws[0] == v && LimitOf(limits, v).Some? && Reading(m, k, now) < AmountOf(v, th.req.c)
    case Settling(now, actual, ws) =>
      ws != [] && ws[0] == v && LimitOf(limits, v).Some? && Reading(m, k, now) + actual - th.req.c.tokens < 0
    case _ => false
  }

  /** A request finds at least what it owes on a constrained window of its cell. */
  ghost predicate Funded(m: Counters, limits: Limits, th: Thread, v: Window, t: int) {
    LimitOf(limits, v).Some? ==> Reading(m, Key(th.req.id, v), t) >= Owes(limits, th, Key(th.req.id, v))
  }

  /** A locked section moves the reading of a constrained cell by what it changes in the request's debt. */
  ghost predicate MovesAsOwed(m: Counters, m': Counters, limits: Limits, th: Thread, th': Thread, k: Key, t: int) {
    k.id != th.req.id || LimitOf(limits, k.window).Some? ==>
      Reading(m', k, t) - Reading(m, k, t) == Owes(limits, th', k) - Owes(limits, th, k)
  }

  lemma HeadIsNotInTail(ws: seq<Window>, v: Window)
    requires ws != [] && InOrder(ws)
    ensures ws[0] !in ws[1..] && InOrder(ws[1..])
    ensures v in ws <==> v == ws[0] || v in ws[1..]
  {
    hide Index;
  }

  lemma StagedOneMore(limits: Limits, pending: seq<Charge>, x: Charge)
    requires StagedUnder(limits, pending) && LimitOf(limits, x.window).Some?
    ensures StagedUnder(limits, pending + [x])
  {
  }

  lemma AdvanceReserving(m: Counters, limits: Limits, th: Thread, k: Key, t: int)
    requires ThreadOk(limits, th, k.window, t) && th.phase.Reserving?
    ensures var (m', th') := Advance(m, limits, th);
            ThreadOk(limits, th', k.window, t) && MovesAsOwed(m, m', limits, th, th', k, t)
  {
    hide Label, AmountOf, InOrder, StagedUnder;
    var Reserving(now, ws, pending) := th.phase;
    if ws != [] {
      var w := ws[0];
      HeadIsNotInTail(ws, k.window);
      if LimitOf(limits, w).Some? {
        PendingForAppend(pending, Charge(w, AmountOf(w, th.req.c)), k.window);
        StagedOneMore(limits, pending, Charge(w, AmountOf(w, th.req.c)));
      }
    }
  }

  /** A request between its operations takes no locked section. */
  lemma AdvanceResting(m: Counters, limits: Limits, th: Thread, k: Key, t: int)
    requires ThreadOk(limits, th, k.window, t) && !Busy(th)
    ensures !Clamps(m, limits, th, k.window)
    ensures Advance(m, limits, th) == (m, th) && MovesAsOwed(m, m, limits, th, th, k, t)
  {
    hide Label, AmountOf, Owes;
  }

  lemma AdvanceClosing(m: Counters, limits: Limits, th: Thread, k: Key, t: int)
    requires ThreadOk(limits, th, k.window, t) && !th.phase.Reserving? && Funded(m, limits, th, k.window, t)
    ensures !Clamps(m, limits, th, k.window)
    ensures var (m', th') := Advance(m, limits, th);
            ThreadOk(limits, th', k.window, t) && MovesAsOwed(m, m', limits, th, th', k, t)
  {
    hide Label, ThreadOk, Funded, Clamps, MovesAsOwed, Advance;
    if th.phase.RollingBack? {
      AdvanceRollingBack(m, limits, th, k, t);
    } else if th.phase.Refunding? {
      AdvanceRefunding(m, limits, th, k, t);
    } else if th.phase.Settling? {
      AdvanceSettling(m, limits, th, k, t);
    } else {
      AdvanceResting(m, limits, th, k, t);
    }
  }

  lemma AdvanceRollingBack(m: Counters, limits: Limits, th: Thread, k: Key, t: int)
    requires ThreadOk(limits, th, k.window, t) && th.phase.RollingBack? && Funded(m, limits, th, k.window, t)
    ensures !Clamps(m, limits, th, k.window)
    ensures var (m', th') := Advance(m, limits, th);
            ThreadOk(limits, th', k.window, t) && MovesAsOwed(m, m', limits, th, th', k, t)
  {
    hide Label, AmountOf;
    var pending := th.phase.pending;
    assert Owes(limits, th, Key(th.req.id, k.window)) == PendingFor(pending, k.window);
    if pending != [] {
      assert LimitOf(limits, pending[0].window).Some?;
    }
  }

  lemma AdvanceRefunding(m: Counters, limits: Limits, th: Thread, k: Key, t: int)
    requires ThreadOk(limits, th, k.window, t) && th.phase.Refunding? && Funded(m, limits, th, k.window, t)
    ensures !Clamps(m, limits, th, k.window)
    ensures var (m', th') := Advance(m, limits, th);
            ThreadOk(limits, th', k.window, t) && MovesAsOwed(m, m', limits, th, th', k, t)
  {
    hide Label, AmountOf, InOrder;
    var ws := th.phase.ws;
    if ws != [] {
      HeadIsNotInTail(ws, k.window);
    }
  }

  lemma AdvanceSettling(m: Counters, limits: Limits, th: Thread, k: Key, t: int)
    requires ThreadOk(limits, th, k.window, t) && th.phase.Settling? && Funded(m, limits, th, k.window, t)
    ensures !Clamps(m, limits, th, k.window)
    ensures var (m', th') := Advance(m, limits, th);
            ThreadOk(limits, th', k.window, t) && MovesAsOwed(m, m', limits, th, th', k, t)
  {
    hide Label;
    var ws := th.phase.ws;
    if ws != [] {
      assert TokenWindow(ws[0]) && ws[0] !in ws[1..];
      assert k.window in ws <==> k.window == ws[0] || k.window in ws[1..];
    }
  }

  /** The reading of every constrained cell is what it was at the start plus everything presently owed on it. */
  ghost predicate Conserved(config: Config, start: Counters, s: State, v: Window, t: int) {
    && (forall i | 0 <= i < |s.threads| :: ThreadOk(LimitsFor(config, s.threads[i].req.id), s.threads[i], v, t))
    && (forall k: Key | k.window == v && LimitAt(config, k).Some? ::
          Reading(s.cells, k, t) == Reading(start, k, t) + TotalOwed(config, s.threads, k))
  }

  /** The event reads the clock in the bucket of `t`, as far as window `v` can tell. */
  predicate EventInBucket(e: Event, v: Window, t: int) { e.Proceed? || SameBucket(v, e.now, t) }

  ghost predicate NoDebt(m: Counters, v: Window, t: int) {
    forall k: Key | k.window == v :: Reading(m, k, t) >= 0
  }

  lemma StartOwesNothingNew(limits: Limits, th: Thread, e: Event, v: Window, t: int)
    requires ThreadOk(limits, th, v, t) && EventInBucket(e, v, t) && !e.Sweep?
    ensures ThreadOk(limits, Start(th, e), v, t) && Start(th, e).req == th.req
    ensures forall k :: Owes(limits, Start(th, e), k) == Owes(limits, th, k)
  {
    hide Label, InOrder;
    AllWindowsListed();
    hide WINDOWS;
    assert forall w: Window :: w in [TPM, TPD] <==> TokenWindow(w);
  }

  lemma AdvanceConserves(m: Counters, limits: Limits, th: Thread, k: Key, t: int)
    requires ThreadOk(limits, th, k.window, t) && Funded(m, limits, th, k.window, t)
    ensures !Clamps(m, limits, th, k.window)
    ensures var (m', th') := Advance(m, limits, th);
            th'.req == th.req && ThreadOk(limits, th', k.window, t) && MovesAsOwed(m, m', limits, th, th', k, t)
  {
    hide Advance, ThreadOk, Funded, MovesAsOwed;
    AdvanceKeepsRequest(m, limits, th);
    if th.phase.Reserving? {
      AdvanceReserving(m, limits, th, k, t);
    } else {
      AdvanceClosing(m, limits, th, k, t);
    }
  }

  /** What one event of a request does to the request itself and to one cell of a window. */
  lemma StepMovesAsOwed(config: Config, start: Counters, s: State, e: Event, k: Key, t: int)
    requires Conserved(config, start, s, k.window, t) && EventInBucket(e, k.window, t) && NoDebt(start, k.window, t)
    requires !e.Sweep? && e.tid < |s.threads|
    ensures var th, s' := s.threads[e.tid], Step(config, s, e);
            var limits, th' := LimitsFor(config, th.req.id), s'.threads[e.tid];
            && s'.threads == s.threads[e.tid := th'] && th'.req == th.req
            && ThreadOk(limits, th', k.window, t)
            && MovesAsOwed(s.cells, s'.cells, limits, th, th', k, t)
            && (e.Proceed? ==> !Clamps(s.cells, limits, th, k.window))
  {
    hide Label, Reading, Advance, Start, ThreadOk, Owes, Clamps;
    var th := s.threads[e.tid];
    var limits := LimitsFor(config, th.req.id);
    if LimitOf(limits, k.window).Some? {
      assert LimitAt(config, Key(th.req.id, k.window)).Some?;
      TotalOwedCovers(config, s.threads, e.tid, Key(th.req.id, k.window));
    }
    if e.Proceed? {
      AdvanceConserves(s.cells, limits, th, k, t);
    } else {
      StartOwesNothingNew(limits, th, e, k.window, t);
    }
  }

  lemma SweepConserves(config: Config, start: Counters, s: State, e: Event, v: Window, t: int)
    requires Conserved(config, start, s, v, t) && EventInBucket(e, v, t) && e.Sweep?
    ensures Conserved(config, start, Step(config, s, e), v, t)
  {
    hide Label, Reading, ThreadOk, TotalOwed, Evict;
    forall k: Key | k.window == v ensures Reading(Evict(s.cells, e.key, e.now), k, t) == Reading(s.cells, k, t) {
      EvictKeepsReading(s.cells, e.key, e.now, k, t);
    }
  }

  lemma StepConserves(config: Config, start: Counters, s: State, e: Event, v: Window, t: int)
    requires Conserved(config, start, s, v, t) && EventInBucket(e, v, t) && NoDebt(start, v, t)
    ensures Conserved(config, start, Step(config, s, e), v, t)
    ensures e.Proceed? && e.tid < |s.threads|
        ==> !Clamps(s.cells, LimitsFor(config, s.threads[e.tid].req.id), s.threads[e.tid], v)
  {
    hide Label, Reading, Step, ThreadOk, TotalOwed, Owes, Clamps, NoDebt;
    if e.Sweep? {
      SweepConserves(config, start, s, e, v, t);
    } else if e.tid < |s.threads| {
      var th, s' := s.threads[e.tid], Step(config, s, e);
      StepMovesAsOwed(config, start, s, e, Key(th.req.id, v), t);
      forall k: Key | k.window == v && LimitAt(config, k).Some?
        ensures Reading(s'.cells, k, t) == Reading(start, k, t) + TotalOwed(config, s'.threads, k)
      {
        StepMovesAsOwed(config, start, s, e, k, t);
        TotalOwedUpdate(config, s.threads, e.tid, s'.threads[e.tid], k);
      }
    } else {
      NoSuchRequest(config, s, e);
    }
  }

  lemma NoSuchRequest(config: Config, s: State, e: Event)
    requires !e.Sweep? && e.tid >= |s.threads|
    ensures Step(config, s, e) == s
  {
  }

  lemma EvictKeepsReading(m: Counters, stale: Key, now: int, k: Key, t: int)
    requires SameBucket(k.window, now, t)
    ensures Reading(Evict(m, stale, now), k, t) == Reading(m, k, t)
  {
    hide Label;
  }

  lemma AdvanceKeepsRequest(m: Counters, limits: Limits, th: Thread)
    ensures Advance(m, limits, th).1.req == th.req
  {
    hide Label;
  }

  /** No request has started yet. */
  ghost predicate Fresh(s: State) {
    forall i | 0 <= i < |s.threads| :: s.threads[i].phase.Idle?
  }

  lemma {:induction false} FreshOwesNothing(config: Config, threads: seq<Thread>, k: Key)
    requires forall i | 0 <= i < |threads| :: threads[i].phase.Idle?
    ensures TotalOwed(config, threads, k) == 0
    ensures forall bucket :: TotalExcess(threads, k, bucket) == 0
    decreases |threads|
  {
    if threads != [] {
      FreshOwesNothing(config, threads[1..], k);
    }
  }

  lemma {:induction false} ExecConserves(config: Config, start: Counters, s: State, events: seq<Event>, v: Window,
                                         t: int)
    requires Conserved(config, start, s, v, t) && NoDebt(start, v, t)
    requires forall e | e in events :: EventInBucket(e, v, t)
    ensures Conserved(config, start, Exec(config, s, events), v, t)
    decreases |events|
  {
    hide Label, Conserved, Step, EventInBucket, NoDebt;
    if events != [] {
      StepConserves(config, start, s, events[0], v, t);
      ExecConserves(config, start, Step(config, s, events[0]), events[1..], v, t);
    }
  }

  /** A run from rest whose clock readings all lie in one bucket of window `v`. Of the other windows nothing is asked:
      a run that crosses minutes within a day is one for the five windows counted by the day. */
  ghost predicate RunInBucket(s: State, events: seq<Event>, v: Window, t: int) {
    Fresh(s) && NoDebt(s.cells, v, t) && forall e | e in events :: EventInBucket(e, v, t)
  }

  lemma RunConserves(config: Config, s: State, events: seq<Event>, v: Window, t: int)
    requires RunInBucket(s, events, v, t)
    ensures Conserved(config, s.cells, Exec(config, s, events), v, t)
  {
    hide Label, Reading;
    forall k ensures TotalOwed(config, s.threads, k) == 0 {
      FreshOwesNothing(config, s.threads, k);
    }
    ExecConserves(config, s.cells, s, events, v, t);
  }

  /** In one bucket of a window, after any interleaving of any number of requests, the count of every constrained cell
      is what it was plus the staged charges, the live reservations and the settled actuals. */
  lemma {:induction false} Conservation(config: Config, s: State, events: seq<Event>, k: Key, t: int)
    requires RunInBucket(s, events, k.window, t) && LimitAt(config, k).Some?
    ensures var s' := Exec(config, s, events);
            Reading(s'.cells, k, t) == Reading(s.cells, k, t) + TotalOwed(config, s'.threads, k)
  {
    hide Label, Reading, RunInBucket;
    RunConserves(config, s, events, k.window, t);
  }

  /** In one bucket of a window no counter it constrains is ever clamped at zero, whatever ran before the locked
      section. */
  lemma {:induction false} ClampsNeverFire(config: Config, s: State, events: seq<Event>, tid: nat, v: Window, t: int)
    requires RunInBucket(s, events, v, t)
    ensures var s' := Exec(config, s, events);
            tid < |s'.threads| ==> !Clamps(s'.cells, LimitsFor(config, s'.threads[tid].req.id), s'.threads[tid], v)
  {
    hide Label, Reading, Clamps;
    RunConserves(config, s, events, v, t);
    StepConserves(config, s.cells, Exec(config, s, events), Proceed(tid), v, t);
  }

  /** The next locked section is on window `v`, constrained or not, and cuts its counter at zero. */
  ghost predicate CutsAtZero(m: Counters, limits: Limits, th: Thread, v: Window) {
    var k := Key(th.req.id, v);
    match th.phase
    case RollingBack(now, pending) =>
      pending != [] && pending[0].window == v && Reading(m, k, now) < pending[0].amount
    case Refunding(now, ws) =>
      ws != [] && ws[0] == v && LimitOf(limits, v).Some? && Reading(m, k, now) < AmountOf(v, th.req.c)
    case Settling(now, actual, ws) => ws != [] && ws[0] == v && Reading(m, k, now) + actual - th.req.c.tokens < 0
    case _ => false
  }

  /** In one bucket of a window a locked section cuts a counter of it at zero exactly when it settles an unconstrained
      token window whose reading plus actual minus reserved tokens is negative. */
  lemma {:induction false} CutAtZeroIff(config: Config, s: State, events: seq<Event>, tid: nat, v: Window, t: int)
    requires RunInBucket(s, events, v, t) && tid < |Exec(config, s, events).threads|
    ensures var s' := Exec(config, s, events);
            var th := s'.threads[tid];
            CutsAtZero(s'.cells, LimitsFor(config, th.req.id), th, v)
            <==> th.phase.Settling? && th.phase.ws != [] && th.phase.ws[0] == v
                 && LimitAt(config, Key(th.req.id, v)).None? && TokenWindow(v)
                 && Reading(s'.cells, Key(th.req.id, v), th.phase.now) + th.phase.actual < th.req.c.tokens
  {
    hide Label, Reading, AmountOf, Exec, RunInBucket;
    ClampsNeverFire(config, s, events, tid, v, t);
    RunConserves(config, s, events, v, t);
    var s' := Exec(config, s, events);
    assert ThreadOk(LimitsFor(config, s'.threads[tid].req.id), s'.threads[tid], v, t);
  }

  /** Every request that began was turned away or gave its reservation back. */
  ghost predicate NothingKept(s: State) {
    forall i | 0 <= i < |s.threads| ::
      s.threads[i].phase.Idle? || s.threads[i].phase.Rejected? || s.threads[i].phase.Refunded?
  }

  lemma {:induction false} NothingKeptOwesNothing(config: Config, threads: seq<Thread>, k: Key)
    requires forall i | 0 <= i < |threads| ::
      threads[i].phase.Idle? || threads[i].phase.Rejected? || threads[i].phase.Refunded?
    ensures TotalOwed(config, threads, k) == 0
    decreases |threads|
  {
    if threads != [] {
      NothingKeptOwesNothing(config, threads[1..], k);
    }
  }

  /** Rejections and refunds leave no trace, however their locked sections were interleaved. */
  lemma {:induction false} RejectionsAndRefundsLeaveNoTrace(config: Config, s: State, events: seq<Event>, k: Key,
                                                            t: int)
    requires RunInBucket(s, events, k.window, t) && LimitAt(config, k).Some?
    requires NothingKept(Exec(config, s, events))
    ensures Reading(Exec(config, s, events).cells, k, t) == Reading(s.cells, k, t)
  {
    hide Label, Reading, RunInBucket;
    Conservation(config, s, events, k, t);
    NothingKeptOwesNothing(config, Exec(config, s, events).threads, k);
  }

  // ---------- the ceiling, for any clocks at all ----------

  ghost predicate SettlesInOrder(th: Thread) {
    th.phase.Settling? ==> th.phase.ws == [TPM, TPD] || th.phase.ws == [TPD] || th.phase.ws == []
  }

  /** The ceiling of one stored counter: its limit and what settlements pushed its own bucket up by. */
  ghost predicate UnderCeiling(config: Config, s: State, k: Key) {
    k in s.cells && LimitAt(config, k).Some? ==>
      0 <= s.cells[k].count <= LimitAt(config, k).value + TotalExcess(s.threads, k, s.cells[k].bucket)
  }

  ghost predicate WithinCeilings(config: Config, s: State) {
    (forall i | 0 <= i < |s.threads| :: SettlesInOrder(s.threads[i])) && (forall k :: UnderCeiling(config, s, k))
  }

  ghost predicate LimitsAreNatural(config: Config) {
    forall k | LimitAt(config, k).Some? :: LimitAt(config, k).value >= 0
  }

  lemma {:induction false} TotalExcessNonNegative(threads: seq<Thread>, k: Key, bucket: int)
    ensures TotalExcess(threads, k, bucket) >= 0
    decreases |threads|
  {
    if threads != [] {
      TotalExcessNonNegative(threads[1..], k, bucket);
    }
  }

  /** A locked section leaves a counter as it is, or stores one whose excess over the limit is that of its own
      bucket. */
  lemma AdvanceKeepsCeiling(m: Counters, limits: Limits, th: Thread, k: Key, limit: int)
    requires SettlesInOrder(th) && limit >= 0
    requires k.id == th.req.id ==> LimitOf(limits, k.window) == Some(limit)
    requires k in m ==> m[k].count >= 0
    ensures var (m', th') := Advance(m, limits, th);
            && SettlesInOrder(th')
            && (forall b :: Excess(th', k, b) >= Excess(th, k, b))
            && (k in m' ==>
                  var b := m'[k].bucket;
                  var before := if k in m && m[k].bucket == b then m[k].count else 0;
                  (k in m && m'[k] == m[k])
                  || (0 <= m'[k].count
                      && (m'[k].count <= Max(0, before) + Excess(th', k, b) - Excess(th, k, b)
                          || m'[k].count <= limit)))
  {
    hide Label;
    match th.phase
    case Settling(now, actual, ws) =>
      if ws != [] {
        assert forall v: Window :: v in ws <==> v == ws[0] || v in ws[1..];
      }
    case _ =>
  }

  lemma StartKeepsExcess(th: Thread, e: Event, k: Key, bucket: int)
    requires SettlesInOrder(th)
    ensures SettlesInOrder(Start(th, e)) && Excess(Start(th, e), k, bucket) == Excess(th, k, bucket)
  {
    hide Label;
  }

  lemma StepKeepsCeiling(config: Config, s: State, e: Event, k: Key)
    requires WithinCeilings(config, s) && LimitsAreNatural(config)
    ensures UnderCeiling(config, Step(config, s, e), k)
  {
    hide Label, Advance, Start, Excess, SettlesInOrder;
    assert UnderCeiling(config, s, k);
    if !e.Sweep? && e.tid < |s.threads| && LimitAt(config, k).Some? {
      var th := s.threads[e.tid];
      var limits := LimitsFor(config, th.req.id);
      var s' := Step(config, s, e);
      if k in s'.cells {
        var b := s'.cells[k].bucket;
        TotalExcessUpdate(s.threads, e.tid, s'.threads[e.tid], k, b);
        TotalExcessNonNegative(s.threads, k, b);
        TotalExcessNonNegative(s'.threads, k, b);
        StartKeepsExcess(th, e, k, b);
        AdvanceKeepsCeiling(s.cells, limits, th, k, LimitAt(config, k).value);
      }
    }
  }

  lemma StepKeepsCeilings(config: Config, s: State, e: Event)
    requires WithinCeilings(config, s) && LimitsAreNatural(config)
    ensures WithinCeilings(config, Step(config, s, e))
  {
    hide Label, Advance, Start, Excess, SettlesInOrder, UnderCeiling;
    if !e.Sweep? && e.tid < |s.threads| {
      AdvanceSettlesInOrder(s.cells, LimitsFor(config, s.threads[e.tid].req.id), s.threads[e.tid]);
      StartKeepsExcess(s.threads[e.tid], e, Key(s.threads[e.tid].req.id, RPM), 0);
    }
    forall k ensures UnderCeiling(config, Step(config, s, e), k) {
      StepKeepsCeiling(config, s, e, k);
    }
  }

  lemma AdvanceSettlesInOrder(m: Counters, limits: Limits, th: Thread)
    requires SettlesInOrder(th)
    ensures SettlesInOrder(Advance(m, limits, th).1)
  {
    hide Label;
  }

  lemma {:induction false} ExecKeepsCeilings(config: Config, s: State, events: seq<Event>)
    requires WithinCeilings(config, s) && LimitsAreNatural(config)
    ensures WithinCeilings(config, Exec(config, s, events))
    decreases |events|
  {
    hide WithinCeilings, Step;
    if events != [] {
      StepKeepsCeilings(config, s, events[0]);
      ExecKeepsCeilings(config, Step(config, s, events[0]), events[1..]);
    }
  }

  /** No settlement in this bucket of the cell used more than was reserved. */
  ghost predicate NoOverrun(threads: seq<Thread>, k: Key, bucket: int) {
    forall i | 0 <= i < |threads| :: Excess(threads[i], k, bucket) == 0
  }

  lemma {:induction false} NoOverrunNoExcess(threads: seq<Thread>, k: Key, bucket: int)
    requires NoOverrun(threads, k, bucket)
    ensures TotalExcess(threads, k, bucket) == 0
    decreases |threads|
  {
    hide Excess;
    if threads != [] {
      assert forall i | 0 <= i < |threads[1..]| :: threads[1..][i] == threads[i + 1];
      NoOverrunNoExcess(threads[1..], k, bucket);
    }
  }

  /** At rest, with every constrained counter between zero and its limit. */
  ghost predicate WithinLimits(config: Config, s: State) {
    && Fresh(s) && LimitsAreNatural(config)
    && forall k | k in s.cells && LimitAt(config, k).Some? :: 0 <= s.cells[k].count <= LimitAt(config, k).value
  }

  /** Whatever the interleaving and whatever the clocks say, no counter exceeds its ceiling by more than the requests
      settled in its own bucket used beyond their reservation; without such a request it does not exceed it at all. */
  lemma {:induction false} CeilingsHold(config: Config, s: State, events: seq<Event>, k: Key)
    requires WithinLimits(config, s) && LimitAt(config, k).Some?
    requires k in Exec(config, s, events).cells
    ensures var s' := Exec(config, s, events);
            var c := s'.cells[k];
            && 0 <= c.count <= LimitAt(config, k).value + TotalExcess(s'.threads, k, c.bucket)
            && (NoOverrun(s'.threads, k, c.bucket) ==> c.count <= LimitAt(config, k).value)
            && (!TokenWindow(k.window) ==> c.count <= LimitAt(config, k).value)
  {
    hide Label, Step;
    forall j ensures UnderCeiling(config, s, j) {
      FreshOwesNothing(config, s.threads, j);
    }
    ExecKeepsCeilings(config, s, events);
    var s' := Exec(config, s, events);
    assert UnderCeiling(config, s', k);
    if !TokenWindow(k.window) {
      assert NoOverrun(s'.threads, k, s'.cells[k].bucket);
    }
    if NoOverrun(s'.threads, k, s'.cells[k].bucket) {
      NoOverrunNoExcess(s'.threads, k, s'.cells[k].bucket);
    }
  }

  // ---------- clock readings in the past ----------

  /** The event reads the clock no later than `now`. */
  predicate ReadsClockBy(e: Event, now: int) { e.Proceed? || e.now <= now }

  predicate PhaseBy(th: Thread, now: int) {
    match th.phase
    case Reserving(n, _, _) => n <= now
    case RollingBack(n, _) => n <= now
    case Refunding(n, _) => n <= now
    case Settling(n, _, _) => n <= now
    case _ => true
  }

  lemma AdvanceIsTimely(m: Counters, limits: Limits, th: Thread, now: int)
    requires Timely(m, now) && PhaseBy(th, now)
    ensures Timely(Advance(m, limits, th).0, now) && PhaseBy(Advance(m, limits, th).1, now)
  {
    hide Label, AmountOf;
    if Busy(th) {
      forall w: Window ensures Label(w, th.phase.now) <= Label(w, now) {
        LabelMonotone(w, th.phase.now, now);
      }
    }
  }

  ghost predicate AllBy(s: State, now: int) {
    Timely(s.cells, now) && forall i | 0 <= i < |s.threads| :: PhaseBy(s.threads[i], now)
  }

  lemma StepIsTimely(config: Config, s: State, e: Event, now: int)
    requires AllBy(s, now) && ReadsClockBy(e, now)
    ensures AllBy(Step(config, s, e), now)
  {
    hide Label, Advance;
    if !e.Sweep? && e.tid < |s.threads| {
      AdvanceIsTimely(s.cells, LimitsFor(config, s.threads[e.tid].req.id), s.threads[e.tid], now);
    }
  }

  lemma {:induction false} RunStaysTimely(config: Config, s: State, events: seq<Event>, now: int)
    requires AllBy(s, now) && forall e | e in events :: ReadsClockBy(e, now)
    ensures AllBy(Exec(config, s, events), now)
    decreases |events|
  {
    hide AllBy, Step, ReadsClockBy;
    if events != [] {
      StepIsTimely(config, s, events[0], now);
      RunStaysTimely(config, Step(config, s, events[0]), events[1..], now);
    }
  }

  /** A run from rest whose clock readings lie in the past leaves no counter of a bucket that has not begun. */
  lemma {:induction false} RunIsTimely(config: Config, s: State, events: seq<Event>, now: int)
    requires Fresh(s) && Timely(s.cells, now)
    requires forall e | e in events :: ReadsClockBy(e, now)
    ensures Timely(Exec(config, s, events).cells, now)
  {
    hide Label, Exec;
    RunStaysTimely(config, s, events, now);
  }

  // ---------- sweeps ----------

  function Sweeps(keys: seq<Key>, now: int): seq<Event> {
    if keys == [] then [] else [Sweep(keys[0], now)] + Sweeps(keys[1..], now)
  }

  /** A sweep of every counter, one locked step each, is the purge of the whole store. */
  lemma {:induction false} SweepsPurge(config: Config, s: State, keys: seq<Key>, now: int)
    requires forall k | k in s.cells && k !in keys :: s.cells[k].bucket == Label(k.window, now)
    ensures Exec(config, s, Sweeps(keys, now)) == s.(cells := Purge(s.cells, now))
    decreases |keys|
  {
    hide Label;
    if keys == [] {
      assert Purge(s.cells, now) == s.cells;
    } else {
      var s' := Step(config, s, Sweep(keys[0], now));
      assert keys == [keys[0]] + keys[1..];
      SweepsPurge(config, s', keys[1..], now);
      assert Purge(s'.cells, now) == Purge(s.cells, now);
      assert Sweeps(keys, now)[1..] == Sweeps(keys[1..], now);
    }
  }
}
