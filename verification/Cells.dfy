/** The counters of the rate limiter as one flat map, and what each locked step does to them.
    These functions specify the sharded limiter and the interleaved protocol; the lemmas say what they achieve. */
module Cells {
  import opened Prelude
  import opened Windows

  datatype Level = LevelUser | LevelModel

  /** What a counter is counted for, apart from the window. */
  datatype CellId = CellId(keyHash: string, model: string, slot: string, level: Level)

  datatype Key = Key(id: CellId, window: Window)

  /** One window's state for one cell: the bucket it belongs to and how much that bucket holds. */
  datatype Counter = Counter(bucket: int, count: int)

  type Counters = map<Key, Counter>

  /** A set of ceilings. A missing or empty window is unlimited. */
  type Limits = map<Window, Option<int>>

  function LimitOf(limits: Limits, w: Window): Option<int> {
    if w in limits then limits[w] else None
  }

  /** What a request charges to a window under a limit set: nothing when the window is unconstrained. */
  function Charged(limits: Limits, c: Costs, w: Window): nat {
    if LimitOf(limits, w).Some? then AmountOf(w, c) else 0
  }

  /** The current count of a cell (ratelimit.go:336-346). */
  function Reading(m: Counters, k: Key, t: int): int {
    if k in m && m[k].bucket == Label(k.window, t) then m[k].count else 0
  }

  // ---------- one locked step each ----------

  function SetCount(m: Counters, k: Key, now: int, n: int): Counters {
    m[k := Counter(Label(k.window, now), n)]
  }

  /** `counterFor`: the cell's counter, replaced by an empty one when its bucket rolled over. */
  function Touch(m: Counters, k: Key, now: int): Counters {
    SetCount(m, k, now, Reading(m, k, now))
  }

  /** Credits a counter of the current bucket, clamped at zero; any other counter is left alone. */
  function Credit(m: Counters, k: Key, now: int, amount: int): Counters {
    if k in m && m[k].bucket == Label(k.window, now) then SetCount(m, k, now, Max(0, m[k].count - amount)) else m
  }

  function Adjust(m: Counters, k: Key, now: int, delta: int): Counters {
    SetCount(m, k, now, Max(0, Reading(m, k, now) + delta))
  }

  // ---------- the operations ----------

  datatype Charge = Charge(window: Window, amount: nat)

  datatype Rejection = Rejection(window: Window, limit: int, count: int, retryAfter: int)

  function Rollback(m: Counters, id: CellId, pending: seq<Charge>, now: int): Counters {
    if pending == [] then m
    else Rollback(Credit(m, Key(id, pending[0].window), now, pending[0].amount), id, pending[1..], now)
  }

  /** The reservation loop over the windows still to check, with the charges staged so far. */
  function Stage(m: Counters, id: CellId, limits: Limits, c: Costs, now: int, ws: seq<Window>, pending: seq<Charge>)
    : (Counters, Option<Rejection>)
    decreases |ws|
  {
    if ws == [] then (m, None)
    else
      var w := ws[0];
      match LimitOf(limits, w)
      case None => Stage(m, id, limits, c, now, ws[1..], pending)
      case Some(limit) =>
        var k := Key(id, w);
        var n := Reading(m, k, now);
        var amount := AmountOf(w, c);
        if n + amount > limit then
          (Rollback(Touch(m, k, now), id, pending, now), Some(Rejection(w, limit, n, WindowEnd(w, now) - now)))
        else
          Stage(SetCount(m, k, now, n + amount), id, limits, c, now, ws[1..], pending + [Charge(w, amount)])
  }

  /** `CheckAndReserve` as a function of the counters. */
  function Reserve(m: Counters, id: CellId, limits: Limits, c: Costs, now: int): (Counters, Option<Rejection>) {
    Stage(m, id, limits, c, now, WINDOWS, [])
  }

  /** The refund loop over the windows still to credit. */
  function RefundOver(m: Counters, id: CellId, limits: Limits, c: Costs, now: int, ws: seq<Window>): Counters {
    if ws == [] then m
    else
      var w := ws[0];
      var m' := if LimitOf(limits, w).Some? then Credit(m, Key(id, w), now, AmountOf(w, c)) else m;
      RefundOver(m', id, limits, c, now, ws[1..])
  }

  function Refund(m: Counters, id: CellId, limits: Limits, c: Costs, now: int): Counters {
    RefundOver(m, id, limits, c, now, WINDOWS)
  }

  /** `Reconcile` touches the two token windows whether or not they are constrained. */
  function Reconcile(m: Counters, id: CellId, actual: int, reserved: int, now: int): Counters {
    if actual == reserved then m
    else Adjust(Adjust(m, Key(id, TPM), now, actual - reserved), Key(id, TPD), now, actual - reserved)
  }

  function Purge(m: Counters, now: int): Counters {
    map k | k in m && m[k].bucket == Label(k.window, now) :: m[k]
  }

  lemma SetAfterTouch(m: Counters, k: Key, now: int, n: int)
    ensures Touch(m, k, now)[k := Counter(Label(k.window, now), n)] == SetCount(m, k, now, n)
  {
    hide Label, Reading;
  }

  // ---------- what the clock guarantees ----------

  /** No counter belongs to a bucket that has not begun, and none is negative. */
  ghost predicate Timely(m: Counters, now: int) {
    forall k | k in m :: m[k].bucket <= Label(k.window, now) && m[k].count >= 0
  }

  /** A later reading is the present one, or zero once the bucket has rolled over. */
  lemma LaterReading(m: Counters, k: Key, now: int, t: int)
    requires Timely(m, now) && now <= t
    ensures Timely(m, t)
    ensures Reading(m, k, t) == if Label(k.window, t) == Label(k.window, now) then Reading(m, k, now) else 0
    ensures Reading(m, k, t) >= 0
  {
    hide Label;
    forall j | j in m ensures m[j].bucket <= Label(j.window, t) {
      LabelMonotone(j.window, now, t);
    }
    LabelMonotone(k.window, now, t);
  }

  // ---------- all or nothing ----------

  ghost predicate Fits(m: Counters, id: CellId, limits: Limits, c: Costs, now: int, w: Window) {
    match LimitOf(limits, w)
    case None => true
    case Some(limit) => Reading(m, Key(id, w), now) + AmountOf(w, c) <= limit
  }

  /** No current reading differs. */
  ghost predicate SameReadings(m: Counters, m': Counters, now: int) {
    forall k :: Reading(m', k, now) == Reading(m, k, now)
  }

  /** The current readings of `m'` are those of `m`, raised on cell `id` by the request's charge for every window
      that is not among those still `open`. */
  ghost predicate Raised(m: Counters, m': Counters, id: CellId, limits: Limits, c: Costs, now: int, open: seq<Window>) {
    forall k :: Reading(m', k, now)
             == Reading(m, k, now) + if k.id == id && k.window !in open then Charged(limits, c, k.window) else 0
  }

  /** The current readings of `m'` are those of `m`, lowered on cell `id` by the pending charges. */
  ghost predicate Lowered(m: Counters, m': Counters, id: CellId, pending: seq<Charge>, now: int) {
    forall k :: Reading(m', k, now) == Reading(m, k, now) - if k.id == id then PendingFor(pending, k.window) else 0
  }

  function PendingFor(pending: seq<Charge>, w: Window): nat {
    if pending == [] then 0
    else (if pending[0].window == w then pending[0].amount else 0) + PendingFor(pending[1..], w)
  }

  lemma {:induction false} PendingForAppend(pending: seq<Charge>, x: Charge, w: Window)
    ensures PendingFor(pending + [x], w) == PendingFor(pending, w) + if x.window == w then x.amount else 0
  {
    hide Label;
    if pending == [] {
      assert pending + [x] == [x];
    } else {
      assert (pending + [x])[1..] == pending[1..] + [x];
      PendingForAppend(pending[1..], x, w);
    }
  }

  /** Rolling back staged charges takes exactly those charges off, as long as they are all still counted. */
  lemma {:induction false} RollbackReadings(m: Counters, id: CellId, pending: seq<Charge>, now: int)
    requires Timely(m, now)
    requires forall w: Window :: Reading(m, Key(id, w), now) >= PendingFor(pending, w)
    ensures Timely(Rollback(m, id, pending, now), now)
    ensures Lowered(m, Rollback(m, id, pending, now), id, pending, now)
    decreases pending
  {
    hide Label;
    if pending != [] {
      var k := Key(id, pending[0].window);
      var m1 := Credit(m, k, now, pending[0].amount);
      assert Reading(m, k, now) >= PendingFor(pending, k.window) >= pending[0].amount;
      assert Reading(m1, k, now) == Reading(m, k, now) - pending[0].amount;
      forall w: Window ensures Reading(m1, Key(id, w), now) >= PendingFor(pending[1..], w) {
        assert Reading(m, Key(id, w), now) >= PendingFor(pending, w);
      }
      RollbackReadings(m1, id, pending[1..], now);
    }
  }

  /** A list of windows in check order. */
  ghost predicate InOrder(ws: seq<Window>) {
    ws == [] || ((forall v | v in ws[1..] :: Index(ws[0]) < Index(v)) && InOrder(ws[1..]))
  }

  /** What holds while the windows `ws` remain to be checked. */
  ghost predicate StageInvariant(m0: Counters, m: Counters, id: CellId, limits: Limits, c: Costs, now: int,
                                 ws: seq<Window>, pending: seq<Charge>)
  {
    && InOrder(ws)
    && Timely(m0, now) && Timely(m, now)
    && Raised(m0, m, id, limits, c, now, ws)
    && (forall w: Window :: PendingFor(pending, w) == if w in ws then 0 else Charged(limits, c, w))
    && (forall w: Window | w !in ws :: Fits(m0, id, limits, c, now, w))
  }

  lemma StageSkips(m0: Counters, m: Counters, id: CellId, limits: Limits, c: Costs, now: int,
                   ws: seq<Window>, pending: seq<Charge>)
    requires StageInvariant(m0, m, id, limits, c, now, ws, pending)
    requires ws != [] && LimitOf(limits, ws[0]).None?
    ensures StageInvariant(m0, m, id, limits, c, now, ws[1..], pending)
  {
    hide Label;
    assert forall w: Window :: w in ws <==> w == ws[0] || w in ws[1..];
  }

  lemma StageCharges(m0: Counters, m: Counters, id: CellId, limits: Limits, c: Costs, now: int,
                     ws: seq<Window>, pending: seq<Charge>)
    requires StageInvariant(m0, m, id, limits, c, now, ws, pending)
    requires ws != [] && LimitOf(limits, ws[0]).Some?
    requires Reading(m, Key(id, ws[0]), now) + AmountOf(ws[0], c) <= LimitOf(limits, ws[0]).value
    ensures var w := ws[0];
            var a := AmountOf(w, c);
            StageInvariant(m0, SetCount(m, Key(id, w), now, Reading(m, Key(id, w), now) + a), id, limits, c, now,
                           ws[1..], pending + [Charge(w, a)])
  {
    hide Label, AmountOf, Index;
    var w := ws[0];
    var a := AmountOf(w, c);
    assert forall v: Window :: v in ws <==> v == w || v in ws[1..];
    assert w !in ws[1..];
    forall v: Window
      ensures PendingFor(pending + [Charge(w, a)], v) == PendingFor(pending, v) + if v == w then a else 0
    {
      PendingForAppend(pending, Charge(w, a), v);
    }
  }

  lemma StageRejects(m0: Counters, m: Counters, id: CellId, limits: Limits, c: Costs, now: int,
                     ws: seq<Window>, pending: seq<Charge>)
    requires StageInvariant(m0, m, id, limits, c, now, ws, pending)
    requires ws != [] && LimitOf(limits, ws[0]).Some?
    requires Reading(m, Key(id, ws[0]), now) + AmountOf(ws[0], c) > LimitOf(limits, ws[0]).value
    ensures !Fits(m0, id, limits, c, now, ws[0])
    ensures var (m', r) := Stage(m, id, limits, c, now, ws, pending);
            Timely(m', now) && r.Some? && FirstFailure(m0, id, limits, c, now, r.value) && SameReadings(m0, m', now)
  {
    hide Label;
    var w := ws[0];
    var m1 := Touch(m, Key(id, w), now);
    assert SameReadings(m, m1, now);
    forall v: Window ensures Reading(m1, Key(id, v), now) >= PendingFor(pending, v) {
      assert Reading(m0, Key(id, v), now) >= 0;
    }
    RollbackReadings(m1, id, pending, now);
    forall v: Window | Index(v) < Index(w) ensures v !in ws {
    }
  }

  lemma StageDone(m0: Counters, m: Counters, id: CellId, limits: Limits, c: Costs, now: int, pending: seq<Charge>)
    requires StageInvariant(m0, m, id, limits, c, now, [], pending)
    ensures Timely(m, now) && Raised(m0, m, id, limits, c, now, [])
    ensures forall w: Window :: Fits(m0, id, limits, c, now, w)
  {
    hide Label;
  }

  lemma {:induction false} StageReadings(m0: Counters, m: Counters, id: CellId, limits: Limits, c: Costs, now: int,
                                         ws: seq<Window>, pending: seq<Charge>)
    requires StageInvariant(m0, m, id, limits, c, now, ws, pending)
    ensures var (m', r) := Stage(m, id, limits, c, now, ws, pending);
            && Timely(m', now)
            && (r.None? <==> forall w: Window :: Fits(m0, id, limits, c, now, w))
            && (r.None? ==> Raised(m0, m', id, limits, c, now, []))
            && (r.Some? ==> FirstFailure(m0, id, limits, c, now, r.value) && SameReadings(m0, m', now))
    decreases |ws|
  {
    hide Label, StageInvariant, Raised, SameReadings, FirstFailure, Timely, Fits, Rollback, WindowEnd, AmountOf;
    if ws == [] {
      StageDone(m0, m, id, limits, c, now, pending);
    } else if LimitOf(limits, ws[0]).None? {
      StageSkips(m0, m, id, limits, c, now, ws, pending);
      StageReadings(m0, m, id, limits, c, now, ws[1..], pending);
    } else {
      var w := ws[0];
      var n := Reading(m, Key(id, w), now);
      var amount := AmountOf(w, c);
      if n + amount > LimitOf(limits, w).value {
        StageRejects(m0, m, id, limits, c, now, ws, pending);
      } else {
        StageCharges(m0, m, id, limits, c, now, ws, pending);
        StageReadings(m0, SetCount(m, Key(id, w), now, n + amount), id, limits, c, now, ws[1..],
                      pending + [Charge(w, amount)]);
      }
    }
  }

  /** The rejection names the first window, in check order, that the request does not fit. */
  ghost predicate FirstFailure(m: Counters, id: CellId, limits: Limits, c: Costs, now: int, r: Rejection) {
    && !Fits(m, id, limits, c, now, r.window)
    && (forall w: Window | Index(w) < Index(r.window) :: Fits(m, id, limits, c, now, w))
    && LimitOf(limits, r.window) == Some(r.limit)
    && r.count == Reading(m, Key(id, r.window), now)
    && r.retryAfter == WindowEnd(r.window, now) - now
  }

  lemma {:induction false} TailInOrder(i: nat)
    requires i <= |WINDOWS|
    ensures InOrder(WINDOWS[i..])
    decreases |WINDOWS| - i
  {
    if i < |WINDOWS| {
      TailInOrder(i + 1);
      assert WINDOWS[i..][1..] == WINDOWS[i + 1..];
      IndexIsInjective(i);
      forall v | v in WINDOWS[i + 1..] ensures Index(v) > i {
        var j :| i + 1 <= j < |WINDOWS| && v == WINDOWS[j];
        IndexIsInjective(j);
      }
    }
  }

  lemma AllWindowsListed()
    ensures forall w: Window :: w in WINDOWS
    ensures InOrder(WINDOWS)
  {
    forall w: Window ensures w in WINDOWS {
      assert WINDOWS[Index(w)] == w;
    }
    TailInOrder(0);
    assert WINDOWS[0..] == WINDOWS;
  }

  /** A reservation is all or nothing: it succeeds exactly when every constrained window has room, and then raises
      each by its amount and nothing else; otherwise it names the first window without room and no reading moves. */
  lemma ReserveAllOrNothing(m: Counters, id: CellId, limits: Limits, c: Costs, now: int)
    requires Timely(m, now)
    ensures var (m', r) := Reserve(m, id, limits, c, now);
            && Timely(m', now)
            && (r.None? <==> forall w: Window :: Fits(m, id, limits, c, now, w))
            && (r.None? ==> Raised(m, m', id, limits, c, now, []))
            && (r.Some? ==> FirstFailure(m, id, limits, c, now, r.value) && SameReadings(m, m', now))
  {
    hide Label;
    AllWindowsListed();
    StageReadings(m, m, id, limits, c, now, WINDOWS, []);
  }

  // ---------- refund and reconcile ----------

  lemma {:induction false} RefundOverReadings(m: Counters, id: CellId, limits: Limits, c: Costs, now: int,
                                              ws: seq<Window>)
    requires InOrder(ws) && Timely(m, now)
    ensures Timely(RefundOver(m, id, limits, c, now, ws), now)
    ensures forall k :: Reading(RefundOver(m, id, limits, c, now, ws), k, now)
                     == if k.id == id && k.window in ws
                        then Max(0, Reading(m, k, now) - Charged(limits, c, k.window)) else Reading(m, k, now)
    decreases |ws|
  {
    hide Label;
    if ws != [] {
      var w := ws[0];
      var m1 := if LimitOf(limits, w).Some? then Credit(m, Key(id, w), now, AmountOf(w, c)) else m;
      assert w !in ws[1..];
      RefundOverReadings(m1, id, limits, c, now, ws[1..]);
    }
  }

  /** A refund takes the charge off every constrained window, never below zero, and touches nothing else. */
  lemma RefundReadings(m: Counters, id: CellId, limits: Limits, c: Costs, now: int)
    requires Timely(m, now)
    ensures Timely(Refund(m, id, limits, c, now), now)
    ensures forall k :: Reading(Refund(m, id, limits, c, now), k, now)
                     == if k.id == id then Max(0, Reading(m, k, now) - Charged(limits, c, k.window))
                        else Reading(m, k, now)
  {
    hide Label;
    AllWindowsListed();
    RefundOverReadings(m, id, limits, c, now, WINDOWS);
  }

  /** With nothing else run in between, a refund with the same arguments undoes a successful reservation exactly,
      whatever buckets rolled over since: a rolled-over window already reads zero and its old counter is left alone. */
  lemma RefundUndoesReserve(m: Counters, id: CellId, limits: Limits, c: Costs, t: int, u: int)
    requires Timely(m, t) && t <= u
    requires Reserve(m, id, limits, c, t).1.None?
    ensures SameReadings(m, Refund(Reserve(m, id, limits, c, t).0, id, limits, c, u), u)
  {
    hide Label, Reading, Reserve, Refund;
    var m1 := Reserve(m, id, limits, c, t).0;
    ReserveAllOrNothing(m, id, limits, c, t);
    forall k ensures Timely(m1, u)
      ensures Reading(m1, k, u) == Reading(m, k, u)
           + if k.id == id && Label(k.window, t) == Label(k.window, u) then Charged(limits, c, k.window) else 0
      ensures Label(k.window, t) != Label(k.window, u) ==> Reading(m, k, u) == 0
      ensures Reading(m, k, u) >= 0
    {
      LaterReading(m, k, t, u);
      LaterReading(m1, k, t, u);
    }
    RefundReadings(m1, id, limits, c, u);
  }

  /** A refund made when the charge is no longer in the current bucket is harmless exactly when each window it
      charges reads zero; otherwise it takes away what other requests were charged (`LateRefundFallsShort`). */
  lemma RefundWithoutChargeHarmlessIff(m: Counters, id: CellId, limits: Limits, c: Costs, now: int)
    requires Timely(m, now)
    ensures SameReadings(m, Refund(m, id, limits, c, now), now)
       <==> forall w: Window :: Charged(limits, c, w) == 0 || Reading(m, Key(id, w), now) == 0
  {
    hide Label;
    var m' := Refund(m, id, limits, c, now);
    RefundReadings(m, id, limits, c, now);
    if SameReadings(m, m', now) {
      forall w: Window ensures Charged(limits, c, w) == 0 || Reading(m, Key(id, w), now) == 0 {
        assert Reading(m', Key(id, w), now) == Reading(m, Key(id, w), now);
      }
    } else {
      var k :| Reading(m', k, now) != Reading(m, k, now);
      assert k == Key(id, k.window);
    }
  }

  predicate TokenWindow(w: Window) { w == TPM || w == TPD }

  /** Reconciling moves both token windows by the difference, never below zero, and nothing else. */
  lemma ReconcileReadings(m: Counters, id: CellId, actual: int, reserved: int, now: int)
    requires Timely(m, now)
    ensures Timely(Reconcile(m, id, actual, reserved, now), now)
    ensures forall k :: Reading(Reconcile(m, id, actual, reserved, now), k, now)
                     == if k.id == id && TokenWindow(k.window) then Max(0, Reading(m, k, now) + actual - reserved)
                        else Reading(m, k, now)
  {
    hide Label;
    forall k ensures Reading(m, k, now) >= 0 {
    }
  }

  /** What one served request adds to a window in the end: the actual tokens, and the reserved amount elsewhere. */
  function ServedCharge(limits: Limits, c: Costs, actual: nat, w: Window): nat {
    if LimitOf(limits, w).None? then 0 else if TokenWindow(w) then actual else AmountOf(w, c)
  }

  /** Settling replaces the reserved tokens by the actual ones on every constrained window that is still in the bucket
      of the reservation. A token window that was never charged, or has rolled over since, moves by the difference all
      the same, clamped at zero; every other window that has rolled over keeps its reading. */
  lemma {:induction false} SettleReplacesTokens(m: Counters, id: CellId, limits: Limits, c: Costs, actual: nat, t: int,
                                                u: int)
    requires Timely(m, t) && t <= u
    requires Reserve(m, id, limits, c, t).1.None?
    ensures var m' := Reconcile(Reserve(m, id, limits, c, t).0, id, actual, c.tokens, u);
            forall k :: Reading(m', k, u)
                     == if k.id != id then Reading(m, k, u)
                        else if LimitOf(limits, k.window).Some? && Label(k.window, u) == Label(k.window, t)
                        then Reading(m, k, u) + ServedCharge(limits, c, actual, k.window)
                        else if TokenWindow(k.window) then Max(0, Reading(m, k, u) + actual - c.tokens)
                        else Reading(m, k, u)
  {
    hide Label, Reserve, Reconcile, Reading;
    var m1 := Reserve(m, id, limits, c, t).0;
    ReserveAllOrNothing(m, id, limits, c, t);
    forall k ensures Timely(m1, u)
      ensures Reading(m, k, u) >= 0
      ensures Reading(m1, k, u) == Reading(m, k, u)
           + if k.id == id && Label(k.window, u) == Label(k.window, t) then Charged(limits, c, k.window) else 0
    {
      LaterReading(m, k, t, u);
      LaterReading(m1, k, t, u);
    }
    ReconcileReadings(m1, id, actual, c.tokens, u);
  }

  /** With no limits at all, settling ten reserved tokens at four would move an empty counter to minus six; it is cut at
      zero. */
  lemma {:induction false} UnconstrainedSettlementIsCut(id: CellId, now: int)
    ensures var (m, r) := Reserve(map[], id, map[], Costs(10, 0, 0), now);
            && r.None?
            && Reading(m, Key(id, TPM), now) + 4 - 10 < 0
            && Reading(Reconcile(m, id, 4, 10, now), Key(id, TPM), now) == 0
  {
    hide Label, Reserve, Reconcile, Reading;
    NothingCounted(id, now);
    ReserveAllOrNothing(map[], id, map[], Costs(10, 0, 0), now);
    ReconcileReadings(Reserve(map[], id, map[], Costs(10, 0, 0), now).0, id, 4, 10, now);
  }

  // ---------- refunds that come too late ----------

  /** A refund lowers a reading by its charge or to zero. Whatever of the reading belonged to others is short by that
      much afterwards. */
  lemma RefundShortfall(m: Counters, id: CellId, limits: Limits, c: Costs, now: int, w: Window)
    requires Timely(m, now)
    ensures Reading(Refund(m, id, limits, c, now), Key(id, w), now)
         == Reading(m, Key(id, w), now) - Min(Reading(m, Key(id, w), now), Charged(limits, c, w))
  {
    hide Label, Refund, AmountOf;
    RefundReadings(m, id, limits, c, now);
    LaterReading(m, Key(id, w), now, now);
  }

  /** Request `a` reserves, its window rolls over, request `b` reserves in the new bucket, and only then is `a`
      refunded. In the new bucket `b` is the only live charge, and the count falls short of it by `a`'s charge, or
      altogether. */
  lemma {:induction false} LateRefundFallsShort(m: Counters, id: CellId, limits: Limits, a: Costs, b: Costs,
                                                t: int, u: int, w: Window)
    requires Timely(m, t) && t <= u && Label(w, t) != Label(w, u)
    requires Reserve(m, id, limits, a, t).1.None?
    requires Reserve(Reserve(m, id, limits, a, t).0, id, limits, b, u).1.None?
    ensures var m2 := Reserve(Reserve(m, id, limits, a, t).0, id, limits, b, u).0;
            && Reading(m2, Key(id, w), u) == Charged(limits, b, w)
            && Reading(Refund(m2, id, limits, a, u), Key(id, w), u)
               == Charged(limits, b, w) - Min(Charged(limits, a, w), Charged(limits, b, w))
  {
    hide Label, Reserve, Refund, Reading, AmountOf;
    var m1 := Reserve(m, id, limits, a, t).0;
    var m2 := Reserve(m1, id, limits, b, u).0;
    ReserveAllOrNothing(m, id, limits, a, t);
    LaterReading(m1, Key(id, w), t, u);
    ReserveAllOrNothing(m1, id, limits, b, u);
    RefundShortfall(m2, id, limits, a, u, w);
  }

  /** With one request a minute allowed: `a` reserves, the minute rolls over, `b` reserves and fills the new minute, `a`
      is refunded, and a third request is admitted beside `b`, whose charge nothing counts any more. */
  lemma {:induction false} LateRefundAdmitsTooMany(id: CellId, c: Costs, t: int, u: int)
    requires t <= u && Label(RPM, t) != Label(RPM, u)
    ensures var limits := map[RPM := Some(1)];
            var (m1, a) := Reserve(map[], id, limits, c, t);
            var (m2, b) := Reserve(m1, id, limits, c, u);
            && a.None? && b.None?
            && Reserve(m2, id, limits, c, u).1.Some?
            && Reserve(Refund(m2, id, limits, c, u), id, limits, c, u).1.None?
  {
    hide Label, Reserve, Refund, Reading;
    var limits: Limits := map[RPM := Some(1)];
    var m0: Counters := map[];
    NothingCounted(id, t);
    ReserveAllOrNothing(m0, id, limits, c, t);
    var m1 := Reserve(m0, id, limits, c, t).0;
    LaterReading(m1, Key(id, RPM), t, u);
    ReserveAllOrNothing(m1, id, limits, c, u);
    var m2 := Reserve(m1, id, limits, c, u).0;
    ReserveAllOrNothing(m2, id, limits, c, u);
    assert !Fits(m2, id, limits, c, u, RPM);
    LateRefundFallsShort(m0, id, limits, c, c, t, u, RPM);
    RefundReadings(m2, id, limits, c, u);
    ReserveAllOrNothing(Refund(m2, id, limits, c, u), id, limits, c, u);
  }

  lemma NothingCounted(id: CellId, now: int)
    ensures Timely(map[], now) && forall w: Window :: Reading(map[], Key(id, w), now) == 0
  {
    hide Label;
  }
}
