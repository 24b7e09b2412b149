/** What a request asks of each window, in its own fields, and how long a window remembers it. */
module Charges {
  import opened Prelude
  import opened Windows
  import opened Cells

  /** The request fits into what is left of a window. */
  predicate RoomFor(w: Window, c: Costs, left: int) {
    match w
    case RPM => 1 <= left
    case TPM => c.tokens <= left
    case RPD => 1 <= left
    case TPD => c.tokens <= left
    case CPM => c.chars <= left
    case CPD => c.chars <= left
    case ASEC => c.audioSec <= left
    case AMIN => c.audioSec <= 60 * left
  }

  /** A window counts `n` for the request; of minutes the least number that covers the seconds. */
  predicate CountsFor(w: Window, c: Costs, n: int) {
    match w
    case RPM => n == 1
    case TPM => n == c.tokens
    case RPD => n == 1
    case TPD => n == c.tokens
    case CPM => n == c.chars
    case CPD => n == c.chars
    case ASEC => n == c.audioSec
    case AMIN => 60 * (n - 1) < c.audioSec <= 60 * n
  }

  lemma FitsIffRoom(m: Counters, id: CellId, limits: Limits, c: Costs, now: int, w: Window)
    requires LimitOf(limits, w).Some?
    ensures Fits(m, id, limits, c, now, w) <==> RoomFor(w, c, LimitOf(limits, w).value - Reading(m, Key(id, w), now))
    ensures CountsFor(w, c, Charged(limits, c, w))
  {
    hide Reading;
  }

  /** A request is admitted exactly when each limited window has room for its requests, tokens, characters, seconds or
      minutes; each then counts just those, and nothing else is counted anywhere. */
  lemma AdmittedIff(m: Counters, id: CellId, limits: Limits, c: Costs, now: int)
    requires Timely(m, now)
    ensures var (m', r) := Reserve(m, id, limits, c, now);
            && (r.None? <==>
                  forall w: Window | LimitOf(limits, w).Some? ::
                    RoomFor(w, c, LimitOf(limits, w).value - Reading(m, Key(id, w), now)))
            && (r.None? ==>
                  forall w: Window | LimitOf(limits, w).Some? ::
                    CountsFor(w, c, Reading(m', Key(id, w), now) - Reading(m, Key(id, w), now)))
            && (forall k: Key | k.id != id || LimitOf(limits, k.window).None? || r.Some? ::
                  Reading(m', k, now) == Reading(m, k, now))
  {
    hide Reserve, Reading, RoomFor, CountsFor, Timely, Fits, Charged;
    ReserveAllOrNothing(m, id, limits, c, now);
    forall w: Window | LimitOf(limits, w).Some?
      ensures Fits(m, id, limits, c, now, w)
              <==> RoomFor(w, c, LimitOf(limits, w).value - Reading(m, Key(id, w), now))
      ensures CountsFor(w, c, Charged(limits, c, w))
    {
      FitsIffRoom(m, id, limits, c, now, w);
    }
    forall w: Window | LimitOf(limits, w).None?
      ensures Fits(m, id, limits, c, now, w) && Charged(limits, c, w) == 0
    {
      NoLimitNoCharge(m, id, limits, c, now, w);
    }
    var (m', r) := Reserve(m, id, limits, c, now);
    forall k: Key | k.id != id || LimitOf(limits, k.window).None? || r.Some?
      ensures Reading(m', k, now) == Reading(m, k, now)
    {
      if r.None? && k.id == id {
        assert Charged(limits, c, k.window) == 0;
      }
    }
  }

  lemma NoLimitNoCharge(m: Counters, id: CellId, limits: Limits, c: Costs, now: int, w: Window)
    requires LimitOf(limits, w).None?
    ensures Fits(m, id, limits, c, now, w) && Charged(limits, c, w) == 0
  {
  }

  /** With nothing counted yet and one limit, only that limit matters. */
  lemma {:induction false} FirstAdmittedIff(id: CellId, w: Window, limit: int, c: Costs, now: int)
    ensures var (m, r) := Reserve(map[], id, map[w := Some(limit)], c, now);
            && (r.None? <==> RoomFor(w, c, limit))
            && (r.None? ==> CountsFor(w, c, Reading(m, Key(id, w), now)))
  {
    hide Reserve, Reading, RoomFor, CountsFor;
    NothingCounted(id, now);
    AdmittedIff(map[], id, map[w := Some(limit)], c, now);
    assert LimitOf(map[w := Some(limit)], w) == Some(limit);
  }

  // ---------- how long it is counted ----------

  const NANOS_A_MINUTE: int := 60_000_000_000
  const NANOS_A_DAY: int := 86_400_000_000_000

  predicate ByTheMinute(w: Window) { w in {RPM, TPM, CPM} }

  function Span(w: Window): int { if ByTheMinute(w) then NANOS_A_MINUTE else NANOS_A_DAY }

  /** Requests, tokens and characters per minute are forgotten with the UTC minute, everything else with the UTC day,
      and nothing earlier. */
  lemma ForgottenWithItsSpan(m: Counters, k: Key, now: int, t: int)
    requires Timely(m, now) && now <= t
    ensures Reading(m, k, t) == if t / Span(k.window) == now / Span(k.window) then Reading(m, k, now) else 0
  {
    LaterReading(m, k, now, t);
  }

  /** A rejection's delay leads to the very next full minute or day. */
  lemma DelayEndsTheSpan(m: Counters, id: CellId, limits: Limits, c: Costs, now: int)
    requires Timely(m, now) && Reserve(m, id, limits, c, now).1.Some?
    ensures var r := Reserve(m, id, limits, c, now).1.value;
            0 < r.retryAfter <= Span(r.window) && (now + r.retryAfter) % Span(r.window) == 0
  {
    hide Reserve, Fits;
    ReserveAllOrNothing(m, id, limits, c, now);
    var w := Reserve(m, id, limits, c, now).1.value.window;
    LabelConstantUntilWindowEnd(w, now, now);
    MultipleIsWhole(now / Span(w) + 1, Span(w));
  }

  lemma MultipleIsWhole(n: int, p: int)
    requires p > 0
    ensures n * p % p == 0
  {
    assert n * p == p * n;
    assert (p * n) / p == n by { DivBelow(p * n, p, n); DivBelow(p * n, p, n - 1); }
  }

  /** A purge keeps the counters of the present minutes and days as they are, and drops all others. */
  lemma PurgeKeepsThePresent(m: Counters, now: int, t: int, w: Window, id: CellId)
    ensures var k := Key(id, w);
            && (k in Purge(m, now) <==> k in m && m[k].bucket == now / Span(w))
            && (k in Purge(m, now) ==> Purge(m, now)[k] == m[k])
  {
  }
}
