/** Rate-limit windows, what a request consumes of each, and the clock buckets they are counted in.
    Time is an integer number of nanoseconds since the Unix epoch, UTC. */
module Windows {

  datatype Window = RPM | TPM | RPD | TPD | CPM | CPD | ASEC | AMIN

  /** Every window, in the order a reservation checks them. */
  const WINDOWS: seq<Window> := [RPM, TPM, RPD, TPD, CPM, CPD, ASEC, AMIN]

  const SECOND: int := 1_000_000_000
  const MINUTE: int := 60 * SECOND
  const DAY: int := 86_400 * SECOND

  /** The estimates one request may be charged. All three are derived from lengths or from an estimate that is
      never below one, so they are naturals. */
  datatype Costs = Costs(tokens: nat, chars: nat, audioSec: nat)

  /** How much one request consumes of a window. */
  function AmountOf(w: Window, c: Costs): nat {
    match w
    case RPM | RPD => 1
    case TPM | TPD => c.tokens
    case CPM | CPD => c.chars
    case ASEC => c.audioSec
    case AMIN => (c.audioSec + 59) / 60
  }

  /** The position of a window in the check order. */
  function Index(w: Window): (i: nat)
    ensures i < |WINDOWS| && WINDOWS[i] == w
  {
    match w
    case RPM => 0
    case TPM => 1
    case RPD => 2
    case TPD => 3
    case CPM => 4
    case CPD => 5
    case ASEC => 6
    case AMIN => 7
  }

  lemma IndexIsInjective(i: nat)
    requires i < |WINDOWS|
    ensures Index(WINDOWS[i]) == i
  {
    assert i == 0 || i == 1 || i == 2 || i == 3 || i == 4 || i == 5 || i == 6 || i == 7;
  }

  /** Audio minutes round a positive number of seconds up. */
  lemma AudioMinutesRoundUp(c: Costs)
    ensures 60 * AmountOf(AMIN, c) >= c.audioSec
    ensures 60 * AmountOf(AMIN, c) < c.audioSec + 60
  {
  }

  /** Sending one request in two pieces costs one request more, at most one audio minute more, and the same tokens,
      characters and seconds. */
  lemma PiecesCostTheirSum(a: Costs, b: Costs, w: Window)
    ensures var whole := Costs(a.tokens + b.tokens, a.chars + b.chars, a.audioSec + b.audioSec);
            var extra := AmountOf(w, a) + AmountOf(w, b) - AmountOf(w, whole);
            match w
            case RPM | RPD => extra == 1
            case TPM | TPD | CPM | CPD | ASEC => extra == 0
            case AMIN => 0 <= extra <= 1
  {
  }

  function Period(w: Window): (p: int)
    ensures p > 0
  {
    match w
    case RPM | TPM | CPM => MINUTE
    case _ => DAY
  }

  /** The bucket a time falls into: the minute or the UTC day. */
  function Label(w: Window, t: int): int { t / Period(w) }

  /** When the bucket containing `t` rolls over. */
  function WindowEnd(w: Window, t: int): int { (t / Period(w) + 1) * Period(w) }

  lemma DivBelow(u: int, p: int, q: int)
    requires p > 0
    ensures u < (q + 1) * p <==> u / p <= q
  {
    if u / p <= q {
      assert p * (u / p) <= p * q;
    } else {
      assert p * (u / p) >= p * (q + 1);
    }
  }

  lemma LabelMonotone(w: Window, t: int, u: int)
    requires t <= u
    ensures Label(w, t) <= Label(w, u)
  {
    DivBelow(u, Period(w), u / Period(w));
    DivBelow(t, Period(w), u / Period(w));
  }

  /** A bucket label is constant on the window up to `WindowEnd` and new from `WindowEnd` on. */
  lemma LabelConstantUntilWindowEnd(w: Window, t: int, u: int)
    requires t <= u
    ensures Label(w, u) == Label(w, t) <==> u < WindowEnd(w, t)
    ensures t < WindowEnd(w, t) <= t + Period(w)
  {
    LabelMonotone(w, t, u);
    DivBelow(u, Period(w), t / Period(w));
    DivBelow(t, Period(w), t / Period(w));
    assert Period(w) * (t / Period(w)) <= t;
  }

  /** The whole-second hint sent to clients: the truncated delay plus one (proxy.go:508 and 660). */
  function HintSeconds(delay: int): int { delay / SECOND + 1 }

  /** Waiting the hint always outlasts the delay, by at most one second. */
  lemma HintOutlastsDelay(delay: int)
    ensures delay < HintSeconds(delay) * SECOND <= delay + SECOND
  {
  }

  /** Waiting the limiter's hint moves the rejecting window into a new bucket. */
  lemma HintReachesNextBucket(w: Window, t: int, u: int)
    requires u >= t + HintSeconds(WindowEnd(w, t) - t) * SECOND
    ensures Label(w, u) > Label(w, t)
  {
    HintOutlastsDelay(WindowEnd(w, t) - t);
    LabelConstantUntilWindowEnd(w, t, t);
    LabelConstantUntilWindowEnd(w, t, u);
    LabelMonotone(w, t, u);
  }
}
