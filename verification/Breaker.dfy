/** The circuit breaker of a provider group: its state machine, the class that carries it, and every run of it. */
module Breakers {
  import opened Prelude

  datatype Mode = Closed | Open | HalfOpen

  /** `failureThreshold` counts errors, `recoveryTimeout` is in nanoseconds. Neither needs to be positive. */
  datatype Policy = Policy(failureThreshold: int, recoveryTimeout: int)

  datatype Health = Health(mode: Mode, errorCount: int, probes: int, openedAt: int)

  const HEALTHY := Health(Closed, 0, 0, 0)

  function Failed(p: Policy, h: Health, now: int): Health {
    var probes := if h.probes > 0 then h.probes - 1 else h.probes;
    if h.mode == HalfOpen || h.errorCount + 1 >= p.failureThreshold
    then Health(Open, h.errorCount + 1, probes, now)
    else Health(h.mode, h.errorCount + 1, probes, h.openedAt)
  }

  /** Whether a request may be sent, and the state the question leaves behind. */
  function Asked(p: Policy, h: Health, now: int): (Health, bool) {
    match h.mode
    case Closed => (h, true)
    case Open =>
      if now - h.openedAt >= p.recoveryTimeout then (h.(mode := HalfOpen, probes := 1), true) else (h, false)
    case HalfOpen =>
      if h.probes > 0 then (h, false) else (h.(probes := 1), true)
  }

  class Breaker {
    const policy: Policy
    var mode: Mode
    var errorCount: int
    var probes: int
    var openedAt: int

    function View(): Health
      reads this
    {
      Health(mode, errorCount, probes, openedAt)
    }

    constructor (policy: Policy)
      ensures View() == HEALTHY && this.policy == policy
    {
      this.policy := policy;
      mode, errorCount, probes, openedAt := Closed, 0, 0, 0;
    }

    method RecordFailure(now: int)
      modifies this
      ensures View() == Failed(policy, old(View()), now)
    {
      // An answered probe gives its seat back first.
      if probes > 0 {
        probes := probes - 1;
      }
      errorCount := errorCount + 1;
      if mode == HalfOpen || errorCount >= policy.failureThreshold {
        mode := Open;
        openedAt := now;
      }
    }

    method RecordSuccess()
      modifies this
      ensures View() == HEALTHY
    {
      mode, errorCount, openedAt, probes := Closed, 0, 0, 0;
    }

    method Allows(now: int) returns (ok: bool)
      modifies this
      ensures (View(), ok) == Asked(policy, old(View()), now)
    {
      match mode
      case Closed => ok := true;
      case Open =>
        if now - openedAt >= policy.recoveryTimeout {
          mode := HalfOpen;
          probes := 1;
          ok := true;
        } else {
          ok := false;
        }
      case HalfOpen =>
        if probes > 0 {
          ok := false;
        } else {
          probes := 1;
          ok := true;
        }
    }
  }

  // ---------- runs ----------

  datatype Event = Ask(at: int) | Failure(at: int) | Success(at: int)

  function Next(p: Policy, h: Health, e: Event): Health {
    match e
    case Ask(at) => Asked(p, h, at).0
    case Failure(at) => Failed(p, h, at)
    case Success(_) => HEALTHY
  }

  /** The state in which event number `i` finds the breaker. */
  function StateAt(p: Policy, run: seq<Event>, i: nat): Health
    requires i <= |run|
  {
    if i == 0 then HEALTHY else Next(p, StateAt(p, run, i - 1), run[i - 1])
  }

  ghost predicate ClockAdvances(run: seq<Event>) {
    forall i, j | 0 <= i <= j < |run| :: run[i].at <= run[j].at
  }

  predicate Admitted(p: Policy, run: seq<Event>, i: nat)
    requires i < |run|
  {
    run[i].Ask? && Asked(p, StateAt(p, run, i), run[i].at).1
  }

  /** Event `i` is a probe: a request admitted by a breaker that is not closed. */
  predicate Probe(p: Policy, run: seq<Event>, i: nat)
    requires i < |run|
  {
    Admitted(p, run, i) && StateAt(p, run, i).mode != Closed
  }

  /** In every run the single probe seat is taken exactly while half-open, and a closed breaker has counted fewer
      errors than its threshold. */
  lemma {:induction false} SeatTakenIffHalfOpen(p: Policy, run: seq<Event>, i: nat)
    requires i <= |run|
    ensures var h := StateAt(p, run, i);
            && h.probes == (if h.mode == HalfOpen then 1 else 0)
            && (h.mode == Closed ==> 0 <= h.errorCount < Max(1, p.failureThreshold))
            && (h.mode != Closed ==> h.errorCount >= Max(1, p.failureThreshold))
  {
    if i > 0 {
      SeatTakenIffHalfOpen(p, run, i - 1);
    }
  }

  /** An open breaker was opened by a recorded failure and has been open ever since. */
  lemma {:induction false} OpenedByFailure(p: Policy, run: seq<Event>, j: nat) returns (m: nat)
    requires j <= |run| && StateAt(p, run, j).mode == Open
    ensures m < j && run[m].Failure? && StateAt(p, run, j).openedAt == run[m].at
    ensures forall q | m < q <= j :: StateAt(p, run, q).mode == Open
  {
    SeatTakenIffHalfOpen(p, run, j - 1);
    if run[j - 1].Failure? && StateAt(p, run, j).openedAt == run[j - 1].at {
      m := j - 1;
    } else {
      m := OpenedByFailure(p, run, j - 1);
    }
  }

  /** Any two probes are separated by a recorded failure, and the later one comes at least the recovery timeout after
      that failure, hence after the earlier probe. */
  lemma ProbesAreSpacedOut(p: Policy, run: seq<Event>, i: nat, j: nat)
    requires ClockAdvances(run) && i < j < |run| && Probe(p, run, i) && Probe(p, run, j)
    ensures exists m :: i < m < j && run[m].Failure? && run[j].at >= run[m].at + p.recoveryTimeout
    ensures run[j].at >= run[i].at + p.recoveryTimeout
  {
    SeatTakenIffHalfOpen(p, run, i);
    SeatTakenIffHalfOpen(p, run, j);
    assert StateAt(p, run, i + 1).mode == HalfOpen;
    var m := OpenedByFailure(p, run, j);
    assert m > i;
    assert run[j].at >= run[m].at + p.recoveryTimeout;
  }

  /** Once a failure leaves the breaker open, nothing is admitted for the whole recovery timeout unless a success is
      recorded first; every further failure restarts the timeout. */
  lemma {:induction false} OpenAdmitsNothing(p: Policy, run: seq<Event>, m: nat, j: nat)
    requires ClockAdvances(run) && m < j < |run|
    requires run[m].Failure? && StateAt(p, run, m + 1).mode == Open
    requires forall q | m < q < j :: !run[q].Success?
    requires run[j].at < run[m].at + p.recoveryTimeout
    ensures !Admitted(p, run, j)
  {
    OpenStays(p, run, m, j);
  }

  lemma {:induction false} OpenStays(p: Policy, run: seq<Event>, m: nat, j: nat)
    requires ClockAdvances(run) && m < j < |run|
    requires run[m].Failure? && StateAt(p, run, m + 1).mode == Open
    requires forall q | m < q < j :: !run[q].Success?
    requires run[j].at < run[m].at + p.recoveryTimeout
    ensures StateAt(p, run, j).mode == Open && StateAt(p, run, j).openedAt >= run[m].at
  {
    if j == m + 1 {
      SeatTakenIffHalfOpen(p, run, m);
    } else {
      OpenStays(p, run, m, j - 1);
    }
  }

  /** A half-open breaker admits nothing more until an outcome is recorded, however long that takes. */
  lemma {:induction false} HalfOpenWaitsForOutcome(p: Policy, run: seq<Event>, i: nat, j: nat)
    requires i <= j < |run| && StateAt(p, run, i).mode == HalfOpen
    requires forall q | i <= q < j :: run[q].Ask?
    ensures StateAt(p, run, j) == StateAt(p, run, i) && !Admitted(p, run, j)
    decreases j
  {
    SeatTakenIffHalfOpen(p, run, i);
    if i < j {
      HalfOpenWaitsForOutcome(p, run, i, j - 1);
    }
  }

  /** An outcome does free the seat: a success at once, a failure once the recovery timeout has passed. */
  lemma OutcomeFreesSeat(p: Policy, h: Health, e: Event, at: int)
    requires h.mode == HalfOpen && !e.Ask?
    ensures Asked(p, Next(p, h, e), at).1 <==> e.Success? || at - e.at >= p.recoveryTimeout
  {
  }

  /** A breaker after failures at these times, with nothing else between them. */
  function FailedAt(p: Policy, h: Health, times: seq<int>): Health {
    if times == [] then h else Failed(p, FailedAt(p, h, times[..|times| - 1]), times[|times| - 1])
  }

  /** From a healthy start a breaker counts every failure, and opens at the threshold, at the time of that failure and
      of every further one. */
  lemma {:induction false} OpensAtThreshold(p: Policy, times: seq<int>)
    ensures var h := FailedAt(p, HEALTHY, times);
            && h.errorCount == |times| && h.probes == 0
            && h.mode == (if |times| > 0 && |times| >= p.failureThreshold then Open else Closed)
            && (h.mode == Open ==> h.openedAt == times[|times| - 1])
  {
    if times != [] {
      OpensAtThreshold(p, times[..|times| - 1]);
    }
  }

  /** A failed probe opens the breaker again at once and gives its seat back. */
  lemma FailedProbeReopens(p: Policy, h: Health, now: int)
    requires h.mode == HalfOpen && h.probes == 1
    ensures Failed(p, h, now) == Health(Open, h.errorCount + 1, 0, now)
  {
  }
}
