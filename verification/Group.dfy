/** One provider group: its breaker and its credentials together, and every run of the two. */
module Groups {
  import opened Prelude
  import opened KeyPools
  import Breakers

  datatype GroupView = GroupView(
    slot: string, slug: string, apiBase: string, model: string,
    keys: seq<KeyState>, lastKey: string,
    policy: Breakers.Policy, health: Breakers.Health)

  datatype Answer = Handed(apiKey: string) | Refused | Exhausted(earliest: Option<nat>)

  /** A request for a credential: the breaker is asked first, then the pool. */
  function Serve(g: GroupView, now: nat): (GroupView, Answer) {
    var (health, ok) := Breakers.Asked(g.policy, g.health, now);
    if !ok then (g.(health := health), Refused)
    else
      match Pick(g.keys, g.lastKey, now)
      case None => (g.(health := health), Exhausted(Earliest(g.keys, now)))
      case Some(k) => (g.(health := health, lastKey := k), Handed(k))
  }

  function ClearFails(keys: seq<KeyState>): seq<KeyState> {
    if keys == [] then [] else [keys[0].(fails := 0)] + ClearFails(keys[1..])
  }

  function Succeed(g: GroupView): GroupView {
    g.(keys := ClearFails(g.keys), health := Breakers.HEALTHY)
  }

  predicate ServerFault(status: int) { 500 <= status < 600 }

  /** A failure recorded against a credential; only the first entry holding it is penalised, and only a 5xx counts
      against the breaker. */
  function Fail(g: GroupView, apiKey: string, status: int, now: nat): GroupView {
    var g' := match IndexOf(g.keys, apiKey)
              case None => g
              case Some(i) => g.(keys := g.keys[i := Penalised(g.keys[i], status, now)]);
    if ServerFault(status) then g'.(health := Breakers.Failed(g.policy, g.health, now)) else g'
  }

  class Group {
    const slot: string
    const slug: string
    const apiBase: string
    const model: string
    const breaker: Breakers.Breaker
    var keys: seq<KeyState>
    var lastKey: string

    function View(): GroupView
      reads this, breaker
    {
      GroupView(slot, slug, apiBase, model, keys, lastKey, breaker.policy, breaker.View())
    }

    constructor (slot: string, slug: string, apiBase: string, model: string, apiKeys: seq<string>,
                 policy: Breakers.Policy)
      ensures fresh(breaker)
      ensures View() == GroupView(slot, slug, apiBase, model,
                                  seq(|apiKeys|, i requires 0 <= i < |apiKeys| => KeyState(apiKeys[i], 0, 0)),
                                  "", policy, Breakers.HEALTHY)
    {
      this.slot, this.slug, this.apiBase, this.model := slot, slug, apiBase, model;
      this.keys := seq(|apiKeys|, i requires 0 <= i < |apiKeys| => KeyState(apiKeys[i], 0, 0));
      this.lastKey := "";
      this.breaker := new Breakers.Breaker(policy);
    }

    /** The next eligible credential after the one handed out last, and the earliest end of a running cooldown. */
    method PickKey(now: nat) returns (key: Option<string>, earliest: Option<nat>)
      modifies this`lastKey
      ensures key == Pick(keys, old(lastKey), now) && earliest == Earliest(keys, now)
      ensures lastKey == if key.Some? then key.value else old(lastKey)
    {
      hide StartIndex;
      var eligible: seq<string> := [];
      earliest := None;
      for i := 0 to |keys|
        invariant eligible == Eligible(keys[..i], now) && earliest == Earliest(keys[..i], now)
        invariant lastKey == old(lastKey)
      {
        var k := keys[i];
        assert keys[..i + 1] == keys[..i] + [k] && keys[..i + 1][..i] == keys[..i];
        var cd := k.cooldownUntil;
        if cd > now {
          if earliest.None? || cd < earliest.value {
            earliest := Some(cd);
          }
        } else {
          eligible := eligible + [k.apiKey];
        }
      }
      assert keys[..|keys|] == keys;
      key := Choose(eligible, lastKey);
      PickChooses(keys, lastKey, now);
      if key.Some? {
        lastKey := key.value;
      }
    }

    method RecordSuccess()
      modifies this`keys, breaker
      ensures View() == Succeed(old(View()))
    {
      hide ClearFails;
      breaker.RecordSuccess();
      ghost var was := keys;
      ClearFailsLength(was);
      for i := 0 to |keys|
        invariant |keys| == |was| && breaker.View() == Breakers.HEALTHY
        invariant forall j | 0 <= j < i :: keys[j] == was[j].(fails := 0)
        invariant forall j | i <= j < |was| :: keys[j] == was[j]
      {
        keys := keys[i := keys[i].(fails := 0)];
      }
      assert keys == ClearFails(was);
    }

    /** Records a failure against the entry at `index`, or against no entry when the credential is unknown. */
    method RecordFailure(index: Option<nat>, status: int, now: nat)
      requires index.Some? ==> index.value < |keys|
      modifies this`keys, breaker
      ensures keys == if index.Some? then old(keys)[index.value := Penalised(old(keys)[index.value], status, now)]
                      else old(keys)
      ensures breaker.View() == if ServerFault(status) then Breakers.Failed(breaker.policy, old(breaker.View()), now)
                                else old(breaker.View())
    {
      if status == 429 && index.Some? {
        var k := keys[index.value];
        var cooldown := SHORT_COOLDOWN;
        if k.fails >= 3 {
          cooldown := LONG_COOLDOWN;
        }
        keys := keys[index.value := k.(cooldownUntil := now + cooldown, fails := k.fails + 1)];
      } else if status == 429 {
      } else if (status == 401 || status == 402 || status == 403) && index.Some? {
        keys := keys[index.value := keys[index.value].(cooldownUntil := now + QUARANTINE)];
      } else if 500 <= status < 600 {
        breaker.RecordFailure(now);
      }
    }
  }

  /** Rotation over an eligible list: the position after the last credential handed out, or the first. */
  method Choose(eligible: seq<string>, lastKey: string) returns (key: Option<string>)
    ensures key == if eligible == [] then None else Some(eligible[StartIndex(eligible, lastKey)])
  {
    if eligible == [] {
      return None;
    }
    var start := 0;
    for i := 0 to |eligible|
      invariant lastKey !in eligible[..i] && start == 0
    {
      if eligible[i] == lastKey {
        FirstIndexIs(eligible, i);
        CyclicIsRemainder(i + 1, |eligible|);
        start := (i + 1) % |eligible|;
        break;
      }
    }
    key := Some(eligible[start]);
  }

  lemma FirstIndexIs(s: seq<string>, i: nat)
    requires i < |s| && s[i] !in s[..i]
    ensures FirstIndex(s, s[i]) == i
  {
    var f := FirstIndex(s, s[i]);
    assert s[i] !in s[..f];
  }

  lemma PickChooses(keys: seq<KeyState>, lastKey: string, now: nat)
    ensures var e := Eligible(keys, now);
            Pick(keys, lastKey, now) == if e == [] then None else Some(e[StartIndex(e, lastKey)])
  {
  }

  lemma {:induction false} ClearFailsLength(keys: seq<KeyState>)
    ensures |ClearFails(keys)| == |keys|
    ensures forall i | 0 <= i < |keys| :: ClearFails(keys)[i] == keys[i].(fails := 0)
  {
    if keys != [] {
      ClearFailsLength(keys[1..]);
    }
  }

  // ---------- runs ----------

  datatype Event =
    | ServeAt(at: nat)
    | FailAt(apiKey: string, status: int, at: nat)
    | SucceedAt(apiKey: string, at: nat)

  function Next(g: GroupView, e: Event): GroupView {
    match e
    case ServeAt(at) => Serve(g, at).0
    case FailAt(k, status, at) => Fail(g, k, status, at)
    case SucceedAt(_, _) => Succeed(g)
  }

  function StateAt(g: GroupView, run: seq<Event>, i: nat): GroupView
    requires i <= |run|
  {
    if i == 0 then g else Next(StateAt(g, run, i - 1), run[i - 1])
  }

  /** The credential handed out by event `i`, if it hands one out. */
  function HandedAt(g: GroupView, run: seq<Event>, i: nat): Option<string>
    requires i < |run|
  {
    if !run[i].ServeAt? then None
    else match Serve(StateAt(g, run, i), run[i].at).1 case Handed(k) => Some(k) case _ => None
  }

  ghost predicate ClockAdvances(run: seq<Event>) {
    forall i, j | 0 <= i <= j < |run| :: run[i].at <= run[j].at
  }

  predicate Quarantines(e: Event, x: string) {
    e.FailAt? && e.apiKey == x && (e.status == 401 || e.status == 402 || e.status == 403)
  }

  predicate RateLimits(e: Event, x: string) {
    e.FailAt? && e.apiKey == x && e.status == 429
  }

  /** Every entry holding `x` is cooling down until `until` at least. */
  ghost predicate CoolingUntil(keys: seq<KeyState>, x: string, until: int) {
    forall i | 0 <= i < |keys| && keys[i].apiKey == x :: keys[i].cooldownUntil >= until
  }

  lemma NextKeepsCredentials(g: GroupView, e: Event)
    ensures |Next(g, e).keys| == |g.keys|
    ensures forall i | 0 <= i < |g.keys| :: Next(g, e).keys[i].apiKey == g.keys[i].apiKey
  {
    ClearFailsLength(g.keys);
    if e.FailAt? {
      IndexOfFinds(g.keys, e.apiKey);
    }
  }

  lemma {:induction false} RunKeepsDistinct(g: GroupView, run: seq<Event>, i: nat)
    requires Distinct(g.keys) && i <= |run|
    ensures Distinct(StateAt(g, run, i).keys)
  {
    if i > 0 {
      RunKeepsDistinct(g, run, i - 1);
      NextKeepsCredentials(StateAt(g, run, i - 1), run[i - 1]);
    }
  }

  // ---------- what decides a credential's cooldown ----------

  /** What a run of outcomes makes of one credential. */
  function After(k: KeyState, run: seq<Event>, j: nat): KeyState
    requires j <= |run|
  {
    if j == 0 then k
    else
      var before := After(k, run, j - 1);
      match run[j - 1]
      case ServeAt(_) => before
      case FailAt(x, status, at) => if x == k.apiKey then Penalised(before, status, at) else before
      case SucceedAt(_, _) => before.(fails := 0)
  }

  /** In every run each credential evolves on its own. */
  lemma {:induction false} CredentialsAreSeparate(g: GroupView, run: seq<Event>, j: nat, n: nat)
    requires Distinct(g.keys) && j <= |run| && n < |g.keys|
    ensures |StateAt(g, run, j).keys| == |g.keys|
    ensures StateAt(g, run, j).keys[n] == After(g.keys[n], run, j)
    ensures After(g.keys[n], run, j).apiKey == g.keys[n].apiKey
    decreases j
  {
    hide Next, Penalised;
    if j > 0 {
      CredentialsAreSeparate(g, run, j - 1, n);
      RunKeepsDistinct(g, run, j - 1);
      NextKeepsCredentials(StateAt(g, run, j - 1), run[j - 1]);
      NextOnOneCredential(StateAt(g, run, j - 1), run[j - 1], n);
    }
  }

  lemma NextOnOneCredential(g: GroupView, e: Event, n: nat)
    requires Distinct(g.keys) && n < |g.keys|
    ensures |Next(g, e).keys| == |g.keys|
    ensures Next(g, e).keys[n]
         == match e
            case ServeAt(_) => g.keys[n]
            case FailAt(x, status, at) => if x == g.keys[n].apiKey then Penalised(g.keys[n], status, at) else g.keys[n]
            case SucceedAt(_, _) => g.keys[n].(fails := 0)
  {
    hide Penalised;
    ClearFailsLength(g.keys);
    if e.FailAt? {
      IndexOfFinds(g.keys, e.apiKey);
    }
  }

  /** The last outcome before `j` that sets the cooldown of `x`: a 401, 402, 403 or 429 recorded for it. */
  function LastPenalty(run: seq<Event>, j: nat, x: string): (r: Option<nat>)
    requires j <= |run|
    ensures match r
            case None => forall q | 0 <= q < j :: !Quarantines(run[q], x) && !RateLimits(run[q], x)
            case Some(p) =>
              && p < j && (Quarantines(run[p], x) || RateLimits(run[p], x))
              && forall q | p < q < j :: !Quarantines(run[q], x) && !RateLimits(run[q], x)
  {
    if j == 0 then None
    else if Quarantines(run[j - 1], x) || RateLimits(run[j - 1], x) then Some(j - 1)
    else LastPenalty(run, j - 1, x)
  }

  /** The cooldown an outcome starts, given the failures in a row before it. */
  function PenaltyOf(e: Event, fails: nat): int {
    if e.FailAt? && e.status == 429 then if fails >= 3 then LONG_COOLDOWN else SHORT_COOLDOWN else QUARANTINE
  }

  /** The cooldown of a credential ends when its last penalty says, whatever came before it. */
  lemma {:induction false} LastPenaltyDecides(k: KeyState, run: seq<Event>, j: nat)
    requires j <= |run|
    ensures After(k, run, j).apiKey == k.apiKey
    ensures After(k, run, j).cooldownUntil
         == match LastPenalty(run, j, k.apiKey)
            case None => k.cooldownUntil
            case Some(p) => run[p].at + PenaltyOf(run[p], After(k, run, p).fails)
    decreases j
  {
    if j > 0 {
      LastPenaltyDecides(k, run, j - 1);
    }
  }

  /** After a 401, 402 or 403 the year of quarantine stands exactly as long as the last outcome that sets the cooldown
      is again a 401, 402 or 403: until its last thirty seconds begin, a 429 recorded later always cuts it short. */
  lemma {:induction false} QuarantineStandsIff(g: GroupView, run: seq<Event>, i: nat, j: nat, n: nat)
    requires Distinct(g.keys) && ClockAdvances(run) && i < j <= |run| && n < |g.keys|
    requires Quarantines(run[i], g.keys[n].apiKey)
    ensures var x := g.keys[n].apiKey;
            var last := LastPenalty(run, j, x);
            && last.Some? && i <= last.value
            && (Quarantines(run[last.value], x) ==> CoolingUntil(StateAt(g, run, j).keys, x, run[i].at + QUARANTINE))
            && (run[last.value].at + LONG_COOLDOWN < run[i].at + QUARANTINE ==>
                  (CoolingUntil(StateAt(g, run, j).keys, x, run[i].at + QUARANTINE)
                   <==> Quarantines(run[last.value], x)))
  {
    hide After, StateAt;
    var x := g.keys[n].apiKey;
    var last := LastPenalty(run, j, x).value;
    var keys := StateAt(g, run, j).keys;
    CredentialsAreSeparate(g, run, j, n);
    LastPenaltyDecides(g.keys[n], run, j);
    RunKeepsDistinct(g, run, j);
    assert CoolingUntil(keys, x, run[i].at + QUARANTINE) <==> keys[n].cooldownUntil >= run[i].at + QUARANTINE;
  }

  /** A credential is handed out again only once its last penalty is over; while the last penalty is a 401, 402 or 403,
      that is 365 days after it. A later 429 alone ends the quarantine early, and a 401, 402 or 403 after that renews
      it. */
  lemma {:induction false} QuarantineHolds(g: GroupView, run: seq<Event>, j: nat, x: string)
    requires Distinct(g.keys) && j < |run| && LastPenalty(run, j, x).Some?
    ensures var p := LastPenalty(run, j, x).value;
            HandedAt(g, run, j) == Some(x) ==>
              && run[j].at >= run[p].at + SHORT_COOLDOWN
              && (Quarantines(run[p], x) ==> run[j].at >= run[p].at + QUARANTINE)
  {
    hide After, StateAt;
    if HandedAt(g, run, j) == Some(x) {
      var s := StateAt(g, run, j);
      RunKeepsDistinct(g, run, j);
      PickIsOutsideCooldown(s.keys, s.lastKey, run[j].at);
      var n :| 0 <= n < |s.keys| && s.keys[n].apiKey == x && s.keys[n].cooldownUntil <= run[j].at;
      if g.keys == [] {
        RunKeepsLength(g, run, j);
      } else {
        CredentialsAreSeparate(g, run, j, 0);
      }
      CredentialsAreSeparate(g, run, j, n);
      LastPenaltyDecides(g.keys[n], run, j);
    }
  }

  lemma {:induction false} RunKeepsLength(g: GroupView, run: seq<Event>, j: nat)
    requires j <= |run|
    ensures |StateAt(g, run, j).keys| == |g.keys|
  {
    if j > 0 {
      RunKeepsLength(g, run, j - 1);
      NextKeepsCredentials(StateAt(g, run, j - 1), run[j - 1]);
    }
  }

  /** Every outcome directly follows the request it answers. */
  ghost predicate Paired(g: GroupView, run: seq<Event>) {
    forall i | 0 <= i < |run| && !run[i].ServeAt? ::
      i > 0 && run[i - 1].ServeAt? && HandedAt(g, run, i - 1) == Some(run[i].apiKey)
  }

  /** When each request is followed by its outcome, a quarantine stands for its whole year. */
  lemma {:induction false} QuarantineHoldsWhenPaired(g: GroupView, run: seq<Event>, i: nat, j: nat, x: string)
    requires Distinct(g.keys) && ClockAdvances(run) && Paired(g, run) && i < j < |run|
    requires Quarantines(run[i], x) && run[j].at < run[i].at + QUARANTINE
    ensures HandedAt(g, run, j) != Some(x)
    decreases j
  {
    hide HandedAt;
    var p := LastPenalty(run, j, x).value;
    if RateLimits(run[p], x) {
      assert run[p - 1].ServeAt? && HandedAt(g, run, p - 1) == Some(x);
      assert p - 1 != i;
      QuarantineHoldsWhenPaired(g, run, i, p - 1, x);
      assert false;
    }
    QuarantineHolds(g, run, j, x);
  }

  /** Pairing is needed: when two requests overlap on one credential, a 429 recorded after a 401 replaces the
      year of quarantine by the short cooldown. */
  lemma OverlapShortensQuarantine(g: GroupView, x: string, t: nat)
    requires g.keys == [KeyState(x, 0, 0)] && g.health == Breakers.HEALTHY
    ensures var run := [ServeAt(t), ServeAt(t), FailAt(x, 401, t), FailAt(x, 429, t), ServeAt(t + SHORT_COOLDOWN)];
            HandedAt(g, run, 4) == Some(x)
  {
    var run := [ServeAt(t), ServeAt(t), FailAt(x, 401, t), FailAt(x, 429, t), ServeAt(t + SHORT_COOLDOWN)];
    var s2 := StateAt(g, run, 2);
    assert StateAt(g, run, 1).keys == g.keys && StateAt(g, run, 1).health == Breakers.HEALTHY;
    assert s2.keys == g.keys && s2.health == Breakers.HEALTHY;
    var s3 := StateAt(g, run, 3);
    assert s3.keys == [KeyState(x, t + QUARANTINE, 0)] && s3.health == Breakers.HEALTHY;
    var s4 := StateAt(g, run, 4);
    assert s4.keys == [KeyState(x, t + SHORT_COOLDOWN, 1)] && s4.health == Breakers.HEALTHY;
    assert Eligible(s4.keys, t + SHORT_COOLDOWN) == [x];
  }

  /** A credential handed out is never inside its cooldown. */
  lemma HandedOutsideCooldown(g: GroupView, run: seq<Event>, j: nat)
    requires Distinct(g.keys) && j < |run| && HandedAt(g, run, j).Some?
    ensures var s := StateAt(g, run, j);
            forall i | 0 <= i < |s.keys| && s.keys[i].apiKey == HandedAt(g, run, j).value ::
              s.keys[i].cooldownUntil <= run[j].at
  {
    RunKeepsDistinct(g, run, j);
    var s := StateAt(g, run, j);
    PickIsOutsideCooldown(s.keys, s.lastKey, run[j].at);
  }

  /** A half-open group serves nobody until a success or a 5xx is recorded. A probe that was answered 429 or any other
      4xx, or that found every credential cooling down, leaves the seat taken. */
  lemma {:induction false} ProbeSeatStaysTaken(g: GroupView, run: seq<Event>, i: nat, j: nat)
    requires i <= j < |run|
    requires StateAt(g, run, i).health.mode == Breakers.HalfOpen && StateAt(g, run, i).health.probes > 0
    requires forall q | i <= q < j :: run[q].ServeAt? || (run[q].FailAt? && !ServerFault(run[q].status))
    ensures StateAt(g, run, j).health == StateAt(g, run, i).health
    ensures run[j].ServeAt? ==> Serve(StateAt(g, run, j), run[j].at).1 == Refused
    decreases j
  {
    if i < j {
      ProbeSeatStaysTaken(g, run, i, j - 1);
    }
  }

  /** The one event after which a half-open group with its seat taken answers again: a success, at once, or a server
      error, from the recovery timeout on. */
  lemma SeatIsFreedIff(g: GroupView, e: Event, at: nat)
    requires g.health.mode == Breakers.HalfOpen && g.health.probes > 0
    ensures Serve(Next(g, e), at).1 != Refused
       <==> e.SucceedAt? || (e.FailAt? && ServerFault(e.status) && at - e.at >= g.policy.recoveryTimeout)
  {
  }

  /** A group with one credential, outside its cooldown and let through by the breaker, hands it out. */
  lemma OnlyCredentialIsHanded(g: GroupView, k: KeyState, at: nat)
    requires g.keys == [k] && k.cooldownUntil <= at && Breakers.Asked(g.policy, g.health, at).1
    ensures Serve(g, at).1 == Handed(k.apiKey)
    ensures var s := Serve(g, at).0;
            s.keys == g.keys && s.policy == g.policy && s.health == Breakers.Asked(g.policy, g.health, at).0
  {
    assert g.keys[..0] == [];
    assert Eligible(g.keys, at) == [] + [k.apiKey];
  }

  lemma OnlyCredentialFails(g: GroupView, k: KeyState, at: nat)
    requires g.keys == [k]
    ensures var s := Fail(g, k.apiKey, 500, at);
            s.keys == g.keys && s.policy == g.policy && s.health == Breakers.Failed(g.policy, g.health, at)
    ensures Fail(g, k.apiKey, 429, at).health == g.health && Fail(g, k.apiKey, 429, at).policy == g.policy
  {
    IndexOfFinds(g.keys, k.apiKey);
    assert g.keys[0 := k] == g.keys;
  }

  /** How a healthy group gets there: its only credential is answered 500, the breaker opens, the probe after the
      recovery timeout is answered 429, and the group refuses every request from then on, however long one waits. */
  lemma HealthyGroupWedges(g: GroupView, x: string, t: nat, u: nat)
    requires g.keys == [KeyState(x, 0, 0)] && g.health == Breakers.HEALTHY
    requires g.policy.failureThreshold <= 1 && g.policy.recoveryTimeout >= 0
    ensures var probe := t + g.policy.recoveryTimeout;
            var run := [ServeAt(t), FailAt(x, 500, t), ServeAt(probe), FailAt(x, 429, probe), ServeAt(u)];
            && HandedAt(g, run, 0) == Some(x) && HandedAt(g, run, 2) == Some(x)
            && Serve(StateAt(g, run, 4), u).1 == Refused
  {
    hide Serve, Fail;
    var probe := t + g.policy.recoveryTimeout;
    var run := [ServeAt(t), FailAt(x, 500, t), ServeAt(probe), FailAt(x, 429, probe), ServeAt(u)];
    var k := KeyState(x, 0, 0);
    assert StateAt(g, run, 0) == g;
    OnlyCredentialIsHanded(g, k, t);
    var s1 := StateAt(g, run, 1);
    assert s1 == Serve(g, t).0;
    OnlyCredentialFails(s1, k, t);
    var s2 := StateAt(g, run, 2);
    assert s2 == Fail(s1, x, 500, t);
    OnlyCredentialIsHanded(s2, k, probe);
    var s3 := StateAt(g, run, 3);
    assert s3 == Serve(s2, probe).0;
    OnlyCredentialFails(s3, k, probe);
    var s4 := StateAt(g, run, 4);
    assert s4 == Fail(s3, x, 429, probe);
    TakenSeatRefuses(s4, u);
  }

  lemma TakenSeatRefuses(g: GroupView, at: nat)
    requires g.health.mode == Breakers.HalfOpen && g.health.probes > 0
    ensures Serve(g, at).1 == Refused
  {
  }
}
