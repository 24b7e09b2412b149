/** The credentials of one provider group: rotation, cooldowns and quarantine. Times are nanoseconds since the zero
    time, which stands for "never"; a clock reading is a natural number. */
module KeyPools {
  import opened Prelude
  import Windows

  const SECOND: int := Windows.SECOND
  const SHORT_COOLDOWN: int := 10 * SECOND
  const LONG_COOLDOWN: int := 30 * SECOND
  const QUARANTINE: int := 365 * 24 * 3600 * SECOND

  datatype KeyState = KeyState(apiKey: string, cooldownUntil: nat, fails: nat)

  /** The credentials outside their cooldown, in declared order. */
  function Eligible(keys: seq<KeyState>, now: nat): seq<string> {
    if keys == [] then []
    else
      var last := keys[|keys| - 1];
      Eligible(keys[..|keys| - 1], now) + if last.cooldownUntil > now then [] else [last.apiKey]
  }

  /** The earliest end of a running cooldown. */
  function Earliest(keys: seq<KeyState>, now: nat): Option<nat> {
    if keys == [] then None
    else
      var last := keys[|keys| - 1].cooldownUntil;
      var rest := Earliest(keys[..|keys| - 1], now);
      if last > now && (rest.None? || last < rest.value) then Some(last) else rest
  }

  /** Where rotation resumes: after the first position holding the credential handed out last. */
  function StartIndex(eligible: seq<string>, lastKey: string): (i: nat)
    ensures eligible != [] ==> i < |eligible|
  {
    if lastKey in eligible then Cyclic(FirstIndex(eligible, lastKey) + 1, |eligible|) else 0
  }

  /** A position less than two turns along, brought back into the first. */
  function Cyclic(i: nat, n: nat): nat { if i < n then i else i - n }

  lemma CyclicIsRemainder(i: nat, n: nat)
    requires 0 < n && i <= n
    ensures i % n == Cyclic(i, n)
  {
  }

  function FirstIndex(s: seq<string>, x: string): (i: nat)
    requires x in s
    ensures i < |s| && s[i] == x && x !in s[..i]
  {
    if s[0] == x then 0 else 1 + FirstIndex(s[1..], x)
  }

  /** The credential a pick hands out, if any. */
  function Pick(keys: seq<KeyState>, lastKey: string, now: nat): Option<string> {
    var e := Eligible(keys, now);
    if e == [] then None else Some(e[StartIndex(e, lastKey)])
  }

  /** A credential is eligible exactly when some entry holding it is outside its cooldown. */
  lemma {:induction false} EligibleIff(keys: seq<KeyState>, now: nat, x: string)
    ensures x in Eligible(keys, now)
       <==> exists i :: 0 <= i < |keys| && keys[i].apiKey == x && keys[i].cooldownUntil <= now
  {
    if keys != [] {
      var front := keys[..|keys| - 1];
      EligibleIff(front, now, x);
      if i: nat :| i < |front| && front[i].apiKey == x && front[i].cooldownUntil <= now {
        assert keys[i].apiKey == x;
      }
    }
  }

  /** No credential is listed twice. */
  ghost predicate Distinct(keys: seq<KeyState>) {
    forall i, j | 0 <= i < j < |keys| :: keys[i].apiKey != keys[j].apiKey
  }

  /** A credential handed out is outside its cooldown; with distinct credentials that is its only entry. */
  lemma PickIsOutsideCooldown(keys: seq<KeyState>, lastKey: string, now: nat)
    requires Pick(keys, lastKey, now).Some?
    ensures exists i :: 0 <= i < |keys| && keys[i].apiKey == Pick(keys, lastKey, now).value
                        && keys[i].cooldownUntil <= now
    ensures Distinct(keys) ==> forall i | 0 <= i < |keys| && keys[i].apiKey == Pick(keys, lastKey, now).value ::
              keys[i].cooldownUntil <= now
  {
    EligibleIff(keys, now, Pick(keys, lastKey, now).value);
  }

  lemma {:induction false} NoneEligibleIff(keys: seq<KeyState>, now: nat)
    ensures Eligible(keys, now) == [] <==> forall i | 0 <= i < |keys| :: keys[i].cooldownUntil > now
  {
    if keys != [] {
      var front := keys[..|keys| - 1];
      assert keys == front + [keys[|keys| - 1]];
      NoneEligibleIff(front, now);
    }
  }

  lemma {:induction false} EarliestIsLeast(keys: seq<KeyState>, now: nat)
    ensures match Earliest(keys, now)
            case None => forall i | 0 <= i < |keys| :: keys[i].cooldownUntil <= now
            case Some(e) =>
              && e > now
              && (exists i :: 0 <= i < |keys| && keys[i].cooldownUntil == e)
              && (forall i | 0 <= i < |keys| && keys[i].cooldownUntil > now :: e <= keys[i].cooldownUntil)
  {
    if keys != [] {
      var front := keys[..|keys| - 1];
      assert keys == front + [keys[|keys| - 1]];
      EarliestIsLeast(front, now);
    }
  }

  /** A pick fails exactly when every credential is cooling down, and then names the earliest end of a cooldown. */
  lemma PickFailsIff(keys: seq<KeyState>, lastKey: string, now: nat)
    ensures Pick(keys, lastKey, now).None? <==> forall i | 0 <= i < |keys| :: keys[i].cooldownUntil > now
    ensures Pick(keys, lastKey, now).None? && keys != [] ==>
              && Earliest(keys, now).Some?
              && (exists i :: 0 <= i < |keys| && keys[i].cooldownUntil == Earliest(keys, now).value)
              && (forall i | 0 <= i < |keys| :: now < Earliest(keys, now).value <= keys[i].cooldownUntil)
  {
    NoneEligibleIff(keys, now);
    EarliestIsLeast(keys, now);
  }

  /** Waiting the hint of a cooldown error, with no new failure, makes the next pick succeed. */
  lemma CooldownHintSuffices(keys: seq<KeyState>, lastKey: string, now: nat, later: nat)
    requires Pick(keys, lastKey, now).None? && Earliest(keys, now).Some?
    requires later >= now + Windows.HintSeconds(Max(SECOND, Earliest(keys, now).value - now)) * SECOND
    ensures Pick(keys, lastKey, later).Some?
  {
    hide Eligible, StartIndex, Earliest, Pick;
    var e := Earliest(keys, now).value;
    Windows.HintOutlastsDelay(Max(SECOND, e - now));
    PickFailsIff(keys, lastKey, now);
    PickFailsIff(keys, lastKey, later);
    EarliestIsLeast(keys, now);
    var i: nat :| i < |keys| && keys[i].cooldownUntil == e;
    assert keys[i].cooldownUntil <= later;
  }

  // ---------- fairness ----------

  /** The credentials handed out by `n` picks in a row while the eligible set does not change. */
  function Picks(eligible: seq<string>, lastKey: string, n: nat): seq<string>
    requires eligible != []
    decreases n
  {
    if n == 0 then []
    else
      var k := eligible[StartIndex(eligible, lastKey)];
      [k] + Picks(eligible, k, n - 1)
  }

  ghost predicate NoRepeats(s: seq<string>) {
    forall i, j | 0 <= i < j < |s| :: s[i] != s[j]
  }

  lemma FirstIndexOfElement(s: seq<string>, i: nat)
    requires NoRepeats(s) && i < |s|
    ensures s[i] in s && FirstIndex(s, s[i]) == i
    ensures StartIndex(s, s[i]) == Cyclic(i + 1, |s|)
  {
    var f := FirstIndex(s, s[i]);
    assert s[f] == s[i];
  }

  /** Rotation walks the eligible credentials cyclically. */
  lemma {:induction false} PicksAreCyclic(eligible: seq<string>, lastKey: string, n: nat, j: nat)
    requires eligible != [] && NoRepeats(eligible) && j < n && j < |eligible|
    ensures |Picks(eligible, lastKey, n)| == n
    ensures Picks(eligible, lastKey, n)[j] == eligible[Cyclic(StartIndex(eligible, lastKey) + j, |eligible|)]
    decreases n
  {
    hide StartIndex, FirstIndex, NoRepeats;
    var start := StartIndex(eligible, lastKey);
    var k := eligible[start];
    FirstIndexOfElement(eligible, start);
    if n > 1 {
      PicksAreCyclic(eligible, k, n - 1, if j > 0 then j - 1 else 0);
    }
  }

  /** One whole turn hands out every eligible credential once and ends where it began. */
  lemma OneTurn(eligible: seq<string>, lastKey: string)
    requires eligible != [] && NoRepeats(eligible)
    ensures var n := |eligible|;
            var start := StartIndex(eligible, lastKey);
            && Picks(eligible, lastKey, n) == eligible[start..] + eligible[..start]
            && StartIndex(eligible, Picks(eligible, lastKey, n)[n - 1]) == start
  {
    hide StartIndex, FirstIndex, NoRepeats, Picks;
    var n := |eligible|;
    var start := StartIndex(eligible, lastKey);
    var turn := Picks(eligible, lastKey, n);
    PicksAreCyclic(eligible, lastKey, n, n - 1);
    forall j | 0 <= j < n ensures turn[j] == (eligible[start..] + eligible[..start])[j] {
      PicksAreCyclic(eligible, lastKey, n, j);
    }
    FirstIndexOfElement(eligible, Cyclic(start + n - 1, n));
  }

  lemma {:induction false} PicksSplit(eligible: seq<string>, lastKey: string, a: nat, b: nat)
    requires eligible != [] && a > 0
    ensures |Picks(eligible, lastKey, a)| == a
    ensures Picks(eligible, lastKey, a + b)
         == Picks(eligible, lastKey, a) + Picks(eligible, Picks(eligible, lastKey, a)[a - 1], b)
    decreases a
  {
    var k := eligible[StartIndex(eligible, lastKey)];
    if a > 1 {
      PicksSplit(eligible, k, a - 1, b);
      assert Picks(eligible, lastKey, a)[a - 1] == Picks(eligible, k, a - 1)[a - 2];
    } else {
      assert Picks(eligible, k, 0) == [];
    }
  }

  lemma RotationCount(s: seq<string>, i: nat, x: string)
    requires NoRepeats(s) && i <= |s| && x in s
    ensures multiset(s[i..] + s[..i])[x] == 1
  {
    assert s == s[..i] + s[i..];
    CountOfMember(s, x);
  }

  /** The number of picks in `k` turns over `n` credentials. */
  function Turns(k: nat, n: nat): nat { if k == 0 then 0 else n + Turns(k - 1, n) }

  lemma {:induction false} TurnsMultiply(k: nat, n: nat)
    ensures Turns(k, n) == k * n
  {
    if k > 0 {
      TurnsMultiply(k - 1, n);
    }
  }

  lemma {:induction false} TurnsAreFair(eligible: seq<string>, lastKey: string, k: nat, x: string)
    requires eligible != [] && NoRepeats(eligible) && x in eligible
    ensures multiset(Picks(eligible, lastKey, Turns(k, |eligible|)))[x] == k
    decreases k
  {
    hide StartIndex, NoRepeats, Picks;
    var n := |eligible|;
    if k == 0 {
      NoPicks(eligible, lastKey);
    } else {
      var turn := Picks(eligible, lastKey, n);
      OneTurn(eligible, lastKey);
      PicksSplit(eligible, lastKey, n, Turns(k - 1, n));
      RotationCount(eligible, StartIndex(eligible, lastKey), x);
      TurnsAreFair(eligible, turn[n - 1], k - 1, x);
    }
  }

  lemma NoPicks(eligible: seq<string>, lastKey: string)
    requires eligible != []
    ensures Picks(eligible, lastKey, 0) == []
  {
  }

  /** While n distinct credentials stay eligible, any k*n picks in a row hand out each of them exactly k times,
      whatever was handed out before. */
  lemma RotationIsFair(eligible: seq<string>, lastKey: string, k: nat, x: string)
    requires eligible != [] && NoRepeats(eligible) && x in eligible
    ensures multiset(Picks(eligible, lastKey, k * |eligible|))[x] == k
  {
    TurnsMultiply(k, |eligible|);
    TurnsAreFair(eligible, lastKey, k, x);
  }

  lemma {:induction false} CountOfMember(s: seq<string>, x: string)
    requires NoRepeats(s)
    ensures multiset(s)[x] == if x in s then 1 else 0
  {
    if s != [] {
      assert s == [s[0]] + s[1..];
      CountOfMember(s[1..], x);
    }
  }

  /** The credentials handed out by picks at the given times. */
  function PicksAt(keys: seq<KeyState>, lastKey: string, times: seq<nat>): seq<Option<string>>
    decreases |times|
  {
    if times == [] then []
    else
      var k := Pick(keys, lastKey, times[0]);
      [k] + PicksAt(keys, if k.Some? then k.value else lastKey, times[1..])
  }

  /** With no cooldown starting or ending between the first pick and the last, picks follow the rotation. */
  lemma {:induction false} PicksAtRotate(keys: seq<KeyState>, lastKey: string, times: seq<nat>, eligible: seq<string>)
    requires eligible != []
    requires forall t | t in times :: Eligible(keys, t) == eligible
    ensures |PicksAt(keys, lastKey, times)| == |times| == |Picks(eligible, lastKey, |times|)|
    ensures forall i | 0 <= i < |times| ::
              PicksAt(keys, lastKey, times)[i] == Some(Picks(eligible, lastKey, |times|)[i])
    decreases |times|
  {
    hide StartIndex, Eligible, FirstIndex;
    if times != [] {
      PicksAtRotate(keys, Pick(keys, lastKey, times[0]).value, times[1..], eligible);
    }
  }

  // ---------- outcomes ----------

  /** The cooldown a failure with this status starts, or none. */
  function Penalised(k: KeyState, status: int, now: nat): KeyState {
    if status == 429 then
      k.(cooldownUntil := now + if k.fails >= 3 then LONG_COOLDOWN else SHORT_COOLDOWN, fails := k.fails + 1)
    else if status == 401 || status == 402 || status == 403 then k.(cooldownUntil := now + QUARANTINE)
    else k
  }

  /** A credential after rate limits at these times, with no success between them. */
  function RateLimited(k: KeyState, times: seq<nat>): KeyState
    decreases |times|
  {
    if times == [] then k
    else Penalised(RateLimited(k, times[..|times| - 1]), 429, times[|times| - 1])
  }

  /** The first three rate limits in a row cost ten seconds each, every further one thirty. */
  lemma {:induction false} BackoffHardens(k: KeyState, times: seq<nat>)
    requires k.fails == 0 && times != []
    ensures var r := RateLimited(k, times);
            && r.apiKey == k.apiKey
            && r.fails == |times|
            && r.cooldownUntil == times[|times| - 1] + (if |times| <= 3 then 10 else 30) * SECOND
    decreases |times|
  {
    if |times| > 1 {
      BackoffHardens(k, times[..|times| - 1]);
    } else {
      assert times[..0] == [];
    }
  }

  /** The first entry holding a credential. */
  function IndexOf(keys: seq<KeyState>, x: string): (r: Option<nat>)
    ensures r.Some? ==> r.value < |keys|
  {
    if keys == [] then None
    else if keys[0].apiKey == x then Some(0)
    else match IndexOf(keys[1..], x) case None => None case Some(i) => Some(i + 1)
  }

  lemma {:induction false} IndexOfFinds(keys: seq<KeyState>, x: string)
    ensures match IndexOf(keys, x)
            case None => forall i | 0 <= i < |keys| :: keys[i].apiKey != x
            case Some(i) => i < |keys| && keys[i].apiKey == x && forall j | 0 <= j < i :: keys[j].apiKey != x
  {
    if keys != [] {
      IndexOfFinds(keys[1..], x);
    }
  }
}
