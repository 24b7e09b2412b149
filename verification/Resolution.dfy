/** What resolving a slot answers, read off the tables, and how long a model whose walks keep failing is withheld. */
module Resolutions {
  import opened Prelude
  import opened Groups
  import opened Routers
  import opened KeyPools
  import opened Breakers

  /** A cooldown of the model is running. */
  predicate ModelRests(v: RouterView, model: string, now: nat) {
    model in v.cooldown && now < v.cooldown[model]
  }

  /** Group `i` is the first of the model under this slot or provider name. */
  ghost predicate FirstNamed(v: RouterView, model: string, slot: string, i: nat) {
    && model in v.groups && i < |v.groups[model]|
    && (v.groups[model][i].slot == slot || v.groups[model][i].slug == slot)
    && forall j | 0 <= j < i :: v.groups[model][j].slot != slot && v.groups[model][j].slug != slot
  }

  /** The breaker lets a request through: closed, open for at least the recovery time, or half-open with a free seat. */
  predicate LetsThrough(g: GroupView, now: nat) {
    match g.health.mode
    case Closed => true
    case Open => now - g.health.openedAt >= g.policy.recoveryTimeout
    case HalfOpen => g.health.probes <= 0
  }

  predicate Free(k: KeyState, now: nat) { k.cooldownUntil <= now }

  /** The hint: the time until the first credential is free, and at least a second. */
  ghost predicate IsHint(keys: seq<KeyState>, now: nat, d: int) {
    && d >= 1_000_000_000
    && (exists i :: 0 <= i < |keys| && Free(keys[i], now + d))
    && (d > 1_000_000_000 ==> forall i | 0 <= i < |keys| :: !Free(keys[i], now + d - 1))
  }

  /** What the first group under the name answers. */
  ghost predicate AnswersAs(g: GroupView, now: nat, r: Resolution) {
    if !LetsThrough(g, now) || g.keys == [] then r == NotFound
    else if exists i :: 0 <= i < |g.keys| && Free(g.keys[i], now) then
      && r.Resolved?
      && r.target == Target(g.slot, g.slug, g.apiBase, r.target.apiKey, g.model)
      && exists i :: 0 <= i < |g.keys| && Free(g.keys[i], now) && g.keys[i].apiKey == r.target.apiKey
    else r.CoolingDown? && IsHint(g.keys, now, r.retryAfter)
  }

  lemma ServesAs(g: GroupView, now: nat)
    ensures var answer := Serve(g, now).1;
            AnswersAs(g, now,
                      match answer
                      case Refused => NotFound
                      case Exhausted(None) => NotFound
                      case Exhausted(Some(e)) => CoolingDown(Max(SECOND, e - now))
                      case Handed(k) => Resolved(Target(g.slot, g.slug, g.apiBase, k, g.model)))
    ensures var g' := Serve(g, now).0;
            g'.slot == g.slot && g'.slug == g.slug && g'.apiBase == g.apiBase && g'.model == g.model
  {
    PickFailsIff(g.keys, g.lastKey, now);
    EarliestIsLeast(g.keys, now);
    if Pick(g.keys, g.lastKey, now).Some? {
      PickIsOutsideCooldown(g.keys, g.lastKey, now);
    }
  }

  /** Nothing is found while the model rests or when no group has the name; else the first group under the name
      answers: a credential that is free together with that group's endpoint, the time until one is free, or nothing
      when its breaker or an empty pool stands in the way. */
  lemma ResolvesAs(v: RouterView, model: string, slot: string, now: nat)
    ensures var r := Resolve(v, model, slot, now).1;
            && (ModelRests(v, model, now) ==> r == NotFound)
            && ((forall i: nat :: !FirstNamed(v, model, slot, i)) ==> r == NotFound)
            && (!ModelRests(v, model, now) ==>
                  forall i: nat | FirstNamed(v, model, slot, i) :: AnswersAs(v.groups[model][i], now, r))
  {
    hide Serve, AnswersAs;
    if !ModelRests(v, model, now) {
      var gs := GroupsOf(v, model);
      var chosen := ChooseGroup(gs, slot);
      if chosen.Some? {
        assert FirstNamed(v, model, slot, chosen.value);
        ServesAs(gs[chosen.value], now);
      }
      forall i: nat | FirstNamed(v, model, slot, i) ensures chosen == Some(i) {
        assert Answers(gs[i], slot);
      }
    }
  }

  /** So a slot resolves exactly when its model is not resting, some group has its name, the breaker of the first such
      group lets requests through, and one of that group's credentials is free. */
  lemma ResolvedIff(v: RouterView, model: string, slot: string, now: nat)
    ensures Resolve(v, model, slot, now).1.Resolved?
       <==> && !ModelRests(v, model, now)
            && exists i: nat ::
                 && FirstNamed(v, model, slot, i) && LetsThrough(v.groups[model][i], now)
                 && exists j :: 0 <= j < |v.groups[model][i].keys| && Free(v.groups[model][i].keys[j], now)
  {
    hide Resolve;
    ResolvesAs(v, model, slot, now);
  }

  // ---------- a resting model ----------

  /** The event concerns the model's cooldown and comes no earlier than `at`, or does not concern it. A success of the
      model ends the cooldown. */
  predicate LeavesResting(e: RouterEvent, model: string, at: nat, until: nat) {
    match e
    case Resolving(m, _, t) => m == model ==> t < until
    case Succeeding(t) => t.model != model
    case Failing(_, _, _) => true
    case GivingUp(m, t) => m == model ==> at <= t
  }

  lemma RestsOn(v: RouterView, e: RouterEvent, model: string, at: nat, until: nat)
    requires model in v.cooldown && v.cooldown[model] >= until && until <= at + v.window
    requires FailuresOf(v, model) >= 2 && LeavesResting(e, model, at, until)
    ensures var w := NextRouter(v, e);
            && w.window == v.window && FailuresOf(w, model) >= 2
            && model in w.cooldown && w.cooldown[model] >= until
  {
    hide Serve, Succeed, Fail, FindGroup, ChooseGroup;
  }

  lemma {:induction false} RestsThroughout(v: RouterView, run: seq<RouterEvent>, model: string, at: nat, until: nat)
    requires model in v.cooldown && v.cooldown[model] >= until && until <= at + v.window
    requires FailuresOf(v, model) >= 2 && forall e | e in run :: LeavesResting(e, model, at, until)
    ensures var w := RouterRun(v, run);
            && w.window == v.window && FailuresOf(w, model) >= 2
            && model in w.cooldown && w.cooldown[model] >= until
    decreases |run|
  {
    hide NextRouter, LeavesResting;
    if run != [] {
      RestsThroughout(v, run[..|run| - 1], model, at, until);
      RestsOn(RouterRun(v, run[..|run| - 1]), run[|run| - 1], model, at, until);
    }
  }

  lemma {:induction false} WindowStays(v: RouterView, run: seq<RouterEvent>)
    ensures RouterRun(v, run).window == v.window
    decreases |run|
  {
    hide Serve, Succeed, Fail, FindGroup, ChooseGroup;
    if run != [] {
      WindowStays(v, run[..|run| - 1]);
    }
  }

  lemma {:induction false} RunAppend(v: RouterView, a: seq<RouterEvent>, b: seq<RouterEvent>)
    ensures RouterRun(v, a + b) == RouterRun(RouterRun(v, a), b)
    decreases |b|
  {
    hide NextRouter;
    if b == [] {
      assert a + b == a;
    } else {
      assert (a + b)[..|a + b| - 1] == a + b[..|b| - 1];
      RunAppend(v, a, b[..|b| - 1]);
    }
  }

  /** Once a model has failed a second walk in a row, every resolve of it answers that nothing was found until the
      window is over, whatever else is resolved or recorded meanwhile, unless one of its calls succeeds. */
  lemma {:induction false} RestingModelIsNotFound(v: RouterView, past: seq<RouterEvent>, at: nat,
                                                  run: seq<RouterEvent>, model: string, slot: string, now: nat)
    requires FailuresOf(RouterRun(v, past), model) >= 1
    requires now < at + v.window && forall e | e in run :: LeavesResting(e, model, at, at + v.window)
    ensures Resolve(RouterRun(v, past + [GivingUp(model, at)] + run), model, slot, now).1 == NotFound
  {
    hide Resolve, LeavesResting;
    var w := RouterRun(v, past);
    RunAppend(v, past + [GivingUp(model, at)], run);
    RunAppend(v, past, [GivingUp(model, at)]);
    assert [GivingUp(model, at)][..0] == [];
    WindowStays(v, past);
    var rested := RecordModelFailure(w, model, at);
    assert RouterRun(w, [GivingUp(model, at)]) == rested;
    RestsThroughout(rested, run, model, at, at + v.window);
    var end := RouterRun(rested, run);
    assert ModelRests(end, model, now);
    ResolvesAs(end, model, slot, now);
  }

  /** And after it is over, asking again starts afresh: the slot resolves as if the model had never failed. */
  lemma RestIsOver(v: RouterView, model: string, slot: string, now: nat)
    requires model in v.cooldown && v.cooldown[model] <= now
    ensures var clean := v.(cooldown := v.cooldown - {model}, failures := v.failures - {model});
            Resolve(v, model, slot, now) == Resolve(clean, model, slot, now)
  {
    hide Serve, ChooseGroup;
  }

  // ---------- where outcomes go ----------

  /** An outcome belongs to the first group with its slot and provider, or, when there is none, to the first with its
      provider and endpoint. */
  ghost predicate BelongsTo(gs: seq<GroupView>, t: Target, i: nat) {
    && i < |gs|
    && if exists j :: 0 <= j < |gs| && gs[j].slot == t.slot && gs[j].slug == t.slug then
         && gs[i].slot == t.slot && gs[i].slug == t.slug
         && forall j | 0 <= j < i :: gs[j].slot != t.slot || gs[j].slug != t.slug
       else
         && gs[i].slug == t.slug && gs[i].apiBase == t.apiBase
         && forall j | 0 <= j < i :: gs[j].slug != t.slug || gs[j].apiBase != t.apiBase
  }

  lemma FoundIffBelongs(gs: seq<GroupView>, t: Target, i: nat)
    ensures FindGroup(gs, t) == Some(i) <==> BelongsTo(gs, t, i)
  {
    var exact, legacy := FirstExact(gs, t), FirstLegacy(gs, t);
    hide FirstExact, FirstLegacy;
    if exact.Some? {
      assert Exact(gs[exact.value], t);
      assert BelongsTo(gs, t, i) ==> Exact(gs[i], t);
    } else {
      assert forall j | 0 <= j < |gs| :: !Exact(gs[j], t);
      assert BelongsTo(gs, t, i) ==> Legacy(gs[i], t);
      if legacy.Some? {
        assert Legacy(gs[legacy.value], t);
      }
    }
  }

  /** Groups of the model other than the one the outcome belongs to, and all of other models, stay as they are. */
  ghost predicate OnlyItsGroup(v: RouterView, w: RouterView, t: Target, f: GroupView -> GroupView) {
    && w.groups.Keys == v.groups.Keys && w.window == v.window
    && forall m, j | m in v.groups && 0 <= j < |v.groups[m]| ::
         && |w.groups[m]| == |v.groups[m]|
         && w.groups[m][j] == if m == t.model && BelongsTo(v.groups[m], t, j) then f(v.groups[m][j]) else v.groups[m][j]
  }

  lemma OnlyItsGroupMoves(v: RouterView, t: Target, f: GroupView -> GroupView)
    ensures OnlyItsGroup(v, WithGroup(v, t, f), t, f)
    ensures WithGroup(v, t, f).failures == v.failures && WithGroup(v, t, f).cooldown == v.cooldown
  {
    hide FindGroup, BelongsTo;
    var w := WithGroup(v, t, f);
    forall m, j | m in v.groups && 0 <= j < |v.groups[m]|
      ensures |w.groups[m]| == |v.groups[m]|
      ensures w.groups[m][j] == if m == t.model && BelongsTo(v.groups[m], t, j) then f(v.groups[m][j])
                                else v.groups[m][j]
    {
      FoundIffBelongs(v.groups[m], t, j);
    }
  }

  /** A success credits its group and clears failures and cooldown of its model; a failure blames its group; a failed
      walk counts one more failure of its model and from the second on starts its cooldown; nothing else moves. */
  lemma OutcomesInTables(v: RouterView, t: Target, status: int, model: string, now: nat)
    ensures var won := RecordSuccess(v, t);
            && OnlyItsGroup(v, won, t, Succeed)
            && won.failures == v.failures - {t.model} && won.cooldown == v.cooldown - {t.model}
    ensures var failed := RecordFailure(v, t, status, now);
            && OnlyItsGroup(v, failed, t, g => Fail(g, t.apiKey, status, now))
            && failed.failures == v.failures && failed.cooldown == v.cooldown
    ensures var lost := RecordModelFailure(v, model, now);
            var before := if model in v.failures then v.failures[model] else 0;
            && lost.failures == v.failures[model := before + 1]
            && lost.cooldown == (if before >= 1 then v.cooldown[model := now + v.window] else v.cooldown)
            && lost.groups == v.groups && lost.window == v.window
  {
    hide Succeed, Fail, FindGroup;
    OnlyItsGroupMoves(v, t, Succeed);
    OnlyItsGroupMoves(v, t, (g: GroupView) => Fail(g, t.apiKey, status, now));
  }
}
