/** The routing table: which group serves a slot of a model, where an outcome is recorded, and the cooldown of a model
    whose attempts keep failing. */
module Routers {
  import opened Prelude
  import opened Groups
  import KeyPools

  datatype Target = Target(slot: string, slug: string, apiBase: string, apiKey: string, model: string)

  datatype Resolution = Resolved(target: Target) | NotFound | CoolingDown(retryAfter: int)

  datatype RouterView = RouterView(
    groups: map<string, seq<GroupView>>,
    failures: map<string, nat>,
    cooldown: map<string, nat>,
    window: nat)

  predicate Answers(g: GroupView, slot: string) { g.slot == slot || g.slug == slot }

  /** The first group that answers to a slot name. */
  function ChooseGroup(gs: seq<GroupView>, slot: string): (r: Option<nat>)
    ensures match r
            case None => forall i | 0 <= i < |gs| :: !Answers(gs[i], slot)
            case Some(i) => i < |gs| && Answers(gs[i], slot) && forall j | 0 <= j < i :: !Answers(gs[j], slot)
  {
    if gs == [] then None
    else if Answers(gs[0], slot) then Some(0)
    else match ChooseGroup(gs[1..], slot) case None => None case Some(i) => Some(i + 1)
  }

  predicate Exact(g: GroupView, t: Target) { g.slot == t.slot && g.slug == t.slug }

  predicate Legacy(g: GroupView, t: Target) { g.slug == t.slug && g.apiBase == t.apiBase }

  function FirstExact(gs: seq<GroupView>, t: Target): (r: Option<nat>)
    ensures match r
            case None => forall i | 0 <= i < |gs| :: !Exact(gs[i], t)
            case Some(i) => i < |gs| && Exact(gs[i], t) && forall j | 0 <= j < i :: !Exact(gs[j], t)
  {
    if gs == [] then None
    else if Exact(gs[0], t) then Some(0)
    else match FirstExact(gs[1..], t) case None => None case Some(i) => Some(i + 1)
  }

  function FirstLegacy(gs: seq<GroupView>, t: Target): (r: Option<nat>)
    ensures match r
            case None => forall i | 0 <= i < |gs| :: !Legacy(gs[i], t)
            case Some(i) => i < |gs| && Legacy(gs[i], t) && forall j | 0 <= j < i :: !Legacy(gs[j], t)
  {
    if gs == [] then None
    else if Legacy(gs[0], t) then Some(0)
    else match FirstLegacy(gs[1..], t) case None => None case Some(i) => Some(i + 1)
  }

  /** The group an outcome is recorded against. */
  function FindGroup(gs: seq<GroupView>, t: Target): (r: Option<nat>)
    ensures r.Some? ==> r.value < |gs|
  {
    match FirstExact(gs, t)
    case Some(i) => Some(i)
    case None => FirstLegacy(gs, t)
  }

  function GroupsOf(v: RouterView, model: string): seq<GroupView> {
    if model in v.groups then v.groups[model] else []
  }

  /** Whether a model is cooling down; an elapsed cooldown is cleared by the question. */
  function Cooling(v: RouterView, model: string, now: nat): (RouterView, bool) {
    if model !in v.cooldown then (v, false)
    else if now < v.cooldown[model] then (v, true)
    else (v.(cooldown := v.cooldown - {model}, failures := v.failures - {model}), false)
  }

  function Resolve(v: RouterView, model: string, slot: string, now: nat): (RouterView, Resolution) {
    var (v1, cooling) := Cooling(v, model, now);
    if cooling then (v1, NotFound)
    else
      var gs := GroupsOf(v1, model);
      match ChooseGroup(gs, slot)
      case None => (v1, NotFound)
      case Some(i) =>
        var (g, answer) := Serve(gs[i], now);
        (v1.(groups := v1.groups[model := gs[i := g]]),
         match answer
         case Refused => NotFound
         case Exhausted(None) => NotFound
         case Exhausted(Some(e)) => CoolingDown(Max(KeyPools.SECOND, e - now))
         case Handed(k) => Resolved(Target(g.slot, g.slug, g.apiBase, k, g.model)))
  }

  function WithGroup(v: RouterView, t: Target, f: GroupView -> GroupView): RouterView {
    var gs := GroupsOf(v, t.model);
    match FindGroup(gs, t)
    case None => v
    case Some(i) => v.(groups := v.groups[t.model := gs[i := f(gs[i])]])
  }

  function RecordSuccess(v: RouterView, t: Target): RouterView {
    WithGroup(v, t, Succeed).(failures := v.failures - {t.model}, cooldown := v.cooldown - {t.model})
  }

  function RecordFailure(v: RouterView, t: Target, status: int, now: nat): RouterView {
    WithGroup(v, t, (g: GroupView) => Fail(g, t.apiKey, status, now))
  }

  function FailuresOf(v: RouterView, model: string): nat {
    if model in v.failures then v.failures[model] else 0
  }

  function RecordModelFailure(v: RouterView, model: string, now: nat): RouterView {
    var n := FailuresOf(v, model) + 1;
    v.(failures := v.failures[model := n],
       cooldown := if n >= 2 then v.cooldown[model := now + v.window] else v.cooldown)
  }

  /** Every group is filed under its own model. */
  ghost predicate Filed(v: RouterView) {
    forall m, i | m in v.groups && 0 <= i < |v.groups[m]| :: v.groups[m][i].model == m
  }

  // ---------- where outcomes land ----------

  /** The outcome of a resolved target lands on the very group that handed out its credential, and on an entry holding
      that credential, even when several groups share a slot or provider name. */
  lemma OutcomeFindsItsGroup(v: RouterView, model: string, slot: string, now: nat)
    requires Filed(v) && Resolve(v, model, slot, now).1.Resolved?
    ensures var (v', r) := Resolve(v, model, slot, now);
            var gs := GroupsOf(v', model);
            && r.target.model == model
            && FindGroup(gs, r.target).Some?
            && FindGroup(gs, r.target) == ChooseGroup(GroupsOf(v, model), slot)
            && KeyPools.IndexOf(gs[FindGroup(gs, r.target).value].keys, r.target.apiKey).Some?
            && gs[FindGroup(gs, r.target).value].lastKey == r.target.apiKey
  {
    var (v', r) := Resolve(v, model, slot, now);
    var gs0 := GroupsOf(v, model);
    var gs := GroupsOf(v', model);
    var i := ChooseGroup(gs0, slot).value;
    var g := gs0[i];
    assert model in v.groups;
    assert gs == gs0[i := Serve(g, now).0];
    assert gs[i].slot == g.slot && gs[i].slug == g.slug;
    forall j | 0 <= j < i ensures !Exact(gs[j], r.target) {
      assert gs[j] == gs0[j] && !Answers(gs0[j], slot);
    }
    assert FindGroup(gs, r.target) == Some(i);
    KeyPools.PickIsOutsideCooldown(g.keys, g.lastKey, now);
    KeyPools.IndexOfFinds(g.keys, r.target.apiKey);
  }

  /** What no operation changes of a group: its names and the credentials it holds. */
  ghost predicate SameGroup(g: GroupView, h: GroupView) {
    && h.slot == g.slot && h.slug == g.slug && h.apiBase == g.apiBase && h.model == g.model
    && |h.keys| == |g.keys| && forall i | 0 <= i < |g.keys| :: h.keys[i].apiKey == g.keys[i].apiKey
  }

  ghost predicate SameGroups(gs: seq<GroupView>, hs: seq<GroupView>) {
    |hs| == |gs| && forall i | 0 <= i < |gs| :: SameGroup(gs[i], hs[i])
  }

  ghost predicate SameShape(v: RouterView, w: RouterView) {
    v.groups.Keys == w.groups.Keys && forall m | m in v.groups :: SameGroups(v.groups[m], w.groups[m])
  }

  datatype RouterEvent =
    | Resolving(model: string, slot: string, at: nat)
    | Succeeding(t: Target)
    | Failing(t: Target, status: int, at: nat)
    | GivingUp(model: string, at: nat)

  function NextRouter(v: RouterView, e: RouterEvent): RouterView {
    match e
    case Resolving(model, slot, at) => Resolve(v, model, slot, at).0
    case Succeeding(t) => RecordSuccess(v, t)
    case Failing(t, status, at) => RecordFailure(v, t, status, at)
    case GivingUp(model, at) => RecordModelFailure(v, model, at)
  }

  function RouterRun(v: RouterView, run: seq<RouterEvent>): RouterView {
    if run == [] then v else NextRouter(RouterRun(v, run[..|run| - 1]), run[|run| - 1])
  }

  lemma GroupKeepsShape(g: GroupView, apiKey: string, status: int, at: nat)
    ensures SameGroup(g, Serve(g, at).0) && SameGroup(g, Succeed(g)) && SameGroup(g, Fail(g, apiKey, status, at))
  {
    ClearFailsLength(g.keys);
    KeyPools.IndexOfFinds(g.keys, apiKey);
  }

  lemma GroupsKeepShape(gs: seq<GroupView>, i: nat, h: GroupView)
    requires i < |gs| && SameGroup(gs[i], h)
    ensures SameGroups(gs, gs[i := h])
  {
  }

  lemma NextKeepsShape(v: RouterView, e: RouterEvent)
    ensures SameShape(v, NextRouter(v, e))
  {
    hide Serve, Succeed, Fail;
    match e
    case Resolving(model, slot, at) =>
      var v1 := Cooling(v, model, at).0;
      var gs := GroupsOf(v1, model);
      var i := ChooseGroup(gs, slot);
      if i.Some? {
        GroupKeepsShape(gs[i.value], "", 0, at);
        GroupsKeepShape(gs, i.value, Serve(gs[i.value], at).0);
      }
    case Succeeding(t) =>
      var gs := GroupsOf(v, t.model);
      var i := FindGroup(gs, t);
      if i.Some? {
        GroupKeepsShape(gs[i.value], "", 0, 0);
        GroupsKeepShape(gs, i.value, Succeed(gs[i.value]));
      }
    case Failing(t, status, at) =>
      var gs := GroupsOf(v, t.model);
      var i := FindGroup(gs, t);
      if i.Some? {
        GroupKeepsShape(gs[i.value], t.apiKey, status, at);
        GroupsKeepShape(gs, i.value, Fail(gs[i.value], t.apiKey, status, at));
      }
    case GivingUp(_, _) =>
  }

  /** No run of resolves and outcomes adds, removes, renames or reorders a group or a credential. */
  lemma {:induction false} RunKeepsShape(v: RouterView, run: seq<RouterEvent>)
    ensures SameShape(v, RouterRun(v, run))
    decreases |run|
  {
    hide NextRouter;
    if run != [] {
      RunKeepsShape(v, run[..|run| - 1]);
      NextKeepsShape(RouterRun(v, run[..|run| - 1]), run[|run| - 1]);
    }
  }

  lemma {:induction false} FoundByShape(gs: seq<GroupView>, hs: seq<GroupView>, t: Target)
    requires SameGroups(gs, hs)
    ensures FindGroup(hs, t) == FindGroup(gs, t)
  {
    hide SameGroup;
    forall i | 0 <= i < |gs| ensures Exact(hs[i], t) == Exact(gs[i], t) && Legacy(hs[i], t) == Legacy(gs[i], t) {
      SameNames(gs[i], hs[i]);
    }
  }

  lemma SameNames(g: GroupView, h: GroupView)
    requires SameGroup(g, h)
    ensures h.slot == g.slot && h.slug == g.slug && h.apiBase == g.apiBase
    ensures forall x :: KeyPools.IndexOf(h.keys, x) == KeyPools.IndexOf(g.keys, x)
  {
    forall x ensures KeyPools.IndexOf(h.keys, x) == KeyPools.IndexOf(g.keys, x) {
      KeyPools.IndexOfFinds(g.keys, x);
      KeyPools.IndexOfFinds(h.keys, x);
    }
  }

  lemma StaysFiled(v: RouterView, run: seq<RouterEvent>)
    requires Filed(v)
    ensures Filed(RouterRun(v, run))
  {
    hide RouterRun;
    RunKeepsShape(v, run);
    var w := RouterRun(v, run);
    forall m, i | m in w.groups && 0 <= i < |w.groups[m]| ensures w.groups[m][i].model == m {
      assert SameGroups(v.groups[m], w.groups[m]);
      assert SameGroup(v.groups[m][i], w.groups[m][i]);
    }
  }

  /** However many resolves and outcomes of any model run in between, the outcome of a resolved target lands on the
      group it was resolved from, and on the entry that held its credential then. */
  lemma {:induction false} OutcomeFindsItsGroupLater(v: RouterView, model: string, slot: string, now: nat,
                                                     run: seq<RouterEvent>)
    requires Filed(v) && Resolve(v, model, slot, now).1.Resolved?
    ensures var (v', r) := Resolve(v, model, slot, now);
            var i := ChooseGroup(GroupsOf(v, model), slot);
            var later := GroupsOf(RouterRun(v', run), model);
            && i.Some? && FindGroup(later, r.target) == i
            && KeyPools.IndexOf(later[i.value].keys, r.target.apiKey).Some?
            && KeyPools.IndexOf(later[i.value].keys, r.target.apiKey)
               == KeyPools.IndexOf(GroupsOf(v', model)[i.value].keys, r.target.apiKey)
  {
    hide Resolve, RouterRun, FindGroup, SameGroup;
    var (v', r) := Resolve(v, model, slot, now);
    OutcomeFindsItsGroup(v, model, slot, now);
    RunKeepsShape(v', run);
    var gs, later := GroupsOf(v', model), GroupsOf(RouterRun(v', run), model);
    FoundByShape(gs, later, r.target);
    SameNames(gs[FindGroup(gs, r.target).value], later[FindGroup(gs, r.target).value]);
  }

  /** At any point of a run, and after any further run, the outcome of a target resolved there lands on the group it was
      resolved from, and on the entry that held its credential then. */
  lemma {:induction false} OutcomeFindsItsGroupInRuns(v: RouterView, past: seq<RouterEvent>, model: string,
                                                      slot: string, now: nat, run: seq<RouterEvent>)
    requires Filed(v) && Resolve(RouterRun(v, past), model, slot, now).1.Resolved?
    ensures var (v', r) := Resolve(RouterRun(v, past), model, slot, now);
            var i := ChooseGroup(GroupsOf(RouterRun(v, past), model), slot);
            var later := GroupsOf(RouterRun(v', run), model);
            && i.Some? && FindGroup(later, r.target) == i
            && KeyPools.IndexOf(later[i.value].keys, r.target.apiKey).Some?
  {
    hide RouterRun, Resolve, FindGroup;
    StaysFiled(v, past);
    OutcomeFindsItsGroupLater(RouterRun(v, past), model, slot, now, run);
  }

  /** A group behind another that answers to the same slot name is never reached through that name. */
  lemma ShadowedGroupNeverServes(v: RouterView, model: string, slot: string, now: nat, i: nat, j: nat)
    requires i < j < |GroupsOf(v, model)| && Answers(GroupsOf(v, model)[i], slot)
    ensures |GroupsOf(Resolve(v, model, slot, now).0, model)| == |GroupsOf(v, model)|
    ensures GroupsOf(Resolve(v, model, slot, now).0, model)[j] == GroupsOf(v, model)[j]
  {
  }

  // ---------- model cooldown ----------

  datatype ModelEvent = Lost(at: nat) | Won(at: nat) | Queried(at: nat)

  /** What one event does to the failure count and cooldown of a model. */
  function NextView(v: RouterView, model: string, e: ModelEvent): RouterView {
    match e
    case Lost(at) => RecordModelFailure(v, model, at)
    case Won(_) => v.(failures := v.failures - {model}, cooldown := v.cooldown - {model})
    case Queried(at) => Cooling(v, model, at).0
  }

  function ViewAt(v: RouterView, model: string, run: seq<ModelEvent>, i: nat): RouterView
    requires i <= |run|
  {
    if i == 0 then v else NextView(ViewAt(v, model, run, i - 1), model, run[i - 1])
  }

  ghost predicate ClockAdvances(run: seq<ModelEvent>) {
    forall i, j | 0 <= i <= j < |run| :: run[i].at <= run[j].at
  }

  lemma {:induction false} WindowNeverChanges(v: RouterView, model: string, run: seq<ModelEvent>, i: nat)
    requires i <= |run|
    ensures ViewAt(v, model, run, i).window == v.window
  {
    if i > 0 {
      WindowNeverChanges(v, model, run, i - 1);
    }
  }

  /** A model is in cooldown only because a failed walk `m` was at least the second in a row: an earlier one `q` came
      before it with no success since, and the cooldown ends exactly one window after the last failed walk. */
  lemma {:induction false} CooldownNeedsTwoLosses(v: RouterView, model: string, run: seq<ModelEvent>, i: nat)
    returns (q: nat, m: nat)
    requires model !in v.failures && model !in v.cooldown && i <= |run|
    requires model in ViewAt(v, model, run, i).cooldown
    ensures q < m < i && run[q].Lost? && run[m].Lost?
    ensures forall k | q <= k < i :: !run[k].Won?
    ensures forall k | m < k < i :: !run[k].Lost?
    ensures ViewAt(v, model, run, i).cooldown[model] == run[m].at + v.window
    ensures FailuresOf(ViewAt(v, model, run, i), model) >= 2
    decreases i
  {
    var w := ViewAt(v, model, run, i - 1);
    WindowNeverChanges(v, model, run, i - 1);
    if run[i - 1].Lost? {
      m := i - 1;
      if model in w.cooldown {
        var _, _ := CooldownNeedsTwoLosses(v, model, run, i - 1);
      }
      q := EarlierLoss(v, model, run, i - 1);
    } else {
      q, m := CooldownNeedsTwoLosses(v, model, run, i - 1);
    }
  }

  /** A non-zero failure count comes from a failed walk with no success since. */
  lemma {:induction false} EarlierLoss(v: RouterView, model: string, run: seq<ModelEvent>, i: nat) returns (q: nat)
    requires model !in v.failures && i <= |run| && FailuresOf(ViewAt(v, model, run, i), model) > 0
    ensures q < i && run[q].Lost? && forall k | q <= k < i :: !run[k].Won?
    decreases i
  {
    if run[i - 1].Lost? {
      q := i - 1;
    } else {
      q := EarlierLoss(v, model, run, i - 1);
    }
  }

  /** A second failed walk in a row keeps the model out for the whole window, until a success is recorded. */
  lemma {:induction false} CooldownLasts(v: RouterView, model: string, run: seq<ModelEvent>, m: nat, j: nat)
    requires ClockAdvances(run) && m < j < |run| && run[m].Lost?
    requires FailuresOf(ViewAt(v, model, run, m), model) >= 1
    requires forall k | m < k < j :: !run[k].Won?
    requires run[j].at < run[m].at + v.window
    ensures Cooling(ViewAt(v, model, run, j), model, run[j].at).1
    ensures forall slot :: Resolve(ViewAt(v, model, run, j), model, slot, run[j].at).1 == NotFound
    decreases j
  {
    hide Serve, ChooseGroup;
    CooldownStays(v, model, run, m, j);
  }

  lemma {:induction false} CooldownStays(v: RouterView, model: string, run: seq<ModelEvent>, m: nat, j: nat)
    requires ClockAdvances(run) && m < j < |run| && run[m].Lost?
    requires FailuresOf(ViewAt(v, model, run, m), model) >= 1
    requires forall k | m < k < j :: !run[k].Won?
    requires run[j].at < run[m].at + v.window
    ensures var w := ViewAt(v, model, run, j);
            model in w.cooldown && w.cooldown[model] >= run[m].at + v.window && FailuresOf(w, model) >= 2
    decreases j
  {
    WindowNeverChanges(v, model, run, j - 1);
    if j > m + 1 {
      CooldownStays(v, model, run, m, j - 1);
    }
  }

  // ---------- the table itself ----------

  /** The abstract value of a list of groups. */
  ghost function ViewsOf(gs: seq<Group>): (r: seq<GroupView>)
    reads gs, set g | g in gs :: g.breaker
    ensures |r| == |gs| && forall i | 0 <= i < |gs| :: r[i] == gs[i].View()
  {
    if gs == [] then [] else [gs[0].View()] + ViewsOf(gs[1..])
  }

  class Router {
    const groups: map<string, seq<Group>>
    const window: nat
    /** Every group and every breaker of the table. */
    ghost const Repr: set<object>
    var modelFailures: map<string, nat>
    var modelCooldown: map<string, nat>

    /** Groups and their breakers are never shared. */
    ghost predicate Valid() {
      && this !in Repr
      && (forall m, i | m in groups && 0 <= i < |groups[m]| :: groups[m][i] in Repr && groups[m][i].breaker in Repr)
      && (forall m, i, n, j | m in groups && n in groups && 0 <= i < |groups[m]| && 0 <= j < |groups[n]|
                              && (m != n || i != j) ::
            groups[m][i] != groups[n][j] && groups[m][i].breaker != groups[n][j].breaker)
    }

    ghost function View(): RouterView
      requires Valid()
      reads this, Repr
    {
      RouterView(map m | m in groups :: ViewsOf(groups[m]), modelFailures, modelCooldown, window)
    }

    /** The view is determined by the views of the groups and the two maps. */
    lemma ViewIs(v: RouterView)
      requires Valid()
      requires v.groups.Keys == groups.Keys && v.window == window
      requires v.failures == modelFailures && v.cooldown == modelCooldown
      requires forall m | m in groups :: |v.groups[m]| == |groups[m]|
      requires forall m, j | m in groups && 0 <= j < |groups[m]| :: groups[m][j].View() == v.groups[m][j]
      ensures View() == v
    {
      forall m | m in groups ensures ViewsOf(groups[m]) == v.groups[m] {
      }
      assert View().groups == v.groups;
    }

    /** When no group but one has another value than before, the view moved in that place only. */
    lemma OneGroupMoved(before: RouterView, model: string, i: nat)
      requires Valid() && model in groups && i < |groups[model]|
      requires before.groups.Keys == groups.Keys && before.window == window
      requires before.failures == modelFailures && before.cooldown == modelCooldown
      requires forall m | m in groups :: |before.groups[m]| == |groups[m]|
      requires forall m, j | m in groups && 0 <= j < |groups[m]| && (m != model || j != i) ::
                 groups[m][j].View() == before.groups[m][j]
      ensures View() == before.(groups := before.groups[model := before.groups[model][i := groups[model][i].View()]])
    {
      hide ViewsOf;
      ViewIs(before.(groups := before.groups[model := before.groups[model][i := groups[model][i].View()]]));
    }

    constructor (groups: map<string, seq<Group>>, window: nat)
      requires forall m, i, n, j | m in groups && n in groups && 0 <= i < |groups[m]| && 0 <= j < |groups[n]|
                                   && (m != n || i != j) ::
                 groups[m][i] != groups[n][j] && groups[m][i].breaker != groups[n][j].breaker
      ensures Valid() && this.groups == groups && this.window == window
      ensures modelFailures == map[] && modelCooldown == map[]
    {
      this.groups, this.window := groups, window;
      Repr := (set m, i | m in groups && 0 <= i < |groups[m]| :: groups[m][i] as object)
            + (set m, i | m in groups && 0 <= i < |groups[m]| :: groups[m][i].breaker as object);
      modelFailures, modelCooldown := map[], map[];
    }

    /** Reports whether the model is inside its cooldown, clearing a cooldown that has elapsed. */
    method IsCoolingDown(model: string, now: nat) returns (r: bool)
      requires Valid()
      modifies this
      ensures (View(), r) == Cooling(old(View()), model, now)
    {
      if model !in modelCooldown {
        return false;
      }
      if now < modelCooldown[model] {
        return true;
      }
      ghost var before := View();
      modelCooldown := modelCooldown - {model};
      modelFailures := modelFailures - {model};
      r := false;
      ViewIs(before.(failures := modelFailures, cooldown := modelCooldown));
    }

    /** Resolves one provider slot of a model to a credential. */
    method ResolveSlot(model: string, slot: string, now: nat) returns (r: Resolution)
      requires Valid()
      modifies this, Repr
      ensures (View(), r) == Resolve(old(View()), model, slot, now)
    {
      hide Serve, ViewsOf, ChooseGroup, Cooling;
      var cooling := IsCoolingDown(model, now);
      if cooling {
        return NotFound;
      }
      var i := GroupFor(model, slot);
      if i.None? {
        return NotFound;
      }
      var answer := ServeFrom(model, i.value, now);
      var g := groups[model][i.value];
      match answer
      case Refused => r := NotFound;
      case Exhausted(None) => r := NotFound;
      case Exhausted(Some(e)) => r := CoolingDown(Max(KeyPools.SECOND, e - now));
      case Handed(k) => r := Resolved(Target(g.slot, g.slug, g.apiBase, k, g.model));
    }

    /** The first group of the model that answers to the slot name. */
    method GroupFor(model: string, slot: string) returns (r: Option<nat>)
      requires Valid()
      ensures r == ChooseGroup(GroupsOf(View(), model), slot)
      ensures r.Some? ==> model in groups && r.value < |groups[model]|
    {
      hide ViewsOf;
      if model !in groups {
        return None;
      }
      var gs := groups[model];
      ghost var views := View().groups[model];
      for i := 0 to |gs|
        invariant forall j | 0 <= j < i :: !Answers(views[j], slot)
      {
        if gs[i].slot == slot || gs[i].slug == slot {
          return Some(i);
        }
      }
      r := None;
    }

    /** Asks one group of the table for a credential. */
    method ServeFrom(model: string, i: nat, now: nat) returns (answer: Answer)
      requires Valid() && model in groups && i < |groups[model]|
      modifies Repr
      ensures modelFailures == old(modelFailures) && modelCooldown == old(modelCooldown)
      ensures var before := old(View());
              var (g, a) := Serve(before.groups[model][i], now);
              answer == a && View() == before.(groups := before.groups[model := before.groups[model][i := g]])
    {
      hide Serve, ViewsOf;
      ghost var before := View();
      answer := AskGroup(groups[model][i], now);
      OneGroupMoved(before, model, i);
    }

    /** The group a target came from. */
    method Find(t: Target) returns (r: Option<nat>)
      requires Valid()
      ensures r == FindGroup(GroupsOf(View(), t.model), t)
    {
      hide ViewsOf;
      if t.model !in groups {
        return None;
      }
      var gs := groups[t.model];
      ghost var views := View().groups[t.model];
      for i := 0 to |gs|
        invariant forall j | 0 <= j < i :: !Exact(views[j], t)
      {
        if gs[i].slot == t.slot && gs[i].slug == t.slug {
          return Some(i);
        }
      }
      // Targets built without a slot are matched by provider and endpoint.
      for i := 0 to |gs|
        invariant forall j | 0 <= j < i :: !Legacy(views[j], t)
      {
        if gs[i].slug == t.slug && gs[i].apiBase == t.apiBase {
          return Some(i);
        }
      }
      r := None;
    }

    /** Credits a success to the group of the target and clears the model's failures. */
    method Success(t: Target)
      requires Valid()
      modifies this, Repr
      ensures View() == RecordSuccess(old(View()), t)
    {
      hide ViewsOf, Succeed;
      CreditGroup(t);
      ghost var before := View();
      modelFailures := modelFailures - {t.model};
      modelCooldown := modelCooldown - {t.model};
      ViewIs(before.(failures := modelFailures, cooldown := modelCooldown));
    }

    method CreditGroup(t: Target)
      requires Valid()
      modifies Repr
      ensures View() == WithGroup(old(View()), t, Succeed)
    {
      hide ViewsOf, Succeed;
      var i := Find(t);
      if i.None? {
        return;
      }
      ghost var before := View();
      groups[t.model][i.value].RecordSuccess();
      OneGroupMoved(before, t.model, i.value);
    }

    /** Penalises the group of the target, and its credential when the group still holds it. */
    method Failure(t: Target, status: int, now: nat)
      requires Valid()
      modifies Repr
      ensures View() == RecordFailure(old(View()), t, status, now)
    {
      hide ViewsOf, Fail;
      var i := Find(t);
      if i.None? {
        return;
      }
      ghost var before := View();
      FailGroup(groups[t.model][i.value], t.apiKey, status, now);
      OneGroupMoved(before, t.model, i.value);
    }

    /** Notes that every attempt for a model failed. */
    method ModelFailure(model: string, now: nat)
      requires Valid()
      modifies this
      ensures View() == RecordModelFailure(old(View()), model, now)
    {
      hide ViewsOf;
      ghost var before := View();
      var n := (if model in modelFailures then modelFailures[model] else 0) + 1;
      modelFailures := modelFailures[model := n];
      if n >= 2 {
        modelCooldown := modelCooldown[model := now + window];
      }
      ViewIs(before.(failures := modelFailures, cooldown := modelCooldown));
    }
  }

  /** Penalises the first entry of a group that holds the credential, or only the group when none does. */
  method FailGroup(g: Group, apiKey: string, status: int, now: nat)
    modifies g`keys, g.breaker
    ensures g.View() == Fail(old(g.View()), apiKey, status, now)
  {
    var index: Option<nat> := None;
    for i := 0 to |g.keys|
      invariant index == None && forall j | 0 <= j < i :: g.keys[j].apiKey != apiKey
    {
      if g.keys[i].apiKey == apiKey {
        index := Some(i);
        break;
      }
    }
    KeyPools.IndexOfFinds(g.keys, apiKey);
    g.RecordFailure(index, status, now);
  }

  /** Asks a group for a credential: its breaker first, then its pool. */
  method AskGroup(g: Group, now: nat) returns (answer: Answer)
    modifies g`lastKey, g.breaker
    ensures (g.View(), answer) == Serve(old(g.View()), now)
  {
    var ok := g.breaker.Allows(now);
    if !ok {
      return Refused;
    }
    var k, earliest := g.PickKey(now);
    answer := if k.Some? then Handed(k.value) else Exhausted(earliest);
  }
}
