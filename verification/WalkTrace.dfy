/** What a walk leaves behind on the counters, exactly: which slots keep a charge nobody was served for, when a failed
    walk leaves no trace, and what a served one leaves. */
module WalkTraces {
  import opened Prelude
  import opened Slots
  import opened Errors
  import opened Cells
  import opened LimiterRuns
  import opened Walks
  import Windows

  predicate Keeps(outcome: Outcome) { outcome.Lost? && outcome.exit.Kept? }

  /** A call was made on the slot, and the resolve for the next try failed. */
  predicate LeftMidway(plan: Plan, run: SlotRun) {
    run.contacts != [] && run.meter.resolves > 0 && !plan.env.resolve(run.meter.resolves - 1).Resolved?
  }

  /** Nothing can be left midway: no slot is tried twice, or no resolve fails. */
  ghost predicate NeverMidway(plan: Plan, slots: seq<Slot>) {
    (forall s | s in slots :: MaxTries(plan, s) == 1) || (forall n: nat :: plan.env.resolve(n).Resolved?)
  }

  lemma KeptIffLeftMidway(plan: Plan, req: Request, slot: Slot, m: Counters, meter: Meter)
    ensures var run := Attempt(plan, req, slot, m, meter);
            && (Keeps(run.outcome) <==> LeftMidway(plan, run))
            && (Keeps(run.outcome) ==> MaxTries(plan, slot) > 1)
  {
    hide Attempt, MaxTries;
    SlotIsOrderly(plan, req, slot, m, meter);
  }

  /** Every visit of a walk keeps its charge unserved exactly when it was left midway. */
  lemma {:induction false} KeptVisits(plan: Plan, req: Request, slots: seq<Slot>, m: Counters, meter: Meter)
    ensures var visits := Walk(plan, req, slots, m, meter).visits;
            && |visits| <= |slots|
            && (forall i | 0 <= i < |visits| :: Keeps(visits[i].outcome) <==> LeftMidway(plan, visits[i]))
            && (forall i | 0 <= i < |visits| && LeftMidway(plan, visits[i]) :: MaxTries(plan, slots[i]) > 1)
    decreases |slots|
  {
    hide Attempt, MaxTries, Stops, LeftMidway, Keeps;
    if slots != [] && !Spent(plan, meter) {
      var run := Attempt(plan, req, slots[0], m, meter);
      KeptIffLeftMidway(plan, req, slots[0], m, meter);
      if !Stops(run.outcome) {
        KeptVisits(plan, req, slots[1..], run.m, run.meter);
      }
    }
  }

  /** A caller can rule the kept charges out beforehand. */
  lemma NeverMidwayKeepsNothing(plan: Plan, req: Request, slots: seq<Slot>, m: Counters, meter: Meter)
    requires NeverMidway(plan, slots)
    ensures var visits := Walk(plan, req, slots, m, meter).visits;
            forall i | 0 <= i < |visits| :: !LeftMidway(plan, visits[i]) && !Keeps(visits[i].outcome)
  {
    hide Walk, MaxTries;
    KeptVisits(plan, req, slots, m, meter);
    var visits := Walk(plan, req, slots, m, meter).visits;
    forall i | 0 <= i < |visits| ensures !LeftMidway(plan, visits[i]) {
      assert slots[i] in slots;
    }
  }

  // ---------- walks that fail ----------

  /** What a lost slot still counts at time `to`: its kept charge, while the window is in the bucket of the charge. */
  function KeptCharge(outcome: Outcome, k: Key, to: int): nat {
    if Keeps(outcome) && outcome.exit.res.id == k.id && OneBucket(k.window, outcome.exit.res.at, to)
    then Charged(outcome.exit.res.limits, outcome.exit.res.c, k.window)
    else 0
  }

  function KeptCharges(visits: seq<SlotRun>, k: Key, to: int): nat {
    if visits == [] then 0 else KeptCharge(visits[0].outcome, k, to) + KeptCharges(visits[1..], k, to)
  }

  ghost predicate AllLost(visits: seq<SlotRun>) {
    forall i | 0 <= i < |visits| :: visits[i].outcome.Lost?
  }

  lemma LossCounts(req: Request, slot: Slot, m: Counters, from: int, mid: int, to: int, outcome: Outcome, k: Key)
    requires Timely(m, from) && from <= mid <= to && outcome.Lost?
    requires Sound(req, slot, m, from, mid, outcome)
    ensures Reading(Effect(m, outcome), k, to) == Reading(m, k, to) + KeptCharge(outcome, k, to)
  {
    hide Windows.Label, Reserve, Reading, Charged;
    if Keeps(outcome) {
      var res := outcome.exit.res;
      LaterReading(m, k, from, res.at);
      LaterReading(m, k, res.at, to);
      ReserveAllOrNothing(m, res.id, res.limits, res.c, res.at);
      LaterReading(Holding(m, res), k, res.at, to);
    }
  }

  lemma {:induction false} LossesAddUp(req: Request, slots: seq<Slot>, m: Counters, from: int, end: int, to: int,
                                       visits: seq<SlotRun>, k: Key)
    requires Timely(m, from) && from <= end <= to && AllLost(visits)
    requires SoundWalk(req, slots, m, from, end, visits)
    ensures Reading(EffectOf(m, visits), k, to) == Reading(m, k, to) + KeptCharges(visits, k, to)
    decreases |visits|
  {
    hide Windows.Label, Effect, Reading, KeptCharge, Sound;
    if visits != [] {
      var m1 := Effect(m, visits[0].outcome);
      var mid :| from <= mid <= end && Sound(req, slots[0], m, from, mid, visits[0].outcome) && Timely(m1, mid)
                 && SoundWalk(req, slots[1..], m1, mid, end, visits[1..]);
      LossCounts(req, slots[0], m, from, mid, to, visits[0].outcome, k);
      assert AllLost(visits[1..]);
      LossesAddUp(req, slots[1..], m1, mid, end, to, visits[1..], k);
    }
  }

  /** The walk produced no response. */
  predicate Fails(visits: seq<SlotRun>) { visits == [] || visits[|visits| - 1].outcome.Lost? }

  /** After a failed walk, and in whatever buckets it ran, every reading is what it was plus the charges of the slots
      left midway that are still in their buckets. */
  lemma {:induction false} FailedWalkLedger(plan: Plan, req: Request, slots: seq<Slot>, m: Counters, meter: Meter,
                                            k: Key)
    requires ClockAdvances(plan.env) && Timely(m, Now(plan, meter))
    requires Fails(Walk(plan, req, slots, m, meter).visits)
    ensures var visits := Walk(plan, req, slots, m, meter).visits;
            var to := Now(plan, EndMeter(meter, visits));
            && Timely(EndCounters(m, visits), to) && Timely(m, to)
            && Reading(EndCounters(m, visits), k, to) == Reading(m, k, to) + KeptCharges(visits, k, to)
  {
    hide Windows.Label, Walk, Reading, SoundWalk;
    var visits := Walk(plan, req, slots, m, meter).visits;
    var from, to := Now(plan, meter), Now(plan, EndMeter(meter, visits));
    SameStoreAlike(m, from, from);
    WalkAccounting(plan, req, slots, m, m, meter);
    WalkIsOrderly(plan, req, slots, m, meter);
    assert AllLost(visits);
    SameStoreAlike(m, from, to);
    LossesAddUp(req, slots, m, from, to, to, visits, k);
  }

  lemma {:induction false} NothingKeptIff(visits: seq<SlotRun>, k: Key, to: int)
    ensures KeptCharges(visits, k, to) == 0 <==>
            forall i | 0 <= i < |visits| :: KeptCharge(visits[i].outcome, k, to) == 0
    decreases |visits|
  {
    hide KeptCharge;
    if visits != [] {
      NothingKeptIff(visits[1..], k, to);
      assert forall i | 0 < i < |visits| :: visits[i] == visits[1..][i - 1];
    }
  }

  /** The visit was left midway and at `to` still counts something for it. */
  ghost predicate StillCounts(plan: Plan, run: SlotRun, to: int) {
    LeftMidway(plan, run) && Keeps(run.outcome)
    && exists w: Windows.Window :: KeptCharge(run.outcome, Key(run.outcome.exit.res.id, w), to) > 0
  }

  lemma StillCountsIff(plan: Plan, run: SlotRun, to: int)
    requires Keeps(run.outcome) ==> LeftMidway(plan, run)
    ensures StillCounts(plan, run, to) <==> exists k :: KeptCharge(run.outcome, k, to) > 0
  {
    hide Windows.Label, Charged;
    if k :| KeptCharge(run.outcome, k, to) > 0 {
      assert KeptCharge(run.outcome, Key(run.outcome.exit.res.id, k.window), to) > 0;
    }
  }

  /** A failed walk changes no reading at all exactly when no slot was left midway with a charge that still counts. */
  lemma {:induction false} FailedWalkLeavesNoTraceIff(plan: Plan, req: Request, slots: seq<Slot>, m: Counters,
                                                      meter: Meter)
    requires ClockAdvances(plan.env) && Timely(m, Now(plan, meter))
    requires Fails(Walk(plan, req, slots, m, meter).visits)
    ensures var visits := Walk(plan, req, slots, m, meter).visits;
            var to := Now(plan, EndMeter(meter, visits));
            Alike(m, EndCounters(m, visits), to) <==> forall i | 0 <= i < |visits| :: !StillCounts(plan, visits[i], to)
  {
    hide Windows.Label, Walk, Reading, KeptCharge, StillCounts, LeftMidway, Keeps, MaxTries;
    var visits := Walk(plan, req, slots, m, meter).visits;
    var to := Now(plan, EndMeter(meter, visits));
    KeptVisits(plan, req, slots, m, meter);
    forall i | 0 <= i < |visits|
      ensures StillCounts(plan, visits[i], to) <==> exists k :: KeptCharge(visits[i].outcome, k, to) > 0
    {
      StillCountsIff(plan, visits[i], to);
    }
    forall k
      ensures Timely(EndCounters(m, visits), to) && Timely(m, to)
      ensures Reading(EndCounters(m, visits), k, to) == Reading(m, k, to)
         <==> forall i | 0 <= i < |visits| :: KeptCharge(visits[i].outcome, k, to) == 0
    {
      FailedWalkLedger(plan, req, slots, m, meter, k);
      NothingKeptIff(visits, k, to);
    }
    FailedWalkLedger(plan, req, slots, m, meter, Key(CellId("", "", "", LevelModel), Windows.RPM));
    if i :| 0 <= i < |visits| && StillCounts(plan, visits[i], to) {
      var k :| KeptCharge(visits[i].outcome, k, to) > 0;
      assert Reading(EndCounters(m, visits), k, to) != Reading(m, k, to);
    } else {
      forall k ensures Reading(EndCounters(m, visits), k, to) == Reading(m, k, to) {
        assert forall i | 0 <= i < |visits| :: KeptCharge(visits[i].outcome, k, to) == 0;
      }
    }
  }

  // ---------- walks in general ----------

  lemma {:induction false} NothingContributedIff(visits: seq<SlotRun>, k: Key)
    ensures Contributions(visits, k) == 0 <==> forall i | 0 <= i < |visits| :: Contribution(visits[i].outcome, k) == 0
    decreases |visits|
  {
    hide Contribution;
    if visits != [] {
      NothingContributedIff(visits[1..], k);
      assert forall i | 0 < i < |visits| :: visits[i] == visits[1..][i - 1];
    }
  }

  lemma {:induction false} ContributionsSplit(visits: seq<SlotRun>, k: Key)
    requires visits != []
    ensures Contributions(visits, k)
         == Contributions(visits[..|visits| - 1], k) + Contribution(visits[|visits| - 1].outcome, k)
    decreases |visits|
  {
    hide Contribution;
    if |visits| == 1 {
      assert visits[1..] == [] && visits[..0] == [];
    } else {
      ContributionsSplit(visits[1..], k);
      assert visits[1..][..|visits| - 2] == visits[..|visits| - 1][1..];
    }
  }

  /** In one bucket of a window: a walk leaves the count of a constrained cell alone exactly when no visit contributes
      to it, and leaves exactly the last visit's contribution exactly when no earlier visit, all of them lost, was left
      midway with a charge on the cell. */
  lemma {:induction false} WalkTraceIff(plan: Plan, req: Request, slots: seq<Slot>, m: Counters, meter: Meter, k: Key)
    requires ClockAdvances(plan.env) && Timely(m, Now(plan, meter))
    requires ConstrainedBy(req, slots, k) && WalkInBucket(plan, req, slots, m, meter, k.window)
    ensures var visits := Walk(plan, req, slots, m, meter).visits;
            var to := Now(plan, EndMeter(meter, visits));
            var rise := Reading(EndCounters(m, visits), k, to) - Reading(m, k, to);
            && (rise == 0 <==> forall i | 0 <= i < |visits| :: Contribution(visits[i].outcome, k) == 0)
            && (visits != [] ==>
                  (rise == Contribution(visits[|visits| - 1].outcome, k)
                   <==> forall i | 0 <= i < |visits| - 1 ::
                          LeftMidway(plan, visits[i]) ==> Contribution(visits[i].outcome, k) == 0))
  {
    hide Windows.Label, Walk, Reading, Contribution, MaxTries, LeftMidway, WalkInBucket;
    WalkLedger(plan, req, slots, m, meter, k);
    var visits := Walk(plan, req, slots, m, meter).visits;
    NothingContributedIff(visits, k);
    if visits != [] {
      var n := |visits| - 1;
      ContributionsSplit(visits, k);
      NothingContributedIff(visits[..n], k);
      KeptVisits(plan, req, slots, m, meter);
      WalkIsOrderly(plan, req, slots, m, meter);
      forall i | 0 <= i < n && !LeftMidway(plan, visits[i]) ensures Contribution(visits[i].outcome, k) == 0 {
        LostContributesNothing(visits[i].outcome, k);
      }
    }
  }

  lemma LostContributesNothing(outcome: Outcome, k: Key)
    requires outcome.Lost? && !Keeps(outcome)
    ensures Contribution(outcome, k) == 0
  {
  }

  // ---------- when nothing can be left midway ----------

  lemma {:induction false} LostWithoutTrace(m: Counters, visits: seq<SlotRun>)
    requires forall i | 0 <= i < |visits| :: visits[i].outcome.Lost? && !visits[i].outcome.exit.Kept?
    ensures EffectOf(m, visits) == m
    decreases |visits|
  {
    if visits != [] {
      LostWithoutTrace(m, visits[1..]);
    }
  }

  lemma {:induction false} OnlyTheLastCounts(m: Counters, visits: seq<SlotRun>)
    requires visits != []
    requires forall i | 0 <= i < |visits| - 1 :: visits[i].outcome.Lost? && !visits[i].outcome.exit.Kept?
    ensures EffectOf(m, visits) == Effect(m, visits[|visits| - 1].outcome)
    decreases |visits|
  {
    if |visits| > 1 {
      OnlyTheLastCounts(m, visits[1..]);
    } else {
      assert visits[1..] == [];
    }
  }

  /** When no slot is tried twice, or no resolve fails, a walk that fails changes no reading at all, and a walk that
      succeeds changes what the one serving slot was charged and nothing else, in whatever buckets it ran. */
  lemma {:induction false} DispatchAccounting(plan: Plan, req: Request, slots: seq<Slot>, m: Counters, meter: Meter)
    requires ClockAdvances(plan.env) && Timely(m, Now(plan, meter)) && NeverMidway(plan, slots)
    ensures var visits := Walk(plan, req, slots, m, meter).visits;
            var to := Now(plan, EndMeter(meter, visits));
            if Fails(visits) then Alike(m, EndCounters(m, visits), to)
            else Alike(Effect(m, visits[|visits| - 1].outcome), EndCounters(m, visits), to)
  {
    hide Walk, Effect, Reading, Windows.Label, SoundWalk, Alike, LeftMidway, MaxTries, NeverMidway;
    var visits := Walk(plan, req, slots, m, meter).visits;
    NeverMidwayKeepsNothing(plan, req, slots, m, meter);
    SameStoreAlike(m, Now(plan, meter), Now(plan, meter));
    WalkAccounting(plan, req, slots, m, m, meter);
    WalkIsOrderly(plan, req, slots, m, meter);
    if Fails(visits) {
      LostWithoutTrace(m, visits);
    } else {
      OnlyTheLastCounts(m, visits);
    }
  }
}
