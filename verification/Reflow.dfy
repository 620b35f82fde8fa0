/**
 The reward floor: after the main loop, up to five passes drop every pick whose
 projected reward is under its floor and hand the recovered stake to the others
 with the same greedy loop.
 */
module Reflow {
  import opened Sums
  import opened Reward
  import opened Greedy
  import opened IterationBound

  const REFLOW_PASSES: nat := 5

  /** Gas per allocation and the 28-day reward floor for new allocations, both in wei. */
  datatype Floors = Floors(gas: nat, minRewards28d: nat) {
    function GasFloorAnnual(): nat { gas * 2 }

    function MinRewardsAnnual(): nat { (minRewards28d * 365) / 28 }

    function Threshold(p: Pick): nat {
      if 0 < p.currentAllocation then GasFloorAnnual()
      else if GasFloorAnnual() > MinRewardsAnnual() then GasFloorAnnual()
      else MinRewardsAnnual()
    }

    /**
     The two floors, as a claim about the projected annual reward: twice the gas for every
     pick, and the annualized 28-day reward for a deployment that has no allocation yet.
     */
    predicate Met(p: Pick, A: nat) {
      var q := ProjectedReward(p.R, p.D, A);
      && 2 * gas <= q
      && (p.currentAllocation == 0 ==> (minRewards28d * 365) / 28 <= q)
    }
  }

  predicate Falls(pr: Problem, f: Floors, s: State, i: nat)
    requires i < |pr.picks| && Shaped(pr, s)
  {
    var p := pr.picks[i];
    !s.rejected[i] && s.alloc[i] != 0 && ProjectedReward(p.R, p.D, s.alloc[i]) < f.Threshold(p)
  }

  /** A pick falls exactly when it is open and misses a floor. */
  lemma FallsIff(pr: Problem, f: Floors, s: State, i: nat)
    requires i < |pr.picks| && Shaped(pr, s)
    ensures Falls(pr, f, s, i) <==> !s.rejected[i] && 0 < s.alloc[i] && !f.Met(pr.picks[i], s.alloc[i])
  {
  }

  predicate AnyFalls(pr: Problem, f: Floors, s: State)
    requires Shaped(pr, s)
  {
    exists i: nat | i < |pr.picks| :: Falls(pr, f, s, i)
  }

  /** What each pick loses in the pass. */
  function Dropped(pr: Problem, f: Floors, s: State): (d: seq<nat>)
    requires Shaped(pr, s)
    ensures |d| == |pr.picks|
  {
    seq(|pr.picks|, i requires 0 <= i < |pr.picks| => if Falls(pr, f, s, i) then s.alloc[i] else 0)
  }

  /** The recovered stake becomes the new budget; what the loop before could not place stays idle. */
  function Drop(pr: Problem, f: Floors, s: State): (d: State)
    requires Shaped(pr, s)
    ensures Shaped(pr, d)
  {
    var n := |pr.picks|;
    State(
      seq(n, i requires 0 <= i < n => if Falls(pr, f, s, i) then 0 else s.alloc[i]),
      s.prev,
      seq(n, i requires 0 <= i < n => s.rejected[i] || Falls(pr, f, s, i)),
      s.slotsUsed,
      Sum(Dropped(pr, f, s)),
      s.idle + s.budget)
  }

  function ReflowPasses(pr: Problem, f: Floors, s: State, passes: nat): (t: State)
    requires pr.Valid() && Shaped(pr, s)
    ensures Shaped(pr, t)
    decreases passes
  {
    if passes == 0 || !AnyFalls(pr, f, s) then s
    else ReflowPasses(pr, f, Run(pr, Drop(pr, f, s), pr.MaxIters()), passes - 1)
  }

  /** The whole plan: main loop, then the reflow passes. */
  function Plan(pr: Problem, f: Floors, budget: nat): (t: State)
    requires pr.Valid()
    ensures Shaped(pr, t)
  {
    ReflowPasses(pr, f, Run(pr, Start(pr, budget), pr.MaxIters()), REFLOW_PASSES)
  }

  ghost predicate FloorMet(pr: Problem, f: Floors, s: State)
    requires Shaped(pr, s)
  {
    forall i: nat :: i < |pr.picks| && 0 < s.alloc[i] ==> f.Met(pr.picks[i], s.alloc[i])
  }

  // ---------------------------------------------------------------------------
  // What a drop keeps
  // ---------------------------------------------------------------------------

  lemma DropSafe(pr: Problem, f: Floors, s: State)
    requires pr.Valid() && Safe(pr, s)
    ensures Safe(pr, Drop(pr, f, s))
    ensures Total(Drop(pr, f, s)) == Total(s)
    ensures Drop(pr, f, s).budget <= Sum(s.alloc)
  {
    var d := Drop(pr, f, s);
    SumAdd(d.alloc, Dropped(pr, f, s), s.alloc);
    assert Occupied(pr, d) == Occupied(pr, s);
    forall i: nat | i < |pr.picks| ensures PickSafe(pr, d, i) {
      assert PickSafe(pr, s, i);
    }
  }

  lemma DropEquilibrium(pr: Problem, f: Floors, s: State)
    requires pr.Valid() && Shaped(pr, s) && Equilibrium(pr, s)
    ensures Equilibrium(pr, Drop(pr, f, s))
  {
    var d := Drop(pr, f, s);
    forall i: nat, j: nat | i < |pr.picks| && j < |pr.picks| && 0 < d.alloc[i] && Eligible(pr, d, j)
      ensures MarginalAt(pr, j, d.alloc[j]) <= MarginalAt(pr, i, d.prev[i])
    {
      assert Eligible(pr, s, j);
    }
  }

  /** A pass with something to drop recovers a positive budget and adds a rejection. */
  lemma DropRejects(pr: Problem, f: Floors, s: State)
    requires Shaped(pr, s) && AnyFalls(pr, f, s)
    ensures Count(s.rejected) + 1 <= Count(Drop(pr, f, s).rejected)
    ensures 0 < Drop(pr, f, s).budget
  {
    var i: nat :| i < |pr.picks| && Falls(pr, f, s, i);
    CountStrict(s.rejected, Drop(pr, f, s).rejected, i);
    SumElement(Dropped(pr, f, s), i);
  }

  /** After a drop everybody still open clears the floor. */
  lemma DropMeetsFloor(pr: Problem, f: Floors, s: State)
    requires Safe(pr, s)
    ensures FloorMet(pr, f, Drop(pr, f, s))
  {
    forall i: nat | i < |pr.picks| && 0 < Drop(pr, f, s).alloc[i]
      ensures f.Met(pr.picks[i], Drop(pr, f, s).alloc[i])
    {
      assert PickSafe(pr, s, i);
    }
  }

  // ---------------------------------------------------------------------------
  // The whole run
  // ---------------------------------------------------------------------------

  lemma {:induction false} PassesSafe(pr: Problem, f: Floors, s: State, passes: nat)
    requires pr.Valid() && Safe(pr, s)
    ensures Safe(pr, ReflowPasses(pr, f, s, passes))
    ensures Total(ReflowPasses(pr, f, s, passes)) == Total(s)
    decreases passes
  {
    hide Run, Count, Sum;
    if passes != 0 && AnyFalls(pr, f, s) {
      var d := Drop(pr, f, s);
      DropSafe(pr, f, s);
      RunSafe(pr, d, pr.MaxIters());
      PassesSafe(pr, f, Run(pr, d, pr.MaxIters()), passes - 1);
    }
  }

  lemma {:induction false} PassesEquilibrium(pr: Problem, f: Floors, s: State, passes: nat)
    requires pr.Valid() && pr.SentinelsDominate() && Shaped(pr, s) && Equilibrium(pr, s)
    ensures Equilibrium(pr, ReflowPasses(pr, f, s, passes))
    decreases passes
  {
    if passes != 0 && AnyFalls(pr, f, s) {
      var d := Drop(pr, f, s);
      DropEquilibrium(pr, f, s);
      RunEquilibrium(pr, d, pr.MaxIters());
      PassesEquilibrium(pr, f, Run(pr, d, pr.MaxIters()), passes - 1);
    }
  }

  lemma StartSafe(pr: Problem, budget: nat)
    requires pr.Valid() && Count(pr.preSeated) <= pr.remainingSlots
    ensures Safe(pr, Start(pr, budget))
    ensures Equilibrium(pr, Start(pr, budget))
    ensures Total(Start(pr, budget)) == budget
  {
    var s := Start(pr, budget);
    assert Occupied(pr, s) == pr.preSeated;
    SumZero(s.alloc);
  }

  lemma PlanIsSafe(pr: Problem, f: Floors, budget: nat)
    requires pr.Valid() && Count(pr.preSeated) <= pr.remainingSlots
    ensures Safe(pr, Plan(pr, f, budget)) && Total(Plan(pr, f, budget)) == budget
  {
    StartSafe(pr, budget);
    RunSafe(pr, Start(pr, budget), pr.MaxIters());
    PassesSafe(pr, f, Run(pr, Start(pr, budget), pr.MaxIters()), REFLOW_PASSES);
  }

  /**
   Safety of the whole plan: stake is conserved, caps and slots hold, a rejected pick
   stays closed, and a pick nobody else is on never holds more than one chunk.
   */
  lemma PlanSafe(pr: Problem, f: Floors, budget: nat)
    requires pr.Valid() && Count(pr.preSeated) <= pr.remainingSlots
    ensures var t := Plan(pr, f, budget);
      && Sum(t.alloc) + t.budget + t.idle == budget
      && (forall i :: 0 <= i < |pr.picks| ==> t.alloc[i] <= pr.picks[i].cap)
      && (forall i :: 0 <= i < |pr.picks| && t.rejected[i] ==> t.alloc[i] == 0)
      && (forall i :: 0 <= i < |pr.picks| && pr.picks[i].D == 0 ==> t.alloc[i] <= pr.chunk)
      && Count(Opened(t)) <= t.slotsUsed <= pr.remainingSlots
  {
    PlanIsSafe(pr, f, budget);
    OpenFitsSlots(pr, Plan(pr, f, budget));
    SafePicks(pr, Plan(pr, f, budget));
  }

  lemma SafePicks(pr: Problem, s: State)
    requires Safe(pr, s)
    ensures forall i :: 0 <= i < |pr.picks| ==>
      && s.alloc[i] <= pr.picks[i].cap
      && (s.rejected[i] ==> s.alloc[i] == 0)
      && (pr.picks[i].D == 0 ==> s.alloc[i] <= pr.chunk)
  {
    forall i | 0 <= i < |pr.picks|
      ensures s.alloc[i] <= pr.picks[i].cap
      ensures s.rejected[i] ==> s.alloc[i] == 0
      ensures pr.picks[i].D == 0 ==> s.alloc[i] <= pr.chunk
    {
      assert PickSafe(pr, s, i);
    }
  }

  /** The equilibrium survives pre-seating, the main loop and every reflow pass. */
  lemma PlanEquilibrium(pr: Problem, f: Floors, budget: nat)
    requires pr.Valid() && pr.SentinelsDominate() && Count(pr.preSeated) <= pr.remainingSlots
    ensures Equilibrium(pr, Plan(pr, f, budget))
  {
    StartSafe(pr, budget);
    RunEquilibrium(pr, Start(pr, budget), pr.MaxIters());
    PassesEquilibrium(pr, f, Run(pr, Start(pr, budget), pr.MaxIters()), REFLOW_PASSES);
  }

  /** Every greedy loop of the remaining passes ends before its iteration limit. */
  ghost predicate LoopsEnd(pr: Problem, f: Floors, s: State, passes: nat)
    requires pr.Valid() && Shaped(pr, s)
    decreases passes
  {
    passes == 0 || !AnyFalls(pr, f, s) ||
    var t := Run(pr, Drop(pr, f, s), pr.MaxIters());
    Done(pr, t) && LoopsEnd(pr, f, t, passes - 1)
  }

  lemma {:induction false} PassesEnd(pr: Problem, f: Floors, s: State, passes: nat)
    requires pr.Valid() && Safe(pr, s) && Done(pr, s)
    requires Total(s) <= 1002 * pr.chunk + |pr.picks| - 1
    ensures LoopsEnd(pr, f, s, passes)
    ensures Done(pr, ReflowPasses(pr, f, s, passes))
    decreases passes
  {
    if passes != 0 && AnyFalls(pr, f, s) {
      var d := Drop(pr, f, s);
      DropSafe(pr, f, s);
      RunSafe(pr, d, pr.MaxIters());
      RunEnds(pr, d);
      PassesEnd(pr, f, Run(pr, d, pr.MaxIters()), passes - 1);
    }
  }

  /** For less than 1000 wei, or from 10^6 wei on, no loop of the whole plan is cut off. */
  lemma PlanLoopsEnd(pr: Problem, f: Floors, budget: nat)
    requires pr.Valid() && Count(pr.preSeated) <= pr.remainingSlots
    requires 0 < |pr.picks| && pr.chunk == ChunkSize(budget)
    requires budget < 1000 || 1_000_000 <= budget
    ensures var m := Run(pr, Start(pr, budget), pr.MaxIters());
      && Done(pr, m)
      && LoopsEnd(pr, f, m, REFLOW_PASSES)
      && Done(pr, Plan(pr, f, budget))
  {
    UsualBudgetsFit(budget, budget, |pr.picks|);
    StartSafe(pr, budget);
    RunSafe(pr, Start(pr, budget), pr.MaxIters());
    RunEnds(pr, Start(pr, budget));
    PassesEnd(pr, f, Run(pr, Start(pr, budget), pr.MaxIters()), REFLOW_PASSES);
  }

  /** No loop of any plan with n picks and this budget is cut off. */
  ghost predicate AllLoopsEnd(n: nat, budget: nat) {
    forall pr: Problem, f: Floors ::
      pr.Valid() && |pr.picks| == n && pr.chunk == ChunkSize(budget) && Count(pr.preSeated) <= pr.remainingSlots ==>
        PlanEnds(pr, f, budget)
  }

  /** The main loop and every reflow loop end by themselves. */
  ghost predicate PlanEnds(pr: Problem, f: Floors, budget: nat)
    requires pr.Valid()
  {
    var m := Run(pr, Start(pr, budget), pr.MaxIters());
    Done(pr, m) && LoopsEnd(pr, f, m, REFLOW_PASSES)
  }

  /** The bound of the main loop is the exact bound of the whole plan. */
  lemma PlanLoopsEndIff(n: nat, budget: nat)
    requires 0 < n && 0 < budget
    ensures AllLoopsEnd(n, budget) <==> budget <= 1002 * ChunkSize(budget) + n - 1
  {
    hide Run, LoopsEnd, Count;
    if budget <= 1002 * ChunkSize(budget) + n - 1 {
      forall pr: Problem, f: Floors |
        pr.Valid() && |pr.picks| == n && pr.chunk == ChunkSize(budget) && Count(pr.preSeated) <= pr.remainingSlots
        ensures PlanEnds(pr, f, budget)
      {
        StartSafe(pr, budget);
        RunSafe(pr, Start(pr, budget), pr.MaxIters());
        RunEnds(pr, Start(pr, budget));
        PassesEnd(pr, f, Run(pr, Start(pr, budget), pr.MaxIters()), REFLOW_PASSES);
      }
    } else {
      SlowIsCutOff(n, budget);
      assert !PlanEnds(SlowProblem(n, budget), Floors(0, 0), budget);
    }
  }

  // ---------------------------------------------------------------------------
  // The floor at exit
  // ---------------------------------------------------------------------------

  /** t came out of a reflow that followed a drop of d, and only a pick d had never opened is short. */
  ghost predicate OnlyLastOpenedShort(pr: Problem, f: Floors, d: State, t: State)
    requires pr.Valid() && Shaped(pr, d) && Shaped(pr, t)
  {
    && t == Run(pr, Drop(pr, f, d), pr.MaxIters())
    && forall i: nat :: i < |pr.picks| && 0 < t.alloc[i] && !f.Met(pr.picks[i], t.alloc[i]) ==>
         d.alloc[i] == 0 && !d.rejected[i]
  }

  lemma PassLeavesOnlyNewShort(pr: Problem, f: Floors, d: State)
    requires pr.Valid() && Safe(pr, d)
    ensures OnlyLastOpenedShort(pr, f, d, Run(pr, Drop(pr, f, d), pr.MaxIters()))
  {
    var m := Drop(pr, f, d);
    var t := Run(pr, m, pr.MaxIters());
    DropSafe(pr, f, d);
    DropMeetsFloor(pr, f, d);
    RunGrows(pr, m, pr.MaxIters());
    forall i: nat | i < |pr.picks| && 0 < t.alloc[i] && !f.Met(pr.picks[i], t.alloc[i])
      ensures d.alloc[i] == 0 && !d.rejected[i]
    {
      var p := pr.picks[i];
      ProjectedRewardMono(p.R, p.D, m.alloc[i], t.alloc[i]);
      assert PickSafe(pr, m, i);
    }
  }

  /** Either the floor holds, or every pass dropped somebody and only the last reflow's openings fall short. */
  lemma {:induction false} PassesFloor(pr: Problem, f: Floors, s: State, passes: nat) returns (d: State)
    requires pr.Valid() && Safe(pr, s) && 0 < passes
    ensures Shaped(pr, d)
    ensures var t := ReflowPasses(pr, f, s, passes);
      || FloorMet(pr, f, t)
      || (OnlyLastOpenedShort(pr, f, d, t) && Count(s.rejected) + passes <= Count(t.rejected))
    decreases passes
  {
    d := s;
    if AnyFalls(pr, f, s) {
      var m := Drop(pr, f, s);
      var t := Run(pr, m, pr.MaxIters());
      DropSafe(pr, f, s);
      DropRejects(pr, f, s);
      RunSafe(pr, m, pr.MaxIters());
      RunGrows(pr, m, pr.MaxIters());
      if passes == 1 {
        PassLeavesOnlyNewShort(pr, f, s);
      } else {
        d := PassesFloor(pr, f, t, passes - 1);
      }
    } else {
      forall i: nat | i < |pr.picks| && 0 < s.alloc[i] ensures f.Met(pr.picks[i], s.alloc[i]) {
        assert PickSafe(pr, s, i) && !Falls(pr, f, s, i);
      }
    }
  }

  /** What the plan guarantees about the floor, on every input. */
  lemma PlanFloor(pr: Problem, f: Floors, budget: nat) returns (d: State)
    requires pr.Valid() && Count(pr.preSeated) <= pr.remainingSlots
    ensures Shaped(pr, d)
    ensures var t := Plan(pr, f, budget);
      || FloorMet(pr, f, t)
      || (OnlyLastOpenedShort(pr, f, d, t) && 5 <= Count(t.rejected) < |pr.picks|)
  {
    StartSafe(pr, budget);
    var m := Run(pr, Start(pr, budget), pr.MaxIters());
    RunSafe(pr, Start(pr, budget), pr.MaxIters());
    d := PassesFloor(pr, f, m, REFLOW_PASSES);
    var t := Plan(pr, f, budget);
    PassesSafe(pr, f, m, REFLOW_PASSES);
    if !FloorMet(pr, f, t) {
      var i: nat :| i < |pr.picks| && 0 < t.alloc[i] && !f.Met(pr.picks[i], t.alloc[i]);
      assert PickSafe(pr, t, i);
      CountAll(t.rejected);
    }
  }

  // ---------------------------------------------------------------------------
  // What the passes leave of an allocation
  // ---------------------------------------------------------------------------

  /** An allocation that meets its floor only grows from then on. */
  lemma {:induction false} PassesKeep(pr: Problem, f: Floors, s: State, passes: nat, i: nat)
    requires pr.Valid() && Safe(pr, s) && i < |pr.picks|
    requires 0 < s.alloc[i] && f.Met(pr.picks[i], s.alloc[i])
    ensures s.alloc[i] <= ReflowPasses(pr, f, s, passes).alloc[i]
    decreases passes
  {
    hide Run, Count, Sum, ProjectedReward;
    if passes != 0 && AnyFalls(pr, f, s) {
      var d := Drop(pr, f, s);
      var t := Run(pr, d, pr.MaxIters());
      DropSafe(pr, f, s);
      RunSafe(pr, d, pr.MaxIters());
      RunGrows(pr, d, pr.MaxIters());
      assert d.alloc[i] == s.alloc[i];
      ProjectedRewardMono(pr.picks[i].R, pr.picks[i].D, s.alloc[i], t.alloc[i]);
      PassesKeep(pr, f, t, passes - 1, i);
    }
  }

  /** A rejected pick stays closed. */
  lemma {:induction false} PassesReject(pr: Problem, f: Floors, s: State, passes: nat, i: nat)
    requires pr.Valid() && Shaped(pr, s) && i < |pr.picks|
    requires s.rejected[i] && s.alloc[i] == 0
    ensures ReflowPasses(pr, f, s, passes).alloc[i] == 0
    decreases passes
  {
    hide Run;
    if passes != 0 && AnyFalls(pr, f, s) {
      var d := Drop(pr, f, s);
      RunGrows(pr, d, pr.MaxIters());
      PassesReject(pr, f, Run(pr, d, pr.MaxIters()), passes - 1, i);
    }
  }

  /** A closed pick without a slot stays closed, because slots are never given back. */
  lemma {:induction false} PassesStayClosed(pr: Problem, f: Floors, s: State, passes: nat, i: nat)
    requires pr.Valid() && Shaped(pr, s) && i < |pr.picks|
    requires s.alloc[i] == 0 && !pr.preSeated[i] && pr.remainingSlots <= s.slotsUsed
    ensures ReflowPasses(pr, f, s, passes).alloc[i] == 0
    decreases passes
  {
    hide Run;
    if passes != 0 && AnyFalls(pr, f, s) {
      var d := Drop(pr, f, s);
      StaysClosed(pr, d, i, pr.MaxIters());
      RunGrows(pr, d, pr.MaxIters());
      PassesStayClosed(pr, f, Run(pr, d, pr.MaxIters()), passes - 1, i);
    }
  }

  /**
   What the main loop gives a pick, the finished plan keeps if and only if the projected
   reward met the floor when the main loop ended; otherwise the pick ends with nothing.
   */
  lemma PlanKeepsIff(pr: Problem, f: Floors, budget: nat, i: nat)
    requires pr.Valid() && Count(pr.preSeated) <= pr.remainingSlots && i < |pr.picks|
    requires 0 < Run(pr, Start(pr, budget), pr.MaxIters()).alloc[i]
    ensures var (m, t) := (Run(pr, Start(pr, budget), pr.MaxIters()), Plan(pr, f, budget));
      && (m.alloc[i] <= t.alloc[i] <==> f.Met(pr.picks[i], m.alloc[i]))
      && (0 < t.alloc[i] <==> f.Met(pr.picks[i], m.alloc[i]))
  {
    hide Run, Count, Sum, ProjectedReward;
    StartSafe(pr, budget);
    var m := Run(pr, Start(pr, budget), pr.MaxIters());
    RunSafe(pr, Start(pr, budget), pr.MaxIters());
    if f.Met(pr.picks[i], m.alloc[i]) {
      PassesKeep(pr, f, m, REFLOW_PASSES, i);
    } else {
      assert PickSafe(pr, m, i);
      assert Falls(pr, f, m, i);
      var d := Drop(pr, f, m);
      RunGrows(pr, d, pr.MaxIters());
      PassesReject(pr, f, Run(pr, d, pr.MaxIters()), REFLOW_PASSES - 1, i);
    }
  }

  // ---------------------------------------------------------------------------
  // Five passes are enough for five picks and for no more
  // ---------------------------------------------------------------------------

  ghost predicate FloorGuaranteed(n: nat) {
    forall pr: Problem, f: Floors, budget: nat ::
      pr.Valid() && |pr.picks| == n && pr.chunk == ChunkSize(budget) && Count(pr.preSeated) <= pr.remainingSlots ==>
        FloorMet(pr, f, Plan(pr, f, budget))
  }

  /** n equal deployments, one wei to place, and a floor nobody reaches. */
  function ChainProblem(n: nat): Problem {
    Problem(seq(n, i requires 0 <= i < n => Pick(NameOf(i), 0, 1, 1, 1, false)), seq(n, _ => false), n, 1)
  }

  /** Pick k holds the wei and all picks before it have been rejected. */
  ghost predicate ChainState(n: nat, s: State, k: nat)
    requires k < n
  {
    && Shaped(ChainProblem(n), s)
    && (forall i :: 0 <= i < n ==> s.alloc[i] == if i == k then 1 else 0)
    && (forall i :: 0 <= i < n ==> (s.rejected[i] <==> i < k))
    && s.slotsUsed == k + 1
    && s.budget == 0
  }

  /** One wei of budget opens the first pick that has not been rejected. */
  lemma ChainRun(n: nat, s: State, k: nat)
    requires k < n && Shaped(ChainProblem(n), s)
    requires forall i :: 0 <= i < n ==> s.alloc[i] == 0 && (s.rejected[i] <==> i < k)
    requires s.slotsUsed == k && s.budget == 1
    ensures ChainProblem(n).Valid()
    ensures ChainState(n, Run(ChainProblem(n), s, ChainProblem(n).MaxIters()), k)
  {
    var pr := ChainProblem(n);
    BestIsFirstArgmax(pr, s, n);
    assert RealMarginal(1, 1, 0) == MARGINAL_SCALE;
    assert forall j: nat :: j < n ==> MarginalAt(pr, j, 0) == MARGINAL_SCALE;
    assert IsFirstArgmax(pr, s, n, k);
    assert Grant(pr, s, k) == 1;
    var t := Step(pr, s);
    assert Done(pr, t);
    assert Run(pr, s, pr.MaxIters()) == Run(pr, t, pr.MaxIters() - 1) == t;
  }

  lemma {:induction false} ChainPasses(n: nat, s: State, k: nat, passes: nat)
    requires k + passes < n && ChainState(n, s, k)
    ensures ChainProblem(n).Valid()
    ensures ChainState(n, ReflowPasses(ChainProblem(n), Floors(1, 0), s, passes), k + passes)
    decreases passes
  {
    if passes != 0 {
      var pr, f := ChainProblem(n), Floors(1, 0);
      var d := Drop(pr, f, s);
      assert Falls(pr, f, s, k);
      assert Dropped(pr, f, s) == s.alloc;
      SumUpdate(s.alloc, k, 0);
      SumZero(s.alloc[k := 0]);
      ChainRun(n, d, k + 1);
      ChainPasses(n, Run(pr, d, pr.MaxIters()), k + 1, passes - 1);
    }
  }

  /** With a sixth pick the fifth reflow opens one that is short. */
  lemma ChainPlan(n: nat)
    requires REFLOW_PASSES < n
    ensures var (pr, f) := (ChainProblem(n), Floors(1, 0));
      && pr.Valid() && Count(pr.preSeated) <= pr.remainingSlots
      && Plan(pr, f, 1).alloc[REFLOW_PASSES] == 1
      && !f.Met(pr.picks[REFLOW_PASSES], 1)
  {
    var pr, f := ChainProblem(n), Floors(1, 0);
    CountAll(pr.preSeated);
    ChainRun(n, Start(pr, 1), 0);
    ChainPasses(n, Run(pr, Start(pr, 1), pr.MaxIters()), 0, REFLOW_PASSES);
  }

  lemma FloorGuaranteedIff(n: nat)
    ensures FloorGuaranteed(n) <==> n <= 5
  {
    if n <= REFLOW_PASSES {
      forall pr: Problem, f: Floors, budget: nat |
        pr.Valid() && |pr.picks| == n && pr.chunk == ChunkSize(budget) && Count(pr.preSeated) <= pr.remainingSlots
        ensures FloorMet(pr, f, Plan(pr, f, budget))
      {
        var _ := PlanFloor(pr, f, budget);
      }
    } else {
      ChainPlan(n);
      assert !FloorMet(ChainProblem(n), Floors(1, 0), Plan(ChainProblem(n), Floors(1, 0), 1));
    }
  }
}
