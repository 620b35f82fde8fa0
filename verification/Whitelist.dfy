/**
 When a whitelisted deployment gets its first chunk. The sentinel marginal puts such
 deployments, and those without other stake, ahead of everybody else, in the order of
 the picks; a slot and the stake still have to be there.
 */
module Whitelist {
  import opened Arithmetic
  import opened Sums
  import opened Reward
  import opened Greedy
  import opened IterationBound
  import opened Reflow

  /** Picks that start at the sentinel marginal and have room for stake. */
  predicate Sentinel(pr: Problem, i: nat)
    requires i < |pr.picks|
  {
    (pr.picks[i].whitelisted || pr.picks[i].D == 0) && 0 < pr.picks[i].cap
  }

  /** Sentinel picks that would open a new slot. */
  function Needing(pr: Problem): (s: seq<bool>)
    requires |pr.preSeated| == |pr.picks|
    ensures |s| == |pr.picks|
  {
    seq(|pr.picks|, i requires 0 <= i < |pr.picks| => Sentinel(pr, i) && !pr.preSeated[i])
  }

  function Free(pr: Problem): nat
    requires Count(pr.preSeated) <= pr.remainingSlots
  {
    pr.remainingSlots - Count(pr.preSeated)
  }

  /** A slot is left when the pick's turn comes. */
  predicate Admitted(pr: Problem, i: nat)
    requires i < |pr.picks| == |pr.preSeated| && Count(pr.preSeated) <= pr.remainingSlots
  {
    Sentinel(pr, i) && (pr.preSeated[i] || Count(Needing(pr)[..i]) < Free(pr))
  }

  function Chunk(pr: Problem, i: nat): nat
    requires i < |pr.picks|
  {
    if pr.chunk < pr.picks[i].cap then pr.chunk else pr.picks[i].cap
  }

  /** The first chunks of the admitted picks. */
  function Wants(pr: Problem): (s: seq<nat>)
    requires |pr.picks| == |pr.preSeated| && Count(pr.preSeated) <= pr.remainingSlots
    ensures |s| == |pr.picks|
  {
    seq(|pr.picks|, i requires 0 <= i < |pr.picks| => if Admitted(pr, i) then Chunk(pr, i) else 0)
  }

  function Taking(pr: Problem): (s: seq<bool>)
    requires |pr.picks| == |pr.preSeated| && Count(pr.preSeated) <= pr.remainingSlots
    ensures |s| == |pr.picks|
  {
    seq(|pr.picks|, i requires 0 <= i < |pr.picks| => Admitted(pr, i) && !pr.preSeated[i])
  }

  /** Rewards small enough for the sentinel to beat every real marginal. */
  ghost predicate Modest(pr: Problem) {
    && pr.Valid() && Count(pr.preSeated) <= pr.remainingSlots
    && (forall i :: 0 <= i < |pr.picks| ==> pr.picks[i].R * MARGINAL_SCALE < MAX_MARGINAL)
  }

  lemma {:induction false} TakingCount(pr: Problem, k: nat)
    requires k <= |pr.picks| == |pr.preSeated| && Count(pr.preSeated) <= pr.remainingSlots
    ensures Count(Taking(pr)[..k]) == Min(Count(Needing(pr)[..k]), Free(pr))
  {
    if k > 0 {
      TakingCount(pr, k - 1);
      assert Taking(pr)[..k][..k - 1] == Taking(pr)[..k - 1];
      assert Needing(pr)[..k][..k - 1] == Needing(pr)[..k - 1];
    }
  }

  /** The first k picks have had their turn. */
  ghost function Phase(pr: Problem, budget: nat, k: nat): State
    requires k <= |pr.picks| == |pr.preSeated| && Count(pr.preSeated) <= pr.remainingSlots
    requires Sum(Wants(pr)[..k]) <= budget
  {
    var n := |pr.picks|;
    State(
      seq(n, i requires 0 <= i < n => if i < k then Wants(pr)[i] else 0),
      seq(n, _ => 0),
      seq(n, _ => false),
      Count(pr.preSeated) + Count(Taking(pr)[..k]),
      budget - Sum(Wants(pr)[..k]),
      0)
  }

  lemma SentinelMarginal(pr: Problem, i: nat, A: nat)
    requires Modest(pr) && i < |pr.picks|
    ensures MarginalAt(pr, i, A) <= MAX_MARGINAL
    ensures Sentinel(pr, i) && A == 0 ==> MarginalAt(pr, i, A) == MAX_MARGINAL
    ensures (A > 0 || (!pr.picks[i].whitelisted && pr.picks[i].D != 0)) ==> MarginalAt(pr, i, A) < MAX_MARGINAL
  {
    var p := pr.picks[i];
    if p.D > 0 { RealMarginalBound(p.R, p.D, A); }
  }

  lemma PhaseBest(pr: Problem, budget: nat, k: nat)
    requires Modest(pr) && k < |pr.picks| && Admitted(pr, k)
    requires Sum(Wants(pr)[..k]) < budget
    ensures Shaped(pr, Phase(pr, budget, k)) && Best(pr, Phase(pr, budget, k), |pr.picks|) == k
  {
    hide ComputeMarginal, Best;
    var s := Phase(pr, budget, k);
    TakingCount(pr, k);
    assert Eligible(pr, s, k);
    SentinelMarginal(pr, k, 0);
    forall j: nat | j < |pr.picks| && Eligible(pr, s, j)
      ensures MarginalAt(pr, j, s.alloc[j]) <= MAX_MARGINAL
      ensures j < k ==> MarginalAt(pr, j, s.alloc[j]) < MAX_MARGINAL
    {
      SentinelMarginal(pr, j, s.alloc[j]);
      if j < k && s.alloc[j] == 0 && Sentinel(pr, j) { TurnedAway(pr, j, k); }
    }
    BestIsFirstArgmax(pr, s, |pr.picks|);
    assert IsFirstArgmax(pr, s, |pr.picks|, k);
  }

  /** A sentinel pick without a chunk after its turn has found the slots taken. */
  lemma TurnedAway(pr: Problem, j: nat, k: nat)
    requires pr.Valid() && Count(pr.preSeated) <= pr.remainingSlots
    requires j < k <= |pr.picks| && Sentinel(pr, j) && Wants(pr)[j] == 0
    ensures !pr.preSeated[j] && Count(pr.preSeated) + Count(Taking(pr)[..k]) == pr.remainingSlots
  {
    assert !Admitted(pr, j);
    TakingCount(pr, k);
    CountPrefix(Needing(pr), j, k);
  }

  lemma {:induction false} CountPrefix(s: seq<bool>, j: nat, k: nat)
    requires j <= k <= |s|
    ensures Count(s[..j]) <= Count(s[..k])
    decreases k
  {
    if j < k {
      assert s[..k][..k - 1] == s[..k - 1];
      CountPrefix(s, j, k - 1);
    }
  }

  lemma {:induction false} SumPrefix(s: seq<nat>, j: nat, k: nat)
    requires j <= k <= |s|
    ensures Sum(s[..j]) <= Sum(s[..k])
    decreases k
  {
    if j < k {
      assert s[..k][..k - 1] == s[..k - 1];
      SumPrefix(s, j, k - 1);
    }
  }

  lemma PhaseNext(pr: Problem, budget: nat, k: nat)
    requires Modest(pr) && k < |pr.picks| && Sum(Wants(pr)[..k + 1]) <= budget
    ensures Sum(Wants(pr)[..k]) <= budget && Shaped(pr, Phase(pr, budget, k))
    ensures var (s, t) := (Phase(pr, budget, k), Phase(pr, budget, k + 1));
      if Admitted(pr, k) then !Done(pr, s) && Step(pr, s) == t else s == t
  {
    hide Best;
    SumPrefix(Wants(pr), k, k + 1);
    assert Wants(pr)[..k + 1][..k] == Wants(pr)[..k];
    assert Taking(pr)[..k + 1][..k] == Taking(pr)[..k];
    var s, t := Phase(pr, budget, k), Phase(pr, budget, k + 1);
    if Admitted(pr, k) {
      PhaseBest(pr, budget, k);
      assert Step(pr, s).alloc == t.alloc;
      assert Step(pr, s).prev == t.prev;
    } else {
      assert s.alloc == t.alloc;
    }
  }

  /** The main loop passes through every phase its stake lasts for. */
  lemma {:induction false} PhaseRun(pr: Problem, budget: nat, k: nat) returns (left: nat)
    requires Modest(pr) && k <= |pr.picks| && Sum(Wants(pr)[..k]) <= budget
    ensures Shaped(pr, Phase(pr, budget, k))
    ensures pr.MaxIters() - k <= left <= pr.MaxIters()
    ensures Run(pr, Start(pr, budget), pr.MaxIters()) == Run(pr, Phase(pr, budget, k), left)
  {
    hide Best, Step;
    left := pr.MaxIters();
    if k == 0 {
      assert Phase(pr, budget, 0) == Start(pr, budget);
    } else {
      SumPrefix(Wants(pr), k - 1, k);
      left := PhaseRun(pr, budget, k - 1);
      PhaseNext(pr, budget, k - 1);
      if Admitted(pr, k - 1) { left := left - 1; }
    }
  }

  /** The stake runs out on the k-th pick, and everybody after it gets nothing. */
  lemma RunsDry(pr: Problem, budget: nat, k: nat, i: nat)
    requires Modest(pr) && k <= i < |pr.picks|
    requires Sum(Wants(pr)[..k]) <= budget < Sum(Wants(pr)[..k + 1])
    ensures Run(pr, Start(pr, budget), pr.MaxIters()).alloc[i] < Chunk(pr, k)
    ensures k < i ==> Run(pr, Start(pr, budget), pr.MaxIters()).alloc[i] == 0
  {
    hide Best;
    assert Wants(pr)[..k + 1][..k] == Wants(pr)[..k];
    var s := Phase(pr, budget, k);
    var left := PhaseRun(pr, budget, k);
    if s.budget > 0 {
      PhaseBest(pr, budget, k);
      var t := Step(pr, s);
      assert Done(pr, t);
      assert Run(pr, s, left) == Run(pr, t, left - 1) == t;
    }
  }

  lemma {:induction false} DryPoint(w: seq<nat>, budget: nat, i: nat) returns (k: nat)
    requires i < |w| && budget < Sum(w[..i + 1])
    ensures k <= i && Sum(w[..k]) <= budget < Sum(w[..k + 1])
  {
    k := i;
    if budget < Sum(w[..i]) {
      assert i > 0;
      k := DryPoint(w, budget, i - 1);
    }
  }

  /**
   After the main loop a whitelisted or uncontested pick holds its first chunk if and
   only if a slot is left when its turn comes and the stake covers the first chunks of
   the admitted picks up to and including it.
   */
  lemma FirstChunkIff(pr: Problem, budget: nat, i: nat)
    requires Modest(pr) && i < |pr.picks| && Sentinel(pr, i)
    ensures Chunk(pr, i) <= Run(pr, Start(pr, budget), pr.MaxIters()).alloc[i] <==>
            Admitted(pr, i) && Sum(Wants(pr)[..i + 1]) <= budget
  {
    hide Best, Run, Step;
    if budget < Sum(Wants(pr)[..i + 1]) {
      var k := DryPoint(Wants(pr), budget, i);
      RunsDry(pr, budget, k, i);
    } else {
      var left := PhaseRun(pr, budget, i + 1);
      var s := Phase(pr, budget, i + 1);
      if Admitted(pr, i) {
        RunGrows(pr, s, left);
      } else {
        TurnedAway(pr, i, i + 1);
        StaysClosed(pr, s, i, left);
      }
    }
  }

  // ---------------------------------------------------------------------------
  // Slots, in every loop of the plan
  // ---------------------------------------------------------------------------

  /** Open, or opened once and rejected since. */
  predicate Touched(s: State, i: nat)
    requires i < |s.alloc| == |s.rejected|
  {
    0 < s.alloc[i] || s.rejected[i]
  }

  /** Sentinel picks that need a slot are opened in the order of the picks. */
  ghost predicate InTurn(pr: Problem, s: State)
    requires Shaped(pr, s)
  {
    forall j: nat, i: nat :: j < i < |pr.picks| && Needing(pr)[j] && Needing(pr)[i] && Touched(s, i) ==> Touched(s, j)
  }

  lemma StepInTurn(pr: Problem, s: State)
    requires Modest(pr) && Shaped(pr, s) && !Done(pr, s) && InTurn(pr, s)
    ensures InTurn(pr, Step(pr, s))
  {
    hide Best, MarginalAt;
    var b, t := Best(pr, s, |pr.picks|), Step(pr, s);
    BestIsFirstArgmax(pr, s, |pr.picks|);
    forall j: nat, i: nat | j < i < |pr.picks| && Needing(pr)[j] && Needing(pr)[i] && Touched(t, i)
      ensures Touched(t, j)
    {
      if i == b && !Touched(s, i) && !Touched(s, j) {
        SentinelMarginal(pr, j, 0);
        SentinelMarginal(pr, b, 0);
      }
    }
  }

  lemma {:induction false} RunInTurn(pr: Problem, s: State, iters: nat)
    requires Modest(pr) && Shaped(pr, s) && InTurn(pr, s)
    ensures InTurn(pr, Run(pr, s, iters))
    decreases iters
  {
    hide Best, Step, InTurn;
    if iters != 0 && !Done(pr, s) {
      StepInTurn(pr, s);
      RunInTurn(pr, Step(pr, s), iters - 1);
    }
  }

  /** A drop closes picks by rejecting them, so it opens and forgets nobody. */
  lemma {:induction false} PassesInTurn(pr: Problem, f: Floors, s: State, passes: nat)
    requires Modest(pr) && Shaped(pr, s) && InTurn(pr, s)
    ensures InTurn(pr, ReflowPasses(pr, f, s, passes))
    decreases passes
  {
    hide Run;
    if passes != 0 && AnyFalls(pr, f, s) {
      var d := Drop(pr, f, s);
      assert forall i: nat :: i < |pr.picks| ==> (Touched(d, i) <==> Touched(s, i));
      RunInTurn(pr, d, pr.MaxIters());
      PassesInTurn(pr, f, Run(pr, d, pr.MaxIters()), passes - 1);
    }
  }

  /** The pre-seated picks and the first k that need a slot. */
  function Seats(pr: Problem, k: nat): (o: seq<bool>)
    requires k <= |pr.picks| == |pr.preSeated|
    ensures |o| == |pr.picks|
  {
    seq(|pr.picks|, i requires 0 <= i < |pr.picks| => pr.preSeated[i] || (i < k && Needing(pr)[i]))
  }

  lemma {:induction false} SeatsCount(pr: Problem, k: nat)
    requires k <= |pr.picks| == |pr.preSeated|
    ensures Count(Seats(pr, k)) == Count(pr.preSeated) + Count(Needing(pr)[..k])
  {
    if k == 0 {
      assert Seats(pr, 0) == pr.preSeated;
    } else {
      SeatsCount(pr, k - 1);
      CountUpdate(Seats(pr, k - 1), k - 1, pr.preSeated[k - 1] || Needing(pr)[k - 1]);
      assert Seats(pr, k) == Seats(pr, k - 1)[k - 1 := pr.preSeated[k - 1] || Needing(pr)[k - 1]];
      assert Needing(pr)[..k][..k - 1] == Needing(pr)[..k - 1];
    }
  }

  /** Whoever was opened had a slot left at its turn. */
  lemma OpenedWasAdmitted(pr: Problem, s: State, i: nat)
    requires Modest(pr) && Safe(pr, s) && InTurn(pr, s)
    requires i < |pr.picks| && Needing(pr)[i] && Touched(s, i)
    ensures Admitted(pr, i)
  {
    SeatsCount(pr, i + 1);
    forall j | 0 <= j < |pr.picks| && Seats(pr, i + 1)[j] ensures Occupied(pr, s)[j] {
      if j < i && Needing(pr)[j] { assert Touched(s, j); }
    }
    CountMono(Seats(pr, i + 1), Occupied(pr, s));
    assert Needing(pr)[..i + 1][..i] == Needing(pr)[..i];
  }

  /** For every stake: without a slot at its turn the pick ends the plan with nothing. */
  lemma NoSlotNoStake(pr: Problem, f: Floors, budget: nat, i: nat)
    requires Modest(pr) && i < |pr.picks| && Sentinel(pr, i) && !Admitted(pr, i)
    ensures Plan(pr, f, budget).alloc[i] == 0
  {
    hide Run, ReflowPasses, InTurn, Safe;
    PlanIsSafe(pr, f, budget);
    assert InTurn(pr, Start(pr, budget)) by { StartInTurn(pr, budget); }
    RunInTurn(pr, Start(pr, budget), pr.MaxIters());
    PassesInTurn(pr, f, Run(pr, Start(pr, budget), pr.MaxIters()), REFLOW_PASSES);
    if 0 < Plan(pr, f, budget).alloc[i] {
      OpenedWasAdmitted(pr, Plan(pr, f, budget), i);
    }
  }

  lemma StartInTurn(pr: Problem, budget: nat)
    requires pr.Valid()
    ensures InTurn(pr, Start(pr, budget))
  {
  }

  // ---------------------------------------------------------------------------
  // The first chunk in the finished plan
  // ---------------------------------------------------------------------------

  /**
   With the stake for the admitted first chunks up to it, or without a slot, such a pick
   ends the plan with its first chunk if and only if a slot is left when its turn comes and
   its projected reward meets the floor when the main loop ends.
   */
  lemma PlannedChunkIff(pr: Problem, f: Floors, budget: nat, i: nat)
    requires Modest(pr) && i < |pr.picks| && Sentinel(pr, i)
    requires !Admitted(pr, i) || Sum(Wants(pr)[..i + 1]) <= budget
    ensures var (m, t) := (Run(pr, Start(pr, budget), pr.MaxIters()), Plan(pr, f, budget));
      && (Chunk(pr, i) <= t.alloc[i] <==> Admitted(pr, i) && f.Met(pr.picks[i], m.alloc[i]))
      && (0 < t.alloc[i] <==> Admitted(pr, i) && f.Met(pr.picks[i], m.alloc[i]))
  {
    hide Best, Run, Step, ReflowPasses;
    if Admitted(pr, i) {
      FirstChunkIff(pr, budget, i);
      PlanKeepsIff(pr, f, budget, i);
    } else {
      NoSlotNoStake(pr, f, budget, i);
    }
  }

  /** When the main loop runs dry on the k-th pick, nobody after it is open. */
  lemma DryLeavesRest(pr: Problem, budget: nat, k: nat)
    requires Modest(pr) && k < |pr.picks|
    requires Sum(Wants(pr)[..k]) <= budget < Sum(Wants(pr)[..k + 1])
    ensures forall j: nat :: k < j < |pr.picks| ==> Run(pr, Start(pr, budget), pr.MaxIters()).alloc[j] == 0
  {
    hide Run, Chunk, Wants;
    forall j: nat | k < j < |pr.picks| ensures Run(pr, Start(pr, budget), pr.MaxIters()).alloc[j] == 0 {
      RunsDry(pr, budget, k, j);
    }
  }

  /**
   Where the stake does not cover the first chunks up to the pick, only stake recovered
   from an earlier pick can still bring it its first chunk.
   */
  lemma LateNeedsDrop(pr: Problem, f: Floors, budget: nat, i: nat)
    requires Modest(pr) && i < |pr.picks| && Sentinel(pr, i)
    requires budget < Sum(Wants(pr)[..i + 1]) && Chunk(pr, i) <= Plan(pr, f, budget).alloc[i]
    ensures Admitted(pr, i)
    ensures var m := Run(pr, Start(pr, budget), pr.MaxIters()); exists j: nat :: j < i && Falls(pr, f, m, j)
  {
    hide Run, Best, ReflowPasses, ProjectedReward, Wants;
    if !Admitted(pr, i) { NoSlotNoStake(pr, f, budget, i); }
    var m := Run(pr, Start(pr, budget), pr.MaxIters());
    var k := DryPoint(Wants(pr), budget, i);
    RunsDry(pr, budget, k, i);
    DryLeavesRest(pr, budget, k);
    assert ReflowPasses(pr, f, m, REFLOW_PASSES) != m;
    PassesNeedFall(pr, f, m);
    var j: nat :| j < |pr.picks| && Falls(pr, f, m, j);
    assert j <= k;
    if j == i { PlanKeepsIff(pr, f, budget, i); }
  }

  lemma PassesNeedFall(pr: Problem, f: Floors, s: State)
    requires pr.Valid() && Shaped(pr, s) && ReflowPasses(pr, f, s, REFLOW_PASSES) != s
    ensures exists j: nat :: j < |pr.picks| && Falls(pr, f, s, j)
  {
    hide Run, Drop;
  }

  /** What the plan needs to give such a pick its first chunk, for every stake. */
  lemma PlannedChunkNeeds(pr: Problem, f: Floors, budget: nat, i: nat)
    requires Modest(pr) && i < |pr.picks| && Sentinel(pr, i)
    requires Chunk(pr, i) <= Plan(pr, f, budget).alloc[i]
    ensures Admitted(pr, i)
    ensures var m := Run(pr, Start(pr, budget), pr.MaxIters());
      if Sum(Wants(pr)[..i + 1]) <= budget then f.Met(pr.picks[i], m.alloc[i])
      else exists j: nat :: j < i && Falls(pr, f, m, j)
  {
    hide Run, Plan, Wants, Admitted;
    if Sum(Wants(pr)[..i + 1]) <= budget {
      PlannedChunkIff(pr, f, budget, i);
    } else {
      LateNeedsDrop(pr, f, budget, i);
    }
  }

  // ---------------------------------------------------------------------------
  // A pick served late
  // ---------------------------------------------------------------------------

  /** One wei and two whitelisted picks; only the second one's reward clears a floor of two. */
  function LateProblem(R: nat): Problem {
    Problem([Pick("a", 0, 1, 1, 1, true), Pick("b", 0, R, 1, 1, true)], [false, false], 2, 1)
  }

  /** The wei is on pick k, and the picks before it have been rejected. */
  ghost predicate LateState(s: State, k: nat)
    requires k < 2
  {
    && s.alloc == (if k == 0 then [1, 0] else [0, 1]) && |s.prev| == 2
    && s.rejected == [k == 1, false] && s.slotsUsed == k + 1 && s.budget == 0
  }

  /** The wei goes to the first pick that has not been rejected. */
  lemma LateRun(R: nat, s: State, k: nat)
    requires k < 2 && 0 < R
    requires s.alloc == [0, 0] && |s.prev| == 2 && s.rejected == [k == 1, false] && s.slotsUsed == k && s.budget == 1
    ensures LateProblem(R).Valid() && Shaped(LateProblem(R), s)
    ensures LateState(Run(LateProblem(R), s, LateProblem(R).MaxIters()), k)
  {
    hide Best;
    var pr := LateProblem(R);
    BestIsFirstArgmax(pr, s, 2);
    assert MarginalAt(pr, 0, 0) == MarginalAt(pr, 1, 0) == MAX_MARGINAL;
    assert IsFirstArgmax(pr, s, 2, k);
    assert Grant(pr, s, k) == 1;
    var t := Step(pr, s);
    assert Done(pr, t);
    assert Run(pr, s, pr.MaxIters()) == Run(pr, t, pr.MaxIters() - 1) == t;
  }

  /**
   The second pick holds nothing when the main loop ends, meets no floor then, and is not
   covered by the stake; yet the plan ends with its first chunk on it.
   */
  lemma ServedLate(R: nat)
    requires 4 <= R && R * MARGINAL_SCALE < MAX_MARGINAL
    ensures var (pr, f) := (LateProblem(R), Floors(1, 0));
      && Modest(pr) && pr.chunk == ChunkSize(1) && Sentinel(pr, 1) && Admitted(pr, 1)
      && 1 < Sum(Wants(pr)[..2])
      && var m := Run(pr, Start(pr, 1), pr.MaxIters());
      && m.alloc[1] == 0 && !f.Met(pr.picks[1], m.alloc[1])
      && Plan(pr, f, 1).alloc[1] == Chunk(pr, 1)
  {
    hide Best, Run, Step;
    var pr, f := LateProblem(R), Floors(1, 0);
    LateWants(R);
    LateRun(R, Start(pr, 1), 0);
    var m := Run(pr, Start(pr, 1), pr.MaxIters());
    assert Falls(pr, f, m, 0) && !Falls(pr, f, m, 1);
    var d := Drop(pr, f, m);
    assert Dropped(pr, f, m) == [1, 0] == m.alloc;
    SumOfTwo(1, 0);
    assert d.alloc == [0, 0] && d.rejected == [true, false];
    LateRun(R, d, 1);
    var t := Run(pr, d, pr.MaxIters());
    assert ProjectedReward(R, 1, 1) >= 2 by { DivGalois(R * 1, 2, 2); }
    assert !AnyFalls(pr, f, t);
    assert ReflowPasses(pr, f, t, REFLOW_PASSES - 1) == t;
  }

  lemma LateWants(R: nat)
    requires 0 < R && R * MARGINAL_SCALE < MAX_MARGINAL
    ensures var pr := LateProblem(R);
      && Modest(pr) && Count(pr.preSeated) == 0 && Admitted(pr, 1) && 1 < Sum(Wants(pr)[..2])
  {
    var pr := LateProblem(R);
    CountAll(pr.preSeated);
    var need, wants := Needing(pr), Wants(pr);
    assert need == [true, true];
    assert need[..1] == [true] && need[..1][..0] == need[..0] == [];
    assert Count(need[..0]) == 0 && Count(need[..1]) == 1;
    assert wants == [1, 1] == wants[..2];
    SumOfTwo(1, 1);
  }

  lemma SumOfTwo(x: nat, y: nat)
    ensures Sum([x, y]) == x + y
  {
    var s: seq<nat> := [x, y];
    var one := s[..1];
    assert one == [x] && one[..0] == [] && Sum(one) == x;
  }

  /** A floor that the first chunk alone meets is enough. */
  lemma ChunkMeetsFloor(pr: Problem, f: Floors, budget: nat, i: nat)
    requires Modest(pr) && i < |pr.picks| && Sentinel(pr, i)
    requires Admitted(pr, i) && Sum(Wants(pr)[..i + 1]) <= budget
    requires f.Met(pr.picks[i], Chunk(pr, i))
    ensures Chunk(pr, i) <= Plan(pr, f, budget).alloc[i]
  {
    hide Best, Run, Step, ReflowPasses, ProjectedReward, Plan, Admitted;
    FirstChunkIff(pr, budget, i);
    var m := Run(pr, Start(pr, budget), pr.MaxIters());
    ProjectedRewardMono(pr.picks[i].R, pr.picks[i].D, Chunk(pr, i), m.alloc[i]);
    PlannedChunkIff(pr, f, budget, i);
  }

  /** The plan holds the pick's first chunk under every floor that the first chunk meets. */
  ghost predicate ChunkGuaranteed(pr: Problem, budget: nat, i: nat)
    requires pr.Valid() && i < |pr.picks|
  {
    forall f: Floors :: f.Met(pr.picks[i], Chunk(pr, i)) ==> Chunk(pr, i) <= Plan(pr, f, budget).alloc[i]
  }

  /**
   What can be said before the plan is made, for every stake: such a pick is guaranteed its
   first chunk if and only if a slot is left when its turn comes and the stake covers the
   first chunks of the admitted picks up to and including it.
   */
  lemma ChunkGuaranteedIff(pr: Problem, budget: nat, i: nat)
    requires Modest(pr) && i < |pr.picks| && Sentinel(pr, i)
    ensures ChunkGuaranteed(pr, budget, i) <==> Admitted(pr, i) && Sum(Wants(pr)[..i + 1]) <= budget
  {
    hide Run, Admitted, Wants, ProjectedReward, Chunk;
    if Admitted(pr, i) && Sum(Wants(pr)[..i + 1]) <= budget {
      forall f: Floors | f.Met(pr.picks[i], Chunk(pr, i)) ensures Chunk(pr, i) <= Plan(pr, f, budget).alloc[i] {
        ChunkMeetsFloor(pr, f, budget, i);
      }
    } else {
      var f := Floors(0, 0);
      FirstChunkIff(pr, budget, i);
      assert !AnyFalls(pr, f, Run(pr, Start(pr, budget), pr.MaxIters()));
      assert f.Met(pr.picks[i], Chunk(pr, i));
    }
  }

  /**
   From 1000 wei on, a thousand picks with slots enough are all served by the main loop, so
   that only the floor decides whether the plan keeps a sentinel pick.
   */
  lemma ThousandServed(pr: Problem, f: Floors, budget: nat, i: nat)
    requires Modest(pr) && i < |pr.picks| && Sentinel(pr, i)
    requires 1000 <= budget && pr.chunk == ChunkSize(budget) && |pr.picks| <= 1000
    requires Count(Needing(pr)) <= Free(pr)
    ensures var m := Run(pr, Start(pr, budget), pr.MaxIters());
      && Chunk(pr, i) <= m.alloc[i]
      && (Chunk(pr, i) <= Plan(pr, f, budget).alloc[i] <==> f.Met(pr.picks[i], m.alloc[i]))
  {
    hide Run, Plan, Chunk;
    CountPrefix(Needing(pr), i + 1, |pr.picks|);
    assert Needing(pr)[..|pr.picks|] == Needing(pr);
    assert Needing(pr)[..i + 1][..i] == Needing(pr)[..i];
    WantsAtMost(pr, i + 1);
    MulMono(i + 1, 1000, pr.chunk);
    DivBounds(budget, 1000);
    FirstChunkIff(pr, budget, i);
    PlannedChunkIff(pr, f, budget, i);
  }

  lemma {:induction false} WantsAtMost(pr: Problem, k: nat)
    requires k <= |pr.picks| == |pr.preSeated| && Count(pr.preSeated) <= pr.remainingSlots
    ensures Sum(Wants(pr)[..k]) <= k * pr.chunk
  {
    hide Admitted, Needing;
    if k > 0 {
      assert Wants(pr)[..k][..k - 1] == Wants(pr)[..k - 1];
      WantsAtMost(pr, k - 1);
      assert Wants(pr)[k - 1] <= pr.chunk;
      OneMore(k - 1, pr.chunk);
    }
  }

  lemma OneMore(k: nat, c: nat)
    ensures (k + 1) * c == k * c + c
  {
  }

  /** One existing allocation and one slot: a whitelisted newcomer gets nothing in the plan. */
  lemma NewcomerTurnedAway(R: nat, D: nat, cap: nat, f: Floors, budget: nat, held: nat)
    requires 0 < R && R * MARGINAL_SCALE < MAX_MARGINAL && 0 < cap && 0 < held
    ensures var pr := Problem([Pick("a", held, R, D, cap, false), Pick("b", 0, R, D, cap, true)],
                              [true, false], 1, ChunkSize(budget));
      pr.Valid() && Plan(pr, f, budget).alloc[1] == 0
  {
    hide ReflowPasses;
    var pr := Problem([Pick("a", held, R, D, cap, false), Pick("b", 0, R, D, cap, true)],
                      [true, false], 1, ChunkSize(budget));
    assert [true, false][..1] == [true] && [true][..0] == [];
    assert Count(pr.preSeated) == 1;
    StaysClosed(pr, Start(pr, budget), 1, pr.MaxIters());
    RunGrows(pr, Start(pr, budget), pr.MaxIters());
    PassesStayClosed(pr, f, Run(pr, Start(pr, budget), pr.MaxIters()), REFLOW_PASSES, 1);
  }
}
