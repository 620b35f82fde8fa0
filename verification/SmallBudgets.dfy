/**
 With at most two wei to place, flooring the marginals costs nothing worth a unit: no
 split gains more than one unit above the best marginal left for one chunk of every open
 pick.
 */
module SmallBudgets {
  import opened Sums
  import opened Reward
  import opened Greedy
  import opened IterationBound
  import opened Reflow
  import opened NearOptimal

  ghost predicate Split(pr: Problem, s: State, x: seq<real>) {
    Shaped(pr, s) && Redistribution(pr, s, x)
  }

  /** One chunk of each of k open picks, one unit above the marginal l. */
  function ClosedBound(l: nat, c: nat, k: nat): nat { (l + 1) * c * k }

  ghost predicate WithinClosedBound(pr: Problem, s: State, x: seq<real>)
    requires Split(pr, s, x)
  {
    MARGINAL_SCALE as real * (TotalReward(pr, x) - TotalReward(pr, Reals(s.alloc)))
      <= ClosedBound(Lambda(pr, s), pr.chunk, Count(Opened(s))) as real
  }

  /** The closed bound, for splits that move at most one chunk for every open pick. */
  lemma SmallMoves(pr: Problem, s: State, x: seq<real>)
    requires pr.Valid() && Safe(pr, s) && Equilibrium(pr, s) && Split(pr, s, x)
    requires Moved(Reals(s.alloc), x) <= (pr.chunk * Count(Opened(s))) as real
    ensures WithinClosedBound(pr, s, x)
  {
    hide TotalReward, Moved, Lambda, Count, Safe, Equilibrium, ClosedBound;
    NearOptimality(pr, s, x);
    OneMore(Lambda(pr, s), pr.chunk, Count(Opened(s)), Moved(Reals(s.alloc), x));
  }

  lemma OneMore(l: nat, c: nat, k: nat, moved: real)
    requires moved <= (c * k) as real
    ensures moved + (l * c * k) as real <= ClosedBound(l, c, k) as real
  {
    assert (l + 1) * c * k == l * c * k + c * k;
  }

  // ---------------------------------------------------------------------------
  // Every chunk was earned
  // ---------------------------------------------------------------------------

  /** An open pick got its latest chunk for a positive marginal. */
  ghost predicate Earned(pr: Problem, s: State)
    requires Shaped(pr, s)
  {
    forall i: nat :: i < |pr.picks| && 0 < s.alloc[i] ==> 0 < MarginalAt(pr, i, s.prev[i])
  }

  lemma {:induction false} RunEarned(pr: Problem, s: State, iters: nat)
    requires pr.Valid() && Shaped(pr, s) && Earned(pr, s)
    ensures Earned(pr, Run(pr, s, iters))
    decreases iters
  {
    hide Best, ComputeMarginal;
    if iters != 0 && !Done(pr, s) {
      BestIsFirstArgmax(pr, s, |pr.picks|);
      RunEarned(pr, Step(pr, s), iters - 1);
    }
  }

  lemma {:induction false} PassesEarned(pr: Problem, f: Floors, s: State, passes: nat)
    requires pr.Valid() && Shaped(pr, s) && Earned(pr, s)
    ensures Earned(pr, ReflowPasses(pr, f, s, passes))
    decreases passes
  {
    hide Run, ComputeMarginal;
    if passes != 0 && AnyFalls(pr, f, s) {
      var d := Drop(pr, f, s);
      RunEarned(pr, d, pr.MaxIters());
      PassesEarned(pr, f, Run(pr, d, pr.MaxIters()), passes - 1);
    }
  }

  lemma PlanEarned(pr: Problem, f: Floors, budget: nat)
    requires pr.Valid()
    ensures Earned(pr, Plan(pr, f, budget))
  {
    hide Run, ReflowPasses;
    RunEarned(pr, Start(pr, budget), pr.MaxIters());
    PassesEarned(pr, f, Run(pr, Start(pr, budget), pr.MaxIters()), REFLOW_PASSES);
  }

  // ---------------------------------------------------------------------------
  // Two wei on one pick
  // ---------------------------------------------------------------------------

  /** (1-t) E (E-2t) + 2 t^2 is not negative, so E^2 (1+t) covers 2t (E-t) (E+1). */
  lemma Quadratic(E: real, t: real)
    requires 2.0 <= E && 0.0 <= t <= 1.0
    ensures 2.0 * t * ((E - t) * (E + 1.0)) <= (E * E) * (1.0 + t)
  {
    RealMulNonNegative(E, E - 2.0 * t);
    RealMulNonNegative(1.0 - t, E * (E - 2.0 * t));
    SquarePositive(t);
    calc {
      (E * E) * (1.0 + t) - 2.0 * t * ((E - t) * (E + 1.0));
      (1.0 - t) * (E * (E - 2.0 * t)) + 2.0 * (t * t);
    }
  }

  lemma Between(d: real, E: real, t: real)
    requires 1.0 <= d && E == d + 1.0 && 0.0 <= t <= 1.0
    ensures 2.0 * t * ((d + (1.0 - t)) * (d + 2.0)) <= (E * E) * (2.0 - (1.0 - t))
  {
    Quadratic(E, t);
    assert d + (1.0 - t) == E - t && d + 2.0 == E + 1.0 && 2.0 - (1.0 - t) == 1.0 + t;
  }

  /**
   Taking all but 1 - t of two wei off a pick costs at least 2 m t units, m the floored
   marginal at the second wei.
   */
  lemma SecondWei(p: Pick, t: real)
    requires 0 < p.D && 0.0 <= t <= 1.0
    ensures 2.0 * RealMarginal(p.R, p.D, 1) as real * t <=
      MARGINAL_SCALE as real * (RewardOf(p, 2.0) - RewardOf(p, 1.0 - t))
  {
    hide RewardOf, RealMarginal;
    Between(p.D as real, (p.D + 1) as real, t);
    LossBetween(p, 1, 1.0 - t, 2.0, t);
  }

  /** From y up to z a reward rises by 2 m t units, m the floored marginal at A, when the slopes allow it. */
  lemma LossBetween(p: Pick, A: nat, y: real, z: real, t: real)
    requires 0 < p.D && 0.0 <= y <= z
    requires var (d, E) := (p.D as real, (p.D + A) as real); 2.0 * t * ((d + y) * (d + z)) <= (E * E) * (z - y)
    ensures 2.0 * RealMarginal(p.R, p.D, A) as real * t <= MARGINAL_SCALE as real * (RewardOf(p, z) - RewardOf(p, y))
  {
    hide RewardOf, RealMarginal;
    var d, E := p.D as real, (p.D + A) as real;
    MarginalBrackets(p, A);
    RewardDifference(p, y, z);
    RealMulPositive(d + y, d + z);
    Chain(RewardOf(p, z) - RewardOf(p, y), p.R as real * d, RealMarginal(p.R, p.D, A) as real, t,
      (d + y) * (d + z), E * E, z - y);
  }

  lemma Chain(loss: real, rd: real, m: real, t: real, w: real, e: real, f: real)
    requires 0.0 < w && 0.0 <= m && 0.0 <= f
    requires loss * w == rd * f && m * e <= MARGINAL_SCALE as real * rd && 2.0 * t * w <= e * f
    ensures 2.0 * m * t <= MARGINAL_SCALE as real * loss
  {
    ScaleBoth(loss, w, rd, f);
    RealMulMono(2.0 * t * w, e * f, m);
    RealMulMono(m * e, MARGINAL_SCALE as real * rd, f);
    Reorder(m, t, w, e, f);
    RealCancel(2.0 * m * t, MARGINAL_SCALE as real * loss, w);
  }

  lemma Reorder(m: real, t: real, w: real, e: real, f: real)
    ensures (2.0 * m * t) * w == (2.0 * t * w) * m
    ensures (e * f) * m == (m * e) * f
  {
  }

  // ---------------------------------------------------------------------------
  // All the stake on one pick
  // ---------------------------------------------------------------------------

  /** Only pick i is open. */
  ghost predicate OnlyOpen(s: State, i: nat) {
    i < |s.alloc| && 0 < s.alloc[i] && forall j :: 0 <= j < |s.alloc| && j != i ==> s.alloc[j] == 0
  }

  /** What pick i loses in the first k picks. */
  ghost function LossUpTo(pr: Problem, s: State, x: seq<real>, i: nat, k: nat): real
    requires Split(pr, s, x) && i < |x|
  {
    if i < k then MARGINAL_SCALE as real * (RewardOf(pr.picks[i], s.alloc[i] as real) - RewardOf(pr.picks[i], x[i])) else 0.0
  }

  ghost function Elsewhere(x: seq<real>, i: nat, k: nat): real
    requires i < |x| && k <= |x|
  {
    SumUpTo(x, k) - if i < k then x[i] else 0.0
  }

  /** m wei at one unit above the marginal l. */
  ghost function Units(l: nat, m: real): real { (l as real + 1.0) * m }

  lemma UnitsAdd(l: nat, m: real, y: real)
    ensures Units(l, m + y) == Units(l, m) + Units(l, y) && Units(l, 0.0) == 0.0
  {
    Distribute(l as real + 1.0, m, y);
  }

  /** A closed pick gains at most one unit above the best marginal per wei. */
  lemma ClosedPickGain(pr: Problem, s: State, x: seq<real>, j: nat)
    requires pr.Valid() && Split(pr, s, x) && j < |x| && s.alloc[j] == 0
    ensures MARGINAL_SCALE as real * (RewardOf(pr.picks[j], x[j]) - RewardOf(pr.picks[j], 0.0)) <= Units(Lambda(pr, s), x[j])
  {
    hide Best, RewardOf, RealMarginal;
    if x[j] != 0.0 {
      BestIsFirstArgmax(pr, s, |pr.picks|);
      assert MarginalAt(pr, j, 0) == RealMarginal(pr.picks[j].R, pr.picks[j].D, 0);
      GainAbove(pr.picks[j], 0, x[j], Lambda(pr, s) as real + 1.0);
    }
  }

  lemma {:induction false} OneOpenGain(pr: Problem, s: State, x: seq<real>, i: nat, k: nat)
    requires pr.Valid() && Split(pr, s, x) && OnlyOpen(s, i) && k <= |x|
    ensures MARGINAL_SCALE as real * (RewardUpTo(pr, x, k) - RewardUpTo(pr, Reals(s.alloc), k)) <=
      Units(Lambda(pr, s), Elsewhere(x, i, k)) - LossUpTo(pr, s, x, i, k)
    decreases k
  {
    hide RewardOf, Lambda, Units;
    if k == 0 {
      UnitsAdd(Lambda(pr, s), 0.0, 0.0);
    } else {
      OneOpenGain(pr, s, x, i, k - 1);
      if k - 1 != i {
        ClosedPickGain(pr, s, x, k - 1);
        UnitsAdd(Lambda(pr, s), Elsewhere(x, i, k - 1), x[k - 1]);
      }
    }
  }

  lemma {:induction false} PartOfSum(x: seq<real>, i: nat, k: nat)
    requires i < k <= |x| && forall j :: 0 <= j < |x| ==> 0.0 <= x[j]
    ensures x[i] <= SumUpTo(x, k)
    decreases k
  {
    if i < k - 1 {
      PartOfSum(x, i, k - 1);
    } else {
      SumNonNegative(x, k - 1);
    }
  }

  lemma {:induction false} SumNonNegative(x: seq<real>, k: nat)
    requires k <= |x| && forall j :: 0 <= j < |x| ==> 0.0 <= x[j]
    ensures 0.0 <= SumUpTo(x, k)
  {
    if k != 0 { SumNonNegative(x, k - 1); }
  }

  /** Two wei on pick i: keeping y of them there, the others gain no more than the bound. */
  lemma TwoOnOne(pr: Problem, s: State, x: seq<real>, i: nat)
    requires pr.Valid() && Safe(pr, s) && Equilibrium(pr, s) && Earned(pr, s) && Split(pr, s, x)
    requires pr.chunk == 1 && OnlyOpen(s, i) && s.alloc[i] == 2 && Sum(s.alloc) == 2
    ensures MARGINAL_SCALE as real * (TotalReward(pr, x) - TotalReward(pr, Reals(s.alloc))) <= Lambda(pr, s) as real + 1.0
  {
    hide RewardOf, RealMarginal, Safe, Lambda, Units, Equilibrium, Earned;
    var n, y := |x|, x[i];
    OneOpenGain(pr, s, x, i, n);
    PartOfSum(x, i, n);
    assert Elsewhere(x, i, n) == SumUpTo(x, n) - y;
    assert y != 2.0 ==> 0 < pr.picks[i].D && !pr.picks[i].whitelisted;
    KeepsEnough(pr, s, i, y, Elsewhere(x, i, n));
  }

  lemma KeepsEnough(pr: Problem, s: State, i: nat, y: real, m: real)
    requires pr.Valid() && Shaped(pr, s) && Safe(pr, s) && Equilibrium(pr, s) && Earned(pr, s)
    requires pr.chunk == 1 && i < |pr.picks| && s.alloc[i] == 2
    requires 0.0 <= y <= 2.0 && m <= 2.0 - y
    requires y != 2.0 ==> 0 < pr.picks[i].D && !pr.picks[i].whitelisted
    ensures Units(Lambda(pr, s), m)
      - MARGINAL_SCALE as real * (RewardOf(pr.picks[i], 2.0) - RewardOf(pr.picks[i], y)) <= Lambda(pr, s) as real + 1.0
  {
    hide RewardOf, RealMarginal, Safe, Lambda, Equilibrium, Earned;
    var l1, p := Lambda(pr, s) as real + 1.0, pr.picks[i];
    if 1.0 <= y {
      RealMulMono(m, 1.0, l1);
      if y != 2.0 { RewardIncreases(p, y, 2.0); }
    } else {
      SecondMarginal(pr, s, i);
      SecondWei(p, 1.0 - y);
      LastStep(l1, RealMarginal(p.R, p.D, 1) as real, 1.0 - y, m,
        MARGINAL_SCALE as real * (RewardOf(p, 2.0) - RewardOf(p, 1.0 - (1.0 - y))));
    }
  }

  lemma LastStep(l1: real, mu: real, t: real, m: real, loss: real)
    requires 0.0 <= t && m <= 1.0 + t && 0.0 <= l1 <= 2.0 * mu && 2.0 * mu * t <= loss
    ensures l1 * m - loss <= l1
  {
    RealMulMono(m, 1.0 + t, l1);
    RealMulMono(l1, 2.0 * mu, t);
    Distribute(l1, 1.0, t);
  }

  /** The marginal at the second wei was positive and at least the best one left. */
  lemma SecondMarginal(pr: Problem, s: State, i: nat)
    requires pr.Valid() && Safe(pr, s) && Equilibrium(pr, s) && Earned(pr, s)
    requires pr.chunk == 1 && i < |pr.picks| && s.alloc[i] == 2
    requires 0 < pr.picks[i].D && !pr.picks[i].whitelisted
    ensures Lambda(pr, s) + 1 <= 2 * RealMarginal(pr.picks[i].R, pr.picks[i].D, 1)
  {
    hide Best, RealMarginal;
    assert PickSafe(pr, s, i);
    assert s.prev[i] == 1;
    assert MarginalAt(pr, i, 1) == RealMarginal(pr.picks[i].R, pr.picks[i].D, 1);
    BestIsFirstArgmax(pr, s, |pr.picks|);
  }

  // ---------------------------------------------------------------------------
  // Every plan
  // ---------------------------------------------------------------------------

  /** More stake than open picks, but at most two wei: both are on one pick. */
  lemma TwoWeiOnePick(s: State) returns (i: nat)
    requires Count(Opened(s)) < Sum(s.alloc) <= 2
    ensures OnlyOpen(s, i) && s.alloc[i] == 2 && Sum(s.alloc) == 2 && Count(Opened(s)) == 1
  {
    SomeOpen(s);
    var o := Opened(s);
    i :| i < |o| && o[i];
    var rest := o[i := false];
    CountUpdate(o, i, false);
    SumElement(s.alloc, i);
    CountAll(rest);
    forall j | 0 <= j < |s.alloc| && j != i ensures s.alloc[j] == 0 { assert !rest[j]; }
    SumUpdate(s.alloc, i, 0);
    SumZero(s.alloc[i := 0]);
  }

  lemma SomeOpen(s: State)
    requires 0 < Sum(s.alloc)
    ensures exists i: nat :: i < |s.alloc| && Opened(s)[i]
  {
    if forall i: nat :: i < |s.alloc| ==> !Opened(s)[i] {
      forall i | 0 <= i < |s.alloc| ensures s.alloc[i] == 0 { assert !Opened(s)[i]; }
      SumZero(s.alloc);
    }
  }

  lemma TwoWeiWithin(pr: Problem, s: State, x: seq<real>)
    requires pr.Valid() && Safe(pr, s) && Equilibrium(pr, s) && Earned(pr, s) && Split(pr, s, x)
    requires pr.chunk == 1 && Sum(s.alloc) <= 2
    ensures WithinClosedBound(pr, s, x)
  {
    hide TotalReward, Lambda, Count, Sum, Safe, Equilibrium, Earned, Moved;
    if Sum(s.alloc) <= Count(Opened(s)) {
      MovesAtMost(s, x);
      OneEach(pr.chunk, Count(Opened(s)));
      SmallMoves(pr, s, x);
    } else {
      var i := TwoWeiOnePick(s);
      TwoOnOne(pr, s, x, i);
    }
  }

  lemma OneEach(c: nat, k: nat)
    requires c == 1
    ensures c * k == k
  {
  }

  lemma MovesAtMost(s: State, x: seq<real>)
    requires |s.alloc| == |x| && (forall i :: 0 <= i < |x| ==> 0.0 <= x[i]) && SumUpTo(x, |x|) <= Sum(s.alloc) as real
    ensures Moved(Reals(s.alloc), x) <= Sum(s.alloc) as real
  {
    MovedAtMost(Reals(s.alloc), x, |x|);
  }

  /** With at most two wei every finished plan is within the closed bound. */
  lemma SmallBudgetsHold(pr: Problem, f: Floors, budget: nat, x: seq<real>)
    requires pr.Valid() && pr.SentinelsDominate() && Count(pr.preSeated) <= pr.remainingSlots
    requires pr.chunk == ChunkSize(budget) && budget <= 2
    requires Split(pr, Plan(pr, f, budget), x)
    ensures WithinClosedBound(pr, Plan(pr, f, budget), x)
  {
    hide Plan, Count, Sum, Safe, Equilibrium, Earned, WithinClosedBound, Split;
    PlanIsSafe(pr, f, budget);
    PlanEquilibrium(pr, f, budget);
    PlanEarned(pr, f, budget);
    TwoWeiWithin(pr, Plan(pr, f, budget), x);
  }
}
