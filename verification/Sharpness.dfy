/**
 For which budgets the closed near-optimality bound is guaranteed: at most two wei. From
 three wei on, two deployments whose floored marginals tie while their real ones differ
 break it.
 */
module Sharpness {
  import opened Arithmetic
  import opened Sums
  import opened Reward
  import opened Greedy
  import opened IterationBound
  import opened Reflow
  import opened NearOptimal
  import opened SmallBudgets

  /** Every plan for this budget is within the closed bound, against every split. */
  ghost predicate ClosedBoundGuaranteed(budget: nat) {
    forall pr: Problem, f: Floors, x: seq<real> ::
      pr.Valid() && pr.SentinelsDominate() && Count(pr.preSeated) <= pr.remainingSlots
      && pr.chunk == ChunkSize(budget) && Split(pr, Plan(pr, f, budget), x) ==>
        WithinClosedBound(pr, Plan(pr, f, budget), x)
  }

  // ---------------------------------------------------------------------------
  // Two deployments whose floored marginals tie
  // ---------------------------------------------------------------------------

  const D0: nat := 900_000_000_000_000_000_000_000_000
  const D1: nat := 10_000_000_000_000_000_000_000_000_000

  function TiedProblem(budget: nat): Problem {
    Problem([Pick("a", 0, budget, D0 * budget, budget, false), Pick("b", 0, 19 * budget, D1 * budget, budget, false)],
            [false, false], 2, ChunkSize(budget))
  }

  /** `a` wei handed out, all to the first pick. */
  ghost predicate TiedState(budget: nat, s: State, a: nat) {
    && a <= budget && |s.prev| == 2
    && s.alloc == [a, 0] && s.rejected == [false, false]
    && s.slotsUsed == (if a == 0 then 0 else 1) && s.budget == budget - a
  }

  lemma MarginalIsOne(R: nat, D: nat, A: nat)
    requires 0 < D && (D + A) * (D + A) <= R * D * MARGINAL_SCALE < 2 * ((D + A) * (D + A))
    ensures RealMarginal(R, D, A) == 1
  {
    hide RealMarginal;
    RealMarginalBrackets(R, D, A);
    QuotientIsOne(RealMarginal(R, D, A), (D + A) * (D + A), R * D * MARGINAL_SCALE);
  }

  lemma QuotientIsOne(m: nat, d: nat, n: nat)
    requires m * d <= n < (m + 1) * d && d <= n < 2 * d
    ensures m == 1
  {
    if m >= 2 { MulMono(2, m, d); }
  }

  lemma Squares(d: nat, b: nat)
    ensures (d * b) * (d * b) == (d * d) * (b * b)
  {
  }

  lemma Numerator(b: nat, r: nat, d: nat, scale: nat)
    ensures (r * b) * (d * b) * scale == (r * d * scale) * (b * b)
  {
  }

  /** A bracket at size 1 with room to spare is a bracket at every size, up to the size itself. */
  lemma Scaled(b: nat, r: nat, d: nat, A: nat, scale: nat)
    requires 0 < b && A <= b
    requires (d + 1) * (d + 1) <= r * d * scale < 2 * (d * d)
    ensures (d * b + A) * (d * b + A) <= (r * b) * (d * b) * scale < 2 * ((d * b + A) * (d * b + A))
  {
    var q, u := b * b, d * b + A;
    MulMono2(d * b, u, d * b, u);
    assert (d + 1) * b == d * b + b;
    MulMono2(u, (d + 1) * b, u, (d + 1) * b);
    Squares(d, b);
    Squares(d + 1, b);
    Numerator(b, r, d, scale);
    Brackets((d + 1) * (d + 1), r * d * scale, d * d, q);
  }

  lemma Brackets(lo: nat, n: nat, hi: nat, q: nat)
    requires lo <= n < 2 * hi && 0 < q
    ensures lo * q <= n * q < 2 * (hi * q)
  {
    MulMono(lo, n, q);
    MulMono(n + 1, 2 * hi, q);
  }

  /** The first pick's marginal stays 1 up to the whole budget, and the second one's starts at 1. */
  lemma TiedMarginals(budget: nat, A: nat)
    requires 0 < budget && A <= budget
    ensures 0 < D0 * budget && 0 < D1 * budget
    ensures RealMarginal(budget, D0 * budget, A) == 1
    ensures RealMarginal(19 * budget, D1 * budget, 0) == 1
  {
    hide RealMarginal;
    Scaled(budget, 1, D0, A, MARGINAL_SCALE);
    MarginalIsOne(1 * budget, D0 * budget, A);
    Scaled(budget, 19, D1, 0, MARGINAL_SCALE);
    MarginalIsOne(19 * budget, D1 * budget, 0);
  }

  lemma TiedStep(budget: nat, s: State, a: nat)
    requires 0 < budget && TiedState(budget, s, a) && a < budget
    ensures var pr := TiedProblem(budget);
      pr.Valid() && !Done(pr, s) && TiedState(budget, Step(pr, s), Min(a + pr.chunk, budget))
  {
    hide RealMarginal, Best, ChunkSize;
    var pr := TiedProblem(budget);
    TiedMarginals(budget, a);
    assert MarginalAt(pr, 0, a) == 1 && MarginalAt(pr, 1, 0) == 1;
    BestIsFirstArgmax(pr, s, 2);
    assert Eligible(pr, s, 0);
    assert IsFirstArgmax(pr, s, 2, 0);
    var t := Step(pr, s);
    assert t.alloc == [Min(a + pr.chunk, budget), 0];
  }

  /** All the stake handed out goes to the first pick, a chunk an iteration. */
  lemma {:induction false} TiedRun(budget: nat, s: State, a: nat, iters: nat) returns (b: nat)
    requires 0 < budget && TiedState(budget, s, a)
    ensures TiedProblem(budget).Valid()
    ensures TiedState(budget, Run(TiedProblem(budget), s, iters), b)
    ensures b == budget || a + Mul(ChunkSize(budget), iters) <= b
    decreases iters
  {
    hide Best, Step, ChunkSize;
    MulPositive(D0, budget);
    b := a;
    if iters != 0 && a < budget {
      var pr := TiedProblem(budget);
      TiedStep(budget, s, a);
      b := TiedRun(budget, Step(pr, s), Min(a + pr.chunk, budget), iters - 1);
    }
  }

  /** At least three chunks are placed, all on the first pick. */
  lemma TiedPlan(budget: nat) returns (a: nat)
    requires 3 <= budget
    ensures TiedProblem(budget).Valid()
    ensures TiedState(budget, Plan(TiedProblem(budget), Floors(0, 0), budget), a)
    ensures 3 * ChunkSize(budget) <= a
  {
    hide Best, Run, Step;
    var pr := TiedProblem(budget);
    assert [false, false][..1] == [false] && [false][..0] == [];
    assert Count(pr.preSeated) == 0;
    assert TiedState(budget, Start(pr, budget), 0);
    a := TiedRun(budget, Start(pr, budget), 0, pr.MaxIters());
    assert !AnyFalls(pr, Floors(0, 0), Run(pr, Start(pr, budget), pr.MaxIters()));
    MulMonotone(pr.chunk, pr.chunk, 3, pr.MaxIters());
    MulIs(pr.chunk, 3);
    DivBounds(budget, 1000);
  }

  lemma TiedLambda(budget: nat, s: State, a: nat)
    requires 0 < a && TiedState(budget, s, a)
    ensures Lambda(TiedProblem(budget), s) == 1 && Count(Opened(s)) == 1
    ensures Reals(s.alloc) == [a as real, 0.0]
  {
    hide RealMarginal, Best, ChunkSize;
    var pr := TiedProblem(budget);
    TiedMarginals(budget, a);
    BestIsFirstArgmax(pr, s, 2);
    assert Eligible(pr, s, 1) && MarginalAt(pr, 1, 0) == 1;
    assert Opened(s) == [true, false];
    assert [true, false][..1] == [true] && [true][..0] == [];
  }

  lemma TiedSplit(budget: nat, s: State, a: nat)
    requires 0 < a && TiedState(budget, s, a)
    ensures 0 < D0 * budget && 0 < D1 * budget
    ensures Split(TiedProblem(budget), s, [0.0, a as real])
  {
    hide RealMarginal, ChunkSize;
    var x := [0.0, a as real];
    MulPositive(D0, budget);
    MulPositive(D1, budget);
    var one := s.alloc[..1];
    assert one == [a] && one[..0] == [] && Sum(one) == a;
    assert Sum(s.alloc) == a;
    assert SumUpTo(x, 1) == 0.0 && SumUpTo(x, 2) == a as real;
    assert Eligible(TiedProblem(budget), s, 1);
  }

  /** What a wei-s earn against R*size reward and D*size stake, a at most the size. */
  lemma EarnsAtLeast(f: real, r: real, d: real, b: real, a: real, scale: real, m: real)
    requires 0.0 <= a <= b && 0.0 < b && 0.0 <= d && 0.0 <= m
    requires f * (d * b + a) == (r * b) * a
    requires m * (d + 1.0) <= scale * r && 0.0 < d * b + a
    ensures m * a <= scale * f
  {
    var w := d * b + a;
    assert w <= (d + 1.0) * b by { assert (d + 1.0) * b == d * b + b; }
    RealMulNonNegative(m, a);
    RealMulMono(w, (d + 1.0) * b, m * a);
    RealMulNonNegative(a, b);
    RealMulMono(m * (d + 1.0), scale * r, a * b);
    FourFactors(m, a, d + 1.0, b);
    FourFactors(scale, a, r, b);
    assert (scale * f) * w == scale * ((r * b) * a);
    RealCancel(m * a, scale * f, w);
  }

  lemma FourFactors(m: real, a: real, d: real, b: real)
    ensures (m * a) * (d * b) == (m * d) * (a * b)
    ensures m * ((d * b) * a) == (m * d) * (a * b)
  {
  }

  lemma EarnsAtMost(f: real, r: real, d: real, b: real, a: real, scale: real, m: real)
    requires 0.0 <= a && 0.0 <= b && 0.0 <= d && 0.0 <= m
    requires f * (d * b + a) == (r * b) * a
    requires scale * r <= m * d && 0.0 < d * b + a
    ensures scale * f <= m * a
  {
    var w := d * b + a;
    RealMulNonNegative(m, a);
    RealMulMono(d * b, w, m * a);
    RealMulNonNegative(a, b);
    RealMulMono(scale * r, m * d, a * b);
    FourFactors(m, a, d, b);
    FourFactors(scale, a, r, b);
    assert (scale * f) * w == scale * ((r * b) * a);
    RealCancel(scale * f, m * a, w);
  }

  lemma RewardTimes(p: Pick, y: real)
    requires 0 < p.D && 0.0 <= y
    ensures RewardOf(p, y) * (p.D as real + y) == p.R as real * y && RewardOf(p, 0.0) == 0.0
  {
    RewardDifference(p, 0.0, y);
    assert RewardOf(p, 0.0) == 0.0 by { assert p.R as real * 0.0 == 0.0; }
  }

  lemma Products(r: nat, d: nat, b: nat)
    ensures (r * b) as real == r as real * b as real && (d * b) as real == d as real * b as real
  {
  }

  /** On the second pick `a` wei earn at least 1.89 units each, on the first at most 1.12. */
  lemma TiedRewards(budget: nat, a: nat)
    requires 0 < a <= budget
    ensures var (pr, y) := (TiedProblem(budget), a as real);
      && 1.89 * y <= MARGINAL_SCALE as real * RewardOf(pr.picks[1], y)
      && MARGINAL_SCALE as real * RewardOf(pr.picks[0], y) <= 1.12 * y
      && RewardOf(pr.picks[0], 0.0) == RewardOf(pr.picks[1], 0.0) == 0.0
  {
    hide RewardOf, ChunkSize;
    var pr, y, b := TiedProblem(budget), a as real, budget as real;
    MulPositive(D0, budget);
    MulPositive(D1, budget);
    RewardTimes(pr.picks[0], y);
    RewardTimes(pr.picks[1], y);
    Products(1, D0, budget);
    Products(19, D1, budget);
    EarnsAtLeast(RewardOf(pr.picks[1], y), 19.0, D1 as real, b, y, MARGINAL_SCALE as real, 1.89);
    EarnsAtMost(RewardOf(pr.picks[0], y), 1.0, D0 as real, b, y, MARGINAL_SCALE as real, 1.12);
  }

  /** Moving everything to the second pick gains more than two chunks' worth of units. */
  lemma TiedGain(budget: nat, s: State, a: nat)
    requires 0 < a && TiedState(budget, s, a) && 3 * ChunkSize(budget) <= a
    ensures Split(TiedProblem(budget), s, [0.0, a as real])
    ensures !WithinClosedBound(TiedProblem(budget), s, [0.0, a as real])
  {
    hide RewardOf, Lambda, Count, Split, ChunkSize;
    var pr, y := TiedProblem(budget), a as real;
    TiedSplit(budget, s, a);
    TiedLambda(budget, s, a);
    TiedRewards(budget, a);
    TwoTerms(pr, 0.0, y);
    TwoTerms(pr, y, 0.0);
    assert ClosedBound(1, pr.chunk, 1) == 2 * pr.chunk;
  }

  lemma TwoTerms(pr: Problem, u: real, v: real)
    requires |pr.picks| == 2 && 0.0 <= u && 0.0 <= v
    ensures TotalReward(pr, [u, v]) == RewardOf(pr.picks[0], u) + RewardOf(pr.picks[1], v)
  {
    hide RewardOf;
    var x := [u, v];
    assert RewardUpTo(pr, x, 0) == 0.0;
    assert RewardUpTo(pr, x, 1) == RewardOf(pr.picks[0], u);
    assert RewardUpTo(pr, x, 2) == RewardUpTo(pr, x, 1) + RewardOf(pr.picks[1], v);
  }

  /** The sentinel is out of play: nobody is whitelisted. */
  lemma TiedSentinels(budget: nat)
    ensures TiedProblem(budget).SentinelsDominate()
  {
  }

  /** From three wei on there is a plan that a split beats by more than the closed bound. */
  lemma ClosedBoundFails(budget: nat) returns (a: nat)
    requires 3 <= budget
    ensures var (pr, f) := (TiedProblem(budget), Floors(0, 0));
      && pr.Valid() && pr.SentinelsDominate() && Count(pr.preSeated) <= pr.remainingSlots && pr.chunk == ChunkSize(budget)
      && Split(pr, Plan(pr, f, budget), [0.0, a as real])
      && !WithinClosedBound(pr, Plan(pr, f, budget), [0.0, a as real])
  {
    hide Plan, WithinClosedBound, Split, TiedState;
    a := TiedPlan(budget);
    TiedSentinels(budget);
    CountAll(TiedProblem(budget).preSeated);
    TiedGain(budget, Plan(TiedProblem(budget), Floors(0, 0), budget), a);
  }

  /**
   The exact range: no split of any plan gains more than (lambda + 1) units for one chunk
   of every open pick, whatever the problem and the floors, if and only if the budget is
   at most two wei.
   */
  lemma ClosedBoundGuaranteedIff(budget: nat)
    ensures ClosedBoundGuaranteed(budget) <==> budget <= 2
  {
    hide Plan, WithinClosedBound, Split, ChunkSize;
    if budget <= 2 {
      forall pr: Problem, f: Floors, x: seq<real> |
        pr.Valid() && pr.SentinelsDominate() && Count(pr.preSeated) <= pr.remainingSlots
        && pr.chunk == ChunkSize(budget) && Split(pr, Plan(pr, f, budget), x)
        ensures WithinClosedBound(pr, Plan(pr, f, budget), x)
      {
        SmallBudgetsHold(pr, f, budget, x);
      }
    } else {
      var a := ClosedBoundFails(budget);
    }
  }
}
