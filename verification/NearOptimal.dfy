/**
 How far a plan in equilibrium can be from the best split of the same stake. Rewards
 are real numbers here, R*x/(D+x) for stake x, while the plan itself was chosen by
 comparing floored integer marginals one chunk at a time.
 */
module NearOptimal {
  import opened Arithmetic
  import opened Sums
  import opened Reward
  import opened Greedy
  import opened Reflow

  ghost function RewardOf(p: Pick, x: real): real
    requires 0.0 <= x
  {
    if p.D as real + x == 0.0 then 0.0 else (p.R as real * x) / (p.D as real + x)
  }

  ghost function RewardUpTo(pr: Problem, x: seq<real>, k: nat): real
    requires k <= |pr.picks| == |x| && forall i :: 0 <= i < |x| ==> 0.0 <= x[i]
  {
    if k == 0 then 0.0 else RewardUpTo(pr, x, k - 1) + RewardOf(pr.picks[k - 1], x[k - 1])
  }

  ghost function SumUpTo(x: seq<real>, k: nat): real
    requires k <= |x|
  {
    if k == 0 then 0.0 else SumUpTo(x, k - 1) + x[k - 1]
  }

  /** The stake that has to be added somewhere to get from a to x. */
  ghost function MovedUpTo(a: seq<real>, x: seq<real>, k: nat): real
    requires k <= |a| == |x|
  {
    if k == 0 then 0.0
    else MovedUpTo(a, x, k - 1) + (if x[k - 1] > a[k - 1] then x[k - 1] - a[k - 1] else 0.0)
  }

  ghost function TotalReward(pr: Problem, x: seq<real>): real
    requires |pr.picks| == |x| && forall i :: 0 <= i < |x| ==> 0.0 <= x[i]
  {
    RewardUpTo(pr, x, |x|)
  }

  ghost function Moved(a: seq<real>, x: seq<real>): real
    requires |a| == |x|
  {
    MovedUpTo(a, x, |a|)
  }

  ghost function Reals(s: seq<nat>): (r: seq<real>)
    ensures |r| == |s| && forall i :: 0 <= i < |s| ==> r[i] == s[i] as real && 0.0 <= r[i]
  {
    seq(|s|, i requires 0 <= i < |s| => s[i] as real)
  }

  /** The largest marginal any still-eligible pick offers, 0 when there is none. */
  function Lambda(pr: Problem, s: State): nat
    requires Shaped(pr, s)
  {
    var b := Best(pr, s, |pr.picks|);
    if b < 0 then 0 else MarginalAt(pr, b, s.alloc[b])
  }

  /**
   Another split of at most the same stake: within the caps, only on picks that are
   open or could still be opened, and different only on picks without a sentinel.
   */
  ghost predicate Redistribution(pr: Problem, s: State, x: seq<real>)
    requires Shaped(pr, s)
  {
    && |x| == |pr.picks|
    && (forall i :: 0 <= i < |x| ==> 0.0 <= x[i] <= pr.picks[i].cap as real)
    && (forall i: nat :: i < |x| && x[i] != s.alloc[i] as real ==>
      && 0 < pr.picks[i].D && !pr.picks[i].whitelisted
      && (0 < s.alloc[i] || Eligible(pr, s, i)))
    && SumUpTo(x, |x|) <= Sum(s.alloc) as real
  }

  // ---------------------------------------------------------------------------
  // Slopes of R*x/(D+x)
  // ---------------------------------------------------------------------------

  /** (f(y) - f(x)) (D+x)(D+y) = R D (y-x) */
  lemma RewardDifference(p: Pick, x: real, y: real)
    requires 0 < p.D && 0.0 <= x && 0.0 <= y
    ensures var (d, u, v) := (p.D as real, p.D as real + x, p.D as real + y);
      (RewardOf(p, y) - RewardOf(p, x)) * (u * v) == p.R as real * d * (y - x)
  {
    var d, R := p.D as real, p.R as real;
    var u, v := d + x, d + y;
    var fx, fy := RewardOf(p, x), RewardOf(p, y);
    assert fx * u == R * x && fy * v == R * y;
    calc {
      (fy - fx) * (u * v);
      (fy * v) * u - (fx * u) * v;
      R * y * (d + x) - R * x * (d + y);
      R * d * (y - x);
    }
  }

  lemma RealMulMono(a: real, b: real, c: real)
    requires a <= b && 0.0 <= c
    ensures a * c <= b * c
  {
  }

  lemma RealCancel(a: real, b: real, c: real)
    requires 0.0 < c && a * c <= b * c
    ensures a <= b
  {
    if b < a { RealMulPositive(a - b, c); }
  }

  lemma RealMulPositive(a: real, c: real)
    requires 0.0 < a && 0.0 < c
    ensures 0.0 < a * c
  {
  }

  lemma RewardIncreases(p: Pick, x: real, y: real)
    requires 0 < p.D && 0.0 <= x <= y
    ensures RewardOf(p, x) <= RewardOf(p, y)
  {
    var d := p.D as real;
    RewardDifference(p, x, y);
    var w := (d + x) * (d + y);
    assert 0.0 < w;
    RealMulMono(0.0, p.R as real * d, y - x);
    RealCancel(0.0, RewardOf(p, y) - RewardOf(p, x), w);
  }

  lemma RealMulNonNegative(a: real, b: real)
    requires 0.0 <= a && 0.0 <= b
    ensures 0.0 <= a * b
  {
  }

  lemma Regroup(l: real, u: real, v: real, e: real)
    ensures (l * (u * u)) * e == u * (l * u * e)
    ensures v * (l * u * e) == (l * e) * (u * v)
  {
  }

  /** gain = k*e/(u*v) with k at most l*u^2 is at most l*e. */
  lemma SlopeUpper(gain: real, k: real, l: real, u: real, v: real, e: real)
    requires gain * (u * v) == k * e
    requires k <= l * (u * u)
    requires 0.0 < u <= v && 0.0 <= e && 0.0 <= l
    ensures gain <= l * e
  {
    RealMulPositive(u, v);
    RealMulNonNegative(l, u);
    RealMulNonNegative(l * u, e);
    RealMulMono(k, l * (u * u), e);
    RealMulMono(u, v, l * u * e);
    Regroup(l, u, v, e);
    RealCancel(gain, l * e, u * v);
  }

  /** loss = k*e/(u*v) with k at least l*u^2 is at least l*e. */
  lemma SlopeLower(loss: real, k: real, l: real, u: real, v: real, e: real)
    requires loss * (u * v) == k * e
    requires l * (u * u) <= k
    requires 0.0 < v <= u && 0.0 <= e && 0.0 <= l
    ensures l * e <= loss
  {
    RealMulPositive(u, v);
    RealMulNonNegative(l, u);
    RealMulNonNegative(l * u, e);
    RealMulMono(l * (u * u), k, e);
    RealMulMono(v, u, l * u * e);
    Regroup(l, u, v, e);
    RealCancel(l * e, loss, u * v);
  }

  /** The floored marginal m at A brackets the real slope: m (D+A)^2 <= 10^27 R D <= (m+1) (D+A)^2. */
  lemma MarginalBrackets(p: Pick, A: nat)
    requires 0 < p.D
    ensures var (m, u) := (RealMarginal(p.R, p.D, A) as real, (p.D + A) as real);
      m * (u * u) <= MARGINAL_SCALE as real * (p.R as real * p.D as real) <= (m + 1.0) * (u * u)
  {
    RealMarginalBrackets(p.R, p.D, A);
    AsReals(RealMarginal(p.R, p.D, A), p.D + A, p.R, p.D);
  }

  lemma AsReals(m: nat, u: nat, R: nat, D: nat)
    requires m * (u * u) <= R * D * MARGINAL_SCALE <= (m + 1) * (u * u)
    ensures m as real * (u as real * u as real) <= MARGINAL_SCALE as real * (R as real * D as real)
    ensures MARGINAL_SCALE as real * (R as real * D as real) <= (m as real + 1.0) * (u as real * u as real)
  {
    RealProduct(u, u, m);
    RealProduct(u, u, m + 1);
    RealProduct(R, D, MARGINAL_SCALE);
    assert u * u * m == m * (u * u) && u * u * (m + 1) == (m + 1) * (u * u);
  }

  lemma GainArithmetic(gain: real, rd: real, m: real, m1: real, u: real, v: real, e: real)
    requires gain * (u * v) == rd * e
    requires MARGINAL_SCALE as real * rd <= m * (u * u)
    requires 0.0 <= m <= m1 && 0.0 < u <= v && 0.0 <= e
    ensures MARGINAL_SCALE as real * gain <= m1 * e
  {
    SquarePositive(u);
    RealMulMono(m, m1, u * u);
    ScaleBoth(gain, u * v, rd, e);
    SlopeUpper(MARGINAL_SCALE as real * gain, MARGINAL_SCALE as real * rd, m1, u, v, e);
  }

  lemma LossArithmetic(loss: real, rd: real, m: real, l: real, u: real, v: real, e: real)
    requires loss * (u * v) == rd * e
    requires m * (u * u) <= MARGINAL_SCALE as real * rd
    requires 0.0 <= l <= m && 0.0 < v <= u && 0.0 <= e
    ensures l * e <= MARGINAL_SCALE as real * loss
  {
    SquarePositive(u);
    RealMulMono(l, m, u * u);
    ScaleBoth(loss, u * v, rd, e);
    SlopeLower(MARGINAL_SCALE as real * loss, MARGINAL_SCALE as real * rd, l, u, v, e);
  }

  /** Above A the reward rises by less than (m + 1)/10^27 per wei, m the floored marginal at A. */
  lemma GainAbove(p: Pick, A: nat, y: real, m1: real)
    requires 0 < p.D && A as real <= y
    requires RealMarginal(p.R, p.D, A) as real + 1.0 <= m1
    ensures MARGINAL_SCALE as real * (RewardOf(p, y) - RewardOf(p, A as real)) <= m1 * (y - A as real)
  {
    hide RewardOf, RealMarginal;
    RewardDifference(p, A as real, y);
    MarginalBrackets(p, A);
    GainArithmetic(RewardOf(p, y) - RewardOf(p, A as real), p.R as real * p.D as real,
      RealMarginal(p.R, p.D, A) as real + 1.0, m1, (p.D + A) as real, p.D as real + y, y - A as real);
  }

  /** Below A the reward falls by at least m/10^27 per wei. */
  lemma LossBelow(p: Pick, A: nat, y: real, l: real)
    requires 0 < p.D && 0.0 <= y <= A as real
    requires 0.0 <= l <= RealMarginal(p.R, p.D, A) as real
    ensures l * (A as real - y) <= MARGINAL_SCALE as real * (RewardOf(p, A as real) - RewardOf(p, y))
  {
    hide RewardOf, RealMarginal;
    RewardDifference(p, y, A as real);
    MarginalBrackets(p, A);
    LossArithmetic(RewardOf(p, A as real) - RewardOf(p, y), p.R as real * p.D as real,
      RealMarginal(p.R, p.D, A) as real, l, (p.D + A) as real, p.D as real + y, A as real - y);
  }

  lemma SquarePositive(u: real)
    ensures 0.0 <= u * u
  {
  }

  lemma ScaleBoth(a: real, b: real, c: real, e: real)
    requires a * b == c * e
    ensures (MARGINAL_SCALE as real * a) * b == (MARGINAL_SCALE as real * c) * e
  {
    calc {
      (MARGINAL_SCALE as real * a) * b;
      MARGINAL_SCALE as real * (a * b);
      MARGINAL_SCALE as real * (c * e);
    }
  }

  lemma RealProduct(a: nat, b: nat, c: nat)
    ensures (a * b * c) as real == c as real * (a as real * b as real)
  {
  }

  // ---------------------------------------------------------------------------
  // The bound
  // ---------------------------------------------------------------------------

  /** One pick's share of the bound. */
  ghost function Share(l: nat, c: nat, A: real, y: real): real {
    l as real * (y - A) + (if y > A then y - A else 0.0) + (if 0.0 < A then l as real * c as real else 0.0)
  }

  lemma ShareBelow(l: nat, c: nat, A: real, b: real, y: real)
    requires 0.0 < A && b <= A <= b + c as real && y < A
    ensures y <= b ==> -(l as real * (b - y)) <= Share(l, c, A, y)
    ensures b <= y ==> 0.0 <= Share(l, c, A, y)
  {
    var r := l as real;
    RealMulMono(A - b, c as real, r);
    Distribute(r, y - b, b - A);
    Distribute(r, b - y, y - b);
    Distribute(r, A - b, b - A);
    if b <= y {
      RealMulMono(A - y, c as real, r);
      Distribute(r, A - y, y - A);
    }
  }

  lemma ShareAbove(l: nat, c: nat, A: real, y: real)
    requires A <= y
    ensures (l as real + 1.0) * (y - A) <= Share(l, c, A, y)
  {
    RealMulMono(0.0, l as real, c as real);
    assert (l as real + 1.0) * (y - A) == l as real * (y - A) + (y - A);
  }

  lemma PickAbove(p: Pick, A: nat, y: real, l: nat, c: nat)
    requires 0 < p.D && A as real <= y
    requires RealMarginal(p.R, p.D, A) <= l
    ensures MARGINAL_SCALE as real * (RewardOf(p, y) - RewardOf(p, A as real)) <= Share(l, c, A as real, y)
  {
    hide RewardOf, RealMarginal, Share;
    GainAbove(p, A, y, l as real + 1.0);
    ShareAbove(l, c, A as real, y);
  }

  lemma PickBelow(p: Pick, A: nat, b: nat, y: real, l: nat, c: nat)
    requires 0 < p.D && 0.0 <= y < A as real
    requires b < A <= b + c
    requires l <= RealMarginal(p.R, p.D, b)
    ensures MARGINAL_SCALE as real * (RewardOf(p, y) - RewardOf(p, A as real)) <= Share(l, c, A as real, y)
  {
    hide RewardOf, RealMarginal, Share;
    ShareBelow(l, c, A as real, b as real, y);
    if y <= b as real {
      LossBelow(p, b, y, l as real);
      RewardIncreases(p, b as real, A as real);
    } else {
      RewardIncreases(p, y, A as real);
    }
  }

  /** What the safety and equilibrium of s say about one pick, for a level l between its two marginals. */
  lemma PickBound(pr: Problem, s: State, i: nat, y: real, l: nat)
    requires pr.Valid() && Safe(pr, s) && i < |pr.picks|
    requires 0.0 <= y <= pr.picks[i].cap as real
    requires var p := pr.picks[i]; y != s.alloc[i] as real ==>
      0 < p.D && !p.whitelisted && (0 < s.alloc[i] || Eligible(pr, s, i))
    requires Eligible(pr, s, i) ==> MarginalAt(pr, i, s.alloc[i]) <= l
    requires 0 < s.alloc[i] ==> l <= MarginalAt(pr, i, s.prev[i])
    ensures var (p, A) := (pr.picks[i], s.alloc[i] as real);
      MARGINAL_SCALE as real * (RewardOf(p, y) - RewardOf(p, A)) <= Share(l, pr.chunk, A, y)
  {
    var p, A, b := pr.picks[i], s.alloc[i], s.prev[i];
    assert PickSafe(pr, s, i);
    if y > A as real {
      assert MarginalAt(pr, i, A) == RealMarginal(p.R, p.D, A);
      PickAbove(p, A, y, l, pr.chunk);
    } else if y < A as real {
      assert MarginalAt(pr, i, b) == RealMarginal(p.R, p.D, b);
      PickBelow(p, A, b, y, l, pr.chunk);
    } else {
      ShareAbove(l, pr.chunk, A as real, y);
    }
  }

  ghost function ShareUpTo(l: nat, c: nat, a: seq<real>, x: seq<real>, k: nat): real
    requires k <= |a| == |x|
  {
    if k == 0 then 0.0 else ShareUpTo(l, c, a, x, k - 1) + Share(l, c, a[k - 1], x[k - 1])
  }

  /** With the best marginal still on offer as the level, every pick is within its share. */
  lemma ShareBounds(pr: Problem, s: State, x: seq<real>, i: nat)
    requires pr.Valid() && Safe(pr, s) && Equilibrium(pr, s)
    requires Redistribution(pr, s, x) && i < |pr.picks|
    ensures var (p, A) := (pr.picks[i], s.alloc[i] as real);
      MARGINAL_SCALE as real * (RewardOf(p, x[i]) - RewardOf(p, A)) <= Share(Lambda(pr, s), pr.chunk, A, x[i])
  {
    hide RewardOf, Share;
    BestIsFirstArgmax(pr, s, |pr.picks|);
    PickBound(pr, s, i, x[i], Lambda(pr, s));
  }

  lemma {:induction false} BoundUpTo(pr: Problem, s: State, x: seq<real>, k: nat)
    requires pr.Valid() && Safe(pr, s) && Equilibrium(pr, s)
    requires Redistribution(pr, s, x)
    requires k <= |pr.picks|
    ensures var a := Reals(s.alloc);
      MARGINAL_SCALE as real * (RewardUpTo(pr, x, k) - RewardUpTo(pr, a, k)) <=
        ShareUpTo(Lambda(pr, s), pr.chunk, a, x, k)
    decreases k
  {
    hide RewardOf, Share, Lambda, Equilibrium;
    if k != 0 {
      BoundUpTo(pr, s, x, k - 1);
      ShareBounds(pr, s, x, k - 1);
    }
  }

  /** What `open` picks and a surplus of d wei amount to. */
  ghost function Level(l: nat, c: nat, d: real, open: nat): real {
    l as real * d + l as real * c as real * open as real
  }

  lemma AddShare(l: nat, c: nat, d: real, open: nat, A: real, y: real)
    ensures Level(l, c, d, open) + Share(l, c, A, y) ==
      Level(l, c, d + (y - A), open + if 0.0 < A then 1 else 0) + (if y > A then y - A else 0.0)
  {
    Distribute(l as real, d, y - A);
    Distribute(l as real * c as real, open as real, if 0.0 < A then 1.0 else 0.0);
  }

  lemma {:induction false} ShareTotals(l: nat, c: nat, s: State, x: seq<real>, k: nat)
    requires k <= |s.alloc| == |x|
    ensures var a := Reals(s.alloc);
      ShareUpTo(l, c, a, x, k) ==
        Level(l, c, SumUpTo(x, k) - SumUpTo(a, k), Count(Opened(s)[..k])) + MovedUpTo(a, x, k)
  {
    if k == 0 {
      assert Level(l, c, 0.0, 0) == 0.0;
    } else {
      var a := Reals(s.alloc);
      ShareTotals(l, c, s, x, k - 1);
      assert Opened(s)[..k][..k - 1] == Opened(s)[..k - 1];
      assert Opened(s)[..k][k - 1] == (0 < s.alloc[k - 1]);
      var d, o := SumUpTo(x, k - 1) - SumUpTo(a, k - 1), Count(Opened(s)[..k - 1]);
      AddShare(l, c, d, o, a[k - 1], x[k - 1]);
      assert SumUpTo(x, k) - SumUpTo(a, k) == d + (x[k - 1] - a[k - 1]);
    }
  }

  lemma LevelAtMost(l: nat, c: nat, d: real, open: nat)
    requires d <= 0.0
    ensures Level(l, c, d, open) <= (l * c * open) as real
  {
    RealMulMono(d, 0.0, l as real);
    ThreeFactors(l, c, open);
  }

  lemma Distribute(r: real, y: real, z: real)
    ensures r * (y + z) == r * y + r * z
  {
  }

  /**
   Near-optimality of any state in equilibrium. In units of 10^-27 wei, a different
   split gains at most one unit per wei it moves plus, for every open pick, one chunk
   at the best marginal still on offer.
   */
  lemma NearOptimality(pr: Problem, s: State, x: seq<real>)
    requires pr.Valid() && Safe(pr, s) && Equilibrium(pr, s)
    requires Redistribution(pr, s, x)
    ensures var a := Reals(s.alloc);
      MARGINAL_SCALE as real * (TotalReward(pr, x) - TotalReward(pr, a)) <=
        Moved(a, x) + (Lambda(pr, s) * pr.chunk * Count(Opened(s))) as real
  {
    var n, l, c, a := |pr.picks|, Lambda(pr, s), pr.chunk, Reals(s.alloc);
    BoundUpTo(pr, s, x, n);
    ShareTotals(l, c, s, x, n);
    assert Opened(s)[..n] == Opened(s);
    assert s.alloc[..n] == s.alloc;
    SumsAgree(s.alloc, n);
    LevelAtMost(l, c, SumUpTo(x, n) - SumUpTo(a, n), Count(Opened(s)));
  }

  lemma ThreeFactors(a: nat, b: nat, c: nat)
    ensures (a * b * c) as real == a as real * b as real * c as real
  {
  }

  lemma {:induction false} SumsAgree(s: seq<nat>, k: nat)
    requires k <= |s|
    ensures SumUpTo(Reals(s), k) == Sum(s[..k]) as real
  {
    if k != 0 {
      SumsAgree(s, k - 1);
      assert s[..k][..k - 1] == s[..k - 1];
    }
  }

  lemma {:induction false} MovedAtMost(a: seq<real>, x: seq<real>, k: nat)
    requires k <= |a| == |x|
    requires forall i :: 0 <= i < |a| ==> 0.0 <= a[i] && 0.0 <= x[i]
    ensures MovedUpTo(a, x, k) <= SumUpTo(x, k)
    ensures 0.0 <= SumUpTo(x, k)
  {
    if k != 0 { MovedAtMost(a, x, k - 1); }
  }

  /**
   The whole plan, reflow passes included: with no stake moved onto or off sentinel
   picks, no other split gains more than (stake + lambda * chunk * slots) / 10^27.
   */
  lemma PlanNearOptimal(pr: Problem, f: Floors, budget: nat, x: seq<real>)
    requires pr.Valid() && pr.SentinelsDominate() && Count(pr.preSeated) <= pr.remainingSlots
    requires Redistribution(pr, Plan(pr, f, budget), x)
    ensures var t := Plan(pr, f, budget);
      MARGINAL_SCALE as real * (TotalReward(pr, x) - TotalReward(pr, Reals(t.alloc))) <=
        (budget + Lambda(pr, t) * pr.chunk * pr.remainingSlots) as real
  {
    hide Best, ReflowPasses, Count;
    var t := Plan(pr, f, budget);
    PlanIsSafe(pr, f, budget);
    PlanEquilibrium(pr, f, budget);
    NearOptimality(pr, t, x);
    MovedAtMost(Reals(t.alloc), x, |x|);
    OpenFitsSlots(pr, t);
    MulMono(Count(Opened(t)), pr.remainingSlots, Lambda(pr, t) * pr.chunk);
  }
}
