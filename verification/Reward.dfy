/**
 The two integer quotients that drive the allocator: the scaled marginal reward of
 one more wei on a deployment, and the projected annual reward at an allocation.
 */
module Reward {
  import opened Arithmetic

  /** 10^27 */
  const MARGINAL_SCALE: nat := 1_000_000_000_000_000_000_000_000_000

  /** 2^200 */
  const MAX_MARGINAL: nat := 0x1_00000_00000_00000_00000_00000_00000_00000_00000_00000_00000

  const PPM: nat := 1_000_000

  /** The two constants as powers. */
  lemma Constants()
    ensures MARGINAL_SCALE == Pow(10, 27) && MAX_MARGINAL == Pow(2, 200)
  {
    PowerOf10(10);
    PowerOf2(2);
  }

  lemma PowerOf10(b: nat)
    requires b == 10
    ensures Pow(b, 27) == MARGINAL_SCALE
  {
    PowDouble(b, 0, 1);
    PowDouble(b, 1, 10);
    PowDouble(b, 3, 1000);
    PowDouble(b, 6, 1_000_000);
    PowDouble(b, 13, 10_000_000_000_000);
  }

  lemma PowerOf2(b: nat)
    requires b == 2
    ensures Pow(b, 200) == MAX_MARGINAL
  {
    PowDouble(b, 0, 1);
    PowDouble(b, 1, 2);
    PowDouble(b, 3, 8);
    PowDouble(b, 6, 64);
    PowDouble(b, 12, 4096);
    PowDouble(b, 25, 0x2_000_000);
    PowDouble(b, 50, 0x4_0000_0000_0000);
    PowDouble(b, 100, 0x10_00000_00000_00000_00000_0000);
  }

  /** floor(R * D * 10^27 / (D + A)^2), the marginal of a deployment without sentinel. */
  function RealMarginal(R: nat, D: nat, A: nat): (m: nat)
    requires 0 < D + A
  {
    MulPositive(D + A, D + A);
    DivNonNegative(R * D * MARGINAL_SCALE, Mul(D + A, D + A));
    (R * D * MARGINAL_SCALE) / Mul(D + A, D + A)
  }

  function ComputeMarginal(R: nat, D: nat, A: nat, whitelisted: bool): (m: nat)
  {
    if R == 0 then 0
    else if whitelisted && A == 0 then MAX_MARGINAL
    else if D == 0 then (if A == 0 then MAX_MARGINAL else 0)
    else RealMarginal(R, D, A)
  }

  function PerDeploymentCap(totalStake: nat, ppm: nat): (cap: nat)
    ensures ppm <= PPM ==> cap <= totalStake
    ensures cap * 1_000_000 <= totalStake * ppm < (cap + 1) * 1_000_000
  {
    DivBounds(totalStake * ppm, PPM);
    DivNonNegative(totalStake * ppm, PPM);
    if ppm <= PPM then MulMono(ppm, PPM, totalStake); DivMono(totalStake * ppm, totalStake * PPM, PPM);
      (totalStake * ppm) / PPM
    else (totalStake * ppm) / PPM
  }

  /** floor(R * A / (D + A)), 0 when nothing is staked at all. */
  function ProjectedReward(R: nat, D: nat, A: nat): nat
  {
    if D + A == 0 then 0 else
      DivNonNegative(R * A, D + A);
      (R * A) / (D + A)
  }

  /** The sentinel value is at least every later marginal of this deployment. */
  predicate SentinelDominates(R: nat, D: nat, whitelisted: bool)
  {
    !whitelisted || D == 0 || RealMarginal(R, D, 1) <= MAX_MARGINAL
  }

  /** The quotient, as two products. */
  lemma RealMarginalBrackets(R: nat, D: nat, A: nat)
    requires 0 < D
    ensures var (m, d, n) := (RealMarginal(R, D, A), (D + A) * (D + A), R * D * MARGINAL_SCALE);
      m * d <= n < (m + 1) * d
  {
    MulIs(D + A, D + A);
    MulPositive(D + A, D + A);
    DivBounds(R * D * MARGINAL_SCALE, (D + A) * (D + A));
  }

  lemma RealMarginalAntitone(R: nat, D: nat, A: nat, B: nat)
    requires 0 < D && A <= B
    ensures RealMarginal(R, D, B) <= RealMarginal(R, D, A)
  {
    MulPositive(D + A, D + A);
    MulMonotone(D + A, D + B, D + A, D + B);
    DivAntitone(R * D * MARGINAL_SCALE, Mul(D + A, D + A), Mul(D + B, D + B));
  }

  lemma MarginalAntitone(R: nat, D: nat, whitelisted: bool, A: nat, B: nat)
    requires SentinelDominates(R, D, whitelisted)
    requires A <= B
    ensures ComputeMarginal(R, D, B, whitelisted) <= ComputeMarginal(R, D, A, whitelisted)
  {
    if 0 < D {
      RealMarginalAntitone(R, D, A, B);
      if 1 <= B { RealMarginalAntitone(R, D, 1, B); }
    }
  }

  /**
   The marginal never rises with the allocation exactly when the sentinel dominates:
   a whitelisted deployment with a real marginal above 2^200 at one wei is the only
   exception.
   */
  lemma MarginalAntitoneIff(R: nat, D: nat, whitelisted: bool)
    requires 0 < R
    ensures SentinelDominates(R, D, whitelisted) <==>
            forall A: nat, B: nat | A <= B ::
              ComputeMarginal(R, D, B, whitelisted) <= ComputeMarginal(R, D, A, whitelisted)
  {
    if SentinelDominates(R, D, whitelisted) {
      forall A: nat, B: nat | A <= B
        ensures ComputeMarginal(R, D, B, whitelisted) <= ComputeMarginal(R, D, A, whitelisted)
      {
        MarginalAntitone(R, D, whitelisted, A, B);
      }
    } else {
      assert ComputeMarginal(R, D, 1, whitelisted) > ComputeMarginal(R, D, 0, whitelisted);
    }
  }

  /** R * 10^27 <= 2^200 is enough, and then no real marginal of any deployment beats the sentinel. */
  lemma SmallRewardDominated(R: nat, D: nat, A: nat, whitelisted: bool)
    requires R * MARGINAL_SCALE <= MAX_MARGINAL
    ensures ComputeMarginal(R, D, A, whitelisted) <= MAX_MARGINAL
    ensures SentinelDominates(R, D, whitelisted)
  {
    if 0 < D {
      RealMarginalBound(R, D, A);
      RealMarginalBound(R, D, 1);
    }
  }

  lemma RealMarginalBound(R: nat, D: nat, A: nat)
    requires 0 < D
    ensures RealMarginal(R, D, A) <= R * MARGINAL_SCALE
  {
    RealMarginalAntitone(R, D, 0, A);
    var n := R * MARGINAL_SCALE;
    assert R * D * MARGINAL_SCALE == n * D;
    MulIs(D, D);
    MulPositive(D, D);
    CancelSquare(n, D);
  }

  lemma CancelSquare(n: nat, D: nat)
    requires 0 < D
    ensures 0 < D * D && (n * D) / (D * D) <= n
  {
    MulMono(1, D, n * D);
    assert (n * D) * D == n * (D * D);
    DivMono(n * D, n * (D * D), D * D);
    DivExact(n, D * D);
  }

  lemma DivExact(q: nat, d: nat)
    requires 0 < d
    ensures (q * d) / d == q
  {
    assert (q + 1) * d == q * d + d;
    DivUnique(q * d, d, q);
  }

  /** The marginal without reference to the branches that compute it. */
  lemma MarginalCases(R: nat, D: nat, A: nat, whitelisted: bool)
    requires 0 < R
    ensures var m := ComputeMarginal(R, D, A, whitelisted);
      if A == 0 && (whitelisted || D == 0) then m == MAX_MARGINAL
      else if D == 0 then m == 0
      else m * ((D + A) * (D + A)) <= R * D * MARGINAL_SCALE < (m + 1) * ((D + A) * (D + A))
  {
    hide RealMarginal;
    if D > 0 { RealMarginalBrackets(R, D, A); }
  }

  /** The quotient, as two products. */
  lemma ProjectedRewardBrackets(R: nat, D: nat, A: nat)
    requires 0 < D + A
    ensures var q := ProjectedReward(R, D, A); q * (D + A) <= R * A < (q + 1) * (D + A)
  {
    DivBounds(R * A, D + A);
  }

  /** More stake never projects less reward. */
  lemma ProjectedRewardMono(R: nat, D: nat, A: nat, B: nat)
    requires A <= B
    ensures ProjectedReward(R, D, A) <= ProjectedReward(R, D, B)
  {
    if 0 < D + A {
      var q := ProjectedReward(R, D, A);
      DivBounds(R * A, D + A);
      // q*(D+A) <= R*A and q <= R give q*(D+B) <= R*B
      assert q <= R by {
        MulMono(A, D + A, R);
        DivMono(R * A, R * (D + A), D + A);
        DivExact(R, D + A);
      }
      MulMono(q, R, B - A);
      assert q * (D + B) == q * (D + A) + q * (B - A);
      assert R * B == R * A + R * (B - A);
      DivGalois(R * B, D + B, q);
    }
  }
}
