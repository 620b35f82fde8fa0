/**
 When the fixed iteration limit 1000 + |picks| + 1 can cut a greedy loop off while
 stake and an eligible pick are both left: exactly when the budget exceeds
 1002 chunks plus |picks| - 1 wei.
 */
module IterationBound {
  import opened Arithmetic
  import opened Sums
  import opened Reward
  import opened Greedy

  /** A thousandth of the budget, but at least one wei. */
  function ChunkSize(budget: nat): (c: nat)
    ensures 0 < c
    ensures if budget < 1000 then c == 1 else c * 1000 <= budget < (c + 1) * 1000
  {
    if budget / 1000 < 1 then 1 else budget / 1000
  }

  /** Nothing allocated yet, the pre-seated currents already counted. */
  function Start(pr: Problem, budget: nat): State {
    var n := |pr.picks|;
    State(seq(n, _ => 0), seq(n, _ => 0), seq(n, _ => false), Count(pr.preSeated), budget, 0)
  }

  ghost function Uncapped(pr: Problem, s: State): (u: seq<bool>)
    requires Shaped(pr, s)
    ensures |u| == |pr.picks|
  {
    seq(|pr.picks|, i requires 0 <= i < |pr.picks| => s.alloc[i] < pr.picks[i].cap)
  }

  /** One iteration spends a full chunk, or tops a pick up to its cap, or ends the budget. */
  lemma StepSpends(pr: Problem, s: State)
    requires pr.Valid() && Shaped(pr, s) && !Done(pr, s)
    ensures var (t, before, after) := (Step(pr, s), Count(Uncapped(pr, s)), Count(Uncapped(pr, Step(pr, s))));
      || (t.budget + pr.chunk == s.budget && after <= before)
      || (t.budget + 1 <= s.budget && after + 1 <= before)
      || t.budget == 0
  {
    var b := Best(pr, s, |pr.picks|);
    var t := Step(pr, s);
    GrantPositive(pr, s);
    BestIsFirstArgmax(pr, s, |pr.picks|);
    CountMono(Uncapped(pr, t), Uncapped(pr, s));
    if t.alloc[b] == pr.picks[b].cap {
      CountStrict(Uncapped(pr, t), Uncapped(pr, s), b);
    }
  }

  /** `capped` of the iterations only topped a pick up to its cap; all others spent a full chunk. */
  lemma {:induction false} RunSpends(pr: Problem, s: State, iters: nat) returns (capped: nat)
    requires pr.Valid() && Shaped(pr, s)
    requires !Done(pr, Run(pr, s, iters))
    ensures var t := Run(pr, s, iters);
      && capped <= iters
      && capped + Count(Uncapped(pr, t)) <= Count(Uncapped(pr, s))
      && t.budget + Mul(pr.chunk, iters - capped) + capped <= s.budget
    decreases iters
  {
    hide Best, Count;
    if iters == 0 {
      capped := 0;
    } else {
      StepSpends(pr, s);
      var t := Step(pr, s);
      capped := RunSpends(pr, t, iters - 1);
      assert t.budget != 0;
      if t.budget + pr.chunk != s.budget || Count(Uncapped(pr, t)) > Count(Uncapped(pr, s)) {
        capped := capped + 1;
      }
    }
  }

  /** Trading a full chunk for a cap-limited one never spends more. */
  lemma FewestSpent(chunk: nat, n: nat, capped: nat)
    requires 0 < chunk && capped + 1 <= n
    ensures 1002 * chunk + n - 1 <= Mul(chunk, 1001 + n - capped) + capped
  {
    MulMono(1, chunk, n - 1 - capped);
    MulIs(chunk, 1001 + n - capped);
    assert chunk * (1001 + n - capped) == chunk * 1002 + chunk * (n - 1 - capped);
  }

  /** Within the limit, a loop ends with its budget spent or with nobody left to take it. */
  lemma RunEnds(pr: Problem, s: State)
    requires pr.Valid() && Shaped(pr, s)
    requires s.budget <= 1002 * pr.chunk + |pr.picks| - 1
    ensures Done(pr, Run(pr, s, pr.MaxIters()))
  {
    RunEndsIn(pr, s, pr.MaxIters());
  }

  lemma RunEndsIn(pr: Problem, s: State, iters: nat)
    requires pr.Valid() && Shaped(pr, s)
    requires s.budget <= 1002 * pr.chunk + |pr.picks| - 1
    requires iters == 1001 + |pr.picks|
    ensures Done(pr, Run(pr, s, iters))
  {
    hide Run, Mul, MarginalAt;
    var n := |pr.picks|;
    var t := Run(pr, s, iters);
    if !Done(pr, t) {
      var capped := RunSpends(pr, s, iters);
      BestIsFirstArgmax(pr, t, n);
      assert Uncapped(pr, t)[Best(pr, t, n)];
      CountAll(Uncapped(pr, t));
      FewestSpent(pr.chunk, n, capped);
    }
  }

  /** The two ranges of stake in which every loop of the optimizer is inside the limit. */
  lemma UsualBudgetsFit(available: nat, budget: nat, n: nat)
    requires available < 1000 || 1_000_000 <= available
    requires budget <= available
    requires 0 < n
    ensures budget <= 1002 * ChunkSize(available) + n - 1
  {
  }

  // ---------------------------------------------------------------------------
  // The limit is sharp
  // ---------------------------------------------------------------------------

  ghost predicate NeverCutOff(n: nat, budget: nat) {
    forall pr: Problem ::
      pr.Valid() && |pr.picks| == n && pr.chunk == ChunkSize(budget) && Count(pr.preSeated) <= pr.remainingSlots ==>
        Done(pr, Run(pr, Start(pr, budget), pr.MaxIters()))
  }

  /** Ids for constructed problems: no two alike. */
  function NameOf(i: nat): (id: string)
    ensures |id| == i + 1
  {
    seq(i + 1, _ => 'Q')
  }

  /** n - 1 deployments nobody else is on, capped at one wei, and one that can take everything. */
  function SlowProblem(n: nat, budget: nat): Problem
    requires 0 < n && 0 < budget
  {
    Problem(
      seq(n, i requires 0 <= i < n =>
        if i < n - 1 then Pick(NameOf(i), 0, 1, 0, 1, false)
        else Pick(NameOf(i), 0, 4 * budget, budget, budget, false)),
      seq(n, _ => false), n, ChunkSize(budget))
  }

  ghost predicate SlowState(n: nat, budget: nat, s: State, k: nat)
    requires 0 < n && 0 < budget
  {
    var c := ChunkSize(budget);
    var pr := SlowProblem(n, budget);
    && Shaped(pr, s)
    && (forall i :: 0 <= i < n - 1 ==> s.alloc[i] == if i < k then 1 else 0)
    && s.alloc[n - 1] == (if k < n then 0 else Mul(c, k - n + 1))
    && s.budget == (if k < n then budget - k else budget - (n - 1) - Mul(c, k - n + 1))
    && (forall i :: 0 <= i < n ==> !s.rejected[i])
    && s.slotsUsed == (if k < n then k else n)
  }

  lemma BigPickMarginal(budget: nat, A: nat)
    requires 0 < budget && A <= budget
    ensures 0 < ComputeMarginal(4 * budget, budget, A, false) < MAX_MARGINAL
  {
    hide RealMarginal;
    RealMarginalBrackets(4 * budget, budget, A);
    assert 4 * budget * budget * MARGINAL_SCALE == 4 * (budget * budget) * MARGINAL_SCALE;
    MulMono2(budget, budget + A, budget, budget + A);
    MulMono2(budget + A, 2 * budget, budget + A, 2 * budget);
    MulPositive(budget, budget);
    BigQuotient(budget * budget, (budget + A) * (budget + A), RealMarginal(4 * budget, budget, A));
  }

  lemma BigQuotient(q: nat, d: nat, m: nat)
    requires 0 < q <= d <= 4 * q
    requires m * d <= 4 * q * MARGINAL_SCALE < (m + 1) * d
    ensures 0 < m < MAX_MARGINAL
  {
    if MAX_MARGINAL <= m { MulMono2(MAX_MARGINAL, m, q, d); }
  }

  lemma SlowBest(n: nat, budget: nat, s: State, k: nat)
    requires 0 < n && 1002 * ChunkSize(budget) + n - 1 < budget
    requires SlowState(n, budget, s, k) && s.alloc[n - 1] <= 1001 * ChunkSize(budget)
    ensures var (pr, b) := (SlowProblem(n, budget), if k < n - 1 then k else n - 1);
      Best(pr, s, n) == b && Grant(pr, s, b) == if k < n - 1 then 1 else pr.chunk
  {
    hide Best, RealMarginal;
    var pr := SlowProblem(n, budget);
    var b := if k < n - 1 then k else n - 1;
    BigPickMarginal(budget, s.alloc[n - 1]);
    BestIsFirstArgmax(pr, s, n);
    forall j: nat | j < n - 1 ensures Eligible(pr, s, j) <==> k <= j {
      assert pr.picks[j].cap == 1;
    }
    assert Eligible(pr, s, n - 1);
    assert IsFirstArgmax(pr, s, n, b);
  }

  lemma SlowStep(n: nat, budget: nat, s: State, k: nat)
    requires 0 < n && 1002 * ChunkSize(budget) + n - 1 < budget
    requires SlowState(n, budget, s, k) && k <= 1000 + n
    ensures var pr := SlowProblem(n, budget);
      pr.Valid() && !Done(pr, s) && SlowState(n, budget, Step(pr, s), k + 1)
  {
    hide Best, ComputeMarginal;
    var pr := SlowProblem(n, budget);
    var c := ChunkSize(budget);
    if n <= k + 1 {
      var m := k - n + 1;
      MulIs(c, 1001);
      MulMonotone(c, c, m, 1001);
    }
    SlowBest(n, budget, s, k);
  }

  lemma {:induction false} SlowRun(n: nat, budget: nat, s: State, k: nat, iters: nat)
    requires 0 < n && 1002 * ChunkSize(budget) + n - 1 < budget
    requires SlowState(n, budget, s, k) && k + iters == 1001 + n
    ensures var pr := SlowProblem(n, budget);
      pr.Valid() && !Done(pr, Run(pr, s, iters))
    decreases iters
  {
    var pr := SlowProblem(n, budget);
    if iters == 0 {
      MulIs(ChunkSize(budget), 1002);
      BigPickMarginal(budget, s.alloc[n - 1]);
      BestIsFirstArgmax(pr, s, n);
      assert Eligible(pr, s, n - 1);
    } else {
      SlowStep(n, budget, s, k);
      SlowRun(n, budget, Step(pr, s), k + 1, iters - 1);
    }
  }

  /** Past the bound this problem is cut off. */
  lemma SlowIsCutOff(n: nat, budget: nat)
    requires 0 < n && 1002 * ChunkSize(budget) + n - 1 < budget
    ensures var pr := SlowProblem(n, budget);
      && pr.Valid() && Count(pr.preSeated) <= pr.remainingSlots
      && !Done(pr, Run(pr, Start(pr, budget), pr.MaxIters()))
  {
    var pr := SlowProblem(n, budget);
    CountAll(pr.preSeated);
    SlowRun(n, budget, Start(pr, budget), 0, 1001 + n);
  }

  /** The exact iteration bound, for any number of picks and any budget. */
  lemma IterationBoundExact(n: nat, budget: nat)
    requires 0 < n && 0 < budget
    ensures NeverCutOff(n, budget) <==> budget <= 1002 * ChunkSize(budget) + n - 1
  {
    if budget <= 1002 * ChunkSize(budget) + n - 1 {
      forall pr: Problem |
        pr.Valid() && |pr.picks| == n && pr.chunk == ChunkSize(budget) && Count(pr.preSeated) <= pr.remainingSlots
        ensures Done(pr, Run(pr, Start(pr, budget), pr.MaxIters()))
      {
        RunEnds(pr, Start(pr, budget));
      }
    } else {
      SlowIsCutOff(n, budget);
    }
  }
}
