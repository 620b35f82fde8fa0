/**
 The problems that break a claim about plans are problems the optimizer can be given:
 each is built from distinct candidates and a configuration, and the exact conditions
 hold for candidates as they do for problems.
 */
module Inputs {
  import opened Arithmetic
  import opened Sums
  import opened Reward
  import opened Greedy
  import opened IterationBound
  import opened Reflow
  import opened Sharpness
  import opened Allocator
  import opened Optimizer
  import opened Whitelist

  /** A network whose signal equals its yearly issuance, so that a candidate's reward share is its signal. */
  lemma ShareIsSignal(c: Candidate, k: nat)
    requires 0 < k
    ensures RewardShare(c, Network(k, k)) == c.signalledTokens
  {
    DivExact(c.signalledTokens, k);
  }

  /** Candidates that all have a reward share become picks one by one. */
  lemma {:induction false} BuildAll(cs: seq<Candidate>, cfg: Config, totalStake: nat, net: Network)
    requires 0 < net.totalSignal && forall i :: 0 <= i < |cs| ==> RewardShare(cs[i], net) != 0
    ensures var picks := BuildPicks(cs, cfg, totalStake, net);
      |picks| == |cs| && forall i :: 0 <= i < |cs| ==> picks[i] == PickOf(cs[i], cfg, totalStake, net)
  {
    hide RewardShare, PickOf;
    if cs != [] { BuildAll(cs[..|cs| - 1], cfg, totalStake, net); }
  }

  /** Without existing allocations nobody is pre-seated. */
  lemma NobodySeated(picks: seq<Pick>, slots: nat)
    requires forall i :: 0 <= i < |picks| ==> picks[i].currentAllocation == 0
    ensures PreSeated(picks, slots) == seq(|picks|, _ => false)
  {
  }

  lemma FullCap(totalStake: nat)
    ensures PerDeploymentCap(totalStake, PPM) == totalStake
  {
    DivExact(totalStake, PPM);
  }

  // ---------------------------------------------------------------------------
  // The iteration limit
  // ---------------------------------------------------------------------------

  /** A risky cap of exactly one wei. */
  function OneWeiCap(budget: nat): Ppm
    requires 0 < budget <= PPM
  {
    OneWei(budget);
    (PPM + budget - 1) / budget
  }

  lemma OneWei(budget: nat)
    requires 0 < budget <= PPM
    ensures 0 <= (PPM + budget - 1) / budget <= PPM
    ensures (budget * ((PPM + budget - 1) / budget)) / PPM == 1
  {
    var n := PPM + budget - 1;
    var q := n / budget;
    DivBounds(n, budget);
    DivGalois(n, budget, 0);
    if PPM < q { MulMono(PPM + 1, q, budget); MulMono(1, budget, PPM); }
    assert budget * q == q * budget;
    assert (q + 1) * budget == q * budget + budget;
    DivUnique(budget * q, PPM, 1);
  }

  function SlowCandidates(n: nat, budget: nat): seq<Candidate>
    requires 0 < n
  {
    seq(n, i requires 0 <= i < n =>
      if i < n - 1 then Candidate(NameOf(i), 1, 0, 0, true, false)
      else Candidate(NameOf(i), 4 * budget, budget, 0, false, false))
  }

  function SlowConfig(n: nat, budget: nat): Config
    requires 0 < budget <= PPM
  {
    Config(n, PPM, OneWeiCap(budget), Floors(0, 0), {})
  }

  lemma SlowIsBuilt(n: nat, budget: nat, k: nat)
    requires 0 < n && 0 < budget <= PPM && 0 < k
    ensures var (cs, cfg, net) := (SlowCandidates(n, budget), SlowConfig(n, budget), Network(k, k));
      && DistinctCandidates(cs)
      && RemainingSlots(cfg, 0) == n
      && ProblemOf(BuildPicks(cs, cfg, budget, net), n, budget) == SlowProblem(n, budget)
  {
    hide RewardShare, PerDeploymentCap, ChunkSize, BuildPicks, Rank;
    var cs, cfg, net := SlowCandidates(n, budget), SlowConfig(n, budget), Network(k, k);
    forall i, j | 0 <= i < j < n ensures cs[i].deploymentId != cs[j].deploymentId {
      assert |cs[i].deploymentId| == i + 1 && |cs[j].deploymentId| == j + 1;
    }
    forall i | 0 <= i < n ensures RewardShare(cs[i], net) == cs[i].signalledTokens > 0 { ShareIsSignal(cs[i], k); }
    BuildAll(cs, cfg, budget, net);
    FullCap(budget);
    RiskyCap(budget);
    var picks := BuildPicks(cs, cfg, budget, net);
    NobodySeated(picks, n);
    assert picks == SlowProblem(n, budget).picks;
  }

  lemma RiskyCap(budget: nat)
    requires 0 < budget <= PPM
    ensures PerDeploymentCap(budget, OneWeiCap(budget)) == 1
  {
    OneWei(budget);
  }

  /** No optimization of distinct candidates with n picks and this stake is cut off. */
  ghost predicate LoopNeverCutOff(n: nat, available: nat) {
    forall cs: seq<Candidate>, cfg: Config, totalStake: nat, net: Network, slots: nat ::
      DistinctCandidates(cs) && available <= totalStake && 0 < net.totalSignal
      && |BuildPicks(cs, cfg, totalStake, net)| == n ==>
        LoopEnds(BuildPicks(cs, cfg, totalStake, net), slots, available)
  }

  ghost predicate LoopEnds(picks: seq<Pick>, slots: nat, available: nat) {
    var pr := ProblemOf(picks, slots, available);
    pr.Valid() && Done(pr, Run(pr, Start(pr, available), pr.MaxIters()))
  }

  /** The exact iteration bound, from candidates on. */
  lemma CandidatesBoundExact(n: nat, available: nat)
    requires 0 < n && 0 < available
    ensures LoopNeverCutOff(n, available) <==> available <= 1002 * ChunkSize(available) + n - 1
  {
    hide BuildPicks, Run, PreSeated;
    if available <= 1002 * ChunkSize(available) + n - 1 {
      forall cs: seq<Candidate>, cfg: Config, totalStake: nat, net: Network, slots: nat |
        DistinctCandidates(cs) && available <= totalStake && 0 < net.totalSignal
        && |BuildPicks(cs, cfg, totalStake, net)| == n
        ensures LoopEnds(BuildPicks(cs, cfg, totalStake, net), slots, available)
      {
        var pr := ProblemOf(BuildPicks(cs, cfg, totalStake, net), slots, available);
        PicksValid(cs, cfg, totalStake, net);
        RunEnds(pr, Start(pr, available));
      }
    } else {
      SlowIsBuilt(n, available, 1);
      SlowIsCutOff(n, available);
      assert !LoopEnds(BuildPicks(SlowCandidates(n, available), SlowConfig(n, available), available, Network(1, 1)), n, available);
    }
  }

  // ---------------------------------------------------------------------------
  // The reward floor
  // ---------------------------------------------------------------------------

  function ChainCandidates(n: nat): seq<Candidate> {
    seq(n, i requires 0 <= i < n => Candidate(NameOf(i), 1, 1, 0, false, false))
  }

  function ChainConfig(n: nat): Config {
    Config(n, PPM, PPM, Floors(1, 0), {})
  }

  lemma ChainIsBuilt(n: nat, k: nat)
    requires 0 < k
    ensures var (cs, cfg, net) := (ChainCandidates(n), ChainConfig(n), Network(k, k));
      && DistinctCandidates(cs)
      && RemainingSlots(cfg, 0) == n
      && ProblemOf(BuildPicks(cs, cfg, 1, net), n, 1) == ChainProblem(n)
      && (forall i :: 0 <= i < n ==> PickOf(cs[i], cfg, 1, net) == ChainProblem(n).picks[i])
  {
    hide RewardShare, PerDeploymentCap, BuildPicks, Rank;
    var cs, cfg, net := ChainCandidates(n), ChainConfig(n), Network(k, k);
    forall i, j | 0 <= i < j < n ensures cs[i].deploymentId != cs[j].deploymentId {
      assert |cs[i].deploymentId| == i + 1 && |cs[j].deploymentId| == j + 1;
    }
    forall i | 0 <= i < n ensures RewardShare(cs[i], net) == 1 { ShareIsSignal(cs[i], k); }
    BuildAll(cs, cfg, 1, net);
    FullCap(1);
    var picks := BuildPicks(cs, cfg, 1, net);
    NobodySeated(picks, n);
    assert picks == ChainProblem(n).picks;
  }

  /** Every proposal for n distinct candidates clears the floor of its own candidate. */
  ghost predicate ProposalsClearFloor(n: nat) {
    forall cs: seq<Candidate>, cfg: Config, totalStake: nat, available: nat, net: Network, frozenSlots: nat, p: Proposal ::
      DistinctCandidates(cs) && |cs| == n && available <= totalStake
      && p in Propose(cs, cfg, totalStake, available, net, frozenSlots) ==>
        ClearsFloor(cs, cfg, totalStake, net, p)
  }

  /** The sixth of n equal candidates is proposed although it is short. */
  lemma ChainProposes(n: nat)
    requires REFLOW_PASSES < n
    ensures var (cs, cfg, net) := (ChainCandidates(n), ChainConfig(n), Network(1, 1));
      && Proposal(NameOf(REFLOW_PASSES), 1) in Propose(cs, cfg, 1, 1, net, 0)
      && !ClearsFloor(cs, cfg, 1, net, Proposal(NameOf(REFLOW_PASSES), 1))
  {
    hide RewardShare, PickOf, BuildPicks, ProposalsOf, Plan, PreSeated, Count;
    var cs, cfg, net := ChainCandidates(n), ChainConfig(n), Network(1, 1);
    ChainIsBuilt(n, 1);
    ChainPlan(n);
    var pr := ChainProblem(n);
    var picks, alloc := BuildPicks(cs, cfg, 1, net), Plan(pr, cfg.floors, 1).alloc;
    assert picks == pr.picks;
    PicksValid(cs, cfg, 1, net);
    ProposalsAre(picks, alloc, n);
    assert IsProposalOf(picks, alloc, n, Proposal(NameOf(REFLOW_PASSES), 1)) by {
      assert picks[REFLOW_PASSES].deploymentId == NameOf(REFLOW_PASSES);
    }
  }

  /** Every proposal clears its floor if and only if there are at most five candidates. */
  lemma ProposalsClearFloorIff(n: nat)
    ensures ProposalsClearFloor(n) <==> n <= 5
  {
    hide Propose, ClearsFloor;
    if n <= REFLOW_PASSES {
      forall cs: seq<Candidate>, cfg: Config, totalStake: nat, available: nat, net: Network, frozenSlots: nat, p: Proposal |
        DistinctCandidates(cs) && |cs| == n && available <= totalStake
        && p in Propose(cs, cfg, totalStake, available, net, frozenSlots)
        ensures ClearsFloor(cs, cfg, totalStake, net, p)
      {
        FewProposalsClearFloor(cs, cfg, totalStake, available, net, frozenSlots);
      }
    } else {
      ChainIsBuilt(n, 1);
      ChainProposes(n);
    }
  }

  // ---------------------------------------------------------------------------
  // The closed near-optimality bound
  // ---------------------------------------------------------------------------

  function TiedCandidates(budget: nat): seq<Candidate> {
    [Candidate("a", budget, D0 * budget, 0, false, false), Candidate("b", 19 * budget, D1 * budget, 0, false, false)]
  }

  lemma TiedIsBuilt(budget: nat, k: nat)
    requires 0 < budget && 0 < k
    ensures var (cs, cfg, net) := (TiedCandidates(budget), Config(2, PPM, PPM, Floors(0, 0), {}), Network(k, k));
      && DistinctCandidates(cs)
      && RemainingSlots(cfg, 0) == 2
      && ProblemOf(BuildPicks(cs, cfg, budget, net), 2, budget) == TiedProblem(budget)
  {
    hide RewardShare, PerDeploymentCap, BuildPicks, Rank, ChunkSize;
    var cs, cfg, net := TiedCandidates(budget), Config(2, PPM, PPM, Floors(0, 0), {}), Network(k, k);
    MulPositive(D0, budget);
    MulPositive(D1, budget);
    forall i | 0 <= i < 2 ensures RewardShare(cs[i], net) == cs[i].signalledTokens > 0 { ShareIsSignal(cs[i], k); }
    BuildAll(cs, cfg, budget, net);
    FullCap(budget);
    var picks := BuildPicks(cs, cfg, budget, net);
    NobodySeated(picks, 2);
    assert PreSeated(picks, 2) == [false, false];
    assert picks == TiedProblem(budget).picks;
  }

  // ---------------------------------------------------------------------------
  // A whitelisted newcomer without a slot
  // ---------------------------------------------------------------------------

  /** One slot, an existing allocation on it, and a whitelisted deployment: the newcomer gets nothing. */
  lemma NewcomerIsBuilt(R: nat, D: nat, stake: nat, held: nat, f: Floors, k: nat)
    requires 0 < R && R * MARGINAL_SCALE < MAX_MARGINAL && 0 < stake && 0 < held && 0 < k
    ensures var cs := [Candidate("a", R, D + held, held, false, false), Candidate("b", R, D, 0, false, false)];
      var (cfg, net) := (Config(1, PPM, PPM, f, {"b"}), Network(k, k));
      var pr := ProblemOf(BuildPicks(cs, cfg, stake, net), 1, stake);
      && DistinctCandidates(cs)
      && pr.Valid() && |pr.picks| == 2 && pr.picks[1].whitelisted
      && Plan(pr, f, stake).alloc[1] == 0
  {
    hide RewardShare, PerDeploymentCap, BuildPicks, Plan;
    var cs := [Candidate("a", R, D + held, held, false, false), Candidate("b", R, D, 0, false, false)];
    var cfg, net := Config(1, PPM, PPM, f, {"b"}), Network(k, k);
    forall i | 0 <= i < 2 ensures RewardShare(cs[i], net) == R { ShareIsSignal(cs[i], k); }
    BuildAll(cs, cfg, stake, net);
    FullCap(stake);
    var picks := BuildPicks(cs, cfg, stake, net);
    assert picks == [Pick("a", held, R, D, stake, false), Pick("b", 0, R, D, stake, true)];
    CountAll(Ahead(picks, 0));
    assert PreSeated(picks, 1) == [true, false];
    NewcomerTurnedAway(R, D, stake, f, stake, held);
  }

  /** The plan that serves its second pick late is built from whitelisted candidates. */
  lemma LateIsBuilt(R: nat, k: nat)
    requires 0 < R && 0 < k
    ensures var cs := [Candidate("a", 1, 1, 0, false, false), Candidate("b", R, 1, 0, false, false)];
      var (cfg, net) := (Config(2, PPM, PPM, Floors(1, 0), {"a", "b"}), Network(k, k));
      && DistinctCandidates(cs)
      && RemainingSlots(cfg, 0) == 2
      && ProblemOf(BuildPicks(cs, cfg, 1, net), 2, 1) == LateProblem(R)
  {
    hide RewardShare, PerDeploymentCap, BuildPicks, Rank;
    var cs := [Candidate("a", 1, 1, 0, false, false), Candidate("b", R, 1, 0, false, false)];
    var cfg, net := Config(2, PPM, PPM, Floors(1, 0), {"a", "b"}), Network(k, k);
    forall i | 0 <= i < 2 ensures RewardShare(cs[i], net) == cs[i].signalledTokens > 0 { ShareIsSignal(cs[i], k); }
    BuildAll(cs, cfg, 1, net);
    FullCap(1);
    var picks := BuildPicks(cs, cfg, 1, net);
    NobodySeated(picks, 2);
    assert PreSeated(picks, 2) == [false, false];
    assert picks == LateProblem(R).picks;
  }
}
