/**
 From candidates to proposals: the optimizer builds its picks, allocates the available
 stake among them, and reports every pick that ends with a positive allocation.
 */
module Optimizer {
  import opened Arithmetic
  import opened Sums
  import opened Reward
  import opened Greedy
  import opened IterationBound
  import opened Reflow
  import opened Allocator

  /** A deployment as the candidate filter hands it over; amounts are wei. */
  datatype Candidate = Candidate(
    deploymentId: string,
    signalledTokens: nat,
    totalStakedTokens: nat,
    currentAllocation: nat,
    isRisky: bool,
    isFrozen: bool)

  /** A fraction in [0, 1] as parts per million. */
  type Ppm = p: nat | p <= PPM

  datatype Config = Config(
    maxAllocations: int,
    maxAllocation: Ppm,
    riskyDeploymentCap: Ppm,
    floors: Floors,
    whitelist: set<string>)

  datatype Network = Network(totalSignal: nat, issuancePerYear: nat)

  datatype Proposal = Proposal(deploymentId: string, allocatedTokens: nat)

  /** The reward share in wei per year; a candidate with none is not a pick. */
  function RewardShare(c: Candidate, net: Network): nat
    requires 0 < net.totalSignal
  {
    DivNonNegative(c.signalledTokens * net.issuancePerYear, net.totalSignal);
    (c.signalledTokens * net.issuancePerYear) / net.totalSignal
  }

  function PickOf(c: Candidate, cfg: Config, totalStake: nat, net: Network): Pick
    requires 0 < net.totalSignal
  {
    Pick(
      c.deploymentId,
      c.currentAllocation,
      RewardShare(c, net),
      if c.totalStakedTokens - c.currentAllocation > 0 then c.totalStakedTokens - c.currentAllocation else 0,
      PerDeploymentCap(totalStake, if c.isRisky then cfg.riskyDeploymentCap else cfg.maxAllocation),
      c.deploymentId in cfg.whitelist)
  }

  function BuildPicks(cs: seq<Candidate>, cfg: Config, totalStake: nat, net: Network): seq<Pick>
    requires 0 < net.totalSignal
  {
    if cs == [] then []
    else
      var last := cs[|cs| - 1];
      var picks := BuildPicks(cs[..|cs| - 1], cfg, totalStake, net);
      if RewardShare(last, net) == 0 then picks else picks + [PickOf(last, cfg, totalStake, net)]
  }

  /** The positive allocations among the first k picks. */
  function ProposalsOf(picks: seq<Pick>, alloc: seq<nat>, k: nat): seq<Proposal>
    requires k <= |picks| == |alloc|
  {
    if k == 0 then []
    else
      var ps := ProposalsOf(picks, alloc, k - 1);
      if alloc[k - 1] == 0 then ps else ps + [Proposal(picks[k - 1].deploymentId, alloc[k - 1])]
  }

  function RemainingSlots(cfg: Config, frozenSlots: nat): nat {
    Max(0, cfg.maxAllocations - frozenSlots)
  }

  function ProblemOf(picks: seq<Pick>, slots: nat, available: nat): Problem {
    Problem(picks, PreSeated(picks, slots), slots, ChunkSize(available))
  }

  lemma {:induction false} PicksValid(cs: seq<Candidate>, cfg: Config, totalStake: nat, net: Network)
    requires 0 < net.totalSignal
    ensures forall i :: 0 <= i < |BuildPicks(cs, cfg, totalStake, net)| ==> 0 < BuildPicks(cs, cfg, totalStake, net)[i].R
  {
    if cs != [] { PicksValid(cs[..|cs| - 1], cfg, totalStake, net); }
  }

  /**
   What a pick is, in the candidate's own numbers: R the floor of signal * issuance over the
   total signal, D the stake of the others, and the cap in parts per million of the stake.
   */
  ghost predicate PickMatches(c: Candidate, cfg: Config, totalStake: nat, net: Network, p: Pick) {
    && p.deploymentId == c.deploymentId && p.currentAllocation == c.currentAllocation
    && p.R * net.totalSignal <= c.signalledTokens * net.issuancePerYear < (p.R + 1) * net.totalSignal
    && (if c.currentAllocation <= c.totalStakedTokens then p.D + c.currentAllocation == c.totalStakedTokens else p.D == 0)
    && CapOf(if c.isRisky then cfg.riskyDeploymentCap else cfg.maxAllocation, totalStake, p.cap)
    && (p.whitelisted <==> c.deploymentId in cfg.whitelist)
  }

  ghost predicate CapOf(ppm: nat, totalStake: nat, cap: nat) {
    cap * 1_000_000 <= totalStake * ppm < (cap + 1) * 1_000_000
  }

  /** The candidates whose signal earns at least one wei a year. */
  function Earning(cs: seq<Candidate>, net: Network): seq<Candidate> {
    if cs == [] then []
    else
      var (front, c) := (Earning(cs[..|cs| - 1], net), cs[|cs| - 1]);
      if net.totalSignal <= c.signalledTokens * net.issuancePerYear then front + [c] else front
  }

  lemma ShareBrackets(c: Candidate, net: Network)
    requires 0 < net.totalSignal
    ensures var R := RewardShare(c, net);
      R * net.totalSignal <= c.signalledTokens * net.issuancePerYear < (R + 1) * net.totalSignal
    ensures RewardShare(c, net) == 0 <==> c.signalledTokens * net.issuancePerYear < net.totalSignal
  {
    DivBounds(c.signalledTokens * net.issuancePerYear, net.totalSignal);
    DivGalois(c.signalledTokens * net.issuancePerYear, net.totalSignal, 1);
  }

  lemma PickDescribes(c: Candidate, cfg: Config, totalStake: nat, net: Network)
    requires 0 < net.totalSignal
    ensures PickMatches(c, cfg, totalStake, net, PickOf(c, cfg, totalStake, net))
  {
    hide RewardShare, PerDeploymentCap;
    ShareBrackets(c, net);
    var ppm := if c.isRisky then cfg.riskyDeploymentCap else cfg.maxAllocation;
    assert CapOf(ppm, totalStake, PerDeploymentCap(totalStake, ppm));
  }

  /** The picks are the earning candidates, in order, each described by its own numbers. */
  lemma {:induction false} PicksExactly(cs: seq<Candidate>, cfg: Config, totalStake: nat, net: Network)
    requires 0 < net.totalSignal
    ensures var (picks, kept) := (BuildPicks(cs, cfg, totalStake, net), Earning(cs, net));
      |picks| == |kept| && forall i :: 0 <= i < |picks| ==> PickMatches(kept[i], cfg, totalStake, net, picks[i])
  {
    hide RewardShare, PickOf, PickMatches;
    if cs != [] {
      var c := cs[|cs| - 1];
      PicksExactly(cs[..|cs| - 1], cfg, totalStake, net);
      ShareBrackets(c, net);
      PickDescribes(c, cfg, totalStake, net);
    }
  }

  /** What the optimizer proposes besides the frozen allocations. */
  function Propose(cs: seq<Candidate>, cfg: Config, totalStake: nat, available: nat, net: Network, frozenSlots: nat): seq<Proposal>
  {
    var slots := RemainingSlots(cfg, frozenSlots);
    if net.totalSignal == 0 || net.issuancePerYear == 0 || available == 0 || slots == 0 then []
    else
      var picks := BuildPicks(cs, cfg, totalStake, net);
      PicksValid(cs, cfg, totalStake, net);
      var pr := ProblemOf(picks, slots, available);
      if picks == [] then [] else
      ProposalsOf(picks, Plan(pr, cfg.floors, available).alloc, |picks|)
  }

  /**
   What is proposed, from the raw inputs: with signal, issuance, stake and a free slot, the
   positive allocations of the plan for the picks, in chunks of a thousandth of the stake;
   otherwise nothing.
   */
  lemma ProposeExactly(cs: seq<Candidate>, cfg: Config, totalStake: nat, available: nat, net: Network, frozenSlots: nat)
    ensures var ps := Propose(cs, cfg, totalStake, available, net, frozenSlots);
      if 0 < net.totalSignal && 0 < net.issuancePerYear && 0 < available && frozenSlots < cfg.maxAllocations then
        var picks := BuildPicks(cs, cfg, totalStake, net);
        var slots := cfg.maxAllocations - frozenSlots;
        var pr := Problem(picks, PreSeated(picks, slots), slots, if available < 1000 then 1 else available / 1000);
        pr.Valid() && ps == ProposalsOf(picks, Plan(pr, cfg.floors, available).alloc, |picks|)
      else ps == []
  {
    hide Plan, BuildPicks, PreSeated;
    if 0 < net.totalSignal {
      PicksValid(cs, cfg, totalStake, net);
      var picks := BuildPicks(cs, cfg, totalStake, net);
      if 0 < available && frozenSlots < cfg.maxAllocations {
        ChunkIs(available);
        assert ProblemOf(picks, RemainingSlots(cfg, frozenSlots), available).Valid();
      }
    }
  }

  lemma ChunkIs(available: nat)
    ensures ChunkSize(available) == if available < 1000 then 1 else available / 1000
  {
  }

  lemma NoPicks(cfg: Config, totalStake: nat, net: Network)
    ensures 0 < net.totalSignal ==> BuildPicks([], cfg, totalStake, net) == []
  {
  }

  method CollectPicks(cs: seq<Candidate>, cfg: Config, totalStake: nat, net: Network) returns (picks: seq<Pick>)
    requires 0 < net.totalSignal
    ensures picks == BuildPicks(cs, cfg, totalStake, net)
  {
    hide PickOf, RewardShare;
    picks := [];
    for i := 0 to |cs|
      invariant picks == BuildPicks(cs[..i], cfg, totalStake, net)
    {
      assert cs[..i + 1][..i] == cs[..i];
      if RewardShare(cs[i], net) == 0 { continue; }
      picks := picks + [PickOf(cs[i], cfg, totalStake, net)];
    }
    assert cs[..|cs|] == cs;
  }

  method CollectProposals(picks: seq<Pick>, allocations: array<nat>) returns (proposals: seq<Proposal>)
    requires |picks| == allocations.Length
    ensures proposals == ProposalsOf(picks, allocations[..], |picks|)
  {
    proposals := [];
    for i := 0 to |picks|
      invariant proposals == ProposalsOf(picks, allocations[..], i)
    {
      var amount := allocations[i];
      if amount == 0 { continue; }
      proposals := proposals + [Proposal(picks[i].deploymentId, amount)];
    }
  }

  method Optimize(cs: seq<Candidate>, cfg: Config, totalStake: nat, available: nat, net: Network, frozenSlots: nat)
    returns (proposals: seq<Proposal>)
    ensures proposals == Propose(cs, cfg, totalStake, available, net, frozenSlots)
  {
    hide Run, ReflowPasses, BuildPicks, ProposalsOf, Rank;
    if |cs| == 0 { NoPicks(cfg, totalStake, net); return []; }
    if net.totalSignal == 0 || net.issuancePerYear == 0 { return []; }
    if available == 0 { return []; }
    var remainingSlots := Max(0, cfg.maxAllocations - frozenSlots);
    if remainingSlots == 0 { return []; }

    var picks := CollectPicks(cs, cfg, totalStake, net);
    PicksValid(cs, cfg, totalStake, net);
    if |picks| == 0 { return []; }

    var n := |picks|;
    var preSeated, slotsUsed := PreSeat(picks, remainingSlots);
    var pr := Problem(picks, preSeated[..], remainingSlots, ChunkSize(available));
    var allocations := new nat[n](_ => 0);
    var noneRejected := new bool[n](_ => false);
    ghost var start := Start(pr, available);
    assert allocations[..] == start.alloc && noneRejected[..] == start.rejected;
    ghost var mid, end;
    var remaining;
    slotsUsed, remaining, mid := GreedyLoop(pr, allocations, noneRejected, slotsUsed, available, start);
    end := ReflowLoop(pr, cfg.floors, allocations, noneRejected, slotsUsed, mid);
    assert end == Plan(pr, cfg.floors, available);

    proposals := CollectProposals(picks, allocations);
  }

  // ---------------------------------------------------------------------------
  // What the proposals add up to
  // ---------------------------------------------------------------------------

  function Amounts(ps: seq<Proposal>): (a: seq<nat>)
    ensures |a| == |ps|
  {
    seq(|ps|, i requires 0 <= i < |ps| => ps[i].allocatedTokens)
  }

  ghost predicate DistinctIds(ps: seq<Proposal>) {
    forall i, j :: 0 <= i < j < |ps| ==> ps[i].deploymentId != ps[j].deploymentId
  }

  ghost predicate DistinctCandidates(cs: seq<Candidate>) {
    forall i, j :: 0 <= i < j < |cs| ==> cs[i].deploymentId != cs[j].deploymentId
  }

  ghost predicate DistinctPicks(picks: seq<Pick>) {
    forall i, j :: 0 <= i < j < |picks| ==> picks[i].deploymentId != picks[j].deploymentId
  }

  ghost predicate IsPickOf(cs: seq<Candidate>, cfg: Config, totalStake: nat, net: Network, p: Pick)
    requires 0 < net.totalSignal
  {
    exists i :: 0 <= i < |cs| && p == PickOf(cs[i], cfg, totalStake, net)
  }

  lemma {:induction false} BuildPicksFrom(cs: seq<Candidate>, cfg: Config, totalStake: nat, net: Network)
    requires 0 < net.totalSignal
    ensures forall p :: p in BuildPicks(cs, cfg, totalStake, net) ==> IsPickOf(cs, cfg, totalStake, net, p)
  {
    hide PickOf, RewardShare;
    if cs != [] {
      var n := |cs| - 1;
      BuildPicksFrom(cs[..n], cfg, totalStake, net);
      forall p | p in BuildPicks(cs, cfg, totalStake, net) ensures IsPickOf(cs, cfg, totalStake, net, p) {
        if p in BuildPicks(cs[..n], cfg, totalStake, net) {
          var i :| 0 <= i < n && p == PickOf(cs[..n][i], cfg, totalStake, net);
          assert p == PickOf(cs[i], cfg, totalStake, net);
        } else {
          assert p == PickOf(cs[n], cfg, totalStake, net);
        }
      }
    }
  }

  lemma {:induction false} BuildPicksDistinct(cs: seq<Candidate>, cfg: Config, totalStake: nat, net: Network)
    requires 0 < net.totalSignal && DistinctCandidates(cs)
    ensures DistinctPicks(BuildPicks(cs, cfg, totalStake, net))
  {
    hide RewardShare, PerDeploymentCap;
    if cs != [] {
      var n := |cs| - 1;
      var front := BuildPicks(cs[..n], cfg, totalStake, net);
      BuildPicksDistinct(cs[..n], cfg, totalStake, net);
      BuildPicksFrom(cs[..n], cfg, totalStake, net);
      forall j | 0 <= j < |front| ensures front[j].deploymentId != cs[n].deploymentId {
        assert front[j] in front;
        var i :| 0 <= i < n && front[j] == PickOf(cs[..n][i], cfg, totalStake, net);
        assert front[j].deploymentId == cs[i].deploymentId;
      }
    }
  }

  lemma {:induction false} ProposalsSum(picks: seq<Pick>, alloc: seq<nat>, k: nat)
    requires k <= |picks| == |alloc|
    ensures Sum(Amounts(ProposalsOf(picks, alloc, k))) == Sum(alloc[..k])
    ensures |ProposalsOf(picks, alloc, k)| == Count(OpenMask(alloc)[..k])
  {
    if k != 0 {
      ProposalsSum(picks, alloc, k - 1);
      var ps := ProposalsOf(picks, alloc, k - 1);
      assert alloc[..k][..k - 1] == alloc[..k - 1];
      assert OpenMask(alloc)[..k][..k - 1] == OpenMask(alloc)[..k - 1];
      if alloc[k - 1] != 0 {
        var qs := ProposalsOf(picks, alloc, k);
        assert Amounts(qs)[..|ps|] == Amounts(ps);
      }
    }
  }

  ghost function OpenMask(alloc: seq<nat>): (o: seq<bool>)
    ensures |o| == |alloc|
  {
    seq(|alloc|, i requires 0 <= i < |alloc| => 0 < alloc[i])
  }

  ghost predicate IsProposalOf(picks: seq<Pick>, alloc: seq<nat>, k: nat, p: Proposal)
    requires k <= |picks| == |alloc|
  {
    exists i :: 0 <= i < k && 0 < alloc[i] && p == Proposal(picks[i].deploymentId, alloc[i])
  }

  lemma {:induction false} ProposalsAre(picks: seq<Pick>, alloc: seq<nat>, k: nat)
    requires k <= |picks| == |alloc|
    ensures var ps := ProposalsOf(picks, alloc, k);
      && (forall p :: p in ps <==> IsProposalOf(picks, alloc, k, p))
      && (DistinctPicks(picks) ==> DistinctIds(ps))
  {
    if k != 0 {
      ProposalsAre(picks, alloc, k - 1);
      var ps, qs := ProposalsOf(picks, alloc, k - 1), ProposalsOf(picks, alloc, k);
      forall p ensures p in qs <==> IsProposalOf(picks, alloc, k, p) {
        if p in ps {
          assert IsProposalOf(picks, alloc, k - 1, p);
          var i :| 0 <= i < k - 1 && 0 < alloc[i] && p == Proposal(picks[i].deploymentId, alloc[i]);
        }
        if IsProposalOf(picks, alloc, k, p) {
          var i :| 0 <= i < k && 0 < alloc[i] && p == Proposal(picks[i].deploymentId, alloc[i]);
          assert i < k - 1 ==> IsProposalOf(picks, alloc, k - 1, p);
        }
      }
      if DistinctPicks(picks) {
        forall j | 0 <= j < |ps| ensures ps[j].deploymentId != picks[k - 1].deploymentId {
          assert ps[j] in ps;
          assert IsProposalOf(picks, alloc, k - 1, ps[j]);
        }
      }
    }
  }

  /** The stake a proposal may have: positive and within the cap of its own candidate. */
  ghost predicate WithinCap(cs: seq<Candidate>, cfg: Config, totalStake: nat, p: Proposal) {
    exists i :: 0 <= i < |cs| && cs[i].deploymentId == p.deploymentId &&
      0 < p.allocatedTokens <=
        PerDeploymentCap(totalStake, if cs[i].isRisky then cfg.riskyDeploymentCap else cfg.maxAllocation) <= totalStake
  }

  /** The proposals of one problem are exactly the positive allocations of its plan. */
  lemma PlanProposals(picks: seq<Pick>, slots: nat, f: Floors, available: nat)
    requires forall i :: 0 <= i < |picks| ==> 0 < picks[i].R
    ensures var pr := ProblemOf(picks, slots, available);
      var t := Plan(pr, f, available);
      var ps := ProposalsOf(picks, t.alloc, |picks|);
      && Sum(Amounts(ps)) <= available
      && |ps| <= slots
      && (forall p :: p in ps <==> IsProposalOf(picks, t.alloc, |picks|, p))
      && (forall i :: 0 <= i < |picks| ==> t.alloc[i] <= picks[i].cap)
      && (DistinctPicks(picks) ==> DistinctIds(ps))
  {
    hide Plan, Sum, Count, Safe;
    var pr := ProblemOf(picks, slots, available);
    PreSeatedFits(picks, slots);
    PlanSafe(pr, f, available);
    var t := Plan(pr, f, available);
    ProposalsSum(picks, t.alloc, |picks|);
    ProposalsAre(picks, t.alloc, |picks|);
    assert t.alloc[..|picks|] == t.alloc;
    assert OpenMask(t.alloc)[..|picks|] == OpenMask(t.alloc) == Opened(t);
  }

  /**
   The proposals fit: together at most the available stake, at most the free slots,
   one per deployment, and each positive and within the cap of its candidate.
   */
  lemma ProposeFits(cs: seq<Candidate>, cfg: Config, totalStake: nat, available: nat, net: Network, frozenSlots: nat)
    ensures var ps := Propose(cs, cfg, totalStake, available, net, frozenSlots);
      && Sum(Amounts(ps)) <= available
      && |ps| <= RemainingSlots(cfg, frozenSlots)
      && (DistinctCandidates(cs) ==> DistinctIds(ps))
      && (forall p :: p in ps ==> WithinCap(cs, cfg, totalStake, p))
  {
    hide Plan, BuildPicks, PerDeploymentCap, ProposalsOf;
    var slots := RemainingSlots(cfg, frozenSlots);
    var ps := Propose(cs, cfg, totalStake, available, net, frozenSlots);
    if net.totalSignal != 0 && net.issuancePerYear != 0 && available != 0 && slots != 0 {
      var picks := BuildPicks(cs, cfg, totalStake, net);
      PicksValid(cs, cfg, totalStake, net);
      BuildPicksFrom(cs, cfg, totalStake, net);
      if DistinctCandidates(cs) { BuildPicksDistinct(cs, cfg, totalStake, net); }
      PlanProposals(picks, slots, cfg.floors, available);
      if picks != [] {
        var alloc := Plan(ProblemOf(picks, slots, available), cfg.floors, available).alloc;
        forall p | p in ps ensures WithinCap(cs, cfg, totalStake, p) {
          assert IsProposalOf(picks, alloc, |picks|, p);
          var i :| 0 <= i < |picks| && 0 < alloc[i] && p == Proposal(picks[i].deploymentId, alloc[i]);
          assert picks[i] in picks;
          var j :| 0 <= j < |cs| && picks[i] == PickOf(cs[j], cfg, totalStake, net);
          assert picks[i].cap ==
            PerDeploymentCap(totalStake, if cs[j].isRisky then cfg.riskyDeploymentCap else cfg.maxAllocation);
        }
      }
    }
  }

  // ---------------------------------------------------------------------------
  // The floor, from candidates to proposals
  // ---------------------------------------------------------------------------

  /** The proposed stake reaches the floors of its own candidate's pick. */
  ghost predicate ClearsFloor(cs: seq<Candidate>, cfg: Config, totalStake: nat, net: Network, p: Proposal) {
    && 0 < net.totalSignal
    && exists i :: 0 <= i < |cs| && cs[i].deploymentId == p.deploymentId
                   && cfg.floors.Met(PickOf(cs[i], cfg, totalStake, net), p.allocatedTokens)
  }

  lemma {:induction false} PicksNoMore(cs: seq<Candidate>, cfg: Config, totalStake: nat, net: Network)
    requires 0 < net.totalSignal
    ensures |BuildPicks(cs, cfg, totalStake, net)| <= |cs|
  {
    if cs != [] { PicksNoMore(cs[..|cs| - 1], cfg, totalStake, net); }
  }

  lemma FewPicksClearFloor(picks: seq<Pick>, slots: nat, f: Floors, available: nat)
    requires |picks| <= REFLOW_PASSES && forall i :: 0 <= i < |picks| ==> 0 < picks[i].R
    ensures FloorMet(ProblemOf(picks, slots, available), f, Plan(ProblemOf(picks, slots, available), f, available))
  {
    hide Plan, Count, FloorMet;
    PreSeatedFits(picks, slots);
    var _ := PlanFloor(ProblemOf(picks, slots, available), f, available);
  }

  /** With at most five candidates every proposal clears its floor. */
  lemma FewProposalsClearFloor(cs: seq<Candidate>, cfg: Config, totalStake: nat, available: nat, net: Network, frozenSlots: nat)
    requires |cs| <= 5
    ensures forall p :: p in Propose(cs, cfg, totalStake, available, net, frozenSlots) ==>
      ClearsFloor(cs, cfg, totalStake, net, p)
  {
    hide Plan, BuildPicks, PickOf, ProposalsOf;
    var slots := RemainingSlots(cfg, frozenSlots);
    var ps := Propose(cs, cfg, totalStake, available, net, frozenSlots);
    if net.totalSignal != 0 && net.issuancePerYear != 0 && available != 0 && slots != 0 {
      var picks := BuildPicks(cs, cfg, totalStake, net);
      PicksValid(cs, cfg, totalStake, net);
      PicksNoMore(cs, cfg, totalStake, net);
      BuildPicksFrom(cs, cfg, totalStake, net);
      FewPicksClearFloor(picks, slots, cfg.floors, available);
      var alloc := Plan(ProblemOf(picks, slots, available), cfg.floors, available).alloc;
      ProposalsAre(picks, alloc, |picks|);
      forall p | p in ps ensures ClearsFloor(cs, cfg, totalStake, net, p) {
        assert IsProposalOf(picks, alloc, |picks|, p);
        var i: nat :| i < |picks| && 0 < alloc[i] && p == Proposal(picks[i].deploymentId, alloc[i]);
        assert picks[i] in picks;
        var j :| 0 <= j < |cs| && picks[i] == PickOf(cs[j], cfg, totalStake, net);
        PickKeepsId(cs[j], cfg, totalStake, net);
      }
    }
  }

  lemma PickKeepsId(c: Candidate, cfg: Config, totalStake: nat, net: Network)
    requires 0 < net.totalSignal
    ensures PickOf(c, cfg, totalStake, net).deploymentId == c.deploymentId
  {
  }
}
