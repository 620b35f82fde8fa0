/**
 From proposals to actions: frozen allocations are kept, the rest of the stake is
 optimized, and the difference to the current allocations becomes a list of actions
 whose amounts are GRT decimal strings.
 */
module Planner {
  import opened Sums
  import opened Options
  import opened Grt
  import opened Optimizer

  datatype Allocation = Allocation(id: string, allocatedTokens: nat)

  /** One entry of the current allocations, in the insertion order of the source's Map. */
  datatype Entry = Entry(deploymentId: string, allocation: Allocation)

  datatype Action =
    | Allocate(deploymentId: string, amount: string)
    | Unallocate(deploymentId: string, allocationId: string)
    | Reallocate(deploymentId: string, allocationId: string, amount: string)

  ghost predicate DistinctEntries(current: seq<Entry>) {
    forall i, j :: 0 <= i < j < |current| ==> current[i].deploymentId != current[j].deploymentId
  }

  function Find(current: seq<Entry>, id: string): (r: Option<Allocation>)
    ensures r.Some? ==> Entry(id, r.value) in current
    ensures r.None? ==> forall i :: 0 <= i < |current| ==> current[i].deploymentId != id
  {
    if current == [] then None
    else if current[0].deploymentId == id then Some(current[0].allocation)
    else Find(current[1..], id)
  }

  predicate Proposed(ps: seq<Proposal>, id: string) {
    exists i | 0 <= i < |ps| :: ps[i].deploymentId == id
  }

  // ---------------------------------------------------------------------------
  // Frozen allocations
  // ---------------------------------------------------------------------------

  function FrozenProposals(current: seq<Entry>, frozen: set<string>): seq<Proposal> {
    if current == [] then []
    else
      var e := current[|current| - 1];
      var ps := FrozenProposals(current[..|current| - 1], frozen);
      if e.deploymentId in frozen then ps + [Proposal(e.deploymentId, e.allocation.allocatedTokens)] else ps
  }

  function AvailableStake(totalStake: nat, frozenStake: nat): nat {
    if totalStake > frozenStake then totalStake - frozenStake else 0
  }

  // ---------------------------------------------------------------------------
  // The diff
  // ---------------------------------------------------------------------------

  /** What one proposal asks for, if anything. */
  function OpenAction(current: seq<Entry>, frozen: set<string>, p: Proposal): seq<Action> {
    if p.deploymentId in frozen then []
    else match Find(current, p.deploymentId)
      case None =>
        if p.allocatedTokens > 0 then [Allocate(p.deploymentId, WeiToGrtDecimalString(p.allocatedTokens))] else []
      case Some(a) =>
        if a.allocatedTokens == p.allocatedTokens then []
        else if p.allocatedTokens == 0 then [Unallocate(p.deploymentId, a.id)]
        else [Reallocate(p.deploymentId, a.id, WeiToGrtDecimalString(p.allocatedTokens))]
  }

  function OpenActions(current: seq<Entry>, frozen: set<string>, ps: seq<Proposal>): seq<Action> {
    if ps == [] then []
    else OpenActions(current, frozen, ps[..|ps| - 1]) + OpenAction(current, frozen, ps[|ps| - 1])
  }

  function CloseAction(frozen: set<string>, ps: seq<Proposal>, e: Entry): seq<Action> {
    if e.deploymentId in frozen || Proposed(ps, e.deploymentId) then []
    else [Unallocate(e.deploymentId, e.allocation.id)]
  }

  function CloseActions(current: seq<Entry>, frozen: set<string>, ps: seq<Proposal>): seq<Action> {
    if current == [] then []
    else CloseActions(current[..|current| - 1], frozen, ps) + CloseAction(frozen, ps, current[|current| - 1])
  }

  function Diff(current: seq<Entry>, ps: seq<Proposal>, frozen: set<string>): seq<Action> {
    OpenActions(current, frozen, ps) + CloseActions(current, frozen, ps)
  }

  method IndexProposals(ps: seq<Proposal>) returns (byId: map<string, Proposal>)
    ensures forall id :: id in byId <==> Proposed(ps, id)
  {
    byId := map[];
    for i := 0 to |ps|
      invariant forall id :: id in byId <==> exists j :: 0 <= j < i && ps[j].deploymentId == id
    {
      byId := byId[ps[i].deploymentId := ps[i]];
    }
  }

  method DiffActions(current: seq<Entry>, ps: seq<Proposal>, frozen: set<string>) returns (actions: seq<Action>)
    ensures actions == Diff(current, ps, frozen)
  {
    hide WeiToGrtDecimalString, Find, Proposed;
    var proposedById := IndexProposals(ps);
    actions := [];
    for i := 0 to |ps|
      invariant actions == OpenActions(current, frozen, ps[..i])
    {
      assert ps[..i + 1][..i] == ps[..i];
      var p := ps[i];
      if p.deploymentId in frozen { continue; }
      var found := Find(current, p.deploymentId);
      if found.None? {
        if p.allocatedTokens > 0 {
          actions := actions + [Allocate(p.deploymentId, WeiToGrtDecimalString(p.allocatedTokens))];
        }
        continue;
      }
      if found.value.allocatedTokens == p.allocatedTokens { continue; }
      if p.allocatedTokens == 0 {
        actions := actions + [Unallocate(p.deploymentId, found.value.id)];
      } else {
        actions := actions + [Reallocate(p.deploymentId, found.value.id, WeiToGrtDecimalString(p.allocatedTokens))];
      }
    }

    assert ps[..|ps|] == ps;
    ghost var openActions := actions;
    for i := 0 to |current|
      invariant actions == openActions + CloseActions(current[..i], frozen, ps)
    {
      assert current[..i + 1][..i] == current[..i];
      var e := current[i];
      if e.deploymentId in frozen { continue; }
      if e.deploymentId in proposedById { continue; }
      actions := actions + [Unallocate(e.deploymentId, e.allocation.id)];
    }
    assert current[..|current|] == current;
  }

  /** The indexer's plan for one set of current allocations. */
  method RunPlan(current: seq<Entry>, frozen: set<string>, cs: seq<Candidate>, cfg: Config, tokenCapacity: nat, net: Network)
    returns (proposed: seq<Proposal>, actions: seq<Action>)
    ensures proposed == PlannedProposals(current, frozen, cs, cfg, tokenCapacity, net)
    ensures actions == Diff(current, proposed, frozen)
  {
    hide Propose, Diff;
    var frozenProposals: seq<Proposal> := [];
    var frozenStakeUsed := 0;
    for i := 0 to |current|
      invariant frozenProposals == FrozenProposals(current[..i], frozen)
      invariant frozenStakeUsed == Sum(Amounts(frozenProposals))
    {
      assert current[..i + 1][..i] == current[..i];
      var e := current[i];
      if e.deploymentId !in frozen { continue; }
      AmountsAppend(frozenProposals, Proposal(e.deploymentId, e.allocation.allocatedTokens));
      frozenStakeUsed := frozenStakeUsed + e.allocation.allocatedTokens;
      frozenProposals := frozenProposals + [Proposal(e.deploymentId, e.allocation.allocatedTokens)];
    }
    assert current[..|current|] == current;
    var availableStake := if tokenCapacity > frozenStakeUsed then tokenCapacity - frozenStakeUsed else 0;

    var optimizable: seq<Candidate> := [];
    for i := 0 to |cs|
      invariant optimizable == Optimizable(cs[..i])
    {
      assert cs[..i + 1][..i] == cs[..i];
      if !cs[i].isFrozen { optimizable := optimizable + [cs[i]]; }
    }
    assert cs[..|cs|] == cs;

    var newProposals := Optimize(optimizable, cfg, tokenCapacity, availableStake, net, |frozenProposals|);
    proposed := frozenProposals + newProposals;
    actions := DiffActions(current, proposed, frozen);
  }

  lemma AmountsAppend(ps: seq<Proposal>, p: Proposal)
    ensures Sum(Amounts(ps + [p])) == Sum(Amounts(ps)) + p.allocatedTokens
  {
    assert Amounts(ps + [p])[..|ps|] == Amounts(ps);
  }

  function Optimizable(cs: seq<Candidate>): seq<Candidate> {
    if cs == [] then []
    else
      var rest := Optimizable(cs[..|cs| - 1]);
      if cs[|cs| - 1].isFrozen then rest else rest + [cs[|cs| - 1]]
  }

  function NewProposals(current: seq<Entry>, frozen: set<string>, cs: seq<Candidate>, cfg: Config, tokenCapacity: nat, net: Network): seq<Proposal>
  {
    var kept := FrozenProposals(current, frozen);
    Propose(Optimizable(cs), cfg, tokenCapacity, AvailableStake(tokenCapacity, Sum(Amounts(kept))), net, |kept|)
  }

  function PlannedProposals(current: seq<Entry>, frozen: set<string>, cs: seq<Candidate>, cfg: Config, tokenCapacity: nat, net: Network): seq<Proposal>
  {
    FrozenProposals(current, frozen) + NewProposals(current, frozen, cs, cfg, tokenCapacity, net)
  }
}
