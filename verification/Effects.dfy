/** What executing a plan's actions does to the indexer's holdings. */
module Effects {
  import opened Arithmetic
  import opened Sums
  import opened Reward
  import opened Decimal
  import opened Options
  import opened Grt
  import opened Optimizer
  import opened Planner

  /** Deployment id to allocated wei. */
  type Holdings = map<string, nat>

  /** The wei an action's amount string stands for. */
  function AmountWei(amount: string): nat {
    match GrtToWei(amount)
    case Some(wei) => ParseNat(wei)
    case None => 0
  }

  lemma AmountOfPrinted(wei: nat)
    ensures AmountWei(WeiToGrtDecimalString(wei)) == wei
  {
    WeiRoundTrip(wei);
    PrintNatCanonical(wei);
  }

  function Execute(h: Holdings, a: Action): Holdings {
    match a
    case Allocate(id, amount) => h[id := AmountWei(amount)]
    case Reallocate(id, _, amount) => h[id := AmountWei(amount)]
    case Unallocate(id, _) => h - {id}
  }

  function ExecuteAll(h: Holdings, actions: seq<Action>): Holdings {
    if actions == [] then h else Execute(ExecuteAll(h, actions[..|actions| - 1]), actions[|actions| - 1])
  }

  function Held(h: Holdings, id: string): Option<nat> {
    if id in h then Some(h[id]) else None
  }

  function HoldingsOf(current: seq<Entry>): Holdings {
    if current == [] then map[]
    else
      var e := current[|current| - 1];
      HoldingsOf(current[..|current| - 1])[e.deploymentId := e.allocation.allocatedTokens]
  }

  /** What a deployment should hold after its proposal p, when it holds h before. */
  function Goal(h: Option<nat>, p: Proposal): Option<nat> {
    match h
    case None => if 0 < p.allocatedTokens then Some(p.allocatedTokens) else None
    case Some(v) => if 0 < p.allocatedTokens || v == 0 then Some(p.allocatedTokens) else None
  }

  predicate HasEntry(current: seq<Entry>, id: string) {
    exists i | 0 <= i < |current| :: current[i].deploymentId == id
  }

  lemma {:induction false} HoldingsAgree(current: seq<Entry>)
    requires DistinctEntries(current)
    ensures forall i :: 0 <= i < |current| ==>
      Held(HoldingsOf(current), current[i].deploymentId) == Some(current[i].allocation.allocatedTokens)
    ensures forall id :: id in HoldingsOf(current) <==> HasEntry(current, id)
  {
    if current != [] {
      var n := |current| - 1;
      HoldingsAgree(current[..n]);
      forall id ensures id in HoldingsOf(current) <==> HasEntry(current, id) {
        EntryConcat(current, id);
      }
    }
  }

  lemma EntryConcat(current: seq<Entry>, id: string)
    requires current != []
    ensures var n := |current| - 1;
      HasEntry(current, id) <==> HasEntry(current[..n], id) || current[n].deploymentId == id
  {
    var n := |current| - 1;
    if i: nat :| i < |current| && current[i].deploymentId == id {
      assert i < n ==> current[..n][i].deploymentId == id;
    }
    if i: nat :| i < n && current[..n][i].deploymentId == id {
      assert current[i].deploymentId == id;
    }
  }

  lemma ProposedConcat(ps: seq<Proposal>, id: string)
    requires ps != []
    ensures var n := |ps| - 1;
      Proposed(ps, id) <==> Proposed(ps[..n], id) || ps[n].deploymentId == id
  {
    var n := |ps| - 1;
    if i: nat :| i < |ps| && ps[i].deploymentId == id {
      assert i < n ==> ps[..n][i].deploymentId == id;
    }
    if i: nat :| i < n && ps[..n][i].deploymentId == id {
      assert ps[i].deploymentId == id;
    }
  }

  lemma FindAgrees(current: seq<Entry>, id: string)
    requires DistinctEntries(current)
    ensures match Find(current, id)
      case None => Held(HoldingsOf(current), id) == None
      case Some(a) => Held(HoldingsOf(current), id) == Some(a.allocatedTokens)
  {
    HoldingsAgree(current);
    if Find(current, id).Some? {
      var i :| 0 <= i < |current| && current[i] == Entry(id, Find(current, id).value);
    }
  }

  lemma {:induction false} ExecuteConcat(h: Holdings, x: seq<Action>, y: seq<Action>)
    ensures ExecuteAll(h, x + y) == ExecuteAll(ExecuteAll(h, x), y)
  {
    if y == [] {
      assert x + y == x;
    } else {
      assert (x + y)[..|x + y| - 1] == x + y[..|y| - 1];
      ExecuteConcat(h, x, y[..|y| - 1]);
    }
  }

  // ---------------------------------------------------------------------------
  // Proposals
  // ---------------------------------------------------------------------------

  /** One proposal's action moves its deployment to the goal and touches nothing else. */
  lemma OpenOne(current: seq<Entry>, frozen: set<string>, p: Proposal, h: Holdings, id: string)
    requires DistinctEntries(current)
    requires Held(h, p.deploymentId) == Held(HoldingsOf(current), p.deploymentId)
    ensures Held(ExecuteAll(h, OpenAction(current, frozen, p)), id) ==
      if id == p.deploymentId && id !in frozen then Goal(Held(h, id), p) else Held(h, id)
  {
    hide AmountWei, WeiToGrtDecimalString, HoldingsOf, Find;
    FindAgrees(current, p.deploymentId);
    AmountOfPrinted(p.allocatedTokens);
    var actions := OpenAction(current, frozen, p);
    if actions != [] {
      assert actions[..0] == [];
      assert ExecuteAll(h, actions) == Execute(h, actions[0]);
    }
  }

  lemma {:induction false} OpenAll(current: seq<Entry>, frozen: set<string>, ps: seq<Proposal>, id: string)
    requires DistinctEntries(current) && DistinctIds(ps)
    ensures var (h, t) := (HoldingsOf(current), ExecuteAll(HoldingsOf(current), OpenActions(current, frozen, ps)));
      && (id in frozen || !Proposed(ps, id) ==> Held(t, id) == Held(h, id))
      && (forall j :: 0 <= j < |ps| && ps[j].deploymentId == id && id !in frozen ==> Held(t, id) == Goal(Held(h, id), ps[j]))
  {
    hide OpenAction, HoldingsOf, Goal, Held, Execute;
    if ps != [] {
      var n := |ps| - 1;
      var h := HoldingsOf(current);
      var front := ps[..n];
      OpenAll(current, frozen, front, id);
      OpenAll(current, frozen, front, ps[n].deploymentId);
      assert forall j :: 0 <= j < n ==> front[j] == ps[j];
      assert !Proposed(front, ps[n].deploymentId);
      OpenOne(current, frozen, ps[n], ExecuteAll(h, OpenActions(current, frozen, front)), id);
      ExecuteConcat(h, OpenActions(current, frozen, front), OpenAction(current, frozen, ps[n]));
      ProposedConcat(ps, id);
    }
  }

  lemma {:induction false} CloseAll(current: seq<Entry>, frozen: set<string>, ps: seq<Proposal>, h: Holdings, id: string)
    ensures var t := ExecuteAll(h, CloseActions(current, frozen, ps));
      Held(t, id) == if id !in frozen && !Proposed(ps, id) && HasEntry(current, id) then None else Held(h, id)
  {
    hide Proposed, HasEntry;
    if current == [] {
      assert !HasEntry([], id) by { NoEntry(id); }
    } else {
      var n := |current| - 1;
      var front := current[..n];
      CloseAll(front, frozen, ps, h, id);
      CloseOne(frozen, ps, current[n], ExecuteAll(h, CloseActions(front, frozen, ps)), id);
      ExecuteConcat(h, CloseActions(front, frozen, ps), CloseAction(frozen, ps, current[n]));
      EntryConcat(current, id);
    }
  }

  lemma NoEntry(id: string)
    ensures !HasEntry([], id)
  {
  }

  lemma CloseOne(frozen: set<string>, ps: seq<Proposal>, e: Entry, h: Holdings, id: string)
    ensures Held(ExecuteAll(h, CloseAction(frozen, ps, e)), id) ==
      if id == e.deploymentId && id !in frozen && !Proposed(ps, id) then None else Held(h, id)
  {
    hide Proposed;
    var actions := CloseAction(frozen, ps, e);
    if actions != [] {
      assert actions[..0] == [];
      assert ExecuteAll(h, actions) == Execute(h, actions[0]);
    }
  }

  /**
   The diff is correct deployment by deployment, for any current allocations and any
   proposals that name each deployment once: a frozen one keeps what it holds, a proposed
   one reaches its goal, and any other is closed.
   */
  lemma DiffReaches(current: seq<Entry>, ps: seq<Proposal>, frozen: set<string>, id: string)
    requires DistinctEntries(current) && DistinctIds(ps)
    ensures var (h, t) := (HoldingsOf(current), ExecuteAll(HoldingsOf(current), Diff(current, ps, frozen)));
      && (id in frozen ==> Held(t, id) == Held(h, id))
      && (forall j :: 0 <= j < |ps| && ps[j].deploymentId == id && id !in frozen ==> Held(t, id) == Goal(Held(h, id), ps[j]))
      && (id !in frozen && !Proposed(ps, id) ==> Held(t, id) == None)
  {
    var h := HoldingsOf(current);
    OpenAll(current, frozen, ps, id);
    ExecuteConcat(h, OpenActions(current, frozen, ps), CloseActions(current, frozen, ps));
    CloseAll(current, frozen, ps, ExecuteAll(h, OpenActions(current, frozen, ps)), id);
    HoldingsAgree(current);
  }

  // ---------------------------------------------------------------------------
  // The action list
  // ---------------------------------------------------------------------------

  predicate Targets(actions: seq<Action>, id: string) {
    exists i | 0 <= i < |actions| :: actions[i].deploymentId == id
  }

  ghost predicate OnePerDeployment(actions: seq<Action>) {
    forall i, j :: 0 <= i < j < |actions| ==> actions[i].deploymentId != actions[j].deploymentId
  }

  /** An action names the right on-chain allocation, or opens one where there is none. */
  ghost predicate RightAllocation(current: seq<Entry>, a: Action) {
    match a
    case Allocate(id, _) => Find(current, id) == None
    case Unallocate(id, alloc) => Find(current, id).Some? && Find(current, id).value.id == alloc
    case Reallocate(id, alloc, _) => Find(current, id).Some? && Find(current, id).value.id == alloc
  }

  lemma TargetsConcat(x: seq<Action>, y: seq<Action>, id: string)
    ensures Targets(x + y, id) <==> Targets(x, id) || Targets(y, id)
  {
    if i: nat :| i < |x| && x[i].deploymentId == id { assert (x + y)[i].deploymentId == id; }
    if i: nat :| i < |y| && y[i].deploymentId == id { assert (x + y)[|x| + i].deploymentId == id; }
    if i: nat :| i < |x + y| && (x + y)[i].deploymentId == id {
      assert i < |x| ==> x[i].deploymentId == id;
      assert i >= |x| ==> y[i - |x|].deploymentId == id;
    }
  }

  lemma OneConcat(x: seq<Action>, y: seq<Action>)
    requires OnePerDeployment(x) && OnePerDeployment(y)
    requires forall id :: !(Targets(x, id) && Targets(y, id))
    ensures OnePerDeployment(x + y)
  {
    forall i, j | 0 <= i < j < |x + y| ensures (x + y)[i].deploymentId != (x + y)[j].deploymentId {
      if i < |x| <= j {
        assert Targets(x, x[i].deploymentId);
        assert Targets(y, y[j - |x|].deploymentId);
      }
    }
  }

  lemma {:induction false} OpenTargets(current: seq<Entry>, frozen: set<string>, ps: seq<Proposal>)
    requires DistinctEntries(current) && DistinctIds(ps)
    ensures var actions := OpenActions(current, frozen, ps);
      && OnePerDeployment(actions)
      && (forall a :: a in actions ==> RightAllocation(current, a))
      && (forall id :: Targets(actions, id) ==> id !in frozen && Proposed(ps, id))
  {
    if ps != [] {
      var n := |ps| - 1;
      var front, last := OpenActions(current, frozen, ps[..n]), OpenAction(current, frozen, ps[n]);
      OpenTargets(current, frozen, ps[..n]);
      forall id ensures !(Targets(front, id) && Targets(last, id)) {
        if Targets(front, id) {
          var j :| 0 <= j < n && ps[..n][j].deploymentId == id;
          assert ps[j].deploymentId == id;
        }
      }
      OneConcat(front, last);
      forall id | Targets(front + last, id) ensures id !in frozen && Proposed(ps, id) {
        TargetsConcat(front, last, id);
        if Targets(front, id) {
          var j :| 0 <= j < n && ps[..n][j].deploymentId == id;
          assert ps[j].deploymentId == id;
        } else {
          assert ps[n].deploymentId == id;
        }
      }
    }
  }

  lemma {:induction false} CloseTargets(current: seq<Entry>, frozen: set<string>, ps: seq<Proposal>, all: seq<Entry>)
    requires DistinctEntries(all) && current <= all
    ensures var actions := CloseActions(current, frozen, ps);
      && OnePerDeployment(actions)
      && (forall a :: a in actions ==> RightAllocation(all, a))
      && (forall id :: Targets(actions, id) ==> id !in frozen && !Proposed(ps, id) && HasEntry(current, id))
  {
    if current != [] {
      var n := |current| - 1;
      var front, last := CloseActions(current[..n], frozen, ps), CloseAction(frozen, ps, current[n]);
      CloseTargets(current[..n], frozen, ps, all);
      forall id ensures !(Targets(front, id) && Targets(last, id)) {
        if Targets(front, id) {
          var j :| 0 <= j < n && current[..n][j].deploymentId == id;
          assert all[j].deploymentId == id && all[n] == current[n];
        }
      }
      OneConcat(front, last);
      FoundIs(all, n);
      forall id | Targets(front + last, id) ensures id !in frozen && !Proposed(ps, id) && HasEntry(current, id) {
        TargetsConcat(front, last, id);
        EntryConcat(current, id);
      }
    }
  }

  lemma FoundIs(current: seq<Entry>, i: nat)
    requires DistinctEntries(current) && i < |current|
    ensures Find(current, current[i].deploymentId) == Some(current[i].allocation)
  {
    var r := Find(current, current[i].deploymentId);
    if r.Some? {
      var j :| 0 <= j < |current| && current[j] == Entry(current[i].deploymentId, r.value);
      assert i == j;
    }
  }

  /**
   The action list is minimal and well addressed: at most one action per deployment, each
   naming the allocation it is about, and an action exactly where the holdings change.
   */
  lemma DiffIsMinimal(current: seq<Entry>, ps: seq<Proposal>, frozen: set<string>)
    requires DistinctEntries(current) && DistinctIds(ps)
    ensures var (h, actions) := (HoldingsOf(current), Diff(current, ps, frozen));
      && OnePerDeployment(actions)
      && (forall a :: a in actions ==> RightAllocation(current, a) && a.deploymentId !in frozen)
      && (forall id :: Targets(actions, id) <==> Held(ExecuteAll(h, actions), id) != Held(h, id))
  {
    var h, actions := HoldingsOf(current), Diff(current, ps, frozen);
    var front, last := OpenActions(current, frozen, ps), CloseActions(current, frozen, ps);
    OpenTargets(current, frozen, ps);
    CloseTargets(current, frozen, ps, current);
    OneConcat(front, last);
    forall a | a in actions ensures RightAllocation(current, a) && a.deploymentId !in frozen {
      var i :| 0 <= i < |actions| && actions[i] == a;
      assert Targets(actions, a.deploymentId);
      TargetsConcat(front, last, a.deploymentId);
    }
    forall id ensures Targets(actions, id) <==> Held(ExecuteAll(h, actions), id) != Held(h, id) {
      TargetsConcat(front, last, id);
      DiffReaches(current, ps, frozen, id);
      if !Targets(actions, id) { Untouched(h, actions, id); }
      if Targets(front, id) {
        OpenChanges(current, frozen, ps, id);
      } else if Targets(last, id) {
        HoldingsAgree(current);
      }
    }
  }

  lemma {:induction false} Untouched(h: Holdings, actions: seq<Action>, id: string)
    requires !Targets(actions, id)
    ensures Held(ExecuteAll(h, actions), id) == Held(h, id)
  {
    if actions != [] {
      var n := |actions| - 1;
      assert forall i :: 0 <= i < n ==> actions[..n][i].deploymentId == actions[i].deploymentId;
      Untouched(h, actions[..n], id);
      assert actions[n].deploymentId != id;
    }
  }

  lemma {:induction false} OpenChanges(current: seq<Entry>, frozen: set<string>, ps: seq<Proposal>, id: string)
    requires DistinctEntries(current) && DistinctIds(ps)
    requires Targets(OpenActions(current, frozen, ps), id)
    ensures exists j ::
      0 <= j < |ps| && ps[j].deploymentId == id && Goal(Held(HoldingsOf(current), id), ps[j]) != Held(HoldingsOf(current), id)
  {
    if ps != [] {
      var n := |ps| - 1;
      TargetsConcat(OpenActions(current, frozen, ps[..n]), OpenAction(current, frozen, ps[n]), id);
      if Targets(OpenActions(current, frozen, ps[..n]), id) {
        OpenChanges(current, frozen, ps[..n], id);
        var j :| 0 <= j < n && ps[..n][j].deploymentId == id
          && Goal(Held(HoldingsOf(current), id), ps[..n][j]) != Held(HoldingsOf(current), id);
        assert ps[j] == ps[..n][j];
      } else {
        FindAgrees(current, id);
      }
    }
  }

  // ---------------------------------------------------------------------------
  // The whole plan
  // ---------------------------------------------------------------------------

  /** The candidates as the filter builds them: one per deployment, frozen exactly when listed. */
  ghost predicate CandidatesFor(cs: seq<Candidate>, frozen: set<string>) {
    DistinctCandidates(cs) && forall c :: c in cs ==> (c.isFrozen <==> c.deploymentId in frozen)
  }

  lemma {:induction false} OptimizableAre(cs: seq<Candidate>)
    ensures forall c :: c in Optimizable(cs) <==> c in cs && !c.isFrozen
  {
    if cs != [] {
      var n := |cs| - 1;
      OptimizableAre(cs[..n]);
      assert cs == cs[..n] + [cs[n]];
    }
  }

  lemma {:induction false} OptimizableDistinct(cs: seq<Candidate>)
    requires DistinctCandidates(cs)
    ensures DistinctCandidates(Optimizable(cs))
  {
    if cs != [] {
      var n := |cs| - 1;
      var rest := Optimizable(cs[..n]);
      OptimizableDistinct(cs[..n]);
      OptimizableAre(cs[..n]);
      forall j | 0 <= j < |rest| ensures rest[j].deploymentId != cs[n].deploymentId {
        assert rest[j] in cs[..n];
      }
    }
  }

  lemma {:induction false} FrozenAre(current: seq<Entry>, frozen: set<string>)
    requires DistinctEntries(current)
    ensures var ps := FrozenProposals(current, frozen);
      && DistinctIds(ps)
      && (forall p :: p in ps ==> p.deploymentId in frozen && Held(HoldingsOf(current), p.deploymentId) == Some(p.allocatedTokens))
      && (forall id :: id in frozen && id in HoldingsOf(current) ==> Proposal(id, HoldingsOf(current)[id]) in ps)
  {
    if current != [] {
      var n := |current| - 1;
      var front, ps := FrozenProposals(current[..n], frozen), FrozenProposals(current, frozen);
      FrozenAre(current[..n], frozen);
      HoldingsAgree(current[..n]);
      var e := current[n];
      assert forall i :: 0 <= i < n ==> current[..n][i].deploymentId == current[i].deploymentId;
      assert e.deploymentId !in HoldingsOf(current[..n]);
      if e.deploymentId in frozen {
        forall j | 0 <= j < |front| ensures front[j].deploymentId != e.deploymentId {
          assert front[j] in front;
        }
        assert ps[|front|] == Proposal(e.deploymentId, e.allocation.allocatedTokens);
      }
    }
  }

  lemma {:induction false} SumConcat(x: seq<nat>, y: seq<nat>)
    ensures Sum(x + y) == Sum(x) + Sum(y)
  {
    if y == [] {
      assert x + y == x;
    } else {
      assert (x + y)[..|x + y| - 1] == x + y[..|y| - 1];
      SumConcat(x, y[..|y| - 1]);
    }
  }

  /** New proposals are positive and never frozen. */
  lemma NewAre(current: seq<Entry>, frozen: set<string>, cs: seq<Candidate>, cfg: Config, tokenCapacity: nat, net: Network)
    requires CandidatesFor(cs, frozen)
    ensures var (kept, ns) := (FrozenProposals(current, frozen), NewProposals(current, frozen, cs, cfg, tokenCapacity, net));
      && DistinctIds(ns)
      && (forall p :: p in ns ==> p.deploymentId !in frozen && 0 < p.allocatedTokens)
      && Sum(Amounts(ns)) <= AvailableStake(tokenCapacity, Sum(Amounts(kept)))
      && |ns| <= RemainingSlots(cfg, |kept|)
  {
    hide Propose, Sum, PerDeploymentCap;
    var kept := FrozenProposals(current, frozen);
    var ns := NewProposals(current, frozen, cs, cfg, tokenCapacity, net);
    OptimizableAre(cs);
    OptimizableDistinct(cs);
    ProposeFits(Optimizable(cs), cfg, tokenCapacity, AvailableStake(tokenCapacity, Sum(Amounts(kept))), net, |kept|);
    forall p | p in ns ensures p.deploymentId !in frozen && 0 < p.allocatedTokens {
      var i :| 0 <= i < |Optimizable(cs)| && Optimizable(cs)[i].deploymentId == p.deploymentId && 0 < p.allocatedTokens;
      assert Optimizable(cs)[i] in Optimizable(cs);
    }
  }

  /** The optimizer gets the stake and the slots that the frozen allocations leave, and nothing less. */
  lemma PlannedExactly(current: seq<Entry>, frozen: set<string>, cs: seq<Candidate>, cfg: Config, tokenCapacity: nat, net: Network, available: nat)
    requires var used := Sum(Amounts(FrozenProposals(current, frozen)));
      if used <= tokenCapacity then used + available == tokenCapacity else available == 0
    ensures var kept := FrozenProposals(current, frozen);
      PlannedProposals(current, frozen, cs, cfg, tokenCapacity, net) ==
        kept + Propose(Optimizable(cs), cfg, tokenCapacity, available, net, |kept|)
  {
    hide Propose, Sum;
  }

  lemma DistinctConcat(x: seq<Proposal>, y: seq<Proposal>)
    requires DistinctIds(x) && DistinctIds(y)
    requires forall p, q :: p in x && q in y ==> p.deploymentId != q.deploymentId
    ensures DistinctIds(x + y)
  {
    forall i, j | 0 <= i < j < |x + y| ensures (x + y)[i].deploymentId != (x + y)[j].deploymentId {
      if i < |x| <= j {
        assert x[i] in x && y[j - |x|] in y;
      }
    }
  }

  /** The planned proposals name each deployment once and respect both limits. */
  lemma PlannedFits(current: seq<Entry>, frozen: set<string>, cs: seq<Candidate>, cfg: Config, tokenCapacity: nat, net: Network)
    requires DistinctEntries(current) && CandidatesFor(cs, frozen)
    ensures var (kept, ps) := (FrozenProposals(current, frozen), PlannedProposals(current, frozen, cs, cfg, tokenCapacity, net));
      && DistinctIds(ps)
      && (forall p :: p in ps ==> (p.deploymentId in frozen <==> p in kept))
      && (forall p :: p in ps && p.deploymentId !in frozen ==> 0 < p.allocatedTokens)
      && Sum(Amounts(ps)) <= Max(tokenCapacity, Sum(Amounts(kept)))
      && |ps| <= Max(cfg.maxAllocations, |kept|)
  {
    hide NewProposals, FrozenProposals, Sum, HoldingsOf;
    var kept := FrozenProposals(current, frozen);
    var ns := NewProposals(current, frozen, cs, cfg, tokenCapacity, net);
    FrozenAre(current, frozen);
    NewAre(current, frozen, cs, cfg, tokenCapacity, net);
    DistinctConcat(kept, ns);
    assert Amounts(kept + ns) == Amounts(kept) + Amounts(ns);
    SumConcat(Amounts(kept), Amounts(ns));
  }

  /** The map that the proposals describe. */
  ghost predicate Describes(ps: seq<Proposal>, t: Holdings) {
    && (forall p :: p in ps ==> Held(t, p.deploymentId) == Some(p.allocatedTokens))
    && (forall id :: id in t ==> Proposed(ps, id))
  }

  /**
   End to end: executing the planned actions, amounts read back from their decimal
   strings, turns the current holdings into exactly the proposed ones.
   */
  lemma PlanReachesProposals(current: seq<Entry>, frozen: set<string>, cs: seq<Candidate>, cfg: Config, tokenCapacity: nat, net: Network)
    requires DistinctEntries(current) && CandidatesFor(cs, frozen)
    ensures var ps := PlannedProposals(current, frozen, cs, cfg, tokenCapacity, net);
      Describes(ps, ExecuteAll(HoldingsOf(current), Diff(current, ps, frozen)))
  {
    hide PlannedProposals, Diff, ExecuteAll;
    var kept := FrozenProposals(current, frozen);
    var ps := PlannedProposals(current, frozen, cs, cfg, tokenCapacity, net);
    PlannedFits(current, frozen, cs, cfg, tokenCapacity, net);
    FrozenAre(current, frozen);
    var t := ExecuteAll(HoldingsOf(current), Diff(current, ps, frozen));
    forall p | p in ps ensures Held(t, p.deploymentId) == Some(p.allocatedTokens) {
      DiffReaches(current, ps, frozen, p.deploymentId);
    }
    forall id | id in t ensures Proposed(ps, id) {
      DiffReaches(current, ps, frozen, id);
      if id in frozen { KeptAreProposed(current, frozen, cs, cfg, tokenCapacity, net, id); }
    }
  }

  lemma KeptAreProposed(current: seq<Entry>, frozen: set<string>, cs: seq<Candidate>, cfg: Config, tokenCapacity: nat, net: Network, id: string)
    requires DistinctEntries(current) && id in frozen && id in HoldingsOf(current)
    ensures Proposed(PlannedProposals(current, frozen, cs, cfg, tokenCapacity, net), id)
  {
    FrozenAre(current, frozen);
    var kept := FrozenProposals(current, frozen);
    var i :| 0 <= i < |kept| && kept[i] == Proposal(id, HoldingsOf(current)[id]);
    assert PlannedProposals(current, frozen, cs, cfg, tokenCapacity, net)[i] == kept[i];
  }
}
