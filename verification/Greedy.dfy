/**
 The chunked greedy allocator as a transition system: what one iteration does, what
 a bounded run of iterations does, and what every iteration keeps. The main loop and
 the loop inside each reflow pass are the same system; in the main loop no pick has
 been rejected yet.
 */
module Greedy {
  import opened Arithmetic
  import opened Sums
  import opened Reward

  datatype Pick = Pick(
    deploymentId: string,
    currentAllocation: nat,
    R: nat,
    D: nat,
    cap: nat,
    whitelisted: bool)

  /** What stays fixed during a run. */
  datatype Problem = Problem(
    picks: seq<Pick>,
    preSeated: seq<bool>,
    remainingSlots: nat,
    chunk: nat)
  {
    ghost predicate Valid() {
      && |preSeated| == |picks|
      && 0 < chunk
      && (forall i :: 0 <= i < |picks| ==> 0 < picks[i].R)
    }

    function MaxIters(): nat { 1000 + |picks| + 1 }

    /** No whitelisted pick has a real marginal above its sentinel. */
    ghost predicate SentinelsDominate() {
      forall p :: p in picks ==> SentinelDominates(p.R, p.D, p.whitelisted)
    }
  }

  /**
   `prev` is a history variable: what a pick held just before its latest chunk.
   `budget` is the stake the current loop may still hand out and `idle` the stake
   that earlier loops could not place.
   */
  datatype State = State(
    alloc: seq<nat>,
    prev: seq<nat>,
    rejected: seq<bool>,
    slotsUsed: nat,
    budget: nat,
    idle: nat)

  ghost predicate Shaped(pr: Problem, s: State) {
    |s.alloc| == |s.prev| == |s.rejected| == |pr.picks| == |pr.preSeated|
  }

  predicate Eligible(pr: Problem, s: State, i: nat)
    requires i < |pr.picks| && Shaped(pr, s)
  {
    && !s.rejected[i]
    && s.alloc[i] < pr.picks[i].cap
    && !(s.alloc[i] == 0 && !pr.preSeated[i] && s.slotsUsed >= pr.remainingSlots)
  }

  function MarginalAt(pr: Problem, i: nat, A: nat): nat
    requires i < |pr.picks|
  {
    var p := pr.picks[i];
    ComputeMarginal(p.R, p.D, A, p.whitelisted)
  }

  /** The first of the picks below k with the largest positive marginal, or -1. */
  function Best(pr: Problem, s: State, k: nat): (b: int)
    requires Shaped(pr, s) && k <= |pr.picks|
    ensures -1 <= b < k
  {
    if k == 0 then -1
    else
      var b := Best(pr, s, k - 1);
      var m := if b < 0 then 0 else MarginalAt(pr, b, s.alloc[b]);
      if Eligible(pr, s, k - 1) && MarginalAt(pr, k - 1, s.alloc[k - 1]) > m then k - 1 else b
  }

  /** The argmax relation itself, without reference to the order of a scan. */
  ghost predicate IsFirstArgmax(pr: Problem, s: State, k: nat, b: int)
    requires Shaped(pr, s) && k <= |pr.picks|
  {
    && -1 <= b < k
    && (b == -1 ==> forall j: nat :: j < k && Eligible(pr, s, j) ==> MarginalAt(pr, j, s.alloc[j]) == 0)
    && (0 <= b ==>
      && Eligible(pr, s, b)
      && 0 < MarginalAt(pr, b, s.alloc[b])
      && (forall j: nat :: j < k && Eligible(pr, s, j) ==>
        MarginalAt(pr, j, s.alloc[j]) <= MarginalAt(pr, b, s.alloc[b]))
      && (forall j: nat :: j < b && Eligible(pr, s, j) ==>
        MarginalAt(pr, j, s.alloc[j]) < MarginalAt(pr, b, s.alloc[b])))
  }

  lemma {:induction false} BestIsFirstArgmax(pr: Problem, s: State, k: nat)
    requires Shaped(pr, s) && k <= |pr.picks|
    ensures IsFirstArgmax(pr, s, k, Best(pr, s, k))
    ensures forall b :: IsFirstArgmax(pr, s, k, b) ==> b == Best(pr, s, k)
  {
    if k != 0 {
      BestIsFirstArgmax(pr, s, k - 1);
    }
  }

  predicate Done(pr: Problem, s: State)
    requires Shaped(pr, s)
  {
    s.budget == 0 || Best(pr, s, |pr.picks|) < 0
  }

  /** The amount one iteration hands to pick b. */
  function Grant(pr: Problem, s: State, b: nat): int
    requires b < |pr.picks| && Shaped(pr, s)
  {
    var headroom := if pr.picks[b].cap > s.alloc[b] then pr.picks[b].cap - s.alloc[b] else 0;
    Min(Min(pr.chunk, headroom), s.budget)
  }

  /** The iteration's own "cannot happen" branch is unreachable. */
  lemma GrantPositive(pr: Problem, s: State)
    requires pr.Valid() && Shaped(pr, s) && !Done(pr, s)
    ensures var b := Best(pr, s, |pr.picks|);
      && 0 < Grant(pr, s, b) <= pr.chunk
      && Grant(pr, s, b) <= s.budget
      && s.alloc[b] + Grant(pr, s, b) <= pr.picks[b].cap
  {
    BestIsFirstArgmax(pr, s, |pr.picks|);
  }

  function Step(pr: Problem, s: State): (t: State)
    requires pr.Valid() && Shaped(pr, s) && !Done(pr, s)
    ensures Shaped(pr, t)
  {
    GrantPositive(pr, s);
    var b := Best(pr, s, |pr.picks|);
    var g := Grant(pr, s, b);
    s.(alloc := s.alloc[b := s.alloc[b] + g],
       prev := s.prev[b := s.alloc[b]],
       slotsUsed := s.slotsUsed + (if s.alloc[b] == 0 && !pr.preSeated[b] then 1 else 0),
       budget := s.budget - g)
  }

  function Run(pr: Problem, s: State, iters: nat): (t: State)
    requires pr.Valid() && Shaped(pr, s)
    ensures Shaped(pr, t)
    decreases iters
  {
    if iters == 0 || Done(pr, s) then s else Run(pr, Step(pr, s), iters - 1)
  }

  // ---------------------------------------------------------------------------
  // Safety
  // ---------------------------------------------------------------------------

  /** A slot is taken by a pre-seated current and by every pick that was ever opened. */
  ghost function Occupied(pr: Problem, s: State): (o: seq<bool>)
    requires Shaped(pr, s)
    ensures |o| == |pr.picks|
  {
    seq(|pr.picks|, i requires 0 <= i < |pr.picks| => pr.preSeated[i] || 0 < s.alloc[i] || s.rejected[i])
  }

  ghost function Opened(s: State): (o: seq<bool>)
    ensures |o| == |s.alloc|
  {
    seq(|s.alloc|, i requires 0 <= i < |s.alloc| => 0 < s.alloc[i])
  }

  ghost predicate PickSafe(pr: Problem, s: State, i: nat)
    requires i < |pr.picks| && Shaped(pr, s)
  {
    && s.alloc[i] <= pr.picks[i].cap
    && (s.rejected[i] ==> s.alloc[i] == 0)
    && (0 < s.alloc[i] ==> s.prev[i] < s.alloc[i] <= s.prev[i] + pr.chunk)
    && (pr.picks[i].D == 0 ==> s.alloc[i] <= pr.chunk)
  }

  ghost predicate Safe(pr: Problem, s: State) {
    && Shaped(pr, s)
    && (forall i: nat :: i < |pr.picks| ==> PickSafe(pr, s, i))
    && s.slotsUsed == Count(Occupied(pr, s))
    && s.slotsUsed <= pr.remainingSlots
  }

  ghost function Total(s: State): nat {
    Sum(s.alloc) + s.budget + s.idle
  }

  lemma StepSafe(pr: Problem, s: State)
    requires pr.Valid() && Safe(pr, s) && !Done(pr, s)
    ensures Safe(pr, Step(pr, s))
    ensures Total(Step(pr, s)) == Total(s)
  {
    var b := Best(pr, s, |pr.picks|);
    var t := Step(pr, s);
    GrantPositive(pr, s);
    BestIsFirstArgmax(pr, s, |pr.picks|);
    SumUpdate(s.alloc, b, t.alloc[b]);
    CountUpdate(Occupied(pr, s), b, true);
    assert Occupied(pr, t) == Occupied(pr, s)[b := true];
    forall i: nat | i < |pr.picks| ensures PickSafe(pr, t, i) {
      assert PickSafe(pr, s, i);
    }
  }

  lemma {:induction false} RunSafe(pr: Problem, s: State, iters: nat)
    requires pr.Valid() && Safe(pr, s)
    ensures Safe(pr, Run(pr, s, iters))
    ensures Total(Run(pr, s, iters)) == Total(s)
    decreases iters
  {
    if iters != 0 && !Done(pr, s) {
      StepSafe(pr, s);
      RunSafe(pr, Step(pr, s), iters - 1);
    }
  }

  /** A run only ever adds to allocations, and leaves rejections and idle stake alone. */
  lemma {:induction false} RunGrows(pr: Problem, s: State, iters: nat)
    requires pr.Valid() && Shaped(pr, s)
    ensures var t := Run(pr, s, iters);
      && t.rejected == s.rejected && t.idle == s.idle
      && s.slotsUsed <= t.slotsUsed
      && (forall i :: 0 <= i < |pr.picks| ==> s.alloc[i] <= t.alloc[i])
      && (forall i :: 0 <= i < |pr.picks| && s.rejected[i] ==> t.alloc[i] == s.alloc[i])
    decreases iters
  {
    if iters != 0 && !Done(pr, s) {
      GrantPositive(pr, s);
      BestIsFirstArgmax(pr, s, |pr.picks|);
      RunGrows(pr, Step(pr, s), iters - 1);
    }
  }

  /** Without a slot a pick stays closed. */
  lemma {:induction false} StaysClosed(pr: Problem, s: State, i: nat, iters: nat)
    requires pr.Valid() && Shaped(pr, s) && i < |pr.picks|
    requires s.alloc[i] == 0 && !pr.preSeated[i] && pr.remainingSlots <= s.slotsUsed
    ensures Run(pr, s, iters).alloc[i] == 0
    decreases iters
  {
    if iters != 0 && !Done(pr, s) {
      BestIsFirstArgmax(pr, s, |pr.picks|);
      StaysClosed(pr, Step(pr, s), i, iters - 1);
    }
  }

  /** Positive allocations never outnumber the slots. */
  lemma OpenFitsSlots(pr: Problem, s: State)
    requires Safe(pr, s)
    ensures Count(Opened(s)) <= s.slotsUsed <= pr.remainingSlots
  {
    CountMono(Opened(s), Occupied(pr, s));
  }

  // ---------------------------------------------------------------------------
  // Equilibrium
  // ---------------------------------------------------------------------------

  /** No eligible pick now beats what an open pick promised just before its latest chunk. */
  ghost predicate Equilibrium(pr: Problem, s: State)
    requires Shaped(pr, s)
  {
    forall i: nat, j: nat :: i < |pr.picks| && j < |pr.picks| && 0 < s.alloc[i] && Eligible(pr, s, j) ==>
      MarginalAt(pr, j, s.alloc[j]) <= MarginalAt(pr, i, s.prev[i])
  }

  lemma StepEquilibrium(pr: Problem, s: State)
    requires pr.Valid() && pr.SentinelsDominate() && Shaped(pr, s) && !Done(pr, s)
    requires Equilibrium(pr, s)
    ensures Equilibrium(pr, Step(pr, s))
  {
    var b := Best(pr, s, |pr.picks|);
    var t := Step(pr, s);
    GrantPositive(pr, s);
    BestIsFirstArgmax(pr, s, |pr.picks|);
    forall i: nat, j: nat | i < |pr.picks| && j < |pr.picks| && 0 < t.alloc[i] && Eligible(pr, t, j)
      ensures MarginalAt(pr, j, t.alloc[j]) <= MarginalAt(pr, i, t.prev[i])
    {
      var p := pr.picks[j];
      assert p in pr.picks;
      MarginalAntitone(p.R, p.D, p.whitelisted, s.alloc[j], t.alloc[j]);
      assert Eligible(pr, s, j);
    }
  }

  lemma {:induction false} RunEquilibrium(pr: Problem, s: State, iters: nat)
    requires pr.Valid() && pr.SentinelsDominate() && Shaped(pr, s)
    requires Equilibrium(pr, s)
    ensures Equilibrium(pr, Run(pr, s, iters))
    decreases iters
  {
    if iters != 0 && !Done(pr, s) {
      StepEquilibrium(pr, s);
      RunEquilibrium(pr, Step(pr, s), iters - 1);
    }
  }
}
