/**
 The optimizer's allocation step, run in place on arrays: pre-seating of existing
 allocations, the main greedy loop, the reflow passes, and the proposals that are
 read off at the end. Each method is tied to the transition system of Greedy and Reflow.
 */
module Allocator {
  import opened Arithmetic
  import opened Sums
  import opened Reward
  import opened Greedy
  import opened Reflow

  // ---------------------------------------------------------------------------
  // Pre-seating
  // ---------------------------------------------------------------------------

  predicate Existing(picks: seq<Pick>, i: nat)
    requires i < |picks|
  {
    0 < picks[i].currentAllocation
  }

  /** Marginal of an existing allocation at the size it has now. */
  function Score(picks: seq<Pick>, i: nat): nat
    requires i < |picks|
  {
    var p := picks[i];
    if 0 < p.currentAllocation then ComputeMarginal(p.R, p.D, p.currentAllocation, false) else 0
  }

  /** i comes before j: larger score, then smaller index. */
  predicate Before(picks: seq<Pick>, i: nat, j: nat)
    requires i < |picks| && j < |picks|
  {
    Score(picks, i) > Score(picks, j) || (Score(picks, i) == Score(picks, j) && i < j)
  }

  function Ahead(picks: seq<Pick>, i: nat): (a: seq<bool>)
    requires i < |picks|
    ensures |a| == |picks|
  {
    seq(|picks|, j requires 0 <= j < |picks| => Existing(picks, j) && Before(picks, j, i))
  }

  /** How many existing allocations score better than pick i. */
  function Rank(picks: seq<Pick>, i: nat): nat
    requires i < |picks|
  {
    Count(Ahead(picks, i))
  }

  /** The `slots` best-ranked existing allocations hold a slot from the start. */
  function PreSeated(picks: seq<Pick>, slots: nat): (s: seq<bool>)
    ensures |s| == |picks|
  {
    seq(|picks|, i requires 0 <= i < |picks| => Existing(picks, i) && Rank(picks, i) < slots)
  }

  ghost function AllExisting(picks: seq<Pick>): (s: seq<bool>)
    ensures |s| == |picks|
  {
    seq(|picks|, i requires 0 <= i < |picks| => Existing(picks, i))
  }

  /** Indices of existing allocations below k, best first. */
  ghost predicate SortedCurrents(picks: seq<Pick>, order: seq<nat>, k: nat)
    requires k <= |picks|
  {
    && (forall a :: 0 <= a < |order| ==> order[a] < k && Existing(picks, order[a]))
    && (forall a, b :: 0 <= a < b < |order| ==> Before(picks, order[a], order[b]))
    && (forall i: nat :: i < k && Existing(picks, i) ==> i in order)
  }

  ghost function Marked(n: nat, marks: seq<nat>): (s: seq<bool>)
    ensures |s| == n
  {
    seq(n, i => i in marks)
  }

  /** The first k of a sorted order are exactly the picks ahead of the k-th. */
  lemma {:induction false} MarkedCount(n: nat, order: seq<nat>, k: nat)
    requires k <= |order|
    requires forall a :: 0 <= a < |order| ==> order[a] < n
    requires forall a, b :: 0 <= a < b < |order| ==> order[a] != order[b]
    ensures Count(Marked(n, order[..k])) == k
  {
    if k == 0 {
      CountAll(Marked(n, order[..0]));
    } else {
      MarkedCount(n, order, k - 1);
      CountUpdate(Marked(n, order[..k - 1]), order[k - 1], true);
      MarkNext(n, order, k - 1);
    }
  }

  lemma MarkNext(n: nat, order: seq<nat>, k: nat)
    requires k < |order| && order[k] < n
    ensures Marked(n, order[..k + 1]) == Marked(n, order[..k])[order[k] := true]
  {
    assert order[..k + 1] == order[..k] + [order[k]];
  }

  lemma RankIsPosition(picks: seq<Pick>, order: seq<nat>, k: nat)
    requires SortedCurrents(picks, order, |picks|) && k < |order|
    ensures Rank(picks, order[k]) == k
  {
    MarkedCount(|picks|, order, k);
    forall j | 0 <= j < |picks| ensures Ahead(picks, order[k])[j] == Marked(|picks|, order[..k])[j] {
      if j in order {
        var a :| 0 <= a < |order| && order[a] == j;
        assert k < a ==> Before(picks, order[k], order[a]);
        assert a < k ==> order[..k][a] == j;
      }
    }
    assert Ahead(picks, order[k]) == Marked(|picks|, order[..k]);
  }

  /** Pre-seating fills min(existing, slots) slots. */
  lemma PreSeatedCount(picks: seq<Pick>, slots: nat, order: seq<nat>)
    requires SortedCurrents(picks, order, |picks|)
    ensures var limit := Min(|order|, slots);
      && |order| == Count(AllExisting(picks))
      && PreSeated(picks, slots) == Marked(|picks|, order[..limit])
      && Count(PreSeated(picks, slots)) == limit
  {
    var n, limit := |picks|, Min(|order|, slots);
    MarkedCount(n, order, |order|);
    assert order[..|order|] == order;
    assert AllExisting(picks) == Marked(n, order);
    MarkedCount(n, order, limit);
    forall i | 0 <= i < n ensures PreSeated(picks, slots)[i] == Marked(n, order[..limit])[i] {
      if i in order {
        var a :| 0 <= a < |order| && order[a] == i;
        RankIsPosition(picks, order, a);
        assert a < limit ==> order[..limit][a] == i;
        if i in order[..limit] {
          var b :| 0 <= b < limit && order[b] == i;
          assert a == b;
        }
      }
    }
    assert PreSeated(picks, slots) == Marked(n, order[..limit]);
  }

  /** The sort of the existing allocations, as insertion into a sorted order. */
  function Insert(picks: seq<Pick>, order: seq<nat>, i: nat): seq<nat>
    requires i < |picks| && forall a :: 0 <= a < |order| ==> order[a] < |picks|
  {
    var last := |order| - 1;
    if order == [] || !Before(picks, i, order[last]) then order + [i]
    else Insert(picks, order[..last], i) + [order[last]]
  }

  function SortCurrents(picks: seq<Pick>, k: nat): (order: seq<nat>)
    requires k <= |picks|
    ensures SortedCurrents(picks, order, k)
  {
    if k == 0 then []
    else
      var order := SortCurrents(picks, k - 1);
      if Existing(picks, k - 1) then
        InsertSorts(picks, order, k - 1);
        Insert(picks, order, k - 1)
      else order
  }

  lemma {:induction false} InsertMembers(picks: seq<Pick>, order: seq<nat>, i: nat)
    requires i < |picks| && forall a :: 0 <= a < |order| ==> order[a] < |picks|
    ensures var r := Insert(picks, order, i);
      && |r| == |order| + 1
      && (forall j :: j in r <==> j in order || j == i)
  {
    var last := |order| - 1;
    if order != [] && Before(picks, i, order[last]) {
      InsertMembers(picks, order[..last], i);
      assert order == order[..last] + [order[last]];
    }
  }

  lemma {:induction false} InsertSorts(picks: seq<Pick>, order: seq<nat>, i: nat)
    requires i < |picks| && Existing(picks, i) && SortedCurrents(picks, order, i)
    ensures SortedCurrents(picks, Insert(picks, order, i), i + 1)
  {
    InsertMembers(picks, order, i);
    InsertOrdered(picks, order, i, i);
    var r := Insert(picks, order, i);
    assert forall a :: 0 <= a < |r| ==> r[a] in r;
  }

  lemma {:induction false} InsertOrdered(picks: seq<Pick>, order: seq<nat>, i: nat, bound: nat)
    requires i < |picks| && bound <= i
    requires forall a :: 0 <= a < |order| ==> order[a] < bound
    requires forall a, b :: 0 <= a < b < |order| ==> Before(picks, order[a], order[b])
    ensures var r := Insert(picks, order, i);
      && (forall a :: 0 <= a < |r| ==> r[a] < |picks|)
      && (forall a, b :: 0 <= a < b < |r| ==> Before(picks, r[a], r[b]))
  {
    InsertMembers(picks, order, i);
    var last := |order| - 1;
    if order != [] {
      if Before(picks, i, order[last]) {
        var r := Insert(picks, order[..last], i);
        InsertOrdered(picks, order[..last], i, bound);
        InsertMembers(picks, order[..last], i);
        forall a | 0 <= a < |r| ensures Before(picks, r[a], order[last]) {
          assert r[a] in r;
        }
      } else {
        forall a | 0 <= a < |order| ensures Before(picks, order[a], i) {
          assert a == last || Before(picks, order[a], order[last]);
        }
      }
    }
  }

  /** Pre-seating never takes more slots than there are. */
  lemma PreSeatedFits(picks: seq<Pick>, slots: nat)
    ensures Count(PreSeated(picks, slots)) == Min(Count(AllExisting(picks)), slots)
  {
    PreSeatedCount(picks, slots, SortCurrents(picks, |picks|));
  }

  /** Every pre-seated allocation earns at least as much at the margin as every one left standing. */
  lemma PreSeatedBest(picks: seq<Pick>, slots: nat, i: nat, j: nat)
    requires i < |picks| && j < |picks|
    requires PreSeated(picks, slots)[i] && Existing(picks, j) && !PreSeated(picks, slots)[j]
    ensures Before(picks, i, j)
    ensures var (p, q) := (picks[i], picks[j]);
      var (a, b) := (ComputeMarginal(p.R, p.D, p.currentAllocation, false), ComputeMarginal(q.R, q.D, q.currentAllocation, false));
      0 < p.currentAllocation && (b < a || (b == a && i < j))
  {
    hide Count, ComputeMarginal;
    if !Before(picks, i, j) {
      assert Before(picks, j, i) && Rank(picks, i) < slots <= Rank(picks, j);
      CountMono(Ahead(picks, j), Ahead(picks, i));
    }
  }

  method PreSeat(picks: seq<Pick>, slots: nat) returns (preSeated: array<bool>, slotsUsed: nat)
    ensures fresh(preSeated)
    ensures preSeated[..] == PreSeated(picks, slots)
    ensures slotsUsed == Count(PreSeated(picks, slots)) == Min(Count(AllExisting(picks)), slots)
  {
    hide Count, PreSeated, AllExisting, Insert, Before;
    var order := SortCurrents(picks, |picks|);
    PreSeatedCount(picks, slots, order);
    preSeated := new bool[|picks|](_ => false);
    slotsUsed := Min(|order|, slots);
    for k := 0 to slotsUsed
      invariant preSeated.Length == |picks|
      invariant preSeated[..] == Marked(|picks|, order[..k])
    {
      MarkNext(|picks|, order, k);
      preSeated[order[k]] := true;
    }
  }

  // ---------------------------------------------------------------------------
  // The greedy loop
  // ---------------------------------------------------------------------------

  /** One scan for the pick with the largest positive marginal. */
  method FindBest(pr: Problem, allocations: array<nat>, rejected: array<bool>, slotsUsed: nat, ghost s: State)
    returns (bestIdx: int)
    requires Shaped(pr, s)
    requires allocations[..] == s.alloc && rejected[..] == s.rejected && slotsUsed == s.slotsUsed
    ensures bestIdx == Best(pr, s, |pr.picks|)
  {
    bestIdx := -1;
    var bestMarginal := 0;
    for i := 0 to |pr.picks|
      invariant bestIdx == Best(pr, s, i)
      invariant bestMarginal == if bestIdx < 0 then 0 else MarginalAt(pr, bestIdx, s.alloc[bestIdx])
    {
      var p, A := pr.picks[i], allocations[i];
      if rejected[i] { continue; }
      if A >= p.cap { continue; }
      if A == 0 && !pr.preSeated[i] && slotsUsed >= pr.remainingSlots { continue; }
      var m := ComputeMarginal(p.R, p.D, A, p.whitelisted);
      if m > bestMarginal {
        bestMarginal, bestIdx := m, i;
      }
    }
  }

  /** Hands out `budget` chunk by chunk, for at most MaxIters iterations. */
  method GreedyLoop(pr: Problem, allocations: array<nat>, rejected: array<bool>, slots: nat, budget: nat, ghost start: State)
    returns (slotsUsed: nat, remaining: nat, ghost end: State)
    requires pr.Valid() && Shaped(pr, start)
    requires allocations[..] == start.alloc && rejected[..] == start.rejected
    requires slots == start.slotsUsed && budget == start.budget
    modifies allocations
    ensures end == Run(pr, start, pr.MaxIters())
    ensures allocations[..] == end.alloc && rejected[..] == end.rejected
    ensures slotsUsed == end.slotsUsed && remaining == end.budget
  {
    hide ComputeMarginal, Best;
    slotsUsed, remaining, end := slots, budget, start;
    RunGrows(pr, start, pr.MaxIters());
    for iter := 0 to pr.MaxIters()
      invariant Shaped(pr, end) && end.rejected == start.rejected
      invariant allocations[..] == end.alloc && rejected[..] == end.rejected
      invariant slotsUsed == end.slotsUsed && remaining == end.budget
      invariant Run(pr, end, pr.MaxIters() - iter) == Run(pr, start, pr.MaxIters())
    {
      if remaining <= 0 { break; }
      var bestIdx := FindBest(pr, allocations, rejected, slotsUsed, end);
      if bestIdx < 0 { break; }
      var p, A := pr.picks[bestIdx], allocations[bestIdx];
      var headroom := if p.cap > A then p.cap - A else 0;
      var allocAmount := if pr.chunk < headroom then pr.chunk else headroom;
      if allocAmount > remaining { allocAmount := remaining; }
      GrantPositive(pr, end);
      if allocAmount == 0 { break; }
      if A == 0 && !pr.preSeated[bestIdx] { slotsUsed := slotsUsed + 1; }
      allocations[bestIdx] := A + allocAmount;
      remaining := remaining - allocAmount;
      end := Step(pr, end);
    }
  }

  lemma NothingYet()
    ensures Sum([]) == 0
  {
  }

  lemma SumNext(s: seq<nat>, i: nat)
    requires i < |s|
    ensures Sum(s[..i + 1]) == Sum(s[..i]) + s[i]
  {
    assert s[..i + 1][..i] == s[..i];
  }

  /** One pass over the picks: closes every pick under its floor and adds up what that recovers. */
  method DropPass(pr: Problem, f: Floors, allocations: array<nat>, rejected: array<bool>, ghost s: State)
    returns (reflowBudget: nat, droppedThisPass: nat)
    requires pr.Valid() && Shaped(pr, s)
    requires allocations[..] == s.alloc && rejected[..] == s.rejected
    modifies allocations, rejected
    ensures allocations[..] == Drop(pr, f, s).alloc && rejected[..] == Drop(pr, f, s).rejected
    ensures reflowBudget == Drop(pr, f, s).budget
    ensures forall i: nat :: i < |pr.picks| ==>
      (rejected[i] <==> s.rejected[i] || (0 < s.alloc[i] && !f.Met(pr.picks[i], s.alloc[i])))
    ensures droppedThisPass == 0 <==> !AnyFalls(pr, f, s)
  {
    hide ProjectedReward, Sum;
    var n := |pr.picks|;
    NothingYet();
    ghost var d, lost := Drop(pr, f, s), Dropped(pr, f, s);
    reflowBudget, droppedThisPass := 0, 0;
    for i := 0 to n
      invariant allocations.Length == n && rejected.Length == n
      invariant forall j :: 0 <= j < i ==> allocations[j] == d.alloc[j] && rejected[j] == d.rejected[j]
      invariant forall j :: i <= j < n ==> allocations[j] == s.alloc[j] && rejected[j] == s.rejected[j]
      invariant reflowBudget == Sum(lost[..i])
      invariant droppedThisPass == 0 <==> forall j: nat :: j < i ==> !Falls(pr, f, s, j)
    {
      SumNext(lost, i);
      assert d.alloc[i] == (if Falls(pr, f, s, i) then 0 else s.alloc[i]) && d.rejected[i] == (s.rejected[i] || Falls(pr, f, s, i));
      if rejected[i] { continue; }
      var amount := allocations[i];
      if amount == 0 { continue; }
      var p := pr.picks[i];
      var totalAlloc := p.D + amount;
      var projectedReward := if totalAlloc == 0 then 0 else ProjectedReward(p.R, p.D, amount);
      var threshold := f.Threshold(p);
      if projectedReward < threshold {
        reflowBudget := reflowBudget + amount;
        allocations[i] := 0;
        rejected[i] := true;
        droppedThisPass := droppedThisPass + 1;
      }
    }
    assert lost[..n] == lost;
    assert allocations[..] == d.alloc && rejected[..] == d.rejected;
  }

  /** The reward-floor passes; skipped when no floor is set, where nothing could fall. */
  method ReflowLoop(pr: Problem, f: Floors, allocations: array<nat>, rejected: array<bool>, slots: nat, ghost start: State)
    returns (ghost end: State)
    requires pr.Valid() && Shaped(pr, start)
    requires allocations[..] == start.alloc && rejected[..] == start.rejected
    requires slots == start.slotsUsed
    modifies allocations, rejected
    ensures end == ReflowPasses(pr, f, start, REFLOW_PASSES)
    ensures allocations[..] == end.alloc && rejected[..] == end.rejected
  {
    hide ReflowPasses, Run, Drop, AnyFalls, Safe;
    end := start;
    if f.gas > 0 || f.minRewards28d > 0 {
      var slotsUsed := slots;
      for pass := 0 to REFLOW_PASSES
        invariant Shaped(pr, end)
        invariant allocations[..] == end.alloc && rejected[..] == end.rejected
        invariant slotsUsed == end.slotsUsed
        invariant ReflowPasses(pr, f, end, REFLOW_PASSES - pass) == ReflowPasses(pr, f, start, REFLOW_PASSES)
      {
        PassUnfolds(pr, f, end, REFLOW_PASSES - pass);
        ghost var d := Drop(pr, f, end);
        var reflowBudget, droppedThisPass := DropPass(pr, f, allocations, rejected, end);
        if droppedThisPass == 0 || reflowBudget == 0 { break; }
        var reflowRemaining;
        slotsUsed, reflowRemaining, end := GreedyLoop(pr, allocations, rejected, slotsUsed, reflowBudget, d);
      }
      PassUnfolds(pr, f, end, 0);
    } else {
      NoFloorNoFall(pr, f, start);
    }
  }

  /** One pass of the specification, by cases on whether anybody falls. */
  lemma PassUnfolds(pr: Problem, f: Floors, s: State, passes: nat)
    requires pr.Valid() && Shaped(pr, s)
    ensures var d := Drop(pr, f, s);
      && (!AnyFalls(pr, f, s) ==> d.alloc == s.alloc && d.rejected == s.rejected && ReflowPasses(pr, f, s, passes) == s)
      && (AnyFalls(pr, f, s) ==>
        && 0 < d.budget && d.slotsUsed == s.slotsUsed
        && (0 < passes ==>
          ReflowPasses(pr, f, s, passes) == ReflowPasses(pr, f, Run(pr, d, pr.MaxIters()), passes - 1)))
    ensures ReflowPasses(pr, f, s, 0) == s
  {
    hide Run;
    if AnyFalls(pr, f, s) { DropRejects(pr, f, s); }
  }

  lemma NoFloorNoFall(pr: Problem, f: Floors, s: State)
    requires pr.Valid() && Shaped(pr, s) && f.gas == 0 && f.minRewards28d == 0
    ensures ReflowPasses(pr, f, s, REFLOW_PASSES) == s
  {
  }
}
