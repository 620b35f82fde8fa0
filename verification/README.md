# Verification of the Graph indexer MCP server's core

A Dafny model of the parts of the server where a mistake would cost stake, serve stale
state or grant a call: the stake allocator and its action list, the coalescing TTL cache
and its use by the graphman client, the Kubernetes-RBAC authorizer, the deployment-id and
decimal codecs, and the QoS client's pagination and averages. `dafny verify dfyconfig.toml`
checks everything.

## How the model is laid out

- **Allocator.** `Reward` holds the two integer quotients, `Greedy` the chunked greedy loop
  as a transition system, `Reflow` the whole plan with its reward-floor passes. `Allocator`
  and `Optimizer` run the same steps in place on arrays and are tied to that system;
  `IterationBound`, `Whitelist`, `NearOptimal`, `SmallBudgets` and `Sharpness` are about its
  outcome, and `Inputs` builds the problems that break a claim from candidates.
  `Planner` is the frozen/available split and the diff, `Effects` what executing the
  actions does.
- **Caches.** `TtlCache` is the cache as a class, every method tied to a function on its
  maps. `CacheProtocol` runs those functions under any interleaving of callers and settling
  fetches; `Graphman` adds a server whose state changes under concurrent mutations, and
  `IdCase` is about its lowercased keys.
  `BoundedTtl` and `K8sRbac` do the same for the authorizer. Cached values in
  `CacheProtocol` say which write or fetch they come from, so a run shows what a reader is
  served. Time is a parameter.
- **Worker pool.** `MapPool`: pulling from the shared index is one atomic step, calls finish
  or reject in any order.
- **Codecs.** `Digits` is positional notation in any base; `Base58`, `Hex` and `Ipfs` build
  the deployment-id forms on it (alphabet and algorithms of draft-msporny-base58, sections 2
  to 4; header bytes 0x12 0x20 of the multiformats Multihash specification), `Decimal`,
  `Grt` and `Qos` the decimal strings.
- **QoS.** `Pagination` reads each page from the table of its moment; `QosAggregate` is the
  weighted mean.

## Where the code and its comments differ

- The iteration bound (src/services/allocation-optimizer.ts:1434-1438): iterations on nearly capped picks
  and the rounded chunk make 1000 + |picks| + 1 too few for some budgets between 1000 and
  10^6 wei; `IterationBound.IterationBoundExact` and, from candidates on,
  `Inputs.CandidatesBoundExact` give the exact condition, and `Reflow.PlanLoopsEndIff` for the
  reflow loops as well.
- "Guaranteed at least one chunk" (same file, 1249-1251): under the floors that
  its first chunk meets, a whitelisted pick is guaranteed one exactly when a slot is left at
  its turn and the stake covers the first chunks up to it (`Whitelist.ChunkGuaranteedIff`). Without a slot it gets nothing at any stake
  (`Whitelist.NoSlotNoStake`). Without the stake a reflow can still serve it late, from what
  an earlier pick is made to give up (`Whitelist.ServedLate`, `Whitelist.LateNeedsDrop`).
- "Reflow can re-fund" a pre-seated current that a pass has zeroed (same file, 1504-1508 and
  1595-1597): a zeroed pick is rejected in the same pass and stays closed
  (`Reflow.PassesReject`).
- "Already enforced the reward-floor invariants" (same file, 1632-1634): only for at most five picks;
  `Reflow.FloorGuaranteedIff` and, from candidates on, `Inputs.ProposalsClearFloorIff`.
- src/utils/cache.ts:106-107 says only callers already waiting get the older value after a set; a new
  caller can get it too once the written entry has expired or been evicted
  (`CacheProtocol.StaleJoinIff`).
- src/utils/cache.ts:170-171 says a failed promise is never pinned; a fetcher that throws before it
  returns a promise pins one (`CacheProtocol.ThrowPinsForever`). The cache's proofs therefore
  take fetchers to be asynchronous, and `CacheProtocol.SlotsLiveIff` says that this is
  exactly what they need.
- src/utils/ipfs.ts:10-12 calls the conversions total in both directions; from Qm form they are not
  (`Ipfs.QmOnesRejected`, `Ipfs.ToBytes32Iff`).
- src/clients/graphman.ts:460 and 476 key the cache by the lowercased id although base 58 is case
  sensitive; readers are served their own deployment exactly when the ids in use stay
  distinct (`IdCase.ServesOwnIff`), and two valid ids need not (`IdCase.QmIdsCollide`).
- src/clients/qos-subgraph.ts:475 says that more data exists when all pages were full; the
  flag is set exactly at 50 000 rows, so a table of just that size is reported as truncated
  too (`Pagination.PaginateByCursor`).
- src/clients/qos-subgraph.ts:312-313 says negative values read as 0; a minus sign after the point is
  not caught (`Qos.NegativeReadingIff`).

No comment claims it, but a natural smaller bound on the distance to the optimum,
(λ+1)·chunk·open picks/10^27, is guaranteed only for budgets of at most two wei
(`Sharpness.ClosedBoundGuaranteedIff`): flooring the marginals costs up to one unit per wei
moved. `NearOptimal.NearOptimality` is the bound that always holds.

## Model

| member | source | states |
|---|---|---|
| Reward.Constants | src/services/allocation-optimizer.ts:210-233 | the scale is 10^27 and the sentinel 2^200 |
| Reward.MarginalCases | src/services/allocation-optimizer.ts:243-253 | for a positive R: 2^200 at zero stake for whitelisted or uncontested deployments, 0 beyond it for uncontested ones, and otherwise the m with m·(D+A)² ≤ R·D·10^27 < (m+1)·(D+A)² |
| Reward.MarginalAntitoneIff | src/services/allocation-optimizer.ts:243-253 | the marginal never rises with the allocation if and only if the sentinel dominates; the one exception is a whitelisted deployment whose real marginal at one wei exceeds 2^200 |
| Reward.SmallRewardDominated | src/services/allocation-optimizer.ts:225-231 | R·10^27 ≤ 2^200 is enough for 2^200 to be at least every marginal of the deployment |
| Reward.PerDeploymentCap | src/services/allocation-optimizer.ts:309-318 | cap·10^6 ≤ stake·ppm < (cap+1)·10^6, and never above the stake for at most 10^6 ppm |
| Reward.ProjectedRewardBrackets | src/services/allocation-optimizer.ts:1534-1535 | the projected reward q satisfies q·(D+A) ≤ R·A < (q+1)·(D+A) |
| IterationBound.ChunkSize | src/services/allocation-optimizer.ts:1430-1432 | a thousandth of the budget from 1000 wei on, below it one wei |
| Reward.ProjectedRewardMono | src/services/allocation-optimizer.ts:1534-1535 | floor(R·A/(D+A)) does not fall when A grows |
| Greedy.BestIsFirstArgmax | src/services/allocation-optimizer.ts:1442-1457 | the scan finds the first pick with the largest positive marginal among the eligible ones, and only that pick satisfies the argmax relation; −1 exactly when no eligible pick has a positive marginal |
| Greedy.GrantPositive | src/services/allocation-optimizer.ts:1459-1469 | the amount of an iteration is positive and within chunk, headroom and remaining stake, so the allocAmount === 0n break is unreachable |
| Greedy.StepSafe | src/services/allocation-optimizer.ts:1440-1475 | every iteration keeps caps, the slot count, the last-chunk history, "no other stake, at most one chunk", and the total of allocations, remaining and idle stake |
| Greedy.RunSafe | src/services/allocation-optimizer.ts:1440-1475 | the same for any number of iterations |
| Greedy.RunGrows | src/services/allocation-optimizer.ts:1440-1475 | a loop never takes stake away and never touches a rejected pick |
| Greedy.OpenFitsSlots | src/services/allocation-optimizer.ts:1414-1472 | positive allocations number at most slotsUsed, and slotsUsed at most remainingSlots |
| Greedy.StepEquilibrium | src/services/allocation-optimizer.ts:1440-1475 | every iteration keeps the equilibrium: the marginal an open pick had just before its latest chunk is at least the marginal of every eligible pick now |
| Greedy.RunEquilibrium | src/services/allocation-optimizer.ts:1440-1475 | the equilibrium over any number of iterations |
| IterationBound.RunEnds | src/services/allocation-optimizer.ts:1434-1475 | a loop whose budget is at most 1002 chunks + |picks| − 1 ends within 1000 + |picks| + 1 iterations, with nothing left to hand out or nobody to hand it to |
| IterationBound.UsualBudgetsFit | src/services/allocation-optimizer.ts:1430-1438 | below 1000 wei and from 10^6 wei on every budget is within that bound |
| IterationBound.IterationBoundExact | src/services/allocation-optimizer.ts:1434-1438 | no problem with n picks and this budget is ever cut off if and only if budget ≤ 1002·chunk + n − 1; beyond it a cut-off run is constructed for every n |
| Whitelist.FirstChunkIff | src/services/allocation-optimizer.ts:1440-1475 | after the main loop a whitelisted or uncontested pick holds its first chunk if and only if a slot is left at its turn and the stake covers the first chunks of all admitted picks up to it |
| Whitelist.ChunkGuaranteedIff | src/services/allocation-optimizer.ts:1249-1251 | for every stake: the plan holds such a pick's first chunk under every floor that the chunk meets if and only if a slot is left at its turn and the stake covers the first chunks of all admitted picks up to it |
| Whitelist.PlannedChunkIff | src/services/allocation-optimizer.ts:221-223 | for given floors, with that stake or without a slot: the finished plan holds the first chunk, and holds anything at all on the pick, if and only if a slot is left at its turn and its projected reward meets the floor when the main loop ends |
| Whitelist.NoSlotNoStake | src/services/allocation-optimizer.ts:1595-1603 | for every stake: a pick without a slot at its turn ends the plan with nothing, reflow passes included |
| Whitelist.LateNeedsDrop | src/services/allocation-optimizer.ts:1249-1251 | where the stake does not cover the first chunks up to the pick, the plan holds its first chunk only if a slot is left and an earlier pick falls under its floor at the main loop's end |
| Whitelist.PlannedChunkNeeds | src/services/allocation-optimizer.ts:1249-1251 | what a first chunk in the plan needs for every stake: a slot, and with covering stake the floor met at the main loop's end, without it an earlier pick that falls |
| Whitelist.ServedLate | src/services/allocation-optimizer.ts:1518-1622 | such a late case: the pick holds nothing and misses its floor at the main loop's end, its wants exceed the stake, and a reflow still brings it its first chunk |
| Whitelist.ChunkMeetsFloor | src/services/allocation-optimizer.ts:1249-1251 | an admitted pick whose first chunk is covered and meets the floor keeps at least that chunk |
| Whitelist.ThousandServed | src/services/allocation-optimizer.ts:1249-1251 | from 1000 wei on, with at most 1000 picks and enough free slots, the main loop serves every such pick, and the plan keeps it if and only if the floor is met then |
| Whitelist.NewcomerTurnedAway | src/services/allocation-optimizer.ts:1249-1251 | with one slot held by an existing allocation a whitelisted newcomer ends the plan with nothing, for any budget and floors |
| Reflow.DropSafe | src/services/allocation-optimizer.ts:1528-1563 | a drop pass keeps every safety invariant and the total; what it recovers is the new budget |
| Reflow.DropEquilibrium | src/services/allocation-optimizer.ts:1528-1563 | a drop pass keeps the equilibrium |
| Reflow.DropMeetsFloor | src/services/allocation-optimizer.ts:1534-1560 | right after a drop every open pick meets its floor |
| Reflow.PlanSafe | src/services/allocation-optimizer.ts:1379-1622 | from pre-seating through all reflow passes: allocations + remaining + stranded stake equal the available stake, caps hold, rejected picks stay at 0, a pick without other stake holds at most one chunk, open picks ≤ slotsUsed ≤ remainingSlots |
| Reflow.PlanEquilibrium | src/services/allocation-optimizer.ts:1379-1622 | the equilibrium holds when the whole plan is finished |
| Reflow.PlanLoopsEnd | src/services/allocation-optimizer.ts:1430-1621 | below 1000 wei and from 10^6 wei on neither the main loop nor any reflow loop is cut off |
| Reflow.PlanLoopsEndIff | src/services/allocation-optimizer.ts:1430-1621 | for all plans with n picks and all floors neither the main loop nor a reflow loop is cut off if and only if budget ≤ 1002·chunk + n − 1 |
| Reflow.PassesReject | src/services/allocation-optimizer.ts:1524-1591 | a pick rejected once stays at 0 through all later passes, pre-seated or not |
| Reflow.FallsIff | src/services/allocation-optimizer.ts:1534-1560 | a pick falls exactly when it is open and its projected reward is below twice the gas or, without an existing allocation, below floor(28-day reward·365/28) |
| Reflow.PlanFloor | src/services/allocation-optimizer.ts:1518-1622 | either every open pick projects at least twice the gas and, without an existing allocation, at least floor(28-day reward·365/28), or all five passes dropped somebody and only picks opened in the last reflow fall short, with more than five picks |
| Reflow.FloorGuaranteedIff | src/services/allocation-optimizer.ts:1519-1634 | the floor is guaranteed for n picks if and only if n ≤ 5; for every larger n a plan that breaks it is constructed |
| Reflow.PlanKeepsIff | src/services/allocation-optimizer.ts:1518-1622 | what the main loop gives a pick the finished plan keeps if and only if its projected reward reached twice the gas and, without an existing allocation, floor(28-day reward·365/28) when the main loop ended; otherwise the pick ends with nothing |
| NearOptimal.NearOptimality | src/services/allocation-optimizer.ts:1430-1475 | for a state in equilibrium no split of at most the same stake on open or eligible picks within caps gains more than (stake moved + λ·chunk·open picks)/10^27 of reward R·x/(D+x), λ the best marginal left |
| NearOptimal.PlanNearOptimal | src/services/allocation-optimizer.ts:1379-1622 | the same for the finished plan: at most (available stake + λ·chunk·slots)/10^27 |
| SmallBudgets.SmallBudgetsHold | src/services/allocation-optimizer.ts:1379-1622 | with at most two wei no split of any finished plan gains more than (λ+1)·chunk·open/10^27 |
| Sharpness.ClosedBoundFails | src/services/allocation-optimizer.ts:1379-1622 | for every budget from three wei on a plan with two deployments whose floored marginals tie, and a split that beats it by more than that |
| Sharpness.ClosedBoundGuaranteedIff | src/services/allocation-optimizer.ts:1379-1622 | that bound holds for all problems with dominating sentinels, all floors and all splits if and only if the budget is at most two wei |
| Inputs.SlowIsBuilt | src/services/allocation-optimizer.ts:1331-1438 | the problem that is cut off is built from distinct candidates, a configuration and a network |
| Inputs.CandidatesBoundExact | src/services/allocation-optimizer.ts:1434-1438 | from candidates on: no optimization with n picks and this stake is cut off if and only if stake ≤ 1002·chunk + n − 1 |
| Inputs.ChainIsBuilt | src/services/allocation-optimizer.ts:1331-1346 | the problem that breaks the floor is built from distinct candidates, a configuration and a network |
| Inputs.ProposalsClearFloorIff | src/services/allocation-optimizer.ts:1632-1634 | from candidates on: every proposal clears its own candidate's floor if and only if there are at most five candidates |
| Inputs.TiedIsBuilt | src/services/allocation-optimizer.ts:1331-1346 | the problem that breaks the closed bound is built from distinct candidates, a configuration and a network |
| Inputs.LateIsBuilt | src/services/allocation-optimizer.ts:1331-1346 | the problem that serves its second pick late is built from whitelisted candidates, a configuration and a network |
| Inputs.NewcomerIsBuilt | src/services/allocation-optimizer.ts:1249-1251 | a whitelisted candidate beside an existing allocation and one slot, built from a configuration, ends with nothing |
| Allocator.PreSeatedBest | src/services/allocation-optimizer.ts:1386-1413 | a pre-seated pick has an existing allocation, and its marginal at that size is above that of every existing allocation left out, or equal with the lower index |
| Allocator.PreSeatedFits | src/services/allocation-optimizer.ts:1409-1414 | exactly min(existing allocations, remainingSlots) picks are pre-seated |
| Allocator.PreSeat | src/services/allocation-optimizer.ts:1386-1414 | the array of pre-seated flags and slotsUsed, as the ranking says |
| Allocator.FindBest | src/services/allocation-optimizer.ts:1442-1457 | the scan loop returns the first argmax |
| Allocator.GreedyLoop | src/services/allocation-optimizer.ts:1440-1475 | the in-place loop over the allocations array ends in the state of the transition system after MaxIters iterations |
| Allocator.DropPass | src/services/allocation-optimizer.ts:1523-1564 | the in-place pass leaves exactly the dropped state and the recovered budget, rejects exactly the open picks that miss a floor, and counts 0 exactly when there is none |
| Allocator.ReflowLoop | src/services/allocation-optimizer.ts:1518-1622 | the passes, with both early exits and the no-floor shortcut, end in the state of five reflow passes |
| Optimizer.PicksExactly | src/services/allocation-optimizer.ts:1331-1346 | the picks are, in order, exactly the candidates with total signal ≤ signal·issuance; R·T ≤ S·I < (R+1)·T, D plus the own stake is the total stake (0 when the own stake is larger), the cap is the risky or the normal share in ppm, and the whitelist flag is membership |
| Optimizer.CollectPicks | src/services/allocation-optimizer.ts:1331-1346 | the loop builds that list |
| Optimizer.ProposeExactly | src/services/allocation-optimizer.ts:1300-1346 | with signal, issuance, stake and a free slot the proposals are the positive allocations of the plan for those picks, the free slots and a chunk of max(1, stake/1000); otherwise there are none |
| Optimizer.CollectProposals | src/services/allocation-optimizer.ts:1635-1669 | the positive allocations, in pick order |
| Optimizer.Optimize | src/services/allocation-optimizer.ts:1273-1669 | the whole optimizer with its early returns computes the proposals of the plan |
| Optimizer.PlanProposals | src/services/allocation-optimizer.ts:1635-1669 | the proposals are exactly the positive allocations of the plan, within stake and slots, one per deployment |
| Optimizer.ProposeFits | src/services/allocation-optimizer.ts:1273-1669 | from candidates to proposals: total ≤ available stake, count ≤ free slots, one per deployment, each positive and within its candidate's cap and the total stake |
| Optimizer.FewProposalsClearFloor | src/services/allocation-optimizer.ts:1632-1634 | with at most five candidates every proposal clears the floor of its own candidate |
| Planner.IndexProposals | src/services/allocation-optimizer.ts:1701-1702 | the index holds exactly the proposed deployments |
| Planner.DiffActions | src/services/allocation-optimizer.ts:1688-1760 | the two loops produce the action list of the diff |
| Planner.RunPlan | src/services/allocation-optimizer.ts:1132-1193 | frozen allocations first, then the optimizer on the remaining stake and slots, then the diff |
| Effects.DiffReaches | src/services/allocation-optimizer.ts:1688-1760 | after executing the actions each deployment holds what its proposal says, a deployment without one holds nothing, and a frozen one is untouched |
| Effects.DiffIsMinimal | src/services/allocation-optimizer.ts:1673-1684 | at most one action per deployment, none on frozen ones, each naming the right on-chain allocation, and an action exactly where the holdings change |
| Effects.PlannedFits | src/services/allocation-optimizer.ts:1132-1193 | the planned total is at most max(tokenCapacity, frozen stake) and the count at most max(maxAllocations, frozen count), one proposal per deployment |
| Effects.PlannedExactly | src/services/allocation-optimizer.ts:1132-1187 | the plan is the frozen allocations followed by what the optimizer proposes for the unfrozen candidates with exactly the stake and the slots the frozen ones leave |
| Effects.PlanReachesProposals | src/services/allocation-optimizer.ts:1132-1200 | end to end: executing the planned actions, amounts read back from their decimal strings, turns the current holdings into exactly the proposed ones |
| Decimal.PrintThenParse | src/services/allocation-optimizer.ts:1788-1798 | for any digit count, printing a fixed-point number and parsing it back is the identity, and the output is canonical |
| Decimal.OneDigit | src/services/allocation-optimizer.ts:1788-1798 | digits print and read as their characters |
| Decimal.ParseThenPrint | src/services/allocation-optimizer.ts:1788-1798 | for any digit count, printing undoes parsing on canonical strings |
| Decimal.ParseIsFloor | src/tools/composite-tools.ts:66-68 | padding or cutting the fraction reads floor(number·10^k) |
| Grt.WeiRoundTrip | src/services/allocation-optimizer.ts:1788-1798 | grtToWei of the printed amount is the amount, for every wei ≥ 0, and the print has no trailing fractional zeros |
| Grt.GrtRoundTrip | src/tools/composite-tools.ts:58-69 | printing undoes grtToWei on every canonical amount |
| Grt.GrtToWeiIsFloor | src/tools/composite-tools.ts:58-69 | every valid amount with f fractional digits spelling N is read as floor(N·10^18/10^f) |
| Grt.WholeGrt | src/services/allocation-optimizer.ts:1788-1798 | n GRT are n·1000000000000000000 wei, printed and read |
| Grt.GrtAcceptsIff | src/tools/composite-tools.ts:60-64 | accepted exactly: digits, or digits on both sides of one point |
| TtlCache.Cache.constructor | src/utils/cache.ts:65-69 | an empty cache with the given limits |
| TtlCache.Cache.BumpGeneration | src/utils/cache.ts:72-76 | one more for the key, nothing else |
| TtlCache.Cache.Get | src/utils/cache.ts:84-94 | the fresh value or nothing; an expired entry is dropped |
| TtlCache.Cache.Write | src/utils/cache.ts:119-128 | the write, the refreshed insertion order and the eviction of the oldest key |
| TtlCache.Cache.Set | src/utils/cache.ts:109-112 | bump, then write |
| TtlCache.Cache.Invalidate | src/utils/cache.ts:135-142 | entry and slot gone, generation bumped |
| TtlCache.Cache.BumpKeys | src/utils/cache.ts:152-155 | the loop bumps every key of the set once and no other |
| TtlCache.Cache.Clear | src/utils/cache.ts:148-157 | nothing stored or in flight, and every key ever tracked bumped, in-flight ones included |
| TtlCache.Cache.GetOrFetch | src/utils/cache.ts:173-234 | hit, join or start, with the slot registered under the current generation |
| TtlCache.Cache.Settle | src/utils/cache.ts:205-228 | the value is written only under its own generation, the slot cleared only if still its own |
| TtlCache.WriteKeeps | src/utils/cache.ts:119-128 | a write leaves every other stored value alone or evicts it |
| TtlCache.WriteServes | src/utils/cache.ts:84-128 | a written value is served until now + ttl and not longer |
| TtlCache.SetServes | src/utils/cache.ts:109-112 | a set value is served from then on, for the lifetime |
| TtlCache.InvalidateOnly | src/utils/cache.ts:135-142 | an invalidation removes its key's entry and slot, bumps its generation, and touches no other key |
| TtlCache.SetOnly | src/utils/cache.ts:109-112 | a set bumps its own key only and leaves the fetches in flight alone |
| TtlCache.ClearAll | src/utils/cache.ts:148-157 | a clear empties store and slots and bumps exactly the keys tracked or in flight |
| TtlCache.SettleServes | src/utils/cache.ts:205-213 | the value of a fetch of the current generation is stored and served, for the lifetime |
| TtlCache.FindCases | src/utils/cache.ts:180-229 | the three outcomes of getOrFetch: an unexpired entry, else the fetch in flight, else a new one under the counted generation |
| TtlCache.GetDrops | src/utils/cache.ts:84-94 | a read deletes an entry it finds expired and changes nothing otherwise |
| TtlCache.FindKeeps | src/utils/cache.ts:173-234 | a lookup at most drops an expired entry and on a miss adds one slot to a key that had none |
| TtlCache.SettleKeeps | src/utils/cache.ts:205-228 | a settling fetch writes at most its own key under its own generation and clears at most its own slot |
| CacheProtocol.StepInv | src/utils/cache.ts:72-234 | every event of every interleaving keeps: each slot names an unsettled fetch of its key; each unsettled fetch owns its slot or is superseded; nothing served predates its fence |
| CacheProtocol.RunInv | src/utils/cache.ts:72-234 | the invariant in every reachable state |
| CacheProtocol.FenceHolds | src/utils/cache.ts:135-228 | a get or getOrFetch of k after invalidate(k) or clear() is served only from a write or a fetch that began later, whatever settles in between |
| CacheProtocol.StoredSinceSet | src/utils/cache.ts:101-112 | after set(k) a stored value is that write or a later one |
| CacheProtocol.StaleJoinIff | src/utils/cache.ts:101-112 | a new caller is handed a fetch older than the last set exactly when the written entry is gone and the old fetch still owns the slot |
| CacheProtocol.StaleJoinHappens | src/utils/cache.ts:101-112 | a four-event run in which that happens |
| CacheProtocol.SingleFlight | src/utils/cache.ts:186-229 | at most one unsettled fetch per key carries the current generation |
| CacheProtocol.NoPinnedSlot | src/utils/cache.ts:220-228 | once everything has settled no slot is left |
| CacheProtocol.SettlesOwnSlot | src/utils/cache.ts:221-226 | a settling fetch removes its own slot and no successor's |
| CacheProtocol.PinnedForever | src/utils/cache.ts:205-229 | while a slot names a settled fetch, every miss awaits that dead promise until an invalidate or clear |
| CacheProtocol.ThrowPinsForever | src/utils/cache.ts:205-229 | a fetcher that throws synchronously on a miss leaves such a slot, so every later miss awaits its promise until an invalidate or clear |
| CacheProtocol.SlotsLiveIff | src/utils/cache.ts:170-229 | all slots of all states of a run name unsettled fetches if and only if no called fetcher threw before returning its promise |
| CacheProtocol.StepOrdered | src/utils/cache.ts:119-128 | every event keeps the insertion order in step with the store and the size within maxEntries |
| CacheProtocol.EvictsOldest | src/utils/cache.ts:123-127 | what a write evicts is the key inserted first, and only when the bound is exceeded |
| Graphman.StepInv | src/clients/graphman.ts:454-650 | every event keeps: a stored answer is no older than the last acknowledged mutation; a fetch in flight covers everyone awaiting it |
| Graphman.RunInv | src/clients/graphman.ts:454-650 | the invariant in every reachable state, for ids that lowercasing keeps apart |
| Graphman.ReadCovered | src/clients/graphman.ts:474-512 | a read is served a state, or awaits a fetch that will deliver one, no older than everything acknowledged so far |
| Graphman.ReadYourWrites | src/clients/graphman.ts:454-650 | after a successful reply to any mutation, or any reply to a reassign or drop, every later getDeploymentInfo of that id delivers a state no older than the mutation, from the store, a joined or an own fetch |
| Graphman.MutationIsNew | src/clients/graphman.ts:514-650 | a mutation's version is the server's state after it, newer than any before |
| Graphman.DeliveredReal | src/clients/graphman.ts:474-512 | no reader is delivered a state newer than the server has |
| Graphman.FailedReplyKeeps | src/clients/graphman.ts:521-553 | an unsuccessful pause, resume, unassign, restart or rewind reply leaves the cache as it is |
| Graphman.ReplyInvalidates | src/clients/graphman.ts:459-463 | a successful reply removes the entry and the slot of its deployment and no other entry |
| Graphman.KeyOfIff | src/clients/graphman.ts:460-476 | two ids share a cache key exactly when they agree up to the case of A to Z |
| Graphman.InfoLives | src/clients/graphman.ts:454-457 | a delivered answer is served from the store for 300000 ms and not longer |
| Graphman.CollisionServesOther | src/clients/graphman.ts:460-476 | two ids that agree up to case share an entry: the second reader gets the first deployment's state |
| IdCase.ServesOwnIff | src/clients/graphman.ts:460-476 | in every run over a set of ids each reader is served its own deployment if and only if no two of the ids agree up to case |
| IdCase.QmIdsCollide | src/clients/graphman.ts:460-476 | two valid, convertible Qm ids that share a cache key |
| BoundedTtl.TtlMap.Get | src/auth/k8s-rbac.ts:96-104 | the unexpired value or nothing; an expired entry is dropped |
| BoundedTtl.TtlMap.Set | src/auth/k8s-rbac.ts:106-114 | the entry moves to the end; at most max entries remain |
| BoundedTtl.TtlMap.Clear | src/auth/k8s-rbac.ts:116-118 | empty |
| BoundedTtl.LookupIsNewestWrites | src/auth/k8s-rbac.ts:82-119 | under a clock that never goes back a lookup answers as if the map held exactly the last max distinct keys written; never more than max entries |
| BoundedTtl.EvictsEarliestExpiring | src/auth/k8s-rbac.ts:106-114 | the entry a write evicts is the first of all to expire |
| BoundedTtl.SetServes | src/auth/k8s-rbac.ts:96-114 | a written value is read until now + ttl and not longer |
| BoundedTtl.GetDrops | src/auth/k8s-rbac.ts:96-104 | a read deletes an entry it finds expired and changes nothing otherwise |
| K8sRbac.SarKeyInjective | src/auth/k8s-rbac.ts:377 | the access-cache key determines token digest and verb |
| K8sRbac.Authorizer.BeginReview | src/auth/k8s-rbac.ts:316-320 | the cached review, if unexpired |
| K8sRbac.Authorizer.ReviewReplied | src/auth/k8s-rbac.ts:322-355 | a subject only from a 2xx reply that says authenticated and names a user; only 2xx replies are cached, for 30000 ms |
| K8sRbac.Authorizer.BeginAccess | src/auth/k8s-rbac.ts:371-379 | the cached answer for token and verb, if unexpired |
| K8sRbac.Authorizer.AccessReplied | src/auth/k8s-rbac.ts:381-411 | allowed exactly for a 2xx reply whose field allowed is true; a 2xx reply's field is cached for 10000 ms, anything else is not cached |
| K8sRbac.StepInv | src/auth/k8s-rbac.ts:316-428 | every event of every interleaving keeps both caches backed by apiserver answers and within 1000 entries |
| K8sRbac.RunInv | src/auth/k8s-rbac.ts:316-428 | the invariant in every reachable state, under any clock |
| K8sRbac.GrantIsBacked | src/auth/k8s-rbac.ts:414-428 | behind a grant is a 2xx reply with allowed == true for that token's verb, less than 10000 ms old, asked for a user that a 2xx authenticated review of the same token named less than 30000 ms before it was used, and the call itself holds such a review |
| K8sRbac.RepliesMean | src/auth/k8s-rbac.ts:346-410 | what is read from a reply is what its fields say, and nothing from anything but a 2xx reply |
| K8sRbac.AccessDecides | src/auth/k8s-rbac.ts:381-411 | a 2xx reply ends its call with its field allowed, and that value is cached for the token and verb for 10000 ms |
| K8sRbac.ReviewDecides | src/auth/k8s-rbac.ts:346-364 | a 2xx review names its user only if authenticated, and that result is cached for the token for 30000 ms |
| K8sRbac.AuthorizeDecides | src/auth/k8s-rbac.ts:414-422 | a call without a token is denied at once; with one it takes the cached review or waits for one |
| K8sRbac.CachedDecides | src/auth/k8s-rbac.ts:378-428 | a cached answer decides a call by its value, an unauthenticated review by denial |
| K8sRbac.FailureDenies | src/auth/k8s-rbac.ts:36-37 | a failed or non-2xx request changes no cache and its call ends denied |
| K8sRbac.CachedAsUncached | src/auth/k8s-rbac.ts:310-428 | against an apiserver whose 2xx replies always carry the same fields every grant is one the uncached authorizer gives, and a call without failed requests answers exactly as the uncached one |
| MapPool.NeverTwice | src/services/discovery-engine.ts:1186-1210 | in every interleaving items start in increasing order, none twice, on min(max(1, concurrency), n) workers, and no more are in flight |
| MapPool.CompletedExactly | src/services/discovery-engine.ts:1186-1210 | without rejections the processed set does not depend on the schedule: an item is processed exactly when it is defined and fewer undefined items than workers precede it |
| MapPool.NothingLeftOut | src/services/discovery-engine.ts:1186-1210 | with no undefined item all items are processed |
| MapPool.RunsEnd | src/services/discovery-engine.ts:1186-1210 | no run takes more than 2n + width steps |
| MapPool.Drive | src/services/discovery-engine.ts:1186-1210 | the worker loop under an arbitrary scheduler ends with every worker returned or failed and the same processed set |
| Base58.AlphabetAt | src/utils/ipfs.ts:24 | the digit-to-character function is the alphabet string |
| Base58.ClassIsAlphabet | src/utils/ipfs.ts:24-26 | the character class of the pattern is the alphabet |
| Base58.RecodeInverts | src/utils/ipfs.ts:28-64 | changing the base and keeping leading zeros is undone by changing back, for any two bases and any digits |
| Base58.RecodeKeeps | src/utils/ipfs.ts:28-64 | changing the base keeps the number and the count of leading zeros |
| Base58.DecodeEncode | src/utils/ipfs.ts:28-64 | decode(encode(b)) = b for every byte sequence, leading zeros included |
| Base58.EncodeDecode | src/utils/ipfs.ts:28-64 | decode accepts exactly the strings over the alphabet, and encode(decode(s)) = s on them |
| Base58.EncodeSpells | src/utils/ipfs.ts:28-42 | the encoding spells the number the bytes spell, one leading 1 for every leading zero byte |
| Hex.HexAlphabet | src/utils/ipfs.ts:57-100 | the hex digits as characters, written in lower case and read in both |
| Base58.Base58Encode | src/utils/ipfs.ts:28-42 | the division loop and the leading-zero loop compute the encoding |
| Base58.WriteDigits | src/utils/ipfs.ts:31-35 | the division loop writes the base-58 digits of the number |
| Base58.Base58Decode | src/utils/ipfs.ts:44-64 | the loops compute the decoding, or fail on a foreign character |
| Base58.FillBytes | src/utils/ipfs.ts:59-62 | the byte buffer holds the leading zeros followed by the hex pairs |
| Ipfs.ToQmDeploymentId | src/utils/ipfs.ts:67-82 | the conversion to Qm form, or the error |
| Ipfs.ToBytes32DeploymentId | src/utils/ipfs.ts:85-102 | the conversion to 0x form, or the error, with the hex loop |
| Ipfs.QmShape | src/utils/ipfs.ts:75-81 | the Qm form of every 32-byte hash has 46 characters, starts with "Qm" and matches the pattern |
| Ipfs.QmSpells | src/utils/ipfs.ts:67-82 | the Qm form of a 0x id spells 0x1220·2^256 plus the number of its hex digits |
| Ipfs.PatternsAre | src/utils/ipfs.ts:25-26 | the two patterns, character by character |
| Ipfs.ConvertsIff | src/utils/ipfs.ts:67-91 | both conversions refuse everything else; toQm accepts both forms, and every 0x id converts both ways |
| Ipfs.ToBytes32Iff | src/utils/ipfs.ts:92-98 | a Qm-shaped string converts if and only if its base-58 value lies in [0x1220·2^256, 0x1221·2^256) |
| Ipfs.QmOnesRejected | src/utils/ipfs.ts:10-12 | "Qm" followed by 44 ones matches the pattern and does not convert |
| Ipfs.Bytes32RoundTrip | src/utils/ipfs.ts:67-102 | every 0x id survives the trip through its Qm form, up to hex case |
| Ipfs.QmRoundTrip | src/utils/ipfs.ts:67-102 | every Qm id that converts comes back unchanged |
| Ipfs.QmInjective | src/utils/ipfs.ts:67-82 | two 0x ids have one Qm form exactly when they differ at most in hex case |
| Pagination.CollectPage | src/clients/qos-subgraph.ts:444-473 | one page from a table that has changed meanwhile keeps: rows increasing, cursor at the last row, every row present in all snapshots up to the cursor collected |
| Pagination.PaginateByCursor | src/clients/qos-subgraph.ts:435-482 | rows strictly increasing, none twice, each from some snapshot; not truncated means every row present in all snapshots is returned; truncated exactly when 50000 rows were read; at most 50 pages of 1000; the stall branch is never taken |
| Qos.ParsesDecimal | src/clients/qos-subgraph.ts:315-328 | on a plain decimal the lenient parser is the fixed-point parser with nine digits |
| Qos.ScaledIsFloor | src/clients/qos-subgraph.ts:315-328 | a plain decimal is read as the floor of 1000000000 times its value |
| Qos.ReadsZero | src/clients/qos-subgraph.ts:316-318 | an absent or blank reading and one with a leading minus are 0 |
| Qos.CountIsInteger | src/clients/qos-subgraph.ts:299-307 | a count is the signed integer before the point |
| Qos.UnreadableIsZero | src/clients/qos-subgraph.ts:304-306 | what BigInt refuses counts as 0 |
| Qos.RadixLiterals | src/clients/qos-subgraph.ts:303 | hexadecimal, octal and binary literals are read as their values |
| Qos.TrimPads | src/clients/qos-subgraph.ts:317 | surrounding white space is ignored |
| Qos.Spaces | src/clients/qos-subgraph.ts:317 | the white space characters, one by one |
| Qos.FormatsWhole | src/clients/qos-subgraph.ts:334-342 | n·1000000000 prints as n, with a minus in front when negative |
| Qos.ScaledRoundTripIff | src/clients/qos-subgraph.ts:315-342 | parsing a formatted value gives it back if and only if it is not negative |
| Qos.MetricNonNegative | src/clients/qos-subgraph.ts:312-313 | a reading without a minus sign is never negative |
| Qos.NegativeReadingIff | src/clients/qos-subgraph.ts:312-328 | a reading is negative exactly when it has no leading minus, its whole part reads as 0 and the nine characters after the point spell a negative number |
| Qos.MinusAfterPoint | src/clients/qos-subgraph.ts:312-328 | what a minus sign right after the point does: the fraction is subtracted |
| QosAggregate.AggregateIndexerQoS | src/clients/qos-subgraph.ts:518-572 | each of the three means is Σ n·x / Σ n over the rows with positive count n and a reading x of that name, cut towards zero (rows without the reading count with 0), or null without such a row; query_count sums all rows, data_point_count the positive counts |
| QosAggregate.SplitDay | src/clients/qos-subgraph.ts:540-563 | a row of n + m data points can be split into two of n and m without changing the report |
| QosAggregate.AverageBounds | src/clients/qos-subgraph.ts:527-572 | an average lies between any bounds on the weighted readings, of either sign; 0 has to be between them when a weighted row lacks the metric |
| QosAggregate.MissingReadingDilutes | src/clients/qos-subgraph.ts:540-572 | a weighted row without the metric pulls the average below the only reading |
| QosAggregate.AverageReadsBack | src/clients/qos-subgraph.ts:561-572 | the printed average parses back to the average |
| QosAggregate.ReportPermutes | src/clients/qos-subgraph.ts:518-572 | the report does not depend on the order of the rows |

## Left out

- NearOptimal.NearOptimality: compares only splits that leave whitelisted picks and picks without other stake as they are, since their first chunk is a policy, not a marginal.
- Whitelist.FirstChunkIff: is about the main loop and assumes R·10^27 < 2^200; Whitelist.PlannedChunkIff is about the finished plan.
- Whitelist.PlannedChunkIff: for an admitted pick it assumes covering stake; below it Whitelist.LateNeedsDrop gives what late service needs, not which recovered amount suffices, since a partly funded pick competes on its real marginal.
- Reflow.PlanEquilibrium: assumes that the sentinel dominates, the condition of Reward.MarginalAntitoneIff.
- BoundedTtl.LookupIsNewestWrites: assumes a positive lifetime, as both maps of the authorizer have, and a clock that does not go back; the authorizer's own theorems do not.
- Graphman.ReadYourWrites: the server's state is a version counter per deployment; a reply that never arrives invalidates nothing, as in the source.
- Pagination.PaginateByCursor: an empty id is not a row; rows are represented by their ids, and string order by character codes.
- Candidate gathering and filtering before src/services/allocation-optimizer.ts:1091: the model starts from a finite list of candidates with distinct ids.
- The percentage caps enter as parts per million between 0 and 1 000 000; their conversion from a floating-point percentage is not modelled.
- Floating-point APR values, rationale texts, warnings and log lines.
- The candidate order of the sort in pre-seating is modelled as insertion in order; only its result is specified.
- A JavaScript Map is a sequence of entries in insertion order, or a map with the order beside it; iteration while it is being changed does not occur in the modelled code.
- AbortSignal racing: a caller that aborts drops out of the model.
- The token hash is taken as injective, so a token stands for its digest; the startup self-check of the authorizer.
- The numeric argument form of grtToWei, and white space beyond ASCII when BigInt reads a string.
- The top-level query-volume aggregation and skip-based pagination of the QoS client.
- Network, TLS, HTTP, database and process code, tool registration, configuration parsing and access-control tables.
