# DynamoRouter: a verified model of the routing core

DynamoRouter sends inference requests to the replica that is most likely to
hold the prompt's prefix in its KV cache. This project models, in Dafny, the
parts that decide where a request goes and that keep the router's picture of
each replica honest, and proves what the code and its documentation promise
about them.

| file | what it models |
|---|---|
| `Blocks.dfy` | the chained FNV-1a style block hash (FNV-1a: section 2 of draft-eastlake-fnv), over 64-bit words |
| `LruCache.dfy` | the value of a lazy-heap LRU cache and the pure meaning of its operations |
| `PrefixCache.dfy`, `KvCacheSim.dfy` | the router's and the replica's cache as classes with the real fields and loops |
| `Recency.dfy` | the recency list, the simplest description of the cache, and the refinement to it |
| `CacheLaws.dfy`, `RefreshLaws.dfy`, `InclusionExactness.dfy` | exact hits after serving; LRU inclusion between budgets, without and with refreshes, and exactly when it holds |
| `HeapCost.dfy`, `HeapBounds.dfy` | amortised cost and accounting of the heap's entries; when the heap stays within the blocks |
| `RadixTree.dfy`, `RadixEquivalence.dfy`, `RadixExactness.dfy` | the radix tree with leaf-first LRU eviction, and the equivalence of the flat cache with it |
| `Routing.dfy`, `Scheduler.dfy` | the routing rule as what it optimises, and the scheduler class with its scans |
| `SchedulerRuns.dfy`, `RoutingLaws.dfy`, `RoutingTies.dfy` | safety over all scheduler runs; balance, session affinity, round-robin fairness; each decision written out to the last tie |
| `Mirror.dfy`, `MirrorExactness.dfy` | the router's pictures against the replicas' own caches; exactly when predictions can be relied on |
| `Protocol.dfy`, `ProtocolLaws.dfy`, `ProtocolTheorems.dfy` | request handlers and the health prober as interleaved atomic steps; the in-flight ledger |
| `ProtocolSteps.dfy`, `ProtocolOutcomes.dfy` | each handler's steps in literal events; rejections, failed calls and probes over all interleavings |
| `ProtocolRetries.dfy`, `ProtocolSkew.dfy` | where retries go; the load that resets hide |
| `ProtocolPicks.dfy`, `ProtocolCounters.dfy` | the request counters against the picks of the run; when matched stays within prompt |

How the parts fit: each class method is proved to compute a function on the
value of its object (`State()`); the theorems are about those functions, over
arbitrary runs. The source's counter `seq` is called `ticket` here, because
`seq` is a Dafny type. `BinaryHeap` is a multiset whose `pop` takes the maximum
of the source's tuple order, and `FxHashMap` is a map.

## Where the code and its documentation part

* "Two requests only share a hash if they share the exact token prefix"
  (README.md:50-51): false. `BlocksCanCollide` gives two one-block prompts with
  one hash. The exact condition is on the last token where two prompts differ:
  their hashes meet if and only if the running hashes before it differ by just
  the two tokens (`MeetsExactlyWhen`); tokens reach the lower half only, so
  some next tokens bring two prefixes together if and only if their running
  hashes agree in the upper 32 bits (`UpperHalvesDecide`). Prompts that differ
  in one token never share a hash from there on (`OneTokenSeparates`).
* "A flat map is equivalent to a radix tree" (prefix_cache.rs:3-7): true over
  every run exactly when the chains are parent-consistent
  (`EquivalentExactlyWhenConsistent`), which hash chains are as long as no two
  of the prompts' prefixes of full blocks collide (`CollisionFreeIsConsistent`).
* "Heap size bounded by a constant multiple of `num_blocks()`"
  (prefix_cache.rs:26-27): true after every touch, with the floor of 1024
  (`TouchIsPaid`). Where each insert is followed by an eviction, as the
  scheduler does it, the heap exceeds that by at most the length of a chain, in
  every state the scheduler can reach (`SchedulerHeapsAreBounded`), and a
  constant of 3 suffices for distinct blocks that fit the budget
  (`ServeKeepsHeapWithinBlocks`). After an eviction of any other reachable
  state it holds if and only if few enough stale entries pop after the last
  evicted block (`EvictedHeapSize`), and `HeapCanOutgrowBlocks` gives runs in
  which too many do.
* "True LRU eviction" (prefix_cache.rs:8) suggests LRU inclusion: a larger cache
  never matches less. It holds for served requests on arbitrary hash sequences
  (`LruInclusion`). With `match_prefix` in the run it holds on parent-consistent
  chains (`RefreshKeepsInclusion`); and once enough other blocks can be
  requested, it holds over all runs and budgets if and only if the chains are
  parent-consistent (`InclusionExactlyWhenConsistent`; `RefreshBreaksInclusion`
  is a concrete run without).
* The design spec excludes the failed replica from a retry; the code relies on
  its health mark. Both calls of a request go to one replica only if the prober
  readmits it between the mark and the second pick (`RepeatNeedsReadmission`),
  and then they may, in fleets of every size (`RetryMayRepeat`).
* `matched_blocks_total` may exceed `prompt_blocks_total` between the two
  increments of `record_served`, by no more than what such handlers still owe
  (`MatchedIsBounded`). It never does if and only if the configuration cannot
  match at all (`MatchedNeverExceedsExactlyWhen`).
* The router's pictures are said to be approximate. They never promise more
  than a replica has, over all runs, if and only if the block budget fits the
  replica's capacity and no request reaches a replica that is behind, or the
  fleet never matches (`OverpromisesExactlyWhen`). A lost request or cache does
  no harm if the replica is marked before its next request; marking a good
  replica never does; every other mishap can (`MishapsThatOverpromise`).
  `MistakenExactlyWhen` and `MishapsThatMislead` say when pictures are exact.
* The skew that a reset leaves in the load counts is called small and harmless
  (scheduler.rs:208-210). The requests outstanding on a replica exceed the cap
  by at most what resets dropped (`OutstandingIsCapped`), and they do reach
  that: after any number of resets a replica can hold a full load for each of
  them on top of its cap (`CapIsOvershot`).

## Model

| member | source | states |
|---|---|---|
| Blocks.BlockHashes | crates/protocol/src/blocks.rs:5-18 | one hash per full 16-token block, each the fold of all tokens up to the block's end; a partial block is dropped |
| Blocks.MixIsBijective | crates/protocol/src/blocks.rs:11-12 | each token step is a bijection on the 64-bit running hash, with an explicit inverse |
| Blocks.MixSeparatesTokens | crates/protocol/src/blocks.rs:11-12 | from one running hash, different tokens never lead to the same hash |
| Blocks.FoldIsInjective | crates/protocol/src/blocks.rs:8-16 | over equal following tokens, running hashes are equal if and only if they started equal |
| Blocks.SharedTailSharesHash | crates/protocol/src/blocks.rs:3-16 | two prompts share a hash after a common tail exactly when they shared it before |
| Blocks.OneTokenSeparates | crates/protocol/src/blocks.rs:3-18 | prompts differing in one token agree on block i if and only if i lies before that token's block; no collision assumption |
| Blocks.LaterTokensDoNotMatter | crates/protocol/src/blocks.rs:8-16 | hash i is a function of the first 16 * (i + 1) tokens alone |
| Blocks.KnownAnswer | crates/protocol/src/blocks.rs:5-18 | the literal hash of the one-block prompt 0, 1, ... 15 |
| Blocks.ChainOfExtension | crates/protocol/src/blocks.rs:5-18 | extending a prompt keeps its hashes; at a block boundary the extension adds exactly its own blocks, chained |
| Blocks.MeetsExactlyWhen | crates/protocol/src/blocks.rs:3-16 | prompts seen up to the last token where they differ: equal hashes if and only if the running hashes before it differ by exactly the two tokens' xor, whatever follows |
| Blocks.UpperHalvesDecide | crates/protocol/src/blocks.rs:11-12 | two prefixes can still be brought to one hash by some next tokens and a common tail if and only if their running hashes agree in the upper 32 bits |
| Blocks.BlocksCanCollide | crates/protocol/src/blocks.rs:3-4 | a concrete collision of two one-block prompts, persisting under every common tail |
| PrefixCache.PopMax | crates/router/src/prefix_cache.rs:41-47 | the popped entry is the maximum of the tuple order and leaves the heap once |
| PrefixCache.PrefixCache.constructor | crates/router/src/prefix_cache.rs:59-66 | a new cache is empty with zero counters |
| PrefixCache.PrefixCache.NumBlocks | crates/router/src/prefix_cache.rs:69-71 | the number of present blocks |
| PrefixCache.PrefixCache.Push | crates/router/src/prefix_cache.rs:85-88 | one new ticket, stamp and heap entry for the block |
| PrefixCache.PrefixCache.TouchHashes | crates/router/src/prefix_cache.rs:77-93 | one tick touches exactly the whole chain, or its leading present part, and reports how many |
| PrefixCache.PrefixCache.CompactIfBloated | crates/router/src/prefix_cache.rs:101-110 | the heap is rebuilt from the map exactly when over the threshold |
| PrefixCache.PrefixCache.MatchPrefix | crates/router/src/prefix_cache.rs:115-117 | reports the hits and refreshes exactly those |
| PrefixCache.PrefixCache.Insert | crates/router/src/prefix_cache.rs:120-122 | touches the full chain in one tick |
| PrefixCache.PrefixCache.Lookup | crates/router/src/prefix_cache.rs:127-132 | counts the leading present hashes without changing the cache |
| PrefixCache.PrefixCache.EvictTo | crates/router/src/prefix_cache.rs:142-152 | the lazy pop loop computes the eviction function, in the counted number of pops |
| KvCacheSim.KvCacheSim.constructor | crates/mock-triton/src/cache.rs:38-46 | a new simulation is empty, with the given capacity |
| KvCacheSim.KvCacheSim.LookupInsert | crates/mock-triton/src/cache.rs:59-75 | reports the hits before the request, and serves it as the router's insert and evict would |
| KvCacheSim.KvCacheSim.CompactIfBloated | crates/mock-triton/src/cache.rs:80-89 | same compaction as the router's cache |
| KvCacheSim.KvCacheSim.EvictOverCapacity | crates/mock-triton/src/cache.rs:91-101 | same eviction as the router's cache, down to capacity |
| Recency.TouchRefines | crates/router/src/prefix_cache.rs:73-93 | a touch moves the touched hashes to the front of the recency list in chain order, last occurrence winning; compaction is invisible |
| Recency.PopEvicts | crates/router/src/prefix_cache.rs:142-152 | the heap is never empty while blocks remain; a pop discards a stale entry or evicts exactly the least protected block |
| Recency.EvictRefines | crates/router/src/prefix_cache.rs:141-152 | eviction keeps exactly the first `budget` of the recency list |
| Recency.ServeRefines | crates/router/src/scheduler.rs:189-194 | insert then evict is touch then cut on the list, and fits the budget |
| Recency.RankedIsOrder | crates/router/src/prefix_cache.rs:41-46 | the recency list of a cache is unique |
| Recency.CacheIsRecencyList | crates/router/src/prefix_cache.rs:77-152 | over every run, on arbitrary hash sequences, the cache is the recency list: same blocks, same order of protection, same answers |
| CacheLaws.ServedThenFound | crates/router/src/prefix_cache.rs:120-152 | after serving a chain of distinct hashes exactly its first `budget` blocks are found |
| CacheLaws.LruInclusion | crates/mock-triton/src/cache.rs:59-101 | over the same requests, the cache with the smaller budget is a recency prefix of the larger one, and never matches more |
| CacheLaws.RefreshBreaksInclusion | crates/router/src/prefix_cache.rs:112-117 | on chains that give one hash two parents, a run with a present-only refresh after which the smaller cache still finds a block that the larger one has lost |
| RefreshLaws.RefreshKeepsInclusion | crates/router/src/prefix_cache.rs:112-152 | on parent-consistent chains, over every run of served, refreshing and peeking requests, the smaller cache holds the larger one's recency list with some blocks left out, and no answer of it exceeds the larger one's |
| RefreshLaws.CutThinned | crates/router/src/prefix_cache.rs:141-152 | cutting a list and one with blocks left out, to budgets as far apart as their lengths, leaves again a list and one with blocks left out |
| InclusionExactness.ClashJumps | crates/router/src/prefix_cache.rs:112-122 | of two chains that give one block two paths, one finds two or more of its blocks completed by a single entry of the list left by serving both |
| InclusionExactness.WitnessTells | crates/router/src/prefix_cache.rs:112-152 | after serving two chains and a block, refreshing the first chain and serving new blocks, the block is found again exactly if the budget has room for what was refreshed, for it, and for the new blocks |
| InclusionExactness.InclusionExactlyWhenConsistent | crates/router/src/prefix_cache.rs:112-152 | for chains without repeated blocks, and enough one-block chains of other blocks: over all runs and all pairs of budgets the lists nest if and only if the chains are parent-consistent, and the answers are monotone under the same condition |
| InclusionExactness.ConsistentIsDistinctAndNested | crates/router/src/prefix_cache.rs:112-152 | for arbitrary chains: parent-consistency is the absence of repeated blocks together with monotone answers over all runs |
| HeapCost.TouchIsPaid | crates/router/src/prefix_cache.rs:95-110 | after every touch the heap is at most twice the larger of map size and 1024; the ledger balances, and says by how much pushes and a compaction, or none, changed the heap |
| HeapCost.WorkIsAmortised | crates/router/src/prefix_cache.rs:19-27 | over every run each push is popped once, dropped by a compaction or still there; all rebuilds together stay below what compactions drop |
| HeapCost.HeapCanOutgrowBlocks | crates/router/src/prefix_cache.rs:23-27 | runs with one late eviction after which one block is left with arbitrarily many heap entries |
| HeapBounds.ServeKeepsHeapBound | crates/router/src/scheduler.rs:189-194 | insert then evict leaves the heap within twice the larger of blocks and floor, plus the chain's length |
| HeapBounds.ServeKeepsHeapWithinBlocks | crates/router/src/prefix_cache.rs:23-27 | for distinct blocks that fit the budget it is within three times the larger of blocks and floor |
| HeapBounds.SchedulerHeapsAreBounded | crates/router/src/scheduler.rs:188-229 | in every state the scheduler can reach, every replica's heap is so bounded, with the longest chain requested |
| HeapBounds.EvictionLeavesLater | crates/router/src/prefix_cache.rs:142-152 | eviction leaves exactly the heap entries that pop after the entry of the last evicted block |
| HeapBounds.EvictedHeapSize | crates/router/src/prefix_cache.rs:23-27 | the exact heap size after an eviction, and the condition on the state before it under which the documented bound holds, in both directions |
| HeapCost.StaleEntriesAreTheExcess | crates/router/src/prefix_cache.rs:41-46 | the heap is one live entry per block plus superseded ones; compaction happens exactly when it is over twice the larger of map size and 1024, and removes the superseded ones and nothing else |
| HeapCost.ReachableIsTidy | crates/router/src/prefix_cache.rs:77-152 | in every reachable cache no heap entry is duplicated, every block has its live entry, no stamp lies in the future |
| RadixTree.WalkIsDeepest | docs/superpowers/plans/2026-08-11-dynamorouter.md:693-710 | the walk depth is the longest prefix that is a path of the tree |
| RadixTree.InsertAddsPrefixes | docs/superpowers/plans/2026-08-11-dynamorouter.md:712-727 | inserting adds exactly the prefixes of the chain and refreshes exactly those |
| RadixTree.RefreshIsInsert | docs/superpowers/plans/2026-08-11-dynamorouter.md:693-710 | matching refreshes as inserting the matched prefix would |
| RadixTree.RemoveDropsSubtree | docs/superpowers/plans/2026-08-11-dynamorouter.md:754-766 | removing a node removes exactly the paths through it |
| RadixEquivalence.PresentPartIsPrefix | crates/router/src/prefix_cache.rs:213-222 | a block of a chain is present exactly when it is among the leading ones counted by lookup: no orphans |
| RadixEquivalence.LookupIsWalk | crates/router/src/prefix_cache.rs:5-7 | counting leading present hashes is walking the tree from the root |
| RadixEquivalence.InsertSimulates | crates/router/src/prefix_cache.rs:119-122 | insert keeps flat cache and tree at the same nodes, last accesses, count and clock |
| RadixEquivalence.MatchSimulates | crates/router/src/prefix_cache.rs:112-117 | so does match_prefix |
| RadixEquivalence.VictimIsMinLeaf | crates/router/src/prefix_cache.rs:10-17 | the evicted block is a leaf with the least last access among leaves |
| RadixEquivalence.MinLeafIsUnique | crates/router/src/prefix_cache.rs:13-17 | there is only one such leaf, so tie-breaking in the tree cannot matter |
| RadixEquivalence.EvictSimulates | crates/router/src/prefix_cache.rs:141-152 | eviction keeps flat cache and tree equal |
| RadixEquivalence.FlatCacheIsRadixTree | crates/router/src/prefix_cache.rs:3-17 | over every run on parent-consistent chains the flat cache and the radix tree hold the same and answer the same, without orphans |
| RadixExactness.EquivalentExactlyWhenConsistent | crates/router/src/prefix_cache.rs:3-7 | the equivalence holds over all runs on a set of chains if and only if they are parent-consistent |
| RadixExactness.CollisionFreeIsConsistent | crates/protocol/src/blocks.rs:3-4 | hash chains of prompts without two different prefixes of full blocks (at least one) that share a hash are parent-consistent |
| RadixExactness.PromptsFormARadixTree | crates/router/src/prefix_cache.rs:3-7 | for prompts without colliding prefixes, every run on their hash chains behaves as the radix tree over token blocks |
| Scheduler.Scheduler.constructor | crates/router/src/scheduler.rs:85-99 | n healthy idle replicas with empty caches |
| Scheduler.Scheduler.Availability | crates/router/src/scheduler.rs:108-120 | the mask and flags say which replicas are healthy and below the cap |
| Scheduler.Scheduler.ScanRoundRobin | crates/router/src/scheduler.rs:130-145 | the scan ends at the first available replica at or after the turn; the `expect` cannot fail |
| Scheduler.Scheduler.ScanScores | crates/router/src/scheduler.rs:148-164 | the first available replica of maximal score, with its own match count |
| Scheduler.Scheduler.ScanLeastLoaded | crates/router/src/scheduler.rs:176-179 | the first available replica of minimal load |
| Scheduler.Scheduler.Choose | crates/router/src/scheduler.rs:129-186 | the routing rule of the policy, with the true pre-insert match count |
| Scheduler.ReplicaState.Book | crates/router/src/scheduler.rs:188-196 | counts the request in; only the cache-aware policy inserts and evicts |
| Scheduler.Scheduler.Route | crates/router/src/scheduler.rs:129-201 | with some replica available, the whole decision and its effect |
| Scheduler.Scheduler.Pick | crates/router/src/scheduler.rs:107-202 | the whole decision and its effect, or the refusal with no effect |
| Scheduler.Scheduler.Complete | crates/router/src/scheduler.rs:211-214 | one request less, saturating at zero |
| Scheduler.Scheduler.MarkUnhealthy | crates/router/src/scheduler.rs:219-224 | out of routing, load zero, cache dropped |
| Scheduler.Scheduler.MarkHealthy | crates/router/src/scheduler.rs:227-229 | back in routing, nothing else changed |
| Routing.PickIsExact | crates/router/src/scheduler.rs:107-127 | refusals happen exactly in the two stated situations and otherwise an available replica satisfying the rule is routed to |
| Routing.PickRoutesTo | crates/router/src/scheduler.rs:129-201 | the decision is the one replica that satisfies the rule |
| Routing.PickChangesOnlyTheChosen | crates/router/src/scheduler.rs:188-201 | the reported match is the chosen replica's before the insert and the reported load the one after; only that replica changes, its recency list being the chain moved to the front and cut to the budget |
| Routing.RouteIsUnique | crates/router/src/scheduler.rs:129-186 | at most one replica satisfies the rule |
| SchedulerRuns.RunIsSafe | crates/router/src/scheduler.rs:188-229 | in every reachable state budgets and caps are kept, round-robin caches are empty, unhealthy replicas are idle and empty |
| SchedulerRuns.CachedWasRouted | crates/router/src/scheduler.rs:188-224 | a cache contains only hashes routed to its replica since it was last marked unhealthy |
| RoutingLaws.ChosenIsNotMuchBusier | crates/router/src/scheduler.rs:147-185 | the chosen replica's load exceeds any available one's by at most alpha * blocks / beta |
| RoutingTies.CacheAwarePick | crates/router/src/scheduler.rs:147-186 | the decision in full: the first available replica of highest score if its own match reaches the minimum, and otherwise the first one of lowest load |
| RoutingTies.TiesGoToTheFirst | crates/router/src/scheduler.rs:152-179 | an available replica before the chosen one has strictly more load if the chosen match is too short, and strictly less score if it has no more load |
| RoutingTies.ColdGoesToTheFirst | crates/router/src/scheduler.rs:152-179 | on an idle fleet a request that no replica matches well enough, or at all, goes to replica 0 |
| RoutingTies.FirstRequestGoesToTheFirst | crates/router/src/scheduler.rs:85-99 | the first decision of a new cache-aware scheduler is replica 0 with no match and load 1 |
| RoutingTies.RoundRobinPick | crates/router/src/scheduler.rs:130-145 | the decision in full: the first available replica from the turn up, or else from 0 up; the next turn is the one after it |
| RoutingTies.TurnsFromTheStart | crates/router/src/scheduler.rs:85-145 | from a new round-robin scheduler, with every replica available at each request, the k-th request goes to replica k mod n |
| RoutingLaws.MatchIsTradedForLoad | crates/router/src/scheduler.rs:147-186 | at any loads: where the best match reaches the minimum, alpha times the match forgone at another available replica is at most beta times its extra load; otherwise none is less loaded than the chosen one |
| RoutingLaws.ImbalanceIsBounded | crates/router/src/scheduler.rs:147-196 | over any run of picks from idle, loads of healthy replicas differ by at most alpha * limit / beta + 1 |
| RoutingLaws.LongestMatchWins | crates/router/src/scheduler.rs:152-164 | on an idle fleet the longest match is routed to once it reaches the minimum |
| RoutingLaws.SessionAffinity | crates/router/src/scheduler.rs:147-202 | after pick and complete of a chain on an idle fleet, an extension goes to a replica that matches all of it the budget could keep, and none matches more |
| RoutingLaws.TurnsBeforeChosen | crates/router/src/scheduler.rs:130-139 | until an always available replica is chosen, the turn moves round towards it and each choice lies further round |
| RoutingLaws.RoundRobinWaitIsBounded | crates/router/src/scheduler.rs:130-145 | a replica available at n consecutive requests is chosen among them |
| RoutingLaws.NoneTwiceBetweenTurns | crates/router/src/scheduler.rs:130-145 | between two turns of an always available replica no other is chosen twice |
| Mirror.NeverOverpromises | crates/mock-triton/src/cache.rs:7-14 | with budget at most capacity, over every run, whatever is marked, lost, restarted or served out of turn: the picture of every replica that is not behind is a recency prefix of its cache, and no prediction for it exceeds what it finds |
| Mirror.PicturesAreExact | crates/router/src/scheduler.rs:147-194 | with budget equal to capacity, over every run, deliveries late, overtaken or repeated included: the picture of every replica that has not strayed equals its cache in every field, and predictions for it are exact |
| MirrorExactness.OverpromisesExactlyWhen | crates/router/src/server.rs:178-191 | for every fleet and policy: some run, in which requests may or may not reach replicas that are behind, over-promises if and only if the fleet can match and either they may or the budget exceeds the capacity; a loss followed by its mark in time does no harm |
| MirrorExactness.MishapsThatOverpromise | crates/mock-triton/src/service.rs:112-122 | of lost requests, unmarked restarts, deliveries out of turn and wrong marks, each but the last suffices alone for a run that over-promises, and wrong marks alone never do |
| MirrorExactness.MistakenExactlyWhen | crates/router/src/scheduler.rs:147-224 | for every cache-aware fleet: some run, in which requests may or may not reach replicas that have strayed, has a wrong prediction if and only if requests can be routed and budget and capacity differ, or are positive and they may |
| MirrorExactness.MishapsThatMislead | crates/router/src/scheduler.rs:216-224 | each of the four mishaps suffices alone for a wrong prediction, and without any there is none when budget and capacity agree |
| ProtocolLaws.ReachableIsGood | crates/router/src/server.rs:149-402 | every state of every interleaving keeps the handlers' phase invariants, the in-flight ledger and the counters |
| ProtocolLaws.ProbeKeepsGood | crates/router/src/server.rs:455-470 | a probing pass keeps them, moving reset load to the dropped count |
| ProtocolTheorems.InflightLedger | crates/router/src/scheduler.rs:195-224 | load never exceeds the requests outstanding, falls short by at most what resets dropped, is exact without resets, and is zero when none is outstanding |
| ProtocolTheorems.OutstandingIsCapped | crates/router/src/scheduler.rs:115-118 | outstanding requests exceed the cap by at most what resets dropped |
| ProtocolSkew.CapIsOvershot | crates/router/src/scheduler.rs:204-224 | for every fleet size, policy and number of resets a run after which the bound is reached: outstanding requests are the cap plus one full load per reset |
| ProtocolTheorems.UnaryRetriesOnce | crates/router/src/server.rs:149-220 | at most two calls, the second only after the first failed with one of the four transport codes, and always then unless no replica could be picked; giving up means both failed so; other answers are the last call's, and none of the four codes |
| ProtocolSteps.MessageIsRouted | crates/router/src/server.rs:294-342 | a message on an idle stream is routed on its own chain; refused, it leaves the stream idle |
| ProtocolSteps.UnaryPick | crates/router/src/server.rs:96-110 | a unary pick leads to the call of the decided replica, or ends the request with the scheduler's reason |
| ProtocolSteps.RecordsAll | crates/router/src/server.rs:116-124 | three increments: one request, the decision's match, the chain's length; then a stream goes on to its call and a unary request is answered |
| ProtocolSteps.StreamNotOpened | crates/router/src/server.rs:378-394 | after Unavailable, Unknown, Internal or Cancelled on opening, the replica is out of routing with load and picture gone when the stream is idle again |
| ProtocolSteps.StreamCompleted | crates/router/src/server.rs:345-394 | any other reply to a stream only takes one off the replica's load |
| ProtocolSteps.UnaryCompleted | crates/router/src/server.rs:172-182 | a served or otherwise failed unary call takes one off the load, and is about to be recorded, or is the answer |
| ProtocolSteps.UnaryFailed | crates/router/src/server.rs:178-216 | one of the four codes marks the replica; the first time it leads to a second pick, the second time to giving up with that code |
| ProtocolSteps.OutOfTurn | crates/router/src/server.rs:290-296 | messages wait for an idle stream and replies for a call; a waiting or finished handler does not move |
| ProtocolOutcomes.RejectedExactlyWhen | crates/router/src/server.rs:103-106 | over all interleavings, a unary request is rejected as unhealthy, or as saturated, exactly when at one of its picks no replica was healthy, or some were and all of those were at the cap |
| ProtocolOutcomes.FailedCallsAreMarked | crates/router/src/server.rs:178-216 | over all interleavings, once any handler is past a call that failed at transport, giving up included, that replica is out of routing unless readmitted since |
| ProtocolOutcomes.OnlyFailuresTakeOut | crates/router/src/server.rs:455-513 | in every reachable state a replica leaves routing only by a dead probe, or by a handler whose last call to it failed with one of the four codes |
| ProtocolOutcomes.ProbeIsExact | crates/router/src/server.rs:455-470 | a probing pass puts live replicas in routing and keeps their state, resets dead ones that were in routing, and changes no other |
| ProtocolRetries.RetryAvoidsMarked | crates/router/src/server.rs:179-191 | after the mark no pick goes to the marked replica until the prober readmits it |
| ProtocolRetries.RepeatNeedsReadmission | crates/router/src/server.rs:179-191 | over all interleavings, if both calls of a unary request went to one replica, the prober readmitted it while the request was about to pick again |
| ProtocolRetries.RetryMayRepeat | crates/router/src/server.rs:455-470 | for every fleet size and policy a run from start in which both calls of a unary request go to one replica |
| ProtocolPicks.CountersTellThePicks | crates/router/src/server.rs:112-124 | with no handler mid-record, the three counters are the number, matches and prompt blocks of exactly these picks of the run: every routed pick of a stream, and of each answered unary request the last |
| ProtocolPicks.RequestsAreConserved | crates/router/src/server.rs:112-124 | so requests_total is unary responses plus routed stream picks of the run; a unary request counts at most once |
| ProtocolCounters.MatchedIsBounded | crates/router/src/server.rs:116-124 | matched_blocks_total is within prompt_blocks_total plus what handlers between the two increments owe |
| ProtocolCounters.MatchedCanExceedPrompt | crates/router/src/server.rs:118-123 | for every cache-aware fleet that can match, a run, with one request in flight at a time, after which the matched total is 1 and the prompt total 0 |
| ProtocolCounters.MatchedNeverExceedsExactlyWhen | crates/router/src/server.rs:116-124 | matched_blocks_total stays within prompt_blocks_total in every reachable state if and only if there are no replicas, the policy is round-robin, or the block budget or the in-flight cap is zero |

## Left out

- gRPC transport, channels, timeouts, spans, metric set-up, binaries and scripts: an upstream call is a step whose outcome the environment chooses.
- The tokenizer and request parsing: a request starts as its block hashes; requests rejected before `pick` touch no shared state.
- Dropped handler futures: a handler that has picked is assumed to run on to its `complete`; a client that cancels a unary call in between is not modelled.
- Floating point in the score: `alpha`, `beta` and scores are reals, so rounding, NaN and infinities are not covered, and the initial `f64::MIN` is below every score.
- Wrap-around of the 64-bit clock and `seq` counters and of `usize` loads: unbounded numbers.
- Internals of `BinaryHeap` and `FxHashMap` (layout, iteration order, logarithmic cost): costs are counted in pushes, pops and rebuilt entries.
- The radix tree is modelled on values, as it exists in the design documents only.
- The per-replica in-flight gauges and the `healthy_replicas` gauge, which are set outside the lock.
- `server_ready`, `model_metadata`, getters, simulated sleeps, response building and the load generator: none of them decides where a request goes or changes a cache.
