# Mempool explorer backend: verified models

This project models the algorithms and indexes at the heart of a mempool explorer's
backend and proves what they are for. `dafny verify dfyconfig.toml` checks all of it.

Transactions are identified by numbers that are only compared, rates are exact reals,
`Infinity` is an option, and clocks, fetched blocks, fetched transactions and node lists are
parameters.

**Block building** (`Ancestry`, `Packages`, `RateOrder`, `Relatives`, `Repairs`, `Commits`,
`AuditPool`, `Queues`, `Weights`, `PackageRates`, `MiniMiner`, `Asides`, `Patience`, `Template`,
`BlockRules`, `BlockOrder`, `Packing`, `Entries`, `SelectionWorker`, `ZeroFees`, `BlockCpfp`).
`Packages` says what a block builder should do without any bookkeeping: a *run* of packages, each
an unused transaction with all its unused ancestors, with ancestors defined by chains of spends
and totals recomputed from the bare graph. `AuditPool` is the class both builders work on; it keeps running ancestor sets, totals,
scores, capped rates and pruned child links, and every method is proved against the
definitions over the graph. The template builder, the projected-blocks worker and the block
CPFP computation are proved to be runs, from which the properties of runs follow: packages are
disjoint and ancestors come first. `PackageRates` says what each package goes at from what its
members pay and what earlier packages went at, and `RateOrder` when rates never exceed those of
ancestors: always in greedy order without limits, and in any order exactly if transactions
that pay nothing keep to themselves; `ZeroFees` has a mempool for which the worker reports
otherwise.

**Replacement cache** (`RbfForest`, `RbfTimes`, `RbfUpdates`, `RbfGrowth`, `RbfMarks`,
`RbfErasure`, `RbfExport`, `RbfRoundTrip`, `RbfMirror`, `RbfCache`). Stored trees determine the
lookup maps (`Represents`), and each interval is the time from a transaction to what replaced it
(`AllTimed`). The class keeps that through additions, mined and evicted transactions and
cleanups; its event log accounts for every change of memory (`Logged`), and a state machine
over cache changes, replay steps and store writes shows that a replayed log leaves the store
a mirror of the cache whatever happens in between. Signalling means an input sequence below
0xfffffffe, explicit signalling in the Summary section of BIP 125.

**Other parts.** `LongestSubsequence` (transactions out of rate order), `RelativesGraph`
(in-mempool relatives), `FeeStats` (online fee percentiles), `BlocksRepository` and `Reorg`
(walking back to a fork point), `Outpoints`, `SpendMaps` and `Mempool` (following the node's
mempool, the spend index, replacements by mined transactions), `RbfDetection` (two ways to
find replacements), `CpfpRecords` (44-byte cluster records).

## Model

| member | source | states |
|---|---|---|
| AuditPools.AuditPool.SetRelatives | backend/src/api/mini-miner.ts:418-446 | the memoised depth-first visit leaves for the transaction exactly its in-pool ancestors, the totals over them and itself, and the score; the call stack and whatever was finished stay as they were |
| AuditPools.AuditPool.SetAllRelatives | backend/src/api/tx-selection-worker.ts:66-71 | afterwards every transaction is accounted for, and going up the pruned child links still finds every ancestor |
| AuditPools.AuditPool.UpdateDescendants | backend/src/api/mini-miner.ts:456-475 | the walk over child links repairs each surviving descendant of the committed transaction once, and no other transaction, and tells which it repaired |
| Template.FlagModified | backend/src/api/mini-miner.ts:477-480 | exactly the repaired transactions are flagged as well, and exactly those of them not flagged before join the queue, each once |
| Template.Requeue | backend/src/api/mini-miner.ts:477-493 | after the repairs of a commit the queue of flagged transactions is in order of the repaired scores and has gained exactly the descendants of what was taken that were not flagged, and still everyone to be placed and not set aside waits in one of the two queues |
| AuditPools.AuditPool.CommitPackage | backend/src/api/mini-miner.ts:361-390 | committing extends the run by the package of the root and leaves every account equal to the one recomputed without the used transactions; the package goes at its members' fee over their size, or, if lower, at the lowest rate that bears on the root: its first rate or that of an earlier package with an ancestor of it, a rate of zero counting as none |
| PackageRates.LowestIsKept | backend/src/api/mini-miner.ts:456-475 | the dependency rate kept through all repairs is the lowest of those rates; one of zero counts as none and makes those before it forgotten, unless a negative one is among them |
| PackageRates.RunIsFair | backend/src/api/tx-selection-worker.ts:124-165 | in any run every package goes at that price |
| PackageRates.PackagePays | backend/src/api/tx-selection-worker.ts:133 | no package of a run goes at more than its members pay: its rate times their size is at most their fee |
| Repairs.WalkReaches | backend/src/api/mini-miner.ts:466-490 | a walk that follows child links without repeating reaches every descendant although links are only made to parents not already known |
| Repairs.RepairsKeepAccounts | backend/src/api/tx-selection-worker.ts:276-299 | taking a used ancestor out of the running set and sums gives what recomputing from the graph gives |
| Packages.PackagesDisjoint | backend/src/api/mini-miner.ts:361-390 | in any run no transaction is in two packages |
| Packages.AncestorsComeFirst | backend/src/api/mini-miner.ts:361-390 | in any run each ancestor of a placed transaction is in the same or an earlier package |
| Packages.ClusterIsTopological | backend/src/api/mini-miner.ts:362-364 | sorting by the number of unused ancestors puts ancestors before descendants in each cluster |
| RateOrder.OrderIsSafeExactly | backend/src/api/mini-miner.ts:365-390 | if no fee is negative, no transaction's effective rate ever exceeds that of an ancestor, in whatever order packages are taken, exactly when everything below a transaction that pays nothing pays nothing and spends only from such, apart from that transaction and its ancestors |
| RateOrder.PayingRatesFollow | backend/src/api/mini-miner.ts:365-390 | if all fees are positive no transaction's rate exceeds that of an ancestor, in the same package or an earlier one, in whatever order packages are taken |
| RateOrder.GreedyRatesFollow | backend/src/api/mini-miner.ts:338-390 | if the best package is taken each time and no fee is negative, no transaction's rate exceeds that of an ancestor, even where some pay nothing |
| ZeroFees.ZeroRatesDoNotCap | backend/src/api/tx-selection-worker.ts:124-165 | on a mempool of three, with sane fees and no cycle but with something paying below something free, every projection the worker may make reports a positive rate for a transaction and zero for the one it spends from |
| Queues.TopScoreIsBest | backend/src/api/mini-miner.ts:341-358 | the best score kept among those not set aside is the best score there is, recomputed from the graph |
| MiniMiner.LoadCandidates | backend/src/api/mini-miner.ts:273-325 | the pool holds each candidate with its fee and the last bid made for it, a size of at least a quarter of its weight and five for each sigop and no more than needed for both, its weight, sigops, order and inputs |
| Template.PickNext | backend/src/api/mini-miner.ts:341-358 | whoever is picked scores at least as much as every unused transaction still in either queue, one queued again after having been set aside included |
| Asides.AsideAfterCommit | backend/src/api/mini-miner.ts:384-399 | after a commit whoever was set aside is queued again if now for the first time an ancestor of it is taken; otherwise it is known not to have fitted and has not been queued since |
| Template.CommitBest | backend/src/api/mini-miner.ts:359-392 | a commit keeps the limits, the counters and the record that the package was the best one queued |
| Patience.PatienceKept | backend/src/api/mini-miner.ts:392-406 | taking a package or setting one aside keeps the record that nothing was taken too late, and the failures counted at least as many as were passed over since the last package |
| Template.MakeBlockTemplate | backend/src/api/mini-miner.ts:273-413 | the template is a greedy run; with one block everyone is placed; an input's transaction is placed whenever its spender is, before it or in the same cluster; with limits the candidates' weights and sigops add up to no more, whoever is left out had not fitted unless the block is nearly full and more than a thousand others do not fit beside it, and no package is taken beside a nearly full block after more than a thousand have been passed over since the one before; no rate reported is more than the cluster's fees over its sizes; without negative fees rates follow ancestors, with limits if those that pay nothing keep to themselves |
| Weights.TotalsGrow | backend/src/api/mini-miner.ts:367-386 | weight and sigops counted while a package is taken are those of all used transactions |
| SelectionWorker.CommitNext | backend/src/api/tx-selection-worker.ts:124-165 | a committed package keeps the block within its limits, was the best among the fresh, and leaves the queues, heap and overflow list covering everyone left |
| SelectionWorker.SlotIsTopFresh | backend/src/api/tx-selection-worker.ts:108-121 | whoever scores at least as much as the first valid slot scores at least as much as everyone of whose ancestors none was taken and who is not set aside |
| SelectionWorker.CloseBlock | backend/src/api/tx-selection-worker.ts:174-198 | a block is closed because it is nearly full and more than a thousand tries in a row did not fit, among which nobody occurs more than once for itself and once for each of its ancestors used by then, or because everyone left had failed to fit while it was built; no package was taken once it was nearly full and more than a thousand tries had failed since the one before |
| Packing.TriesAnew | backend/src/api/tx-selection-worker.ts:167-179 | a package taken while the search has not been given up was taken in time: it is the best fresh one apart from tries that had failed, of which not more than a thousand came since the one before if the block was nearly full |
| BlockRules.TriesAreOfMany | backend/src/api/tx-selection-worker.ts:167-174 | where nobody has more than m ancestors, more than n such tries are of more than n / (m + 1) different transactions |
| Entries.EntriesAfterCommit | backend/src/api/tx-selection-worker.ts:288-292 | a commit makes at most one further entry for each descendant of what was taken, so nobody waits more often than once for itself and once for each used ancestor |
| SelectionWorker.GiveBack | backend/src/api/tx-selection-worker.ts:188-197 | the overflow list goes back into consumed slots and the heap without overwriting a live entry, without losing anyone, and with the array still in order of score |
| SelectionWorker.SelectNext | backend/src/api/tx-selection-worker.ts:101-199 | one round keeps the packing invariant and makes progress in blocks left, transactions left or entries queued |
| SelectionWorker.Pack | backend/src/api/tx-selection-worker.ts:98-199 | packing terminates with every queue empty or all full blocks made |
| SelectionWorker.MakeBlockTemplates | backend/src/api/tx-selection-worker.ts:35-222 | at most eight blocks, without repetition and together one run; whatever mempool transaction an input names is in an earlier block or the same one, there before its spender or in the same cluster; for each of the first seven 4000 and the weights of its transactions stay below the limit, no package has more than 80000 sigops, and it was ended for a reason; with limits of at least 8000 and fewer than seven blocks exactly those are left out whose remaining package does not fit an empty block, and with seven or more nobody; every package goes at its fair price and at no more than its members' fees over a quarter of their weights; reported rates follow ancestors if no fee is negative and those that pay nothing keep to themselves |
| SelectionWorker.PlacedOnce | backend/src/api/tx-selection-worker.ts:176-206 | no transaction is placed twice within or across blocks |
| SelectionWorker.BlocksAreAncestorsFirst | backend/src/api/tx-selection-worker.ts:124-206 | no transaction comes in an earlier block than an ancestor |
| SelectionWorker.ReadClusters | backend/src/api/tx-selection-worker.ts:129-131 | the clusters reported are those of the packages with several members, under their roots |
| BlockCpfp.CalculateGoodBlockCpfp | backend/src/api/cpfp.ts:100-165 | every transaction of the block gets its package's rate, a fair price and no more than its members pay; clusters are disjoint, and each summarised cluster is told in order by the listed ancestors and descendants of any member, with the fee and the weight, four times the adjusted size if there is one, of each; members are marked checked, and dirty if their lists changed in length; without negative fees nobody has a higher rate than a transaction it depends on |
| BlockCpfp.RelativesRebuildCluster | backend/src/api/cpfp.ts:118-146 | listed ancestors, the transaction and listed descendants put its cluster back together in order |
| BlockCpfp.ListedAncestorsAreComplete | backend/src/api/cpfp.ts:118-146 | the listed ancestors hold every true ancestor in the cluster and the listed descendants none |
| RbfForest.Symmetry | backend/src/api/rbf-cache.ts:56 | A is replaced by B exactly when B lists A |
| RbfForest.UniqueTree | backend/src/api/rbf-cache.ts:58 | a transaction and what replaced it have the same tree id |
| RbfForest.UniqueIdAndExistence | backend/src/api/rbf-cache.ts:57-59 | a tree id is its own tree id and names a stored tree that has the transaction, which has been replaced unless it is the root |
| RbfForest.Completeness | backend/src/api/rbf-cache.ts:60 | whoever either link map mentions has a tree id |
| RbfForest.TreeIdEndsTheChain | backend/src/api/rbf-cache.ts:248-250 | the tree id of a transaction ends its chain of replacements, which has no repetition |
| RbfErasure.TreesDetermineMaps | backend/src/api/rbf-cache.ts:62-71 | the stored trees leave no freedom in the three lookup maps |
| RbfErasure.FullRbfMeans | backend/src/api/rbf-cache.ts:138-185 | a tree is marked full RBF exactly when one of its transactions other than the root does not signal |
| RbfGrowth.KnownIsRoot | backend/src/api/rbf-cache.ts:153-163 | a known transaction not replaced before is the root of the tree its id leads to |
| RbfCaches.RbfCache.Add | backend/src/api/rbf-cache.ts:121-186 | nothing happens at all when the code returns early; otherwise the trees of what is replaced, and leaves for what was unknown, go in order below one new root and nothing known is forgotten; root and leaves carry the time their transaction was first seen, or now, and its signalling, kept trees stay what they were but for an interval up to the root's time; all invariants, that every interval is the time between a transaction and what replaced it included, are kept exactly if it returned early or the replacement is not listed among what it replaces |
| RbfCaches.RbfCache.Mined | backend/src/api/rbf-cache.ts:188-203 | the one tree of the transaction is marked, which adds that transaction to those mined in it and no other, an expiry is set unless there is one, and everything is logged |
| RbfMarks.MarkSetsOneFlag | backend/src/api/rbf-cache.ts:363-371 | marking sets the mined flag of the transaction asked for and of no other |
| RbfCaches.RbfCache.Evict | backend/src/api/rbf-cache.ts:206-212 | an expiry in a day, or in ten minutes if fast, for known transactions only and, unless fast, only where there is none |
| RbfCaches.RbfCache.Remove | backend/src/api/rbf-cache.ts:328-346 | on a root exactly its whole tree is erased from every map; on a replaced transaction nothing changes |
| RbfCaches.RbfCache.Cleanup | backend/src/api/rbf-cache.ts:315-325 | exactly the trees whose root has expired are gone, other expired entries merely lapse, and the rest is as it was |
| RbfCaches.RbfCache.UpdateTreeMap | backend/src/api/rbf-cache.ts:348-353 | exactly the transactions of the tree get the new tree id |
| RbfMirror.OneLogged | backend/src/api/rbf-cache.ts:84-113 | a change of one entry is accounted for by its one event, although the event carries no value |
| RbfMirror.ReplayStepCatchesUp | backend/src/api/rbf-cache.ts:378-396 | replaying an event with the value held by then keeps the store on its way to the cache |
| RbfMirror.DrainedStoreMirrors | backend/src/api/rbf-cache.ts:373-398 | over every interleaving of cache changes, replay steps and store writes, a fully replayed log leaves the store holding what the cache holds |
| RbfRoundTrip.ExportDescribes | backend/src/api/rbf-cache.ts:466-485 | the flat form has one record for each transaction of the tree and describes the whole tree |
| RbfCaches.RbfCache.ImportTree | backend/src/api/rbf-cache.ts:487-536 | whatever is known or cached already, what is rebuilt is the tree without the transactions that are unknown or cached and all below them; links and lists are the stated ones; an unknown root changes neither; the stored tree is removed, and that logged, exactly if the root is unknown or a transaction of the tree is cached |
| RbfRoundTrip.ImportedMirrors | backend/src/api/rbf-cache.ts:503-520 | the links and lists an import leaves are those of the tree it rebuilds, whatever had to be cut |
| RbfRoundTrip.PrunedWhole | backend/src/api/rbf-cache.ts:487-502 | nothing is cut from a tree whose transactions are all known and none cached |
| RbfRoundTrip.PlainComesBack | backend/src/api/rbf-cache.ts:466-536 | shape, times, intervals, full-RBF marks and mined transactions come back; a tree without the flags an import drops comes back as it was |
| RbfRoundTrip.ImportedAlone | backend/src/api/rbf-cache.ts:466-536 | exported and imported into an empty cache a tree is all that the cache then holds, empty lists set apart |
| LongestSubsequence.FindLongest | backend/src/api/transaction-utils.ts:392-438 | the reconstructed subsequence is in rate order and no subsequence in rate order is longer |
| LongestSubsequence.NoneIsLonger | backend/src/api/transaction-utils.ts:398-429 | lengths grow along every ordered subsequence, so the last table entry bounds them all |
| LongestSubsequence.RemovesFewest | backend/src/api/transaction-utils.ts:383-385 | what lies outside is a smallest set whose removal leaves the block in rate order |
| LongestSubsequence.IdentifyPrioritized | backend/src/api/transaction-utils.ts:385-462 | an outsider is prioritized exactly if it pays at least 0.1 less, and deprioritized exactly if it pays at least 0.1 more, than the last one in order before it, counted from the bottom of the block, or than the very first if there is none |
| LongestSubsequence.InOrderIsNotFlagged | backend/src/api/transaction-utils.ts:440-459 | exactly the outsiders with that cause are flagged and nothing in order ever is |
| LongestSubsequence.HighIsOvertaken | backend/src/api/transaction-utils.ts:453-456 | each deprioritized transaction has, further up the block, one in order that pays less |
| LongestSubsequence.LowIsAbove | backend/src/api/transaction-utils.ts:451-453 | each prioritized transaction has, further down the block, one that pays at least 0.1 more |
| RelativesGraph.ExpandRelativesGraph | backend/src/api/mini-miner.ts:128-159 | the walk terminates with at most 101 entries, each with its transaction's fee, weight, funders, spenders and a size of at least a quarter of the weight and five for each sigop, and with at most 100 has exactly what links lead to from the start |
| RelativesGraph.DuplicatePushesNothing | backend/src/api/mini-miner.ts:136-156 | a transaction popped a second time has all its relatives collected and pushes none |
| RelativesGraph.FundsIffSpends | backend/src/api/mini-miner.ts:104-118 | with a right spend index one transaction lists another as funder exactly when that one lists it as spender |
| RelativesGraph.ReachedIsComponent | backend/src/api/mini-miner.ts:128-159 | from one mempool transaction the links lead exactly to its connected component |
| FeeStats.OnlineFeeStatsCalculator.ProcessNext | backend/src/api/common.ts:1387-1420 | after each transaction every completed band is measured over all that was seen and the open band over its part, however many bands one transaction spans; what the transaction adds to the integral is its weight at its own rate, else at its effective one, else at its plain one |
| FeeStats.IntegralBounded | backend/src/api/common.ts:1396-1404 | bounds on the rates of what overlaps a stretch of weight bound the integral over it |
| FeeStats.AverageIsBetween | backend/src/api/common.ts:1407-1411 | the average of a completed band, its integral over its width, lies between its extremes |
| FeeStats.FinishedRises | backend/src/api/common.ts:1406-1417 | for transactions by falling rate the completed bands are listed by rising average |
| FeeStats.OnlineFeeStatsCalculator.GetFeeStats | backend/src/api/common.ts:1433-1455 | the reported range is that of the completed bands, a partial one and padding, with its ends replaced by the extremes; it has one entry for each percentile, and rises if rates fell |
| FeeStats.BandsAreSpacedExactly | backend/src/api/common.ts:1372-1385 | the bands rise without overlap exactly if the width is positive and the percentiles, the two ends included, lie at least a width apart and none below half a width |
| FeeStats.DefaultBandsAreSpaced | backend/src/api/common.ts:1356-1385 | the default percentiles give bands that rise and do not overlap |
| FeeStats.StackBandsAreSpaced | backend/src/api/mempool-blocks.ts:380 | so do the percentiles and width asked for when the last projected block is a stack |
| BlocksRepositories.BlocksRepository.SetCanonicalBlockAtHeight | backend/src/repositories/BlocksRepository.ts:1129-1149 | the named block becomes canonical and every other block at the height stale |
| BlocksRepositories.BlocksRepository.SaveBlockInDatabase | backend/src/repositories/BlocksRepository.ts:118-216 | a new block is inserted with its flag; a known one becomes canonical unless it is stale |
| Reorg.RewindStep | backend/src/api/blocks.ts:1388-1408 | one round of the walk extends the new chain by the parent, which displaces another canonical block, and changes no flag at any other height |
| Reorg.Blocks.HandleReorgs | backend/src/api/blocks.ts:1376-1443 | from any table the walk terminates: at the heights it went through exactly the new chain is canonical, where each time something else was, and everywhere else what was before; it completes exactly if it has met the indexed chain as that was before the call, and otherwise stops at a block that can be had nowhere; the cache is rebuilt from the new chain, what was cached and what the table holds, in that order, or left alone |
| Reorg.MetBefore | backend/src/api/blocks.ts:1379-1408 | whether the walk has met the indexed chain can be read off the table before the walk |
| Reorg.Blocks.ConnectBlock | backend/src/api/blocks.ts:1207-1212 | after walk-back and save the canonical blocks are exactly the tip, the new chain down to the fork and what was canonical before elsewhere, with no gap from the fork to the tip; on a tip higher than everything canonical there is still one block at each height, adjacent ones are hash-linked and the tip is on top; if a block cannot be had the tip is not saved |
| Reorg.ChainIsKept | backend/src/api/blocks.ts:1207-1212 | the whole table remains one hash-linked chain |
| Reorg.TipIsReached | backend/src/api/blocks.ts:1388-1412 | where the indexed chain had no gap below the fork there is none up to the tip |
| Reorg.OneIsKeptExactly | backend/src/repositories/BlocksRepository.ts:118-216 | one canonical block at each height is kept exactly if the tip was known or nothing was canonical at its height |
| Reorg.ReplacedTipStays | backend/src/api/blocks.ts:1376-1382 | a new tip beside a block of the same parent that is still canonical, as after a restart, leaves both canonical |
| SpendMaps.FindMinedRbfTransactions | backend/src/api/common.ts:140-164 | each indexed transaction is listed at most once and under a mined one it conflicts with, no key a mined transaction spends is left, and every deleted key has a listed spender or belonged to a mined transaction |
| Mempools.Mempool.UpdateMempool | backend/src/api/mempool.ts:235-392 | protection is on afterwards exactly if it was, or was off with more than 20000 cached and at most four fifths of that listed; otherwise it is off, as it always is once its timer has run, and nothing unlisted is cached any more; a bulk reload makes new exactly what it returned that was not cached; exactly what is then cached and not listed is dropped and reported, under protection nothing; in sync by count means the same set unless protection keeps something unlisted; where index entries named cached transactions they still do exactly when protection is on, there was no reload, or every outpoint the new ones spend was last spent by a listed one |
| Mempools.Mempool.UpdateAroundTimer | backend/src/api/mempool.ts:344-360 | of two updates with the end of the timer between them nothing unlisted survives the second, whatever set the first protected |
| Mempools.EntriesAfterUpdate | backend/src/api/mempool.ts:535-552 | removing the deleted and then entering the new keeps the spend index right exactly under that condition |
| Mempools.SameSize | backend/src/api/mempool.ts:380-384 | for a duplicate-free list equal counts mean equal sets exactly when nothing unlisted is cached |
| Mempools.ProtectedCountsCanMislead | backend/src/api/mempool.ts:340-357 | under protection equal counts hide different sets whenever one stale transaction stands in for one that could not be fetched |
| Mempools.UnlistedLeavesEntries | backend/src/api/mempool.ts:164-200 | for every list long enough for a bulk reload, a transaction the reload returns and the list lacks leaves index entries behind |
| Mempools.Mempool.HandleNewBlock | backend/src/api/websocket-handler.ts:1028-1116 | a block takes its transactions out of cache and index, and index entries still name cached transactions |
| RbfDetection.FindRbfTransactions | backend/src/api/common.ts:87-138 | either form lists for each added transaction, without repetition, what it replaced by that form's rule |
| RbfDetection.TableFinds | backend/src/api/common.ts:107-133 | the table finds a replaced transaction exactly when it is the last deleted one to spend some input of the replacement |
| RbfDetection.TableAgrees | backend/src/api/common.ts:87-138 | the table never finds more than the nested search, and the same when no two deleted transactions share an outpoint |
| RbfDetection.SharedOutpointHidesOne | backend/src/api/common.ts:109-116 | with a shared outpoint the table misses one that the nested search finds |
| CpfpRecords.Pack | backend/src/repositories/CpfpRepository.ts:204-217 | the buffer written byte by byte at its offsets is the records one after the other; at 44 times its place each record has the 32 pairs of its id from last to first, then the weight in four bytes and the fee in eight, most significant first |
| CpfpRecords.Unpack | backend/src/repositories/CpfpRepository.ts:219-243 | whole records are read in order and nothing is read from a buffer that does not hold whole records |
| CpfpRecords.RoundsToNearest | backend/src/repositories/CpfpRepository.ts:231 | a fee read back is the nearest number of 53 bits times a power of two, the even one of two equally near, as in section 4.3.1 of IEEE 754 |
| CpfpRecords.RoundTrip | backend/src/repositories/CpfpRepository.ts:204-243 | packing and unpacking gives back the same list exactly when each id is 64 lowercase hex digits, each weight fits 32 bits and each fee is a whole number that fits 64 bits and is exact in floating point |
| CpfpRecords.SmallFeesAreStorable | backend/src/repositories/CpfpRepository.ts:214-231 | fees below 2 to the 53 are always exact |
| CpfpRecords.BytesRoundTrip | backend/src/repositories/CpfpRepository.ts:204-243 | a record read and written again is the same bytes if its fee is below 2 to the 53 |

## Left out

- Block builders: transaction objects are records in a map under their ids, so the aliasing
  between queues and pool is expressed by ids; one class serves both builders, whose
  bookkeeping is the same. The template builder's modified list is sorted once for each
  package rather than after each member; ties in sorting are left open.
- Block builders: a dependency rate that is undefined and one of zero are both falsy in the
  code and are one value here. `tx.ancestors` of a template entry, `usedBy`, `cpfpRoot` and
  the dirty and update flags are not modelled. The worker never advances its sigop counter,
  so no sigop bound is claimed for its blocks.
- SelectionWorker.MakeBlockTemplates: which element of the heap comes next is left open, and a
  choice is claimed to be the best only among transactions none of whose ancestors was taken,
  because an entry can be in the heap and in the overflow list at once.
- Replacement cache: trees are values; each tree object has one parent in the code, so nothing
  is shared. `dirtyTrees`, `getRbfTrees`, `load` on partial data, `checkTrees` and the queues
  used while Redis is disconnected are left out. A call reads the clock once.
- RbfCaches.RbfCache.Add: the `replacement` mark on the transaction is not modelled.
- RbfCaches.RbfCache.ImportTree: records that describe no tree are left out, and lists and links
  set for what is then cut stay in the maps, as in the code. On a refusal the code removes the
  stored tree under `deflated.key`, which `load` sets (redis-cache.ts:365) and a fresh export
  lacks; the model removes the one under `deflated.root`.
- LongestSubsequence.IdentifyPrioritized: the two lemmas about flagged transactions ask for
  distinct ids.
- RelativesGraph: `getSameBlockRelatives`, the same walk without the bound, would only repeat it.
- FeeStats.OnlineFeeStatsCalculator.ProcessNext: asks for bands that rise and do not overlap,
  and for weights that are not negative; percentiles passed in are not changed in place.
- Reorg.Blocks.HandleReorgs: re-indexing of summaries, hashrates, difficulty adjustments,
  clusters and accelerations, and the fetching of blocks themselves.
- Mempools.Mempool.UpdateMempool: the order of fetches and their time limit only decide which
  transactions arrive, and are a parameter; candidates, accelerations, progress and Redis are
  not modelled. The protection timer is a step of its own.
- RbfDetection.TableAgrees: asks that transactions with the same id pay the same fee.
- CpfpRecords.Pack: signs and spaces in an id, which a number parser would skip, count as no
  digits.
- Floating-point rounding other than of stored fees, transport, storage engines, logging,
  classification flags, script handling and the frontend.
