# Validator rewards: a verified model

This project models, in Dafny, the decision logic of a service that reads the state of the TON masterchain and reports
how a validation round's rewards are distributed. Transport, decoding and presentation stay outside. What is modelled
is the arithmetic, the searches, the retry protocol and the shared caches, and what is proved about them is what a
reader of the service's answers relies on: amounts add up, a round is located exactly, a retry session comes to the
server that can answer, and no interleaving of requests makes a cache or a client refresh go wrong.

`dafny verify dfyconfig.toml` checks the whole project.

## Modules

| module | what it models |
|---|---|
| `Options`, `Numbers`, `Sorting` | result types; Euclidean `big.Int` division and what rounding loses over a list; unstable sorting as an ordered permutation |
| `RewardMath` | the reward formulas on values: shares of the pool, the owner's clamped cut, nominators' rewards and effective stakes |
| `Rewards` | the same formulas as the service runs them: arrays sorted in place, mutable integers shared with a cached map |
| `PerBlock` | the reward of one block from successive bonuses |
| `Pools` | pool-type detection, decoding of nominators, the accounts behind a pool, and the cache of detected types |
| `Elections` | parsed past elections and the frozen stakes in them |
| `Rounds` | the outward boundary search, the reconstruction of a round from two searches, the backward walk to the previous election |
| `Endpoints` | both endpoints put together: resolving a round, building rows, distributing bonuses |
| `RoundRobin`, `Retry` | the choice of a liteserver and the retry loop around it, with the exclusion set threaded to the client or not |
| `PastElections` | the merge of past elections and its cache with two separate critical sections |
| `ClientRefresh` | the double-checked refresh of the client |
| `ConfigKeys` | the JSON text inside config cache keys |

## How things are modelled

- A block is its number, 32 bits wide with wrap-around. The chain is a function from a block number to the two values
  the service takes out of config param 34. A block lookup or configuration read that may fail is answered by an
  oracle, one answer per step, so a failed lookup that is made again may succeed. A configuration whose `since` or
  `until` is zero is a failed read.
- `big.Int` values that the service may mutate are objects of a class `BigInt`. A method that lists nothing in
  `modifies` therefore proves that it leaves the cached pool map, its integers and its inputs alone. Goroutines that
  fill one slot each are loops over the slots.
- `big.Int.Div` and Dafny's `/` on `int` are the same Euclidean division. Weights are exact quotients of type `real`.
- The service does not guard the divisors of a nominator split and panics when one is zero. The methods return this as
  an outcome of its own, `Divisible` says when it does not happen, and `PanicsIff` says the same in terms of deposits.
- A validator's pool is looked up in the type cache as it is when the computation begins. Entries added meanwhile make
  no difference to what is reported: `SecondLookupAlike`. What account a message address stands for is decided by a
  library outside the repository; assumed of it is only that a value never decoded, which has no tag, stands for none.
- What a liteserver replies, which servers are connected, and where other requests leave the shared counter before each
  attempt are the parameters of `Env`. A panic is the outcome `Crash`. Go's conversion of the unsigned counter to a
  signed integer and its truncating remainder are written out.
- Only the two fallback block lookups give the client the context that holds the exclusion set. These sessions are
  called threaded, all others detached, and both run the same loop.
- Concurrent calls are state machines whose steps are the critical sections; a run is any sequence of steps.

## What turned out differently

- Dust per nominator pool is not always below its number of nominators: a pool without nominators pays the whole
  nominators' part to no one. `SplitLosesLittleIff` gives the exact condition, `EmptyPoolLosesNominatorsPart` an
  instance, and the conservation theorems count this loss.
- Splitting a reward panics for a pool with nominators none of whom has a deposit, or with no balance at all; nothing
  else makes it panic: `PanicsIff`, with the instance `PendingDepositPanics`.
- Round-robin selection panics for some counter values from 2^63 on: for none with one connected server, for half of
  them with two, and in general unless the number of servers divides the distance to the wrap-around (`PickCrashesIff`,
  `CrashAtHalfRange`). No client lives through 2^63 calls, so this is out of practical reach.
- Without an effective exclusion set a session takes the first answer its turns come to, so it may use all its calls on
  a server without the block although another has it. `DetachedSucceedsIff` says exactly when it succeeds, also in
  terms of the counter values that other requests leave behind (`DetachedSucceedsOverFixedServersIff`);
  `ContentionStarvesDetachedSession` is an instance.
- The past-elections cache goes by election ids alone. It cannot be told from the uncached merge exactly when ids tell
  the merge (`CacheInvisibleIff`), in particular if an id determines the members, while bonuses may grow
  (`CacheRefinesMerge`, `GrownBonusesHit`); otherwise it can return an outdated table (`StaleHit`,
  `LostMemberGoesUnnoticed`).
- Clients pinned to blocks each start from a copy of the counter, so round-robin balance does not hold across them: as
  long as the parent is not called, all their first requests go to one server (`PinnedClientsCallAlike`).
- The backward walk to the previous election, started from a block just before the round, never yields the previous
  election: `PrevElectionIff`.
- A cached answer differs from the one that stored it exactly for two addresses without a tag
  (`HitAgreesWithStoringCall`, with the instance `TaglessHitDiffers`). A decoded address has a tag, so this does not
  arise from decoded data, and what is reported about the pool would be the same all the same (`HitResolvesAlike`).
- Comments in the service that its code does not follow, where the model follows the code: `lookupElectionIDForBlock`
  is said to return nil on any error but returns the error; `fetchPrevElectionIDForBlock` is said to return the round
  of the block before but walks back up to a thousand blocks to the first different election; `retry` is said not to
  retry a missing block, but "ltdb: block not found" is retried.

## Model

| member | source | states |
|---|---|---|
| Numbers.MulDiv | utils/math.go:5-7 | one division of the full product: the quotient rounded down, for operands of any sign and a positive divisor |
| Numbers.FloorSum | service/shared.go:202-210 | dividing a list item by item never gives more than dividing its sum, and loses at most one unit less than there are items with a remainder |
| Numbers.Apportion | service/shared.go:277-292 | shares of an amount of any sign, over non-negative weights and any positive divisor, stay within the number of positive weights, less one, below the share of all weights |
| Numbers.ApportionAll | service/shared.go:202-210 | when the divisor is the sum of the weights, the shares add up to the amount less at most one unit fewer than positive weights |
| RewardMath.SplitConserves | service/shared.go:262-280 | second level: whatever the reward's sign and also for a share above ten thousand, the nominators' part is not negative, and owner and nominators together get the reward less the split's dust |
| RewardMath.TwoLevelConservation | service/shared.go:202-301 | all leaf payouts of both levels add up to at most the pool, and what is missing is below the number of validators with stake plus each split's dust |
| RewardMath.DustBelowNominators | service/shared.go:274-281 | when every nominator pool has a nominator, all splits together lose at most one unit less per pool than it has nominators |
| RewardMath.LeavesNonNegative | service/shared.go:262-280 | out of a non-negative pool nobody is paid a negative amount |
| RewardMath.MulDivMonotone | service/shared.go:202-211 | a larger stake never earns less |
| RewardMath.SplitLosesLittleIff | service/shared.go:262-281 | a split loses fewer units than it has nominators if and only if there is a nominator or nothing is left for nominators, stated on reward and share |
| RewardMath.ClampLeavesNothingIff | service/shared.go:269-274 | when the clamped cut leaves nothing for nominators |
| RewardMath.EmptyPoolLosesNominatorsPart | service/shared.go:258-281 | a pool without nominators for which thirty of a hundred units are all that is paid |
| RewardMath.EffectiveStakesBounded | service/shared.go:237-245 | with a non-negative credit, effective stakes lie between zero and the deposits, and their sum is within rounding of the part of all deposits that is at stake |
| Rewards.MulDivInt | utils/math.go:5-7 | the result is a fresh integer; the three operands keep their values |
| Rewards.SortByStake | service/shared.go:114 | in-place sort: stakes never increase along the array and the rows are a permutation of the old ones |
| Rewards.TotalStake | service/shared.go:95-100 | the total is the sum over all validators, duplicates included and zero for those without a pool, in an integer of its own |
| Rewards.FillRows | service/shared.go:102-113 | one row per validator in order, each with a fresh copy of its stake |
| Rewards.BuildValidatorRows | service/shared.go:92-117 | rows are a permutation of what the pool map says about each validator, largest stake first; the total is the sum of the rows' stakes; nothing that existed is changed |
| Rewards.FillRewards | service/shared.go:201-210 | each row gets its floored share of the pool, or zero when there is no stake, in a fresh integer |
| Rewards.RankedRewards | service/shared.go:201-211 | rewards travel with their rows through the second sort |
| Rewards.SplitReward | service/shared.go:262-274 | the cut is at most the reward, cut and part add up to the reward, the part is not negative, and clamping leaves the reported reward as it was |
| Rewards.PanicsIff | service/shared.go:277-292 | splitting a reward panics if and only if there are nominators and either none of them has a deposit or the pool's whole balance is zero |
| Rewards.PendingDepositPanics | service/shared.go:277-280 | a pool whose only nominator's deposit is pending makes it panic |
| Rewards.SplitAmongNominators | service/shared.go:277-301 | the nominators' records in order, or a panic exactly when a divisor is zero |
| Rewards.Enrich | service/shared.go:227-303 | type, validator and owner accounts, whole balance, nominator-pool data and nominators' records of one validator, and no other change to its record; nothing for a shallow answer or a validator without a pool; a panic exactly when the split divides by zero |
| Rewards.FillRecords | service/shared.go:213-306 | record i has rank i + 1 and the shares of row i, unless some split panics |
| Rewards.ComputeValidatorRewards | service/shared.go:196-309 | records are a permutation of the rows, ranked 1 to n by stake, each with the shares that belong to its stake; a panic exactly when some row's split divides by zero; rows, pool and total keep their values |
| Rewards.RecordPaysLeaves | service/shared.go:262-301 | the entries of one record add up to the leaf payouts of its validator |
| Rewards.RecordsConservePool | service/shared.go:196-309 | the rewards that a list of records shows, with each nominator pool's owner at the cut its data gives, add up to at most the pool, and to less only by the two levels' dust |
| Rewards.RecordEffectiveStakes | service/shared.go:277-301 | the nominators listed in a record: no effective stake above the deposit, and their sum within rounding of the part of all deposits at stake |
| Rewards.RewardsFollowRank | service/shared.go:211-225 | weight and, out of a non-negative pool, reward never grow down the ranking |
| Rewards.RecordShare | service/shared.go:202-225 | record i has rank i + 1, the floored part of the pool that its stake is of the total, and the exact ratio as weight; zeros when there is no total |
| Rewards.RecordWithoutPool | service/shared.go:227-229 | a shallow answer, and a validator without a pool, say nothing of a pool |
| Rewards.RecordBalance | service/shared.go:237-245 | the whole balance is the stake and what the elector returns, which counts as nothing if it cannot be asked |
| Rewards.NominatorPoolRecord | service/shared.go:135-181 | for a nominator pool whose data decode: type, masterchain validator, no owner, the contract's own stake, sum of deposits, count, and share out of ten thousand |
| Rewards.EachNominatorIsPaid | service/shared.go:262-301 | entry j is about deposit j: its address and deposit, the floored part of the nominators' share that the deposit is of all deposits, the exact ratio as weight, and the floored effective stake; the owner's cut is the floored share or the whole reward if less |
| Rewards.PaysIff | service/shared.go:277-300 | what it means for an entry to pay a deposit, written out |
| Rewards.SingleNominatorRecord | service/shared.go:231-249 | for a single-nominator pool: its version's type, the decoded validator and owner in their places, and no split |
| Elections.Find | service/shared.go:184-191 | nothing is found exactly when no listed election has the id; what is found is listed and has it |
| Elections.FindElection | service/shared.go:184-191 | the scan returns the first listed election with the id |
| PerBlock.BlockReward | service/blocks.go:139-147 | difference of the bonuses at a block and the one before when both are known, otherwise three zeros |
| PerBlock.RewardsTelescope | service/blocks.go:139-147 | block rewards over consecutive blocks add up to the growth of the bonuses |
| PerBlock.PerBlockAgreesWithRound | service/blocks.go:139-207 | over k blocks with fixed stakes, a validator's floored block rewards sum to at most its floored share of the whole growth and to more than that less k |
| Pools.DecodeNominatorPool | service/pool.go:192-223 | share, counts, stake and validator are the contract's; every nominator is listed with its deposit, pending deposit and withdrawal flag; and the nominators' amount is exactly the sum of the deposits |
| Pools.NominatorDataAmount | service/pool.go:144-223 | whatever the cache holds, the amount nominators' shares are divided by is the sum of their deposits |
| Pools.PoolTypeCache.FetchPoolData | service/pool.go:144-265 | for each state of an account and each code hash which type and data come out, field by field, and what is remembered; a remembered address is answered from its entry; and the functions that runs are made of agree |
| Pools.OnlyStableTypesStored | service/pool.go:142-265 | after any run of requests no entry is a nominator pool or a failed detection, and an unrecognised type has no address |
| Pools.EntriesNeverChange | service/pool.go:146-156 | an entry once stored is the same after every longer run |
| Pools.HitAgreesWithStoringCall | service/pool.go:146-156 | a later call for the address answers as the storing call did, whatever became of the account, if and only if that call gave no data or an address with a tag |
| Pools.TaglessHitDiffers | service/pool.go:146-156 | a run in which roles without tags give data first and none from the cache |
| Pools.HitResolvesAlike | service/shared.go:136-153 | in every case, type and resolved accounts of the later call are those of the storing call |
| Pools.SecondLookupAlike | service/pool.go:144-265 | asked again about the same account, the cache reports the same, and a nominator pool's answer is the same altogether |
| Rounds.StepForward | service/rounds.go:168-179 | a forward step ends the search with the result it must have or extends the quiet stretch ahead by the lookups that succeeded |
| Rounds.StepBackward | service/rounds.go:181-194 | the same backward, where block 0 is never passed |
| Rounds.FindElectionBoundary | service/rounds.go:131-198 | the search returns exactly what `SearchResult` describes: the change and the iteration in which it is reached, a failed read and its iteration, or that everything in reach was quiet |
| Rounds.SearchDeterminate | service/rounds.go:131-198 | that description admits one result only |
| Rounds.SearchWithoutStart | service/rounds.go:132-143 | the error of a search whose time lookup or first read fails |
| Rounds.FailedReadEndsSearch | service/rounds.go:168-194 | far from any change a search fails by a read exactly when some configuration it asks for cannot be read, and otherwise finds nothing |
| Rounds.BoundarySound | service/rounds.go:131-198 | a returned pair is adjacent, has the two ids read at it, which differ, and is the first change on its side within twenty blocks |
| Rounds.SearchSucceedsIff | service/rounds.go:164-197 | with readable configurations a search succeeds if and only if on some side the nearest change is no further than the number of lookups that succeed there |
| Rounds.SearchNearest | service/rounds.go:164-197 | without failed lookups it fails if and only if there is no change within twenty blocks, and returns the nearest, forward in a tie |
| Rounds.SoleChangeAhead | service/rounds.go:164-197 | a sole change ahead at distance d is found exactly when d plus the failed lookups ahead is at most twenty |
| Rounds.SoleChangeBehind | service/rounds.go:164-197 | the same behind |
| Rounds.ResolveRound | service/rounds.go:225-257 | the round, or the error of the first part that fails, as determined by the two boundary searches |
| Rounds.UnfinishedIff | service/rounds.go:225-243 | a query is refused as unfinished exactly when its block was found and read and its round ends in the future |
| Rounds.BoundaryAtSwitch | service/rounds.go:131-198 | on a chain of contiguous rounds of at least forty blocks, a search from close to a switch gives that switch and no other, exactly when it is in reach |
| Rounds.RoundReconstructed | service/rounds.go:225-303 | from any block of a finished round a round is returned if and only if both switches are in reach, and it has exactly that round's id, times, first and last block and neighbours |
| Rounds.SwitchInReachWithoutFailure | service/rounds.go:164-194 | without failed lookups every such switch is in reach, so reconstruction succeeds |
| Rounds.FetchPrevElectionId | service/rounds.go:66-102 | the walk returns exactly what `PrevResult` describes: the first different election within a thousand blocks, or which read failed |
| Rounds.PrevWalk | service/rounds.go:66-94 | block by block: the first different election within a thousand blocks, a failed read if one comes first, nothing if there is neither, and an error for the first two blocks |
| Rounds.PrevElectionIff | service/rounds.go:66-94 | it names the election before a round if and only if it starts inside the round at most 999 blocks after its first block |
| Rounds.PrevElectionWaysAgree | service/rounds.go:66-198 | there, it agrees with the earlier id that a successful boundary search for the round's start gives |
| Endpoints.FetchRoundRewards | service/rounds.go:221-305 | the round endpoint on every path: which problem is reported, a panic included, or the resolved round with its listed total stake and bonuses, and the bonuses distributed over the validators of its last block, as the pool map there describes them |
| Endpoints.RoundReportedIff | service/rounds.go:266-289 | a resolved round is reported if and only if its validators can be read and there are some, one of them has stake, the first election listed under its id has bonuses, and no split panics |
| Endpoints.FetchBlockRewards | service/blocks.go:17-209 | the block endpoint on every path: which problem is reported, a failed lookup of the block included, or election, bonuses at the block and before, their difference, the round's first and last block, previous and next election, total stake, and the difference distributed over the validators, ranked by stake |
| Endpoints.BlockNamesPreviousIff | service/blocks.go:149-189 | a block of a round is reported with the previous election if and only if the time lookup for the round's start lands inside the round at most 999 blocks after its first block |
| Endpoints.BlockNamesNextIff | service/blocks.go:161-193 | a block of a round is reported with the next election and the block its time lookup lands on if and only if the round is over, and with neither otherwise |
| Endpoints.BlockWithoutStart | service/blocks.go:149-189 | without a time lookup for the round's start, neither start nor previous election |
| Endpoints.BlockRefused | service/blocks.go:88-187 | when there is no answer: unread validators, a failed walk from a known start, or a panic |
| Endpoints.BlockRewardIsGrowth | service/blocks.go:139-147 | the reward is the election's bonuses at the block less those at the block before, both reported |
| Endpoints.BlockRewardIsMissing | service/blocks.go:113-147 | zeros for the first blocks and when a listing has no bonuses |
| Endpoints.BlockTotalIsListed | service/blocks.go:202-204 | the reported total stake is the sum of the listed stakes |
| Endpoints.RecordsOfValidators | service/shared.go:92-117 | the records are about the configured validators, each as often as it is configured |
| Endpoints.DistributedUpToDust | service/shared.go:196-309 | any distribution over stakes that are not negative pays out the amount up to dust |
| Endpoints.DustIsFewUnits | service/shared.go:274-281 | when every nominator pool has a nominator, the unpaid rest is fewer units than validators with stake, plus fewer per pool than it has nominators |
| Endpoints.MergedStakes | service/pool.go:386-415 | through the merged pool map a validator has the stake and pool of its latest listed election, and no stake if it is in none |
| Endpoints.RoundPaysItsBonuses | service/rounds.go:221-305 | asked from inside round i, an answer is about round i and the validators configured at its last block, reports total stake and bonuses of an election listed under its id at the first block of the next round, shows the stakes of the latest elections listed at its last block, and its records pay out these bonuses up to dust |
| Endpoints.BlockPaysItsReward | service/blocks.go:136-208 | a block's records show the stakes of the latest elections listed there and pay out the block's reward up to dust, whatever its sign |
| Endpoints.CachedPoolsMerged | service/pool.go:364-423 | in every interleaving where ids tell merges, a call's table out of the cache, mirrored in a pool map, is the merge that the two theorems above ask for |
| Endpoints.BlockAnswersAgreeWithRound | service/blocks.go:136-208 | what the block endpoint's answers for k consecutive blocks with unchanged stakes list for a validator adds up to at most its share of the growth of the bonuses, and to more than that less k |
| RoundRobin.Candidates | service/roundrobin.go:31-40 | exactly the connected servers that are not excluded, in order and once each |
| RoundRobin.RoundRobinClient.NextClient | service/roundrobin.go:94-128 | bumps the counter by one, wrapping, and picks by it; the exclusions stay as they are |
| RoundRobin.RoundRobinClient.ClientForRequest | service/roundrobin.go:130-144 | additionally notes the picked server, and nothing else, in the session |
| RoundRobin.PickIsHealthyIff | service/roundrobin.go:31-48 | below 2^63 a server is always picked, and it is connected and not excluded if and only if there is such a server |
| RoundRobin.PickIsIndexed | service/roundrobin.go:40-48 | which server each counter value picks, with candidates and without |
| RoundRobin.PickCrashesIff | service/roundrobin.go:41-47 | exactly for which counter values the pick has a negative index |
| RoundRobin.CrashAtHalfRange | service/roundrobin.go:41-47 | with three connected servers counter value 2^63 crashes the pick; with one server none does |
| RoundRobin.SelectionsCount | service/roundrobin.go:124-127 | closed form for how often a server is picked over consecutive calls |
| RoundRobin.RoundRobinBalance | service/roundrobin.go:94-128 | over any k calls each of m connected servers is picked k/m times, rounded down or up |
| RoundRobin.SomeTurnReaches | service/roundrobin.go:124-127 | among any m consecutive calls one picks a given connected server |
| RoundRobin.PinnedCountAlone | service/roundrobin.go:147-153 | while the parent rests, every client pinned from it counts its own calls only, from the parent's counter, and the parent's counter stays |
| RoundRobin.PinnedClientsCallAlike | service/roundrobin.go:147-153 | however the calls of such clients interleave, the k-th calls of all of them, and so all first calls, go to one and the same server |
| Retry.MakeAttempt | service/retry.go:75-89 | one attempt on client and session: its outcome, the counter it leaves, and which server it excludes |
| Retry.RetryWithContext | service/retry.go:68-97 | the loop's outcome, number of calls and final counter, for threaded and detached sessions |
| Retry.LoopProgress | service/retry.go:75-94 | the progress measure: the servers not yet excluded bound the calls still needed |
| Retry.ThreadedProgress | service/loaders.go:315-330 | if a server with the block stays connected, at most thirty servers are ever connected, and each fault's text contains "state already gc'd" or "ltdb: block not found" but not "no connections available", one threaded session succeeds within as many calls as servers, however others move the counter |
| Retry.NoConnectionEndsSession | service/retry.go:28-36 | a session whose first reply contains "no connections available" fails after that call |
| Retry.SessionGivesUp | service/retry.go:68-97 | a session that meets only errors that are not permanent fails after thirty calls |
| Retry.OtherFaultsExcludeNobody | service/retry.go:84-89 | where no reply says that the block is missing, a threaded session is the same as a detached one |
| Retry.DetachedCoversAllServers | service/retry.go:49-52 | without exclusion, an uncontended session comes to every connected server within as many attempts as there are |
| Retry.DetachedIsFirstAnswer | service/loaders.go:161-169 | whatever servers come and go and however others move the counter, a detached session returns the first value or permanent error among the replies its turns come to, or the last error; exclusions make no difference |
| Retry.DetachedSucceedsIff | service/loaders.go:161-169 | it succeeds if and only if some attempt's turn comes to a server that answers before any comes to a permanent error, and within that many calls |
| Retry.DetachedSucceedsOverFixedServersIff | service/loaders.go:161-169 | over fixed connected servers, if and only if some counter value left by others selects a server that answers |
| Retry.DetachedSucceeds | service/loaders.go:161-169 | so an uncontended session succeeds within as many calls as connected servers if one of them has the block |
| Retry.OwnClientSucceeds | service/retry.go:49-52 | a session with a pinned client to itself is uncontended, so it succeeds within as many calls as connected servers if one of them has the block |
| Retry.ContentionStarvesDetachedSession | service/loaders.go:161-169 | an instance in which a detached session spends all thirty calls in vain and a threaded one succeeds by its second |
| PastElections.MergeElections | service/pool.go:386-415 | each key maps to its entry in a latest election that has it, and there are no other keys; elections that do not parse are skipped |
| PastElections.SameElectionsSameMerge | service/pool.go:391-405 | order, repetition, elections that do not parse, stakes and bonuses make no difference to a merge |
| PastElections.MergeUnique | service/pool.go:403-415 | when an id determines the members there is exactly one merge |
| PastElections.MergeTakesLatest | service/pool.go:403-415 | an election's entry is the merged one when no later election has the key and those of its id agree; no key comes from nowhere |
| PastElections.SortedIdsIff | service/pool.go:370-375 | cache keys are equal if and only if the ids are the same, in any order |
| PastElections.PastElectionsCache.ProbeLocked | service/pool.go:377-384 | a hit needs equal ids and a stored table |
| PastElections.PastElectionsCache.GetAllPoolAddresses | service/pool.go:364-423 | a call nobody interferes with: a failed fetch and a hit change nothing, a miss returns and stores the merge of what was fetched |
| PastElections.NextKeepsInv | service/pool.go:377-420 | every step of every interleaving keeps ids, table and returned results tied to fetched elections |
| PastElections.CacheIsConsistent | service/pool.go:377-420 | in every interleaving the stored table is the merge of a fetched list with the stored ids, and so is each returned table for the caller's ids |
| PastElections.CacheInvisibleIff | service/pool.go:364-423 | over any set of lists: in every interleaving that fetches only these, each call returns a merge of its own list, if and only if lists with the same ids have the same merges |
| PastElections.CacheRefinesMerge | service/pool.go:364-423 | if an id determines the members, whatever becomes of stakes and bonuses, every call returns exactly the merge of the elections it fetched |
| PastElections.GrownBonusesHit | service/pool.go:377-384 | the usual case: bonuses have grown between two calls, the second hits the cache and returns the merge of its own list |
| PastElections.StaleHit | service/pool.go:378-382 | whenever two lists share their ids but not the merge, two calls in a row make the second return the merge of the first |
| PastElections.LostMemberGoesUnnoticed | service/pool.go:378-382 | a past election that loses its only member |
| ClientRefresh.Service.CurrentClient | service/service.go:26-50 | a call nobody interferes with refreshes exactly when the limit has passed and a client could be built; otherwise client and stamp stay |
| ClientRefresh.NextKeepsInv | service/service.go:26-50 | every step of every interleaving keeps the refresh invariant |
| ClientRefresh.RefreshIsSafe | service/service.go:26-50 | in every interleaving refreshes are at least the limit apart, and a returned client was current when the call began or was installed before it returned, and is younger than the limit unless the call's own refresh failed |
| ClientRefresh.UndisturbedCall | service/service.go:26-50 | as steps of a run, an undisturbed call returns a fresh client, replaces a stale one, and keeps it if building fails |
| ClientRefresh.OnlySuccessInstalls | service/service.go:40-46 | only a successful refresh changes client or stamp; a failed one leaves both |
| ClientRefresh.RefreshesAreFew | service/service.go:39-47 | however many calls pile up, there are no more refreshes than whole limits elapsed |
| ConfigKeys.Decimal | service/loaders.go:69-72 | digits only and no leading zero |
| ConfigKeys.DecimalText | service/loaders.go:69-72 | digits from the most significant on |
| ConfigKeys.ListText | service/loaders.go:69-72 | brackets and commas, and `null` for a nil list |
| ConfigKeys.ParamListRoundTrip | service/loaders.go:69-79 | every list, nil and empty ones included, is read back from the text written for it |
| ConfigKeys.KeysAreFaithful | service/loaders.go:62-79 | two keys are equal if and only if mode, list and block are |

## Left out

- HTTP handlers, JSON and Swagger output, telemetry, request counting and logging: plumbing.
- BOC and TL-B decoding, address formatting, the dataloader and its LRU caches: libraries outside the repository; decoded values are inputs.
- IEEE rounding of weights: weights are exact quotients.
- The prefetch goroutines of the boundary search: they only warm caches.
- `FetchValidationRounds` and its fan-out over older rounds.
- The pool's total stake, which the service adds up but never uses.
- Downloading the configuration, connecting to liteservers, and the sleep between attempts.
- Reconstruction from a block before the round, to which an election id may resolve: only anchors inside the round are covered.
- Pools.PoolTypeCache.FetchPoolData: models requests one after the other; concurrent first calls for one address, each of which may store, are not modelled.
- PastElections.PastElectionsCache.GetAllPoolAddresses: the returned table is a value, so that callers share the cached map is not captured here; that they only read it is what `BuildValidatorRows` and `ComputeValidatorRewards` promise.
- Endpoints.FetchRoundRewards: reading config, pools and elections in parallel is not modelled; a failed read of pools or elections is an empty one, as in the service.
- Endpoints.FetchBlockRewards: the elector's balance and the formatted times are copied into the answer without any decision and are not modelled; the current time is read once instead of twice.
- ConfigKeys.ParamListRoundTrip: the reader covers the JSON that a list of numbers can contain; strings, objects and escapes are errors in it without being read to their end.
