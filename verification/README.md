# Verified model of the swap service's state machines

The swap service replays a chain of blocks into a database, answers price and quote requests from asynchronous
caches, asks market makers for quotes and computes prices and fees. This project models the parts of it that carry
state across steps or do exact arithmetic, and proves what they keep over every run and every input.

Each file holds one module:

| file | what it models |
|---|---|
| `Indexer.dfy` | the block and event query, the cached archive watermark |
| `BlockProcessor.dfy` | any number of block processors as a protocol over one `state.height` row |
| `ProcessBlocks.dfy` | the processing loop of one instance, proved to be a run of that protocol |
| `ChainTracking.dfy` | the chain-tracking handler and the deposit confirmation count, on top of the protocol |
| `QuoteRateLimit.dfy` | the sliding-window limiter, refined against one that never forgets |
| `Memoize.dfy`, `CacheMap.dfy`, `AsyncCacheMap.dfy`, `PriceCache.dfy` | the asynchronous caches |
| `LimitOrders.dfy` | legs, who is asked for which, and the orders made from quotes |
| `QuotingRound.dfy` | the collection of quotes under a timeout, all rounds at once |
| `BalanceTracker.dfy` | overlapping refreshes of the makers' balances |
| `QuoterRegistry.dfy` | connections, monitored accounts, replenishment factors and liquidity |
| `PriceConversion.dfy` | the two X128 price conversions |
| `BoostFee.dfy` | the boost fee estimate |
| `SwapRollup.dfy` | the roll-up of fees and chunks |
| `CaseConversion.dfy` | the case conversions |
| `Prelude.dfy` | shared small definitions |

How things are modelled. Objects that update their fields are classes; each of their methods is tied to a function of
the old state, and the properties are proved about runs of those functions. Whatever is concurrent is a state machine
whose events (a start, a settlement, a timer, a message, a crash) come in any order. The clock, network replies, the
results of fetches and the sockets found are parameters. Event handlers other than chain tracking are an arbitrary
partial function on the application state. A database transaction is not taken to be atomic: as soon as another
instance has committed in the middle of one, the handlers in it may read and write anything at all, and only the final
compare-and-set decides. BigNumber is exact except for division and `toFixed(0)`, which round half away from zero, to
20 and 0 places.

Where a promise of the code is not kept, the exact condition under which it is kept is proved, with a run that breaks
it otherwise:

- The rate limiter bounds the requests admitted in a window if and only if the block outlasts the window, or nothing
  is admitted at all (`WindowBoundExactly`, `BurstLeaks`).
- In `AsyncCacheMap` a refresh can write over a newer one once a `set` or `delete` has restarted the tokens
  (`WritesExactly`, `OlderRefreshCanWin`).
- An invalid reply from any maker lowers the number every open quoting round waits for, and so does an answer to it
  from a maker it did not ask. A round that is open can be relied on to end exactly on its timer or when everybody it
  asked has answered if and only if it has heard no such reply; otherwise it may end without a maker it asked, or wait
  although all have answered (`PromiseKeptExactlyIfClean`, `InvalidReplyCutsARoundShort`,
  `InvalidReplyMakesARoundWait`).
- `memoize` caches the promise of its very first call before it has settled. It serves a failed promise if and only if
  that one failed and nothing newer has been cached (`CachedFailureIsTheFirst`, `FirstFailureIsServed`).
- Behind a stale watermark the archive can overtake the block loop. It then fails on a height, except when the archive
  has taken the whole hot database: then batches are empty and the loop waits (`OvertakenAltogetherStalls`).
- The balance is checked per price level. A maker's orders on a leg together stay within its padded balance if and
  only if the levels that fit one by one add up to no more than it, and with no level refused if and only if all of
  them do (`OrdersStayWithinExactly`, `OrdersFitTogetherExactly`, `OrdersTogetherMayExceedBalance`).
- Taking boost pools in turn is the cheapest fill if and only if the non-empty ones come in ascending order of their
  rates; supply pools come last, so this fails whenever a boost pool dearer than 5 bps and a supply pool both have
  money (`CheapestExactlyWhenAscending`, `ConsideredPoolsAscend`).
- The chunk shown for a DCA swap is the earliest waiting one if and only if at most two wait (`ShownChunkIsEarliest`,
  `ThirdChunkHidesTheFirst`).
- The case conversions undo each other exactly on the strings given in `CamelRoundTrip`, `PascalRoundTrip` and
  `ScreamingRoundTrip`.

## Model

| member | source | states |
|---|---|---|
| Indexer.SelectedEventsAreOrdered | packages/swap/src/indexer.ts:44-53 | a served block holds every event of a wanted name exactly as often as the table does, no other, in strict index order |
| Indexer.QueryIsASlice | packages/swap/src/indexer.ts:30-55 | the query returns one contiguous stretch of the chain, from the first wanted hot block, at most the limit |
| Indexer.ServedBlocksAreTheRows | packages/swap/src/indexer.ts:30-55 | how many blocks come, and each one's height, spec id and events in terms of the tables alone |
| Indexer.IndexerClient.GetArchiveState | packages/swap/src/indexer.ts:78-94 | a watermark younger than the TTL is reused and the cache left alone; otherwise the answer is used and cached with the time it came in; a missing table means nothing is archived; any other error is raised and caches nothing |
| Indexer.WatermarkIsRecent | packages/swap/src/indexer.ts:78-94 | over any series of uses, the watermark used is the answer to this use or one that came in less than the TTL before |
| Indexer.IndexerClient.GetBlocks | packages/swap/src/indexer.ts:96-120 | refused exactly when at or below the watermark known, failed exactly when a query failed, otherwise the rows of the query |
| Indexer.GapExactlyWhenArchiveOvertook | packages/swap/src/indexer.ts:78-110 | behind a stale watermark a batch has consecutive heights and misses its first block exactly when the archive has overtaken the request |
| BlockProcessor.CommitKeepsInv | packages/swap/src/processBlocks.ts:109-117 | a commit either changes nothing shared or moves the height up by one and extends the replay, whatever other instances are in the middle of |
| BlockProcessor.StepKeepsInv | packages/swap/src/processBlocks.ts:49-118 | every step of every instance keeps the invariant and raises the height by at most one |
| BlockProcessor.EveryRunReplaysTheChain | packages/swap/src/processBlocks.ts:49-118 | for any instances, interleaving, crashes, restarts and genuine batches, the application state is the sequential replay of exactly the blocks up to `state.height` |
| BlockProcessor.ReplayFoldsTheLog | packages/swap/src/processBlocks.ts:79-118 | replaying block by block is folding the handlers over one event log |
| BlockProcessor.LogHoldsExactlyTheEvents | packages/swap/src/processBlocks.ts:79-118 | that log holds the events of the blocks start + 1 to height and no others |
| BlockProcessor.LogIsStrictlyOrdered | packages/swap/src/processBlocks.ts:79-118 | the log is strictly ordered by height and index, so no event is in it twice |
| BlockProcessor.EveryRunAppliesEachEventOnce | packages/swap/src/processBlocks.ts:49-118 | every reachable application state comes from handling each of those events once, in order |
| BlockProcessor.HeightGrowsOneByOne | packages/swap/src/processBlocks.ts:109-113 | along any run the height never falls and passes through every value in between |
| ProcessBlocks.FetchBlocks | packages/swap/src/processBlocks.ts:11-36 | the first success among at most five attempts; failure only when all five failed |
| ProcessBlocks.RunHandlers | packages/swap/src/processBlocks.ts:91-108 | the result is the fold of the handlers over the block's events, none exactly if one is missing or throws, and a protocol run |
| ProcessBlocks.CommitBlock | packages/swap/src/processBlocks.ts:80-117 | exactly when each assertion or a handler fails; otherwise the row is the block's height and the tables the fold over it; a failure changes nothing |
| ProcessBlocks.ProcessBatch | packages/swap/src/processBlocks.ts:79-118 | fails on a height exactly if its first block is not the next one, on a handler exactly if the batch cannot be replayed, leaving the last height that can; otherwise it is committed whole |
| ProcessBlocks.PrefetchesNext | packages/swap/src/processBlocks.ts:72-77 | while a batch is processed the one after it is requested exactly if the batch is full, from the block after its last |
| ProcessBlocks.AwaitAndProcess | packages/swap/src/processBlocks.ts:58-118 | each round takes a batch requested from exactly the block after the cursor, prefetched or not; fails on a height exactly if the batch is not empty and the archive is above the cursor; fails on a handler exactly if the batch cannot be replayed; otherwise advances by all of it and has prefetched the next if it was full |
| ProcessBlocks.ProcessBlocks | packages/swap/src/processBlocks.ts:38-125 | the loop is a run of the protocol, and alone it ends for exactly the reason and at exactly the height that the answers determine |
| ProcessBlocks.LoopEndsForAReason | packages/swap/src/processBlocks.ts:38-125 | the height never falls; the state row is never the reason; a height failure means the archive overtook the cursor, a handler failure that the next block cannot be replayed |
| ProcessBlocks.OvertakenAltogetherStalls | packages/swap/src/processBlocks.ts:58-75 | with the archive above the cursor a round fails on a height, but goes on without progress exactly if nothing is left in the hot database |
| ProcessBlocks.StoppedLoopCaughtUp | packages/swap/src/processBlocks.ts:58-118 | with the archive behind the cursor, a loop that runs through its script is a full batch nearer to block n for every answer that sees n, until it is there |
| ProcessBlocks.NothingIsMissed | packages/swap/src/processBlocks.ts:58-118 | without failing fetches, overtaking or failing handlers the loop runs on and reaches every block that enough answers see |
| ChainTracking.TrackingStore.ChainStateUpdated | packages/swap/src/event-handlers/tracking/chainStateUpdated.ts:26-72 | the tracking row and both channel tables after a report; only due channels of that chain become expired |
| ChainTracking.ExpiredExactlyWhenReached | packages/swap/src/event-handlers/tracking/chainStateUpdated.ts:55-70 | after any reports a channel is expired exactly if it was, or some report reached its expiry block |
| ChainTracking.BlockRemembersPrevious | packages/swap/src/event-handlers/tracking/chainStateUpdated.ts:32-54 | however many reports a block carries, the row keeps the last of them and the height from before the block |
| ChainTracking.RowsAreExact | packages/swap/src/event-handlers/tracking/chainStateUpdated.ts:32-54 | in every replayed state the row's heights are those of an independent definition over the whole chain |
| ChainTracking.ConfirmationsLagOneBlock | packages/swap/src/ingress-egress-tracking/index.ts:49-66 | in every state reachable by any processors, confirmations are counted against the height tracked after the previous block, 0 if none |
| ChainTracking.ConfirmationsAreBlocks | packages/swap/src/ingress-egress-tracking/index.ts:49-66 | the count shown is the number of external blocks from the deposit's up to the height tracked after the previous state-chain block, both included; 0 if the chain was never reported |
| ChainTracking.ConfirmationsNeverDecrease | packages/swap/src/ingress-egress-tracking/index.ts:49-66 | with non-decreasing reports a deposit's count never decreases along a run |
| ChainTracking.TornReadsAreBracketed | packages/swap/src/ingress-egress-tracking/index.ts:53-63 | when the two rows are read at different moments, the height used lies between the exact heights of the two |
| QuoteRateLimit.RateLimiter.Handle | packages/swap/src/routes/middlewares/quoteRateLimit.ts:40-77 | verdict and record of one request as the decision function gives them, other addresses untouched |
| QuoteRateLimit.RateLimiter.Cleanup | packages/swap/src/routes/middlewares/quoteRateLimit.ts:24-34 | a record is kept exactly if it is blocked beyond now or has a request inside the window |
| QuoteRateLimit.IdleClientIsForgotten | packages/swap/src/routes/middlewares/quoteRateLimit.ts:24-76 | whatever a client did before, once it has been idle for longer than the window and as long as a block the next cleanup leaves no record of it |
| QuoteRateLimit.IpsAreIndependent | packages/swap/src/routes/middlewares/quoteRateLimit.ts:18-77 | every address's record and verdicts are those of its own requests alone |
| QuoteRateLimit.CleanupIsInvisible | packages/swap/src/routes/middlewares/quoteRateLimit.ts:24-76 | cleanups at any moments change no verdict |
| QuoteRateLimit.KeptIsTheWindow | packages/swap/src/routes/middlewares/quoteRateLimit.ts:55-64 | the list a request is appended to is, in order, the admitted requests of the last window |
| QuoteRateLimit.RefinesReference | packages/swap/src/routes/middlewares/quoteRateLimit.ts:24-76 | with a block longer than the window every run gives the verdicts of a limiter that remembers everything |
| QuoteRateLimit.WindowBoundExactly | packages/swap/src/routes/middlewares/quoteRateLimit.ts:24-76 | no window ever holds more than the maximum of admitted requests if and only if the block outlasts the window or the maximum is 0 |
| QuoteRateLimit.BurstLeaks | packages/swap/src/routes/middlewares/quoteRateLimit.ts:55-76 | the run that breaks the bound when the block is no longer than the window |
| QuoteRateLimit.CompliantClientIsNeverRejected | packages/swap/src/routes/middlewares/quoteRateLimit.ts:40-76 | a client that stays within the maximum in every window is never rejected |
| Memoize.Memoized.Revalidate | packages/swap/src/utils/function.ts:21-46 | a started revalidation takes the next revision; a promise leaves the value, a plain value replaces it |
| Memoize.Memoized.Get | packages/swap/src/utils/function.ts:48-64 | a call returns the cached value, except that the first one, and a revalidation due whose result is not a promise, return the new value; due means that none is under way and a non-zero ttl has passed |
| Memoize.Memoized.Refresh | packages/swap/src/utils/function.ts:66-76 | a refresh always starts a revalidation, or sets the first value, and hands the new value back |
| Memoize.Memoized.OnSettled | packages/swap/src/utils/function.ts:28-41 | only a success of the newest revision writes; failures keep the old value |
| Memoize.EveryRunCounts | packages/swap/src/utils/function.ts:13-79 | `pending` counts the unsettled revalidations and `revalidating` says whether there are any, over every interleaving |
| Memoize.CachedIsNewestDelivered | packages/swap/src/utils/function.ts:21-46 | what is cached was delivered while the newest, and nothing newer was ever delivered |
| Memoize.LookupRevalidatesExactly | packages/swap/src/utils/function.ts:48-64 | after any run a call starts a revalidation if and only if none is unsettled and a non-zero ttl has passed since the event that put the cached value there; otherwise it changes nothing |
| Memoize.SetAtIsWhenCached | packages/swap/src/utils/function.ts:21-76 | `setAt` is the time of the first call or of the event that delivered the cached value |
| Memoize.CachedNeverOlder | packages/swap/src/utils/function.ts:21-46 | the start number of the cached value never decreases |
| Memoize.CachedFailureIsTheFirst | packages/swap/src/utils/function.ts:21-76 | what is cached is a rejected promise if and only if it is still the very first call's and that one was rejected |
| Memoize.FirstFailureIsServed | packages/swap/src/utils/function.ts:48-64 | a run in which the first call's promise fails and a later call still gets it |
| Memoize.LookupsAreSingleFlight | packages/swap/src/utils/function.ts:48-64 | without `refresh` at most one revalidation is in flight |
| Memoize.SupersededSuccessIsLost | packages/swap/src/utils/function.ts:28-41 | a run in which an older success is dropped and the newer revalidation then fails |
| CacheMap.CacheMap.Delete | packages/shared/src/dataStructures.ts:53-56 | the entry and its timer go together |
| CacheMap.CacheMap.Set | packages/shared/src/dataStructures.ts:40-47 | the entry is replaced and its old timer cleared |
| CacheMap.CacheMap.Get | packages/shared/src/dataStructures.ts:49-51 | the value found, with its timer renewed if lookups reset the expiry |
| CacheMap.CacheMap.Fire | packages/shared/src/dataStructures.ts:43-46 | a timer removes the entry that armed it last and no other |
| CacheMap.FiredOneToOne | packages/shared/src/dataStructures.ts:4-57 | a firing timer belongs to exactly one stored entry, and one-to-one correspondence survives |
| CacheMap.AlwaysOneToOne | packages/shared/src/dataStructures.ts:4-57 | over every run, even with late timers, entries and armed timers correspond one to one |
| CacheMap.LivesForItsTtl | packages/shared/src/dataStructures.ts:4-57 | in the timestamped map an entry lives for its ttl in milliseconds; one that a timer cannot hold, or below 1, makes it 1 |
| CacheMap.AgreesWithPlainMap | packages/shared/src/dataStructures.ts:32-57 | with timely timers every operation reveals what a plain timestamped map would |
| AsyncCacheMap.AsyncCacheMap.Delete | packages/shared/src/dataStructures.ts:77-80 | the entry, its timer and the key's token go; the result says whether there was an entry |
| AsyncCacheMap.AsyncCacheMap.Set | packages/shared/src/dataStructures.ts:40-47 | through the overridden delete, setting starts a new period of tokens |
| AsyncCacheMap.AsyncCacheMap.Get | packages/shared/src/dataStructures.ts:82-95 | the stored promise, or a new fetch stored at once |
| AsyncCacheMap.AsyncCacheMap.Refresh | packages/shared/src/dataStructures.ts:104-132 | a present key takes the next token and keeps its entry; a missing one is fetched and stored at once; the caller gets the new fetch either way |
| AsyncCacheMap.AsyncCacheMap.OnSettled | packages/shared/src/dataStructures.ts:86-132 | what each kind of fetch does when it settles |
| AsyncCacheMap.EveryRunKeepsInv | packages/shared/src/dataStructures.ts:77-133 | a key has a token exactly while its newest refresh belongs to the current period, and it is that refresh's; tokens grow within a period |
| AsyncCacheMap.WritesExactly | packages/shared/src/dataStructures.ts:117-127 | a refresh that succeeds writes exactly if its token equals the newest refresh's and that one is of the current period; so it is the newest, or left over from an earlier period |
| AsyncCacheMap.SettlingServes | packages/shared/src/dataStructures.ts:86-132 | over every run a settled fetch changes what is found under its own key at most; a refresh of a present key replaces the entry exactly if it succeeded and has the newest refresh's token of this period, and otherwise leaves cache and tokens as they were; a failed first fetch leaves nothing |
| AsyncCacheMap.CallServes | packages/shared/src/dataStructures.ts:77-132 | what is found under every key after each other operation: `get` and `refresh` keep what is there, or store a new fetch if there is nothing |
| AsyncCacheMap.CacheIsACacheMap | packages/shared/src/dataStructures.ts:59-133 | over every run the map of promises is a CacheMap on which, for each event, the stated sets, lookups and deletes were done at that time |
| AsyncCacheMap.FindsWhatAPlainMapHolds | packages/shared/src/dataStructures.ts:59-133 | with timely timers what is found under a key after any run is what a plain timestamped map holds live |
| AsyncCacheMap.SupersededIsDropped | packages/shared/src/dataStructures.ts:117-127 | within one period tokens are distinct and superseded refreshes never write |
| AsyncCacheMap.OlderRefreshCanWin | packages/shared/src/dataStructures.ts:77-133 | the run in which an older refresh writes and the newest is dropped |
| PriceCache.PriceCache.Begin | packages/swap/src/pricing/index.ts:62-76 | a call serves a fresh price, waits for the fetch in flight or starts one |
| PriceCache.PriceCache.Finish | packages/swap/src/pricing/index.ts:78-111 | a complete response fills the table and is timed; anything else makes the table stale and throws |
| PriceCache.EveryRunKeepsInv | packages/swap/src/pricing/index.ts:49-112 | over every interleaving: who fetches started the fetch in flight, nobody starts two, and a table that counts as set holds one complete response |
| PriceCache.SingleFlight | packages/swap/src/pricing/index.ts:70-76 | at most one fetch is in flight |
| PriceCache.FetchesAtMostCallers | packages/swap/src/pricing/index.ts:62-111 | n callers cause at most n fetches, even if all fail |
| PriceCache.FreshPricesAreOneResponse | packages/swap/src/pricing/index.ts:58-111 | a price served fresh is that of the latest arrived response, complete and younger than the TTL |
| PriceCache.EnteringDecides | packages/swap/src/pricing/index.ts:58-76 | after any run a caller is served from the table exactly if the last response to arrive was complete and came less than thirty seconds ago, waits exactly if otherwise somebody fetches, and else fetches |
| PriceCache.FailuresAreOnesOwn | packages/swap/src/pricing/index.ts:70-111 | over every run a caller fails only if its own fetch did; one that waited for a failing fetch tries again for the same asset |
| PriceCache.FetcherGetsItsResponse | packages/swap/src/pricing/index.ts:78-111 | the caller that fetched gets its asset's price from the response, or fails, after which nothing is fresh |
| PriceCache.EveryStepMakesProgress | packages/swap/src/pricing/index.ts:62-111 | without new callers every step lowers a well-founded measure |
| PriceCache.NoCallerIsStuck | packages/swap/src/pricing/index.ts:62-111 | as long as a caller has no answer some step is possible |
| LimitOrders.LegsAreLegs | packages/swap/src/quoting/Leg.ts:11-72 | which assets make a leg, with exactly one end Usdc, its base asset the other end, and what the maker sells its destination |
| LimitOrders.LegsFormARoute | packages/swap/src/quoting/Quoter.ts:416-436 | the legs lead from source to destination through Usdc, the second with the intermediate amount, and when none can be made |
| LimitOrders.AskMakers | packages/swap/src/quoting/Quoter.ts:254-288 | the loop computes who is asked, with which formatter, and the requests that go out with the legs each carries |
| LimitOrders.QuotedLegsAreThose | packages/swap/src/quoting/Quoter.ts:258-288 | a request carries exactly the legs whose asset other than Usdc the maker quotes, in order, and goes out if there is any |
| LimitOrders.AskedFormatsAreAsked | packages/swap/src/quoting/Quoter.ts:258-288 | an account is remembered exactly if one of its sockets quotes a leg, with that socket's formatter |
| LimitOrders.AskedOnce | packages/swap/src/quoting/Quoter.ts:254-288 | the number of requests is never below the number of accounts asked and equals it when no two sockets share an account |
| LimitOrders.FittedLevelsAreQuoted | packages/swap/src/quoting/Quoter.ts:44-46 | whatever number of legs a maker sends, levels end up only on legs it quotes |
| LimitOrders.FittedIsSent | packages/swap/src/quoting/Quoter.ts:44-46 | after fitting, the levels at a leg are exactly those in the list the maker sent for that leg |
| LimitOrders.FormatLeg | packages/swap/src/quoting/Quoter.ts:366-410 | the two inner loops yield the orders of one leg |
| LimitOrders.FormatLimitOrders | packages/swap/src/quoting/Quoter.ts:347-414 | the three loops yield all orders, leg by leg, quote by quote, level by level |
| LimitOrders.TolerancePads | packages/swap/src/quoting/Quoter.ts:71-76 | an amount is accepted exactly if it is at most the balance plus its tolerated percentage |
| LimitOrders.OrderOrigins | packages/swap/src/quoting/Quoter.ts:347-414 | an order exists if and only if it comes from an affordable level of a non-beta quote on some leg |
| LimitOrders.OrderIsAsDescribed | packages/swap/src/quoting/Quoter.ts:374-404 | the order of a level, field by field, and the balance condition, both without the functions that compute them |
| LimitOrders.LevelOrdersAppend | packages/swap/src/quoting/Quoter.ts:374-408 | each level adds its order after those before, or none if it is refused |
| LimitOrders.LegOrdersAppend | packages/swap/src/quoting/Quoter.ts:366-410 | each quote adds the orders of its levels for the leg after those before; a beta maker's or a missing leg adds none |
| LimitOrders.LegsConcatenate | packages/swap/src/quoting/Quoter.ts:347-414 | the orders of the first leg come before those of the second |
| LimitOrders.EveryOrderIsJustified | packages/swap/src/quoting/Quoter.ts:239-414 | every order is from a non-beta maker that was asked and quotes the leg's base asset, on the other side, at its tick plus its MEV factor (none for stable pairs), within its padded balance if known |
| LimitOrders.OrdersSellWhatFits | packages/swap/src/quoting/Quoter.ts:374-385 | the orders of a maker on a leg sell exactly the levels that fit its padded balance one by one |
| LimitOrders.NoneIsRefused | packages/swap/src/quoting/Quoter.ts:374-408 | every level becomes an order exactly if each fits |
| LimitOrders.OrdersFitTogetherExactly | packages/swap/src/quoting/Quoter.ts:374-408 | no level is refused and the orders together are within the padded balance if and only if the levels sent add up to no more than it |
| LimitOrders.OrdersStayWithinExactly | packages/swap/src/quoting/Quoter.ts:374-408 | the orders together are within the padded balance if and only if the levels that fit one by one add up to no more than it; one level always is |
| LimitOrders.OrdersTogetherMayExceedBalance | packages/swap/src/quoting/Quoter.ts:374-375 | n levels of a maker's whole balance break the bound whenever n balances exceed the padded one |
| QuotingRound.LatestHoldsTheAnswered | packages/swap/src/quoting/Quoter.ts:327-335 | a maker has an entry exactly if it was asked and answered this round |
| QuotingRound.LatestIsTheLastAnswer | packages/swap/src/quoting/Quoter.ts:332-335 | its entry is the fitted form of its last answer |
| QuotingRound.SettlesAtFirstEnd | packages/swap/src/quoting/Quoter.ts:297-345 | a round is settled exactly when its timer fired or an answer to it made the counts equal, with the latest answers up to the first such moment, for ever after; until then it waits for the asked less the lowered |
| QuotingRound.CleanRoundWaitsForAll | packages/swap/src/quoting/Quoter.ts:290-345 | without stray replies a round settles exactly on its timer or when every asked maker has answered with its id |
| QuotingRound.OpenedRoundSettles | packages/swap/src/quoting/Quoter.ts:239-345 | the same for a round as opened for given sockets; with two sockets of one account it never settles early |
| QuotingRound.PromiseKeptExactlyIfClean | packages/swap/src/quoting/Quoter.ts:290-345 | an open round that asked each maker once ends, whatever clean replies follow, exactly on its timer or when all asked have answered, if and only if no stray reply reached it so far |
| QuotingRound.StrayRepliesSpoil | packages/swap/src/quoting/Quoter.ts:327-340 | after any stray reply there are answers of asked makers that end the round without one of them, or leave it waiting after all of them |
| QuotingRound.InvalidReplyCutsARoundShort | packages/swap/src/quoting/Quoter.ts:327-340 | a history with one invalid reply that settles a round without a maker it asked |
| QuotingRound.InvalidReplyMakesARoundWait | packages/swap/src/quoting/Quoter.ts:328-340 | a history with one invalid reply after which the only maker asked has answered and the round still waits for its timer |
| QuotingRound.SettledQuotesAreAnswers | packages/swap/src/quoting/Quoter.ts:321-340 | the quotes of a settled round are fitted answers that asked makers sent to it |
| QuotingRound.OrdersComeFromAnswers | packages/swap/src/quoting/Quoter.ts:239-414 | every order comes from a level of the list that a non-beta maker sent to this round for the order's leg, having been asked for that leg because it quotes its asset, and is the order that level describes |
| QuotingRound.AnswersBecomeOrders | packages/swap/src/quoting/Quoter.ts:239-414 | conversely every level within the balance that a non-beta maker sent for a leg in its last answer before the round ended becomes the order it describes |
| QuotingRound.Quoter.Announce | packages/swap/src/quoting/Quoter.ts:239-252 | the in-flight entry is made unless no client is connected |
| QuotingRound.Quoter.Ask | packages/swap/src/quoting/Quoter.ts:254-297 | a round is opened for exactly the sockets that quote a leg, or the in-flight entry is dropped |
| QuotingRound.Quoter.Notify | packages/swap/src/quoting/Quoter.ts:302-341 | one event on one round; settling removes the in-flight entry |
| QuotingRound.Quoter.Broadcast | packages/swap/src/quoting/Quoter.ts:230-234 | a message reaches every open round once |
| QuotingRound.Quoter.Respond | packages/swap/src/quoting/Quoter.ts:157-235 | every round moves as its own history says, though parsed answers to unknown requests are dropped; a round is in flight exactly while it is open |
| QuotingRound.Quoter.Expire | packages/swap/src/quoting/Quoter.ts:343 | the timer settles the round and leaves no in-flight entry |
| QuoterRegistry.SumIsProper | packages/swap/src/quoting/Quoter.ts:473-484 | sums of factors are proper fractions and the replenishment fraction is at least one |
| QuoterRegistry.StepKeepsInv | packages/swap/src/quoting/Quoter.ts:124-155 | one registered socket per account, and handlers on exactly the registered sockets |
| QuoterRegistry.RegisteredExactly | packages/swap/src/quoting/Quoter.ts:124-155 | over every run a socket is registered exactly if it came while its account was free and has not gone; a rejected duplicate never unregisters the first |
| QuoterRegistry.LeavingUndoesJoining | packages/swap/src/quoting/Quoter.ts:131-155 | a maker that joins and leaves leaves the registry as it was |
| QuoterRegistry.RegisteredMakersAreAwaited | packages/swap/src/quoting/Quoter.ts:124-345 | over every run of connections, a round that asks the registered makers and hears no stray reply settles exactly on its timer or when all it asked have answered |
| BalanceTracker.BalanceTracker.Add | packages/swap/src/quoting/BalanceTracker.ts:19-23 | an active tracker monitors the account and refreshes, an inactive one does nothing |
| BalanceTracker.BalanceTracker.Remove | packages/swap/src/quoting/BalanceTracker.ts:25-27 | the account is monitored no more |
| BalanceTracker.BalanceTracker.AskForBalances | packages/swap/src/quoting/BalanceTracker.ts:29-32 | a refresh starts if the last success is over ten seconds old and none is under way |
| BalanceTracker.BalanceTracker.Refresh | packages/swap/src/quoting/BalanceTracker.ts:39-48 | with accounts to monitor, a new refresh becomes the newest and is counted |
| BalanceTracker.BalanceTracker.OnAttempt | packages/swap/src/quoting/BalanceTracker.ts:50-63 | a success settles and is timed; a failure tries again with the accounts of that moment, and the fifth settles empty |
| BalanceTracker.EveryRunKeepsInv | packages/swap/src/quoting/BalanceTracker.ts:29-64 | over every run each refresh is under way, within five attempts, or has an outcome, never both |
| BalanceTracker.EndsAreRecorded | packages/swap/src/quoting/BalanceTracker.ts:50-63 | a refresh gives up exactly after five failed attempts, and otherwise yields what one of its attempts got |
| BalanceTracker.RefreshStartsExactly | packages/swap/src/quoting/BalanceTracker.ts:19-48 | after any run asking starts a refresh exactly if the last successful attempt is more than ten seconds ago, none is under way and somebody is monitored; adding an account to an active tracker always does |
| BalanceTracker.AttemptAsksForMonitored | packages/swap/src/quoting/BalanceTracker.ts:50-57 | over every run an attempt asks for the accounts monitored when it began, not when its refresh did |
| BalanceTracker.MonitoredIsAdded | packages/swap/src/quoting/BalanceTracker.ts:19-27 | the accounts monitored are exactly those added to an active tracker and not removed since |
| BalanceTracker.ReturnedBalancesCoverMakers | packages/swap/src/quoting/BalanceTracker.ts:19-64 | however overlapping refreshes settle, what is returned is the newest's outcome: got by one of its attempts and with every maker added and not removed since, or empty after five failed ones |
| QuoterRegistry.Registry.OnConnection | packages/swap/src/quoting/Quoter.ts:124-155 | accepted exactly when the account is free; afterwards registry, monitored accounts and fractions agree with the history |
| QuoterRegistry.Registry.OnDisconnect | packages/swap/src/quoting/Quoter.ts:149-155 | the handler, if attached, unregisters; registry, monitored accounts and fractions still agree |
| QuoterRegistry.Registry.UpdateReplenishmentFactors | packages/swap/src/quoting/Quoter.ts:473-484 | each asset's fraction is the larger of one and the sum over registered sockets |
| QuoterRegistry.SumIsTotal | packages/swap/src/quoting/Quoter.ts:473-484 | the sum kept as a fraction is the real sum of the factors that makers have for the asset; a maker without one counts nothing |
| QuoterRegistry.ReplenishmentIsTotal | packages/swap/src/quoting/Quoter.ts:473-484 | the stored fraction is max(1, that sum) |
| QuoterRegistry.ReplenishmentIsTheMaximum | packages/swap/src/quoting/Quoter.ts:473-484 | the fraction is one of the two and at least both, in the order of fractions |
| QuoterRegistry.ScalingIgnoresRepresentation | packages/swap/src/quoting/QuoteRequest.ts:440-441 | the scaled liquidity does not depend on lowest terms |
| QuoterRegistry.DcaLiquidityIsScaled | packages/swap/src/quoting/QuoteRequest.ts:431-442 | DCA liquidity is the floor of the scaled regular liquidity and never less than it |
| QuoterRegistry.DcaLiquidityIsFloor | packages/swap/src/quoting/QuoteRequest.ts:431-442 | DCA liquidity is the floor of the regular liquidity times max(1, the sum of the registered makers' factors) |
| QuoterRegistry.OtherLiquidity | packages/swap/src/quoting/QuoteRequest.ts:431-442 | a regular swap counts on the liquidity as it is; from Usdc to Usdc there is none |
| QuoterRegistry.EagerLiquidityExists | packages/swap/src/quoting/QuoteRequest.ts:444-465 | true exactly if on no leg the liquidity is at most the amount needed |
| QuoterRegistry.RegularCoverImpliesDcaCover | packages/swap/src/quoting/QuoteRequest.ts:444-465 | amounts that regular liquidity covers on every leg DCA liquidity covers too |
| QuoterRegistry.JoiningRaisesReplenishment | packages/swap/src/quoting/Quoter.ts:473-484 | a maker that joins lowers neither the sum nor the fraction stored |
| PriceConversion.RoundDivIsNear | packages/shared/src/functions.ts:45-63 | the rounded quotient is within one half of the exact one, with halves away from zero |
| PriceConversion.X128IsNearest | packages/shared/src/functions.ts:45-53 | the X128 value is the integer nearest to the price times 2^128 times ten to the difference of the decimals, halves away from zero |
| PriceConversion.PriceIsNearest | packages/shared/src/functions.ts:55-63 | the price is, at twenty places before the shift by the decimals, the nearest to the X128 value over 2^128 |
| PriceConversion.PowerOfTwo | packages/shared/src/functions.ts:45-63 | the scale is 2 to the power 128 |
| PriceConversion.PriceSurvivesRoundTrip | packages/shared/src/functions.ts:45-63 | price(X128(price(X))) is price(X) for every X and every pair of decimals |
| PriceConversion.ExactExactlyAtTwentyPlaces | packages/shared/src/functions.ts:45-63 | a price comes back as the same number if and only if, in smallest units, it is a multiple of 10^-20 |
| PriceConversion.ErrorIsBounded | packages/shared/src/functions.ts:45-63 | for every price the round trip errs by at most half of 2^-128 + 10^-20, in smallest units |
| PriceConversion.X128IsMonotone | packages/shared/src/functions.ts:45-53 | a larger price never gives a smaller X128 value |
| PriceConversion.PriceIsMonotone | packages/shared/src/functions.ts:55-63 | a larger X128 value never gives a smaller price |
| BoostFee.TakeFromPools | packages/swap/src/utils/boost.ts:43-63 | the loop with its early exit leaves what the pools cannot cover and adds up the rounded fees of the fill |
| BoostFee.GetBoostFeeBpsForAmount | packages/swap/src/utils/boost.ts:21-75 | when there is an estimate, that the parts used add up to the amount, and that it lies between 5 and max(5, maximum) |
| BoostFee.FillReaches | packages/swap/src/utils/boost.ts:43-63 | the fill takes the smaller of the amount and what the pools hold, within each pool's amount |
| BoostFee.MaxTierBounds | packages/swap/src/utils/boost.ts:37-41 | the maximum is no less than any pool's rate |
| BoostFee.MaxTierIsAttained | packages/swap/src/utils/boost.ts:37-41 | the maximum is 0 or some pool's rate |
| BoostFee.RoundingLosesLessThanOnePerPool | packages/swap/src/utils/boost.ts:56-59 | the rounded fee is below the unrounded one by less than one unit for each pool |
| BoostFee.FeeIsWeighted | packages/swap/src/utils/boost.ts:43-75 | the fee is the tiers of the boost pools, and 5 bps for supply pools, weighted with the parts taken, less than one unit a pool below the exact amount |
| BoostFee.FeeIsWithinMaximum | packages/swap/src/utils/boost.ts:68-74 | no feasible fill's rate exceeds the maximum |
| BoostFee.CheapestExactlyWhenAscending | packages/swap/src/utils/boost.ts:43-63 | no feasible fill has a lower unrounded fee, for any amount, if and only if the non-empty pools ascend in rate |
| BoostFee.ConsideredPoolsAscend | packages/swap/src/utils/rpc.ts:155-159 | with boost pools sorted by tier, when the whole list ascends |
| SwapRollup.KeyIsInjective | packages/swap/src/routes/v2/utils.ts:597 | different pairs of type and asset never share an aggregate |
| SwapRollup.FeeAggregates.RollupFees | packages/swap/src/routes/v2/utils.ts:595-609 | the loop adds each fee to the aggregate of its type and asset |
| SwapRollup.AggregatesAreSums | packages/swap/src/routes/v2/utils.ts:595-609 | every aggregate is the sum of the fees of its type and asset, and exists exactly if there is such a fee |
| SwapRollup.FeeSumIgnoresOrder | packages/swap/src/routes/v2/utils.ts:595-609 | the sums do not depend on the order of the fees |
| SwapRollup.RolledSwaps.Reduce | packages/swap/src/routes/v2/swap.ts:102-117 | one swap joins the executed or the waiting ones; sums, counts and the chunks kept follow |
| SwapRollup.RollSwaps | packages/swap/src/routes/v2/swap.ts:96-117 | after the reduction the accumulator describes the executed and waiting swaps that are not gas swaps |
| SwapRollup.TotalsAreOfTheirColumns | packages/swap/src/routes/v2/swap.ts:102-117 | the totals are of input, intermediate and output, an absent amount counting nothing |
| SwapRollup.AggregateFees | packages/swap/src/routes/v2/swap.ts:122-124 | the request's fees join those of its executed swaps |
| SwapRollup.ResponseAccountsForAllFees | packages/swap/src/routes/v2/swap.ts:96-124 | each aggregate is the request's fees plus those of all executed non-gas swaps, in any order |
| SwapRollup.ChunksAndInputAreConserved | packages/swap/src/routes/v2/swap.ts:96-117 | executed and waiting chunks make up the non-gas swaps, and so do their inputs |
| SwapRollup.ShownChunkIsEarliest | packages/swap/src/routes/v2/swap.ts:201-210 | the chunk shown for a DCA swap waits if any does, has exactly one waiting chunk after it if several wait, and is the earliest exactly when at most two wait |
| SwapRollup.OtherChunksShown | packages/swap/src/routes/v2/swap.ts:201-222 | the chunk last executed is the latest executed; a regular swap shows the latest waiting one, or else that |
| SwapRollup.ThirdChunkHidesTheFirst | packages/swap/src/routes/v2/swap.ts:201-210 | three waiting chunks of which the second is shown |
| CaseConversion.CamelRoundTrip | packages/shared/src/strings.ts:9-13 | to snake case and back is the identity exactly on strings with no underscore before a lower-case letter |
| CaseConversion.SnakeHasNoCapitals | packages/shared/src/strings.ts:9-13 | snake case has no capital letter left |
| CaseConversion.CapitalsAreThese | packages/shared/src/strings.ts:9-41 | the characters that lower-casing changes are the twenty-six capitals |
| CaseConversion.SmallsAreThese | packages/shared/src/strings.ts:9-41 | the characters that upper-casing changes are the twenty-six small letters |
| CaseConversion.AlphabetIsPaired | packages/shared/src/strings.ts:9-41 | capital and small letters are paired in alphabetical order |
| CaseConversion.ScanIsConversion | packages/shared/src/strings.ts:22-26 | splitting, capitalising and joining is one left-to-right scan |
| CaseConversion.ConvertsInParts | packages/shared/src/strings.ts:38-41 | a string may be converted to SCREAMING_SNAKE_CASE in two parts, with an underscore between them exactly before a capital that does not follow a line end |
| CaseConversion.PascalRoundTrip | packages/shared/src/strings.ts:22-41 | an alphanumeric name comes back from SCREAMING_SNAKE_CASE exactly when it is not empty and does not begin in lower case |
| CaseConversion.ScreamingShape | packages/shared/src/strings.ts:38-41 | converting an alphanumeric name gives non-empty words, no lower case, and letters at the start of later words |
| CaseConversion.ScreamingRoundTrip | packages/shared/src/strings.ts:22-41 | a string of letters, digits and underscores comes back from PascalCase exactly when it has that shape |

## Left out

- Postgres, Prisma, Redis, HTTP, Socket.IO, logging, queues and environment parsing: replaced by parameters and abstract state.
- Event handlers other than chain tracking, and their schemas: one uninterpreted partial function.
- The two forms of the block query are taken to return the same rows.
- ChainTracking.ConfirmationsLagOneBlock: rows older than the column `eventWitnessedBlock` hold 0 in it, which the model admits when processing resumes from height 0 or later; `ConfirmationHeight` leaves out the `?? 0` for a column that is never empty.
- ProcessBlocks.ProcessBlocks: a batch is given by the state of the hot database when its query ran; the overlap in time of a prefetch with the processing of the batch before it, and the sleep after an empty batch, are not timed.
- Number conversions: fractions, fees, ticks and prices are exact integers or rationals, so the loss of precision in `toNumber()`, in MEV factors and in Prisma's decimals is not modelled.
- The estimate of the intermediate amount of a route through Usdc, computed with a floating-point price: it is a parameter of the legs.
- BoostFee.GetBoostFeeBpsForAmount: the estimate is the exact floor; the quotient of BigNumber, rounded at 20 places and turned into a Number before truncation, could differ when it is just below an integer. What a supply pool can effectively lend is taken as given.
- MultiCache and AsyncCacheMap.load in packages/shared/src/dataStructures.ts: small wrappers around the maps that are modelled.
- The branch of `memoize` for the test environment.
- BalanceTracker.ReturnedBalancesCoverMakers: says what is returned, not that the wait for it ends; while refreshes keep overlapping the loop may go on.
- The order construction takes arbitrary balances, not only those the tracker returns.
- QuotingRound.Quoter.Ask: if the lookup of the sockets fails, the in-flight entry stays; the model only has the lookup succeed. Metrics about responders and timeouts are omitted, and the order in which a round lists its quotes is left open.
- getPipAmountFromAmount is modelled where the boost fee uses it; parseFoKParams and the DCA parameters of a quote are plain branching over their inputs.
- The rate limiter for unknown routes is a near copy of the one modelled.
- The swap's status over time depends on what the chain emits.
- CaseConversion.PascalRoundTrip: letters are ASCII; Unicode case mapping in `toUpperCase` and `toLowerCase` is not modelled.
- PriceConversion.ErrorIsBounded: inputs are numbers; NaN and infinities, which BigNumber also accepts, are not modelled.
