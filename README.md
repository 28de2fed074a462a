# Bitcoin mnemonic analyzer: the bookkeeping core

This project is a Dafny model of the sequential core of a Node.js tool. The tool derives candidate Bitcoin addresses from a seed, looks up their balances through a TTL cache, scores them, and runs a bounded private-key search. The cryptography, the HTTP and SQLite back-ends, TensorFlow and the worker threads are treated as opaque. What remains is modelled and proved:

- the range partitions of the outer batch loops and of the inner chunking;
- the worker pool's slot/queue state machine, as written and with the free-slot check moved first;
- the address cache with its read TTL, lazy delete and daily sweep;
- the cache-first balance lookup with write-back;
- the error tracker's message normalisation, pattern counting and pruning;
- the key-search control flow and the brute-force candidate encoding;
- the derivation index/path bookkeeping;
- the mnemonic format normaliser;
- the bounded pattern store;
- the scoring fallback and the feature vector;
- command alias resolution and per-command timings;
- the summary statistics.

One module corresponds to one source file. The helper modules are:
- `Common`: Option/Result, ranges and concatenation.
- `Text`: `split`/`join`, decimal printing and parsing, hex.
- `Batching`: the `Math.ceil`/`Math.min` piece arithmetic and the loop outcome.
- `Histogram`: UTF-8 bytes and bucket counts.
- `StableSort`: `Array.prototype.sort` with a numeric comparator.
- `Crypto`: a record of opaque library functions.
- `Config`: constants.

Parameters stand in for the environment:
- the clock (`now`);
- a failing store (`storeUp`);
- the balance API (`Api`);
- the worker's reply and a Worker that cannot be spawned (`spawnError`);
- the network's prediction (`predict`), `Math.log1p` and `performance.now()` (`elapsed`);
- whether the shutdown `cleanup()` resolves (`cleanupOk`).

Objects whose fields the source updates are classes:
- `WorkerPool.Pool` holds the slots in an `array` and the task queue in a `seq`.
- `SqliteCache.Cache` holds the table.
- `ErrorTracker.Tracker` holds the two Maps and an insertion order.
- `PatternLearner.PatternStore` holds the patterns.
- `MnemonicAnalyzer.Analyzer` holds the timing map.

Each method is tied by its `ensures` to a function of the old state, and the properties are proved about those functions.

Several identifiers in the shipped modules are undefined or miswired. Each affected value is a parameter of the main model, and separate members prove what the code as shipped does (see "## Findings"). In one further case the code's behaviour contradicts its own comment. `normalizeErrorMessage` replaces digit runs before it looks for hex literals (src/utils/errorTracker.js:52-53), so the hex rule can never fire and "0x1F" becomes "NxNF". The model keeps the code's order, proved by `ErrorTracker.NormalizedHasNoDigits` and `ErrorTracker.HexLiteralExample`. `ErrorTracker.HexFirstExample` shows what the commented intent gives.

## Model

| member | source | states |
|---|---|---|
| WorkerPool.OutcomeOf | src/utils/workers/workerPool.js:41-46 | a reply rejects iff it carries a non-empty `error`, with that message; otherwise it resolves with the reply |
| WorkerPool.FirstFree | src/utils/workers/workerPool.js:30 | the lowest-indexed non-busy slot, every earlier slot busy; None iff every slot is busy |
| WorkerPool.Pool.constructor | src/utils/workers/workerPool.js:6-19 | WORKER_COUNT (4) free slots with no worker, an empty queue, no task submitted |
| WorkerPool.Pool.ProcessNextTask | src/utils/workers/workerPool.js:29-60 | the new state is the as-written dispatch of the old one: head shifted off before the free-slot test, started in the lowest free slot, or rejected and redispatched when its Worker cannot be created; queue left empty, slot array unchanged |
| WorkerPool.Pool.RunTask | src/utils/workers/workerPool.js:21-27 | the task gets the next id, is pushed and dispatched; the queue is empty between public calls |
| WorkerPool.Pool.Complete | src/utils/workers/workerPool.js:41-69 | the task of slot k settles with the reply's outcome and exactly that slot is freed |
| WorkerPool.Pool.Fail | src/utils/workers/workerPool.js:50-69 | the task of slot k is rejected with the worker's error and exactly that slot is freed |
| WorkerPool.Pool.Terminate | src/utils/workers/workerPool.js:71-78 | the slot list becomes empty and every running task is marked lost; settled outcomes stay |
| WorkerPool.DispatchKeeps | src/utils/workers/workerPool.js:29-60 | a dispatch with at most one waiting task keeps the invariant (each task in exactly one place), empties the queue and keeps the slot count and the next id |
| WorkerPool.RunTaskOutcome | src/utils/workers/workerPool.js:21-58 | a new task is lost when all slots are busy, starts in the lowest free slot otherwise, or is rejected if its Worker fails; nothing else changes |
| WorkerPool.FinishKeeps | src/utils/workers/workerPool.js:41-69 | the task in a busy slot had not settled, and settling it keeps the invariant: each promise settles at most once |
| WorkerPool.TerminateKeeps | src/utils/workers/workerPool.js:71-78 | termination keeps the invariant |
| WorkerPool.LostForever | src/utils/workers/workerPool.js:31-33 | a lost task stays lost and unsettled through any later submit, dispatch, reply or termination |
| WorkerPool.TerminatedLoses | src/utils/workers/workerPool.js:30-78 | after `terminate` every submitted task is lost |
| WorkerPool.SubmitStep | src/utils/workers/workerPool.js:21-33 | one more back-to-back submission to a fresh pool starts in slot i while i < 4 and is lost afterwards |
| WorkerPool.SaturatedLoses | src/utils/workers/workerPool.js:30-33 | after n back-to-back submissions, tasks 0..3 run in their own slot and every later one is lost |
| WorkerPool.SubmitNext | src/utils/workers/workerPool.js:21-27 | one submission on a Pool object moves it to the next saturated state |
| WorkerPool.SubmitAll | src/utils/workers/workerPool.js:21-33 | n submissions to a fresh Pool without completions reach exactly the saturated state |
| WorkerPool.CheckedDispatchKeeps | src/utils/workers/workerPool.js:29-33 | a dispatch that tests for a free slot first keeps the invariant, loses nothing and changes no settled outcome |
| WorkerPool.CheckedRunOutcome | src/utils/workers/workerPool.js:21-33 | on the corrected pool a new task waits at the back of the queue when every slot is busy, starts in the lowest free slot otherwise, or is rejected |
| WorkerPool.CheckedFinishOutcome | src/utils/workers/workerPool.js:41-69 | a reply or worker error settles its task with that outcome, and the freed slot takes the oldest waiting task |
| WorkerPool.CheckedPool.constructor | src/utils/workers/workerPool.js:6-19 | four free slots, empty queue |
| WorkerPool.CheckedPool.ProcessNextTask | src/utils/workers/workerPool.js:29-60 | the corrected dispatch: the head is shifted off only when a slot is free, otherwise it keeps waiting |
| WorkerPool.CheckedPool.RunTask | src/utils/workers/workerPool.js:21-27 | the task gets the next id, is pushed, and the corrected dispatch runs; it waits instead of being lost |
| WorkerPool.CheckedPool.Complete | src/utils/workers/workerPool.js:41-69 | settle, free the slot, dispatch the next waiting task |
| WorkerPool.CheckedPool.Fail | src/utils/workers/workerPool.js:50-69 | reject, free the slot, dispatch the next waiting task |
| WorkerPool.CheckedSubmitStep | src/utils/workers/workerPool.js:21-33 | on the corrected pool the (i+1)-th back-to-back task starts while a slot is free and otherwise joins the backlog |
| WorkerPool.BackloggedWaits | src/utils/workers/workerPool.js:21-33 | after n submissions to the corrected pool, tasks 0..3 run, the rest wait in order, and none is lost |
| WorkerPool.SubmitNextChecked | src/utils/workers/workerPool.js:21-27 | one submission on a CheckedPool object moves it to the next backlogged state |
| WorkerPool.SubmitAllChecked | src/utils/workers/workerPool.js:21-33 | n submissions to a fresh CheckedPool reach exactly the backlogged state |
| Batching.CeilDiv | src/core/addressAnalyzer.js:18 | `Math.ceil(a / b)` is the q with (q-1)·b < a ≤ q·b |
| Batching.PiecesCover | src/core/addressAnalyzer.js:18-28 | the pieces of an exact split name exactly `[start, start + total)`, in order |
| Batching.PiecesShape | src/core/addressAnalyzer.js:21-23 | the pieces are contiguous and ascending, each has 1..size elements, and all but the last are full |
| Batching.RoundsExact | src/core/addressAnalyzer.js:18-21 | a positive size gives a finite loop: no rounds for a non-positive count, an exact split otherwise |
| Batching.ZeroSizeUnbounded | src/core/addressAnalyzer.js:18-21 | a zero size with work to do makes `batches` Infinity: the loop never ends |
| Batching.OutcomeOk | src/core/addressAnalyzer.js:27-28 | the loop succeeds iff every piece does, and returns their results concatenated in piece order |
| Batching.OutcomeErr | src/core/addressAnalyzer.js:27-40 | a failed loop rethrows the first failing piece's error, and the accumulated results are discarded |
| Batching.OutcomeErrSticky | src/core/addressAnalyzer.js:37-40 | once a piece has thrown, later pieces change nothing |
| AddressAnalyzer.AnalyzeRange | src/core/addressAnalyzer.js:13-41 | the result is the piecewise outcome of the batch analysis over the loop's pieces |
| AddressAnalyzer.RangeCover | src/core/addressAnalyzer.js:18-28 | the batches cover `[start, start + count)` in order, all full but a non-empty last one; the run succeeds iff each batch does, returning their concatenation |
| AddressAnalyzer.EmptyRange | src/core/addressAnalyzer.js:18-36 | a non-positive count runs no batch and returns [] |
| AddressAnalyzer.AnalyzeBatch | src/core/addressAnalyzer.js:43-60 | derive, enrich, then attach keys only when asked; a throw in derive or enrich is rethrown |
| AddressAnalyzer.AttachKeys | src/core/addressAnalyzer.js:49-52 | each record is paired with the key search result for its own address |
| AddressAnalyzer.WithKeys | src/core/addressAnalyzer.js:48-55 | same length, element i extends record i; with deriveKeys false no key is attached |
| AddressAnalyzer.BatchKeysVerify | src/core/addressAnalyzer.js:48-52 | every key attached by a batch controls its own record's address |
| AddressAnalyzer.ZeroSeed | src/utils/crypto/addressDeriver.js:46-52 | the seed the analyzer uses is 64 bytes |
| AddressAnalyzer.IsZeroSeed | src/utils/crypto/addressDeriver.js:46-52 | it is the all-zero 64-byte buffer |
| AddressAnalyzer.HdKeyAt | src/core/addressAnalyzer.js:75-77 | the structured result keeps its path and is tagged hd-wallet |
| AddressAnalyzer.StructuredSearch | src/core/addressAnalyzer.js:72-81 | the for-loop over indices 0..999 computes the structured search |
| AddressAnalyzer.StructuredFindsFirst | src/core/addressAnalyzer.js:73-78 | the first verified index is returned, tagged hd-wallet |
| AddressAnalyzer.StructuredSound | src/core/addressAnalyzer.js:73-80 | any returned key comes from a verified index in 0..999 with no earlier verified index |
| AddressAnalyzer.StructuredThrowAborts | src/core/addressAnalyzer.js:75 | a derivation that throws before any hit ends the search with that error |
| AddressAnalyzer.DeriveKeyForAddress | src/core/addressAnalyzer.js:62-95 | the method returns the key-search function at the zero seed |
| AddressAnalyzer.KnownPathNoSearch | src/core/addressAnalyzer.js:66-68 | with a known path the result is the key at that path, with no search, and null iff that derivation throws |
| AddressAnalyzer.KeySearchAborts | src/core/addressAnalyzer.js:85-94 | a throw in the first strategy makes the whole result null |
| AddressAnalyzer.BruteWindowSafe | src/core/addressAnalyzer.js:82 | the brute-force window [1, 1000000] never throws the range error |
| AddressAnalyzer.BruteForceOnlyAfterStructured | src/core/addressAnalyzer.js:82-88 | a brute-force result means the structured search returned null, and the result is the first hit in [1, 1000000] |
| AddressAnalyzer.SearchResultVerifies | src/core/addressAnalyzer.js:72-88 | every key the search returns controls the address asked for |
| AddressAnalyzer.ShippedRangeThrows | src/core/addressAnalyzer.js:10-46 | as shipped, analyzeRange with a positive count and batch size always throws |
| AddressAnalyzer.CachedEnrichShape | src/utils/balanceChecker.js:41-49 | with a cache, a successful batch keeps one record per address, each for its own address |
| AnalyzerCore.RunBatchAnalysis | src/core/analyzerCore.js:31-50 | the loop computes the piecewise outcome over batches of 100 |
| AnalyzerCore.RunCover | src/core/analyzerCore.js:33-43 | the batches of 100 cover `[start, start + count)` ascending, with a shorter non-empty last one; the run succeeds iff all do |
| AnalyzerCore.RunEmpty | src/core/analyzerCore.js:34-45 | a non-positive count calls no batch and returns [] |
| AnalyzerCore.ShippedRunThrows | src/core/analyzerCore.js:41-48 | as shipped, any positive count throws the TypeError of the missing `analyzeBatch` |
| AnalyzerCore.CalculateStats | src/core/analyzerCore.js:52-59 | totalAddresses is the length, at least activeAddresses; averageConfidence times the length is the confidence sum, and it is undefined (None) exactly for [] |
| AnalyzerCore.Active | src/core/analyzerCore.js:56 | the active count is at most the length |
| AnalyzerCore.ActivePositions | src/core/analyzerCore.js:56 | activeAddresses is the number of positions with a positive balance |
| AnalyzerCore.StatsAppend | src/core/analyzerCore.js:54-57 | totals, balances, active counts and confidence sums add up over a split of the list |
| AnalyzerCore.FallbackStats | src/ai/patternAnalyzer.js:52-55 | after the scoring fallback the confidences sum to 0 and a non-empty list averages 0 |
| AnalyzerCore.AnalyzeMnemonic | src/core/analyzerCore.js:15-29 | derive, enrich, score: throws are rethrown unchanged, and the stats are computed over the returned list |
| AnalyzerCore.ReportConsistent | src/core/analyzerCore.js:21-24 | the stats count and sum exactly the enriched records returned beside them |
| AnalyzerCore.Wrapped | src/services/addressManager.js:11-20 | the manager resolves with the worker's reply object `{ addresses }` holding the derived list, and rethrows a failure |
| AnalyzerCore.ShippedMnemonicThrows | src/core/analyzerCore.js:15-29 | as shipped, no call returns a report: a successful derivation hands the reply object to `checkBalancesBatch`, whose `addresses.map` throws, and a failed one is rethrown |
| AnalyzerCore.UnwrappedReports | src/core/analyzerCore.js:15-24 | with the reply unwrapped to its `addresses`, a derivation and an enrichment that both succeed give a report that counts and sums exactly the enriched records |
| MnemonicAnalyzer.ChunkCount | src/services/mnemonicAnalyzer.js:243 | `ceil(b/10)` chunks for b > 0, none for b ≤ 0 |
| MnemonicAnalyzer.ChunkPlan | src/services/mnemonicAnalyzer.js:243-249 | the chunk size is between 1 and 10 and splits b exactly |
| MnemonicAnalyzer.ChunkArithmetic | src/services/mnemonicAnalyzer.js:243-244 | the integer facts behind the plan |
| MnemonicAnalyzer.ChunksCover | src/services/mnemonicAnalyzer.js:243-249 | the chunks are contiguous, ascending, between 1 and 10 in size, and cover `[start, start + b)`; there are `ceil(b/10)` of them |
| MnemonicAnalyzer.DefaultBatchChunks | src/services/mnemonicAnalyzer.js:243-244 | the default batch of 100 gives ten chunks of ten, more than the 4 workers |
| MnemonicAnalyzer.DeriveAddresses | src/services/mnemonicAnalyzer.js:242-265 | the chunk outcome in submission order, or 'Failed to derive addresses' on any failure |
| MnemonicAnalyzer.DeriveAllOrNothing | src/services/mnemonicAnalyzer.js:259-264 | success iff every chunk succeeds, and then the chunk results are concatenated in chunk order |
| MnemonicAnalyzer.DefaultBatchOnPool | src/services/mnemonicAnalyzer.js:243-256 | on the shipped pool, the default batch's first four chunks run and the other six are lost, so `Promise.all` never resolves |
| MnemonicAnalyzer.AddressesOf | src/services/mnemonicAnalyzer.js:270 | the addresses in order |
| MnemonicAnalyzer.Merge | src/services/mnemonicAnalyzer.js:273-276 | one element per address: element i is addresses[i] overlaid by balances[i] when there is one |
| MnemonicAnalyzer.EnrichAddressData | src/services/mnemonicAnalyzer.js:267-281 | the merge of the batch results, or 'Failed to enrich address data'; the cache changes as the batch check changes it |
| MnemonicAnalyzer.EnrichedMatches | src/services/mnemonicAnalyzer.js:273-276 | on a well-keyed cache a successful enrichment gives every element a balance for its own address |
| MnemonicAnalyzer.Scores | src/services/mnemonicAnalyzer.js:287-301 | one scored object per result, in input order |
| MnemonicAnalyzer.ApplyAIOptimizations | src/services/mnemonicAnalyzer.js:283-308 | the loop and sort compute the ranking, or the input unchanged on a failure |
| MnemonicAnalyzer.OptimizeRanks | src/services/mnemonicAnalyzer.js:296-303 | on success: sorted non-increasing by confidence, a permutation of the scored items, stable per confidence, promising iff similarity > threshold |
| MnemonicAnalyzer.OptimizeFallback | src/services/mnemonicAnalyzer.js:304-307 | any failure returns the input list unchanged |
| MnemonicAnalyzer.ShippedNeverRanks | src/services/mnemonicAnalyzer.js:288-299 | as shipped, a non-empty list is never ranked |
| MnemonicAnalyzer.MentionsSome | src/services/mnemonicAnalyzer.js:183 | `aliases.some(alias => words.includes(alias))` holds iff some alias is among the words |
| MnemonicAnalyzer.FirstMatch | src/services/mnemonicAnalyzer.js:182-187 | the first table entry with an alias among the words, no earlier entry matching; None iff no entry matches |
| MnemonicAnalyzer.FirstMatchIs | src/services/mnemonicAnalyzer.js:182-187 | the first mentioned entry is the one picked |
| MnemonicAnalyzer.TargetsUnaliased | src/services/mnemonicAnalyzer.js:173-179 | no table target mentions an alias itself, so the recursion is at most one level deep |
| MnemonicAnalyzer.ShowIsNotSure | src/services/mnemonicAnalyzer.js:49-82 | 'show' is not a switch case, so it ends in the "not sure" message, timed once, whether or not `cleanup()` would resolve |
| MnemonicAnalyzer.ShowAliasesNotSure | src/services/mnemonicAnalyzer.js:172-190 | every input resolved to 'show' prints "not sure", timing 'show' then the input |
| MnemonicAnalyzer.AliasReachesCase | src/services/mnemonicAnalyzer.js:172-190 | an input resolved to any other target performs that case and times the target, then the input; an exit alias records no timing when `cleanup()` resolves, and when it rejects the action is the failed exit, timing 'exit' then the input |
| MnemonicAnalyzer.TimingShape | src/services/mnemonicAnalyzer.js:49-82 | the process ends untimed only when 'exit' is reached and `cleanup()` resolves; a rejected cleanup times 'exit' first; every command that does not end the process is timed last under its own name, after at most one inner command |
| MnemonicAnalyzer.Updated | src/services/mnemonicAnalyzer.js:192-207 | a new command enters with count 1; otherwise count +1, totalTime + duration; then min ≤ duration ≤ max, and min/max only widen |
| MnemonicAnalyzer.UpdatedConsistent | src/services/mnemonicAnalyzer.js:192-207 | recording keeps an entry consistent (count ≥ 1, min ≤ max, count·min ≤ total ≤ count·max) |
| MnemonicAnalyzer.TimedFrame | src/services/mnemonicAnalyzer.js:192-207 | recording touches only the recorded commands and keeps a consistent table consistent |
| MnemonicAnalyzer.Analyzer.constructor | src/services/mnemonicAnalyzer.js:27 | the timing table starts empty |
| MnemonicAnalyzer.Analyzer.UpdatePerformanceMetrics | src/services/mnemonicAnalyzer.js:192-207 | only the given command's entry changes |
| MnemonicAnalyzer.Analyzer.ProcessCommand | src/services/mnemonicAnalyzer.js:49-82 | the action of the dispatch (a failed exit when `cleanup()` rejects), with the timings of its `finally` blocks applied in order, 'exit' included when its cleanup rejects |
| MnemonicAnalyzer.Analyzer.HandleNaturalLanguage | src/services/mnemonicAnalyzer.js:172-190 | the first matching entry's target goes through a nested `processCommand`, with that call's action and timing ('exit' is timed only when `cleanup()` rejects); no match gives "not sure" and no timing |
| StableSort.SortSorted | src/services/mnemonicAnalyzer.js:303 | the sort's result is in non-increasing key order |
| StableSort.SortPerm | src/services/mnemonicAnalyzer.js:303 | the sort's result is a permutation of its input |
| StableSort.SortStable | src/services/mnemonicAnalyzer.js:303 | elements with equal keys keep their input order |
| SqliteCache.Lookup | src/utils/cache/sqliteCache.js:27-40 | a hit iff the row exists and `now - timestamp ≤ 3600000` (an age of exactly 3600000 still hits), returning the stored data |
| SqliteCache.AfterGet | src/utils/cache/sqliteCache.js:32-38 | a read removes only the requested row, and only when it is stale |
| SqliteCache.Cache.constructor | src/utils/cache/sqliteCache.js:6-25 | `CREATE TABLE IF NOT EXISTS` keeps the rows already stored |
| SqliteCache.Cache.Get | src/utils/cache/sqliteCache.js:27-45 | returns the lookup and lazily deletes a stale row; a failing store returns null and changes nothing |
| SqliteCache.Cache.Set | src/utils/cache/sqliteCache.js:47-57 | upserts data and timestamp for that key only; a failure is a no-op |
| SqliteCache.Cache.Delete | src/utils/cache/sqliteCache.js:59-66 | removes only that key; a failure is a no-op |
| SqliteCache.Cache.Clear | src/utils/cache/sqliteCache.js:68-74 | removes every row; a failure is a no-op |
| SqliteCache.SetThenGet | src/utils/cache/sqliteCache.js:27-57 | set at t then get at t' returns the data iff t' - t ≤ 3600000 |
| SqliteCache.SetKeepsOthers | src/utils/cache/sqliteCache.js:49-53 | writing one address does not change what any other address reads |
| SqliteCache.GetIdempotent | src/utils/cache/sqliteCache.js:27-40 | a second read at the same time returns the same result and deletes nothing more |
| SqliteCache.SetThenGetOnCache | src/utils/cache/sqliteCache.js:27-57 | on a Cache object, set then get within the TTL returns the data |
| CacheManager.Cleanup | src/services/cacheManager.js:5-15 | one bulk DELETE of the rows with `timestamp < now - 86400000`; a failure leaves the table unchanged |
| CacheManager.SweptExactly | src/services/cacheManager.js:8-11 | exactly the rows with timestamp ≥ now - one day survive, the boundary included, unchanged |
| CacheManager.SweptFresh | src/services/cacheManager.js:8-11 | after the sweep no row is older than one day |
| CacheManager.SweptIdempotent | src/services/cacheManager.js:8-11 | sweeping twice at the same time is sweeping once |
| CacheManager.SweepKeepsFresh | src/services/cacheManager.js:8-11 | a row the read path still serves is never swept |
| BalanceChecker.FromResponse | src/utils/balanceChecker.js:20-30 | a failed request rethrows; a response without the address throws; otherwise the record maps final_balance, total_received, total_sent, n_tx and keeps the address |
| BalanceChecker.All | src/utils/balanceChecker.js:43-44 | `Promise.all`: all values in input order iff every result succeeds, else an error of a failing one |
| BalanceChecker.Checker.constructor | src/utils/balanceChecker.js:7-10 | the checker keeps the cache it was given |
| BalanceChecker.Checker.CheckBalance | src/utils/balanceChecker.js:12-39 | a cache hit is returned with no request and no write; a miss requests, writes back only a successful record, and returns it |
| BalanceChecker.Checker.CheckBalancesBatch | src/utils/balanceChecker.js:41-49 | all reads first, then the requests of the misses in input order; the result is `Promise.all` over the per-address results |
| BalanceChecker.Checker.ReadAll | src/utils/balanceChecker.js:15-43 | one cache read per address, against the table as the batch found it |
| BalanceChecker.Checker.RequestMisses | src/utils/balanceChecker.js:16-34 | hits are answered from the reads, misses requested in order and written back |
| BalanceChecker.AfterGetsLookup | src/utils/balanceChecker.js:15 | earlier reads of a batch do not change what a later read returns |
| BalanceChecker.ResultAddress | src/utils/balanceChecker.js:25 | on a well-keyed table every successful result is the record of its own address |
| BalanceChecker.WriteBackOnlyOnSuccess | src/utils/balanceChecker.js:33-38 | a failed miss writes nothing; a successful one writes its record under the address |
| BalanceChecker.WriteBacksWellKeyed | src/utils/balanceChecker.js:33 | a batch keeps every cached record under its own address |
| BalanceChecker.BatchShape | src/utils/balanceChecker.js:41-49 | a batch succeeds iff every address does, and holds one record per input, each for its own address |
| BalanceChecker.DuplicateMissesTwice | src/utils/balanceChecker.js:15-43 | a missing address listed twice in one batch is requested twice |
| BalanceChecker.HitNotRequested | src/utils/balanceChecker.js:15-18 | a cache hit is never requested |
| BalanceChecker.MissesAreMisses | src/utils/balanceChecker.js:15-20 | every requested address is an input that missed |
| ErrorTracker.ReplaceDigits | src/utils/errorTracker.js:52 | the digit rule leaves no digit |
| ErrorTracker.DropDigits | src/utils/errorTracker.js:52 | strips exactly a maximal leading digit run |
| ErrorTracker.DigitFreeUnchanged | src/utils/errorTracker.js:52 | a message without digits is untouched by the digit rule |
| ErrorTracker.RunInside | src/utils/errorTracker.js:52 | a maximal digit run becomes one N in place |
| ErrorTracker.DigitRunIrrelevant | src/utils/errorTracker.js:52 | messages differing only in the value of one maximal digit run give the same digit-rule output |
| ErrorTracker.DigitRunNormalizes | src/utils/errorTracker.js:50-55 | and the same normalised message |
| ErrorTracker.HexRuleInert | src/utils/errorTracker.js:53 | on a digit-free string the hex rule changes nothing |
| ErrorTracker.StringRuleNoDigits | src/utils/errorTracker.js:54 | the string rule adds no digit |
| ErrorTracker.NoQuoteUnchanged | src/utils/errorTracker.js:54 | without quotes the string rule changes nothing |
| ErrorTracker.QuotedEnd | src/utils/errorTracker.js:54 | an escape-aware quoted span ends inside the input on its own quote character |
| ErrorTracker.QuotedEndOver | src/utils/errorTracker.js:54 | scanning a literal body (no unescaped quote, no line terminator, each backslash escaping one character) ends just past the closing quote that follows it |
| ErrorTracker.QuotedLiteral | src/utils/errorTracker.js:54 | the string rule in general: any complete literal `q body q` becomes one STR and the rest of the text is rewritten on its own |
| ErrorTracker.QuotedExample | src/utils/errorTracker.js:54 | an illustration: a quoted span with an escaped quote inside is one literal |
| ErrorTracker.NormalizedHasNoDigits | src/utils/errorTracker.js:50-55 | a normalised message has no digit, and the hex rule never fires |
| ErrorTracker.HexLiteralExample | src/utils/errorTracker.js:52-53 | "0x1F" normalises to "NxNF" |
| ErrorTracker.AlternatingNormalizes | src/utils/errorTracker.js:50-55 | an illustration: digit, other, digit, other normalises to N, other, N, other |
| ErrorTracker.HexFirstExample | src/utils/errorTracker.js:53 | with the hex rule first, as its comment says, "0x1F" becomes "ADDR" |
| ErrorTracker.HexFirstHasNoDigits | src/utils/errorTracker.js:52-54 | the hex-first order leaves no digit either |
| ErrorTracker.IndexOf | src/utils/errorTracker.js:68 | the leftmost occurrence from i, or None if there is none |
| ErrorTracker.LastIndexOf | src/utils/errorTracker.js:68 | the rightmost occurrence in a window, as backtracking finds it |
| ErrorTracker.FirstFrameMatch | src/utils/errorTracker.js:68 | a match of the frame pattern `at X (Y)` lies inside the input from i on, with its parts in order |
| ErrorTracker.LineColLength | src/utils/errorTracker.js:69 | a `:\d+:\d+` match at the start never runs past the input |
| ErrorTracker.FirstNodeModules | src/utils/errorTracker.js:70 | a `/x/node_modules/` match lies inside the input from i on |
| ErrorTracker.ExtractKeyStackFrames | src/utils/errorTracker.js:57-64 | a missing or empty stack gives []; otherwise at most the first 3 lines, each normalised |
| ErrorTracker.AnalyzeErrorPattern | src/utils/errorTracker.js:40-48 | a pattern exists iff the message is defined; with an undefined message the call throws |
| ErrorTracker.KeyIgnoresStack | src/utils/errorTracker.js:41-74 | the stack never takes part in the pattern key |
| ErrorTracker.KeyDeterminesParts | src/utils/errorTracker.js:74 | for names without ':' the key determines name and normalised message |
| ErrorTracker.Bump | src/utils/errorTracker.js:76-86 | a new key gets count 1 with firstSeen = lastSeen = now; a repeat adds 1, keeps firstSeen and refreshes lastSeen |
| ErrorTracker.ReplayCounts | src/utils/errorTracker.js:73-87 | after any run of updates a key's count is its prior count plus its number of reports, and other keys are untouched |
| ErrorTracker.ReplayFirstSeen | src/utils/errorTracker.js:76-82 | a key's firstSeen is the time of its first report |
| ErrorTracker.ReplayLastSeen | src/utils/errorTracker.js:86 | the last report sets lastSeen |
| ErrorTracker.LiveOrderValid | src/utils/errorTracker.js:102-106 | the iteration order after pruning lists exactly the surviving patterns, once each |
| ErrorTracker.StatsEntries | src/utils/errorTracker.js:112-115 | one entry per pattern in iteration order, with its stats |
| ErrorTracker.Tracker.constructor | src/utils/errorTracker.js:4-7 | both Maps empty |
| ErrorTracker.Tracker.UpdateErrorPatterns | src/utils/errorTracker.js:73-87 | only the pattern's key changes, bumped; a new key is appended to the iteration order |
| ErrorTracker.Tracker.CleanupOldErrors | src/utils/errorTracker.js:89-107 | both Maps become their live parts, and the order keeps only the surviving keys |
| ErrorTracker.Tracker.DropOldErrors | src/utils/errorTracker.js:93-98 | the first deletion loop removes exactly the records older than one hour |
| ErrorTracker.Tracker.DropOldPatterns | src/utils/errorTracker.js:100-106 | the second loop removes exactly the patterns unseen for more than a day |
| ErrorTracker.Tracker.TrackError | src/utils/errorTracker.js:9-38 | the record is stored under its id, then the pattern is updated (a new key appended to the iteration order), then the cleanup prunes both Maps and the order; a throw at any step (absent error, undefined message) is absorbed, keeping the steps already done |
| ErrorTracker.Tracker.GetErrorStats | src/utils/errorTracker.js:109-117 | totalErrors is the number of retained ids; the pattern list follows the Map's insertion order, entry i holding key i with its count, firstSeen and lastSeen, each stored pattern exactly once |
| ErrorTracker.CleanupExactly | src/utils/errorTracker.js:89-107 | exactly the records with age ≤ 1 h and the patterns with age ≤ 24 h survive, unchanged |
| ErrorTracker.CleanupIdempotent | src/utils/errorTracker.js:89-107 | a second cleanup at the same time changes nothing |
| ErrorTracker.FreshPatternSurvives | src/utils/errorTracker.js:23-34 | the pattern just updated survives the cleanup that follows, with its new count |
| ErrorTracker.TotalErrorsAfterTrack | src/utils/errorTracker.js:14-111 | re-tracking an id overwrites its record: totalErrors grows only for a new id |
| KeyDeriver.DerivePrivateKey | src/utils/keyDeriver.js:10-26 | succeeds iff the child key and its key pair exist; it returns the requested path unchanged, the child key's hex and the WIF; otherwise it rethrows |
| KeyDeriver.DecodeHex | src/utils/keyDeriver.js:73 | the lenient Node hex decoder reads at most half the digits |
| KeyDeriver.DecodeToHex | src/utils/keyDeriver.js:57-73 | decoding reads back what `toString('hex')` wrote |
| KeyDeriver.VerifyPrivateKey | src/utils/keyDeriver.js:71-86 | isValid iff the key's address equals the target; a rejected key gives isValid false with no address |
| KeyDeriver.DerivedKeyVerifies | src/utils/keyDeriver.js:10-86 | a derived key verifies against the address at its path |
| KeyDeriver.BigEndianRoundTrip | src/utils/keyDeriver.js:47 | the 8-byte big-endian encoding reads back as i |
| KeyDeriver.ZeroTail | src/utils/keyDeriver.js:46 | trailing zero bytes multiply the value by 256 per byte |
| KeyDeriver.Candidate | src/utils/keyDeriver.js:46-47 | 32 bytes: bytes 0-7 the big-endian u64 of i, bytes 8-31 zero |
| KeyDeriver.CandidateValue | src/utils/keyDeriver.js:46-47 | the candidate's value is i·2^192, not i |
| KeyDeriver.CandidateInjective | src/utils/keyDeriver.js:46-47 | distinct counters give distinct candidates |
| KeyDeriver.FoundAt | src/utils/keyDeriver.js:56-61 | the returned key is the candidate's 64-character hex, tagged bruteforce, with no path |
| KeyDeriver.BruteforceAddress | src/utils/keyDeriver.js:42-69 | the loop computes the scan |
| KeyDeriver.ScanFindsFirst | src/utils/keyDeriver.js:45-62 | the first hit in [start, end] is returned |
| KeyDeriver.ScanMisses | src/utils/keyDeriver.js:45-68 | with no hit in a window inside [0, 2^64) the result is null |
| KeyDeriver.ScanSound | src/utils/keyDeriver.js:45-62 | a returned key is a hit in the window with no earlier hit |
| KeyDeriver.EmptyWindow | src/utils/keyDeriver.js:45-68 | start > end returns null without trying a candidate |
| KeyDeriver.NegativeStartThrows | src/utils/keyDeriver.js:46-49 | a negative counter throws instead of being skipped |
| KeyDeriver.HugeStartThrows | src/utils/keyDeriver.js:45-47 | a start of 2^64 or more throws at the first counter, before any candidate is tried |
| KeyDeriver.ScanInRange | src/utils/keyDeriver.js:46-49 | a window inside [0, 2^64) never throws |
| KeyDeriver.FoundVerifies | src/utils/keyDeriver.js:55-86 | a found key verifies against the target address |
| Text.IntToStringRoundTrip | src/utils/addressDeriver.js:9 | decimal printing of the index is inverted by parsing |
| Text.IntToStringInjective | src/utils/addressDeriver.js:9 | distinct indices print differently |
| Text.HexRoundTrip | src/utils/keyDeriver.js:17 | `toString('hex')` is inverted by strict hex parsing |
| Text.ToHexLowerCase | src/utils/keyDeriver.js:57 | every character `toString('hex')` writes is a hex digit |
| Text.SplitJoin | src/utils/errorTracker.js:61 | splitting on one character loses nothing, and no piece holds it |
| Text.JoinSplit | src/services/mnemonicAnalyzer.js:181 | separator-free pieces are recovered by splitting their join |
| AddressDeriver.PathForParses | src/utils/addressDeriver.js:9-18 | the path is "m/44'/0'/0'/0/" followed by the decimal index, which parses back |
| AddressDeriver.PathForInjective | src/utils/addressDeriver.js:18 | distinct indices never share a path |
| AddressDeriver.DeriveAddress | src/utils/addressDeriver.js:7-25 | a record iff the libraries accept the index, with that index, its path and the address at that path |
| AddressDeriver.DeriveAddresses | src/utils/addressDeriver.js:27-42 | success iff the master key and every index succeed; then exactly count records, record i at index start + i |
| AddressDeriver.DerivedWellFormed | src/utils/addressDeriver.js:32-35 | indices are strictly ascending and paths pairwise distinct |
| CryptoAddressDeriver.DeriveAddress | src/utils/crypto/addressDeriver.js:8-29 | a record iff the libraries accept the index; its path is the one used to derive it |
| CryptoAddressDeriver.DeriveAddresses | src/utils/crypto/addressDeriver.js:31-44 | success iff every index derives, with count records from start, [] for count ≤ 0, and the library error otherwise |
| CryptoAddressDeriver.DerivedRecordsExact | src/utils/crypto/addressDeriver.js:31-44 | those promises pin the result down to a single value |
| CryptoAddressDeriver.GetSeed | src/utils/crypto/addressDeriver.js:46-52 | 64 bytes, all zero |
| MnemonicValidator.TrimStart | src/utils/validation/mnemonicValidator.js:10 | the suffix that starts with a non-space |
| MnemonicValidator.TrimEnd | src/utils/validation/mnemonicValidator.js:10 | the prefix that ends with a non-space |
| MnemonicValidator.SplitSpaces | src/utils/validation/mnemonicValidator.js:10 | `split(/\s+/)` always has at least one piece |
| MnemonicValidator.TrimIsTrimmed | src/utils/validation/mnemonicValidator.js:10 | trimming leaves no white space at either end |
| MnemonicValidator.WordsOfTrimmed | src/utils/validation/mnemonicValidator.js:10 | the words of a trimmed non-empty string are non-empty and space-free |
| MnemonicValidator.JoinSplitSpaces | src/utils/validation/mnemonicValidator.js:10-15 | joining proper words with single spaces and splitting again returns the words |
| MnemonicValidator.RejectsEmpty | src/utils/validation/mnemonicValidator.js:6-8 | a non-string or empty input fails with 'Mnemonic must be a non-empty string' |
| MnemonicValidator.AcceptsIffWordCount | src/utils/validation/mnemonicValidator.js:10-13 | a non-empty input is accepted iff its token count is 12, 15, 18, 21 or 24, and otherwise fails with 'Invalid mnemonic length' |
| MnemonicValidator.AllSpaceRejected | src/utils/validation/mnemonicValidator.js:10-12 | an all-white-space input gives one empty token and fails the length check |
| MnemonicValidator.NormalForm | src/utils/validation/mnemonicValidator.js:10-15 | the output is the input's tokens in order, joined by single spaces, trimmed |
| MnemonicValidator.Idempotent | src/utils/validation/mnemonicValidator.js:10-15 | normalising a normalised phrase changes nothing |
| MnemonicValidator.Validate | src/utils/validation/mnemonicValidator.js:18-27 | a format error is rethrown; otherwise the normal form if the checksum accepts it, else 'Invalid mnemonic phrase' |
| PatternLearner.Oldest | src/ai/patternLearner.js:125-126 | a position in the insertion order |
| PatternLearner.OldestFirstMinimal | src/ai/patternLearner.js:125-126 | the first element of the stable timestamp sort: minimal timestamp, and strictly smaller than every earlier entry's |
| PatternLearner.PutKeepsOrder | src/ai/patternLearner.js:118-121 | `Map.set` keeps the insertion order listing each key once: a new key is appended, an existing one keeps its place |
| PatternLearner.EvictOldest | src/ai/patternLearner.js:127 | deleting the oldest entry removes exactly one |
| PatternLearner.AfterStoreCases | src/ai/patternLearner.js:117-128 | store is set, followed by the eviction exactly when the size exceeds the cap |
| PatternLearner.StoreKeepsOrder | src/ai/patternLearner.js:117-128 | the Map and its order stay in step |
| PatternLearner.StoreBounded | src/ai/patternLearner.js:117-128 | a Map within the cap stays within it |
| PatternLearner.EvictsOldest | src/ai/patternLearner.js:124-127 | past the cap exactly one entry goes: minimal timestamp, earliest inserted among ties |
| PatternLearner.EvictShape | src/ai/patternLearner.js:125-127 | the eviction as a property of the before/after Maps |
| PatternLearner.RestoreKeepsSize | src/ai/patternLearner.js:118-124 | re-storing an address replaces its value and keeps the size and the order |
| PatternLearner.StoredIsKept | src/ai/patternLearner.js:118-127 | with a positive cap and a clock that does not run back, the Map holds address → {pattern, now} afterwards |
| PatternLearner.PatternStore.constructor | src/ai/patternLearner.js:7-13 | an empty Map |
| PatternLearner.PatternStore.StorePattern | src/ai/patternLearner.js:117-129 | the new Map is the set followed by at most one eviction, with the cap as a parameter |
| PatternLearner.PatternStore.ShippedStorePattern | src/ai/patternLearner.js:117-124 | as shipped: the entry is set, then the size test throws |
| PatternLearner.ShippedStoreGrows | src/ai/patternLearner.js:118-124 | as shipped each new address adds an entry: nothing is ever evicted |
| PatternLearner.AddressByteCounts | src/ai/patternLearner.js:80-84 | 256 buckets, bucket b counting the positions holding byte b, summing to the byte length |
| Histogram.Utf8Char | src/ai/patternLearner.js:80 | the UTF-8 encoding of one character: 1-4 bytes, one byte exactly for ASCII, with the right lead and continuation bytes |
| Histogram.Utf8Ascii | src/ai/patternAnalyzer.js:69 | an ASCII address encodes one byte per character |
| Histogram.Buckets | src/ai/patternAnalyzer.js:70-73 | m counts, bucket k holding the bytes congruent to k |
| Histogram.BucketsSnoc | src/ai/patternAnalyzer.js:71-73 | one more byte increments exactly its own bucket |
| Histogram.BucketsSum | src/ai/patternAnalyzer.js:71-74 | the bucket counts sum to the byte length |
| Histogram.CountPositions | src/ai/patternAnalyzer.js:71-73 | bucket k counts exactly the positions whose byte is k modulo m |
| Histogram.Distribution | src/ai/patternAnalyzer.js:70-73 | the counting loop computes the buckets |
| PatternAnalyzer.Features | src/ai/patternAnalyzer.js:58-77 | 3 + 29 = 32 entries, the network's input width: 1 iff balance > 0, log1p, transactions or 0, then the bucket counts |
| PatternAnalyzer.ExtractFeatures | src/ai/patternAnalyzer.js:58-77 | the pushes and the counting loop compute that vector |
| PatternAnalyzer.FeatureBucketsSum | src/ai/patternAnalyzer.js:69-74 | the 29 bucket features sum to the byte length, which is the length of an ASCII address |
| PatternAnalyzer.AnalyzeAddresses | src/ai/patternAnalyzer.js:37-56 | one element per input extending it; promising iff confidence > 0.7; any failure gives every element confidence 0 and not promising |
| PatternAnalyzer.PromisingMeansAllPredicted | src/ai/patternAnalyzer.js:43-55 | a single promising element means every prediction succeeded |
| PatternAnalyzer.ScoreIsPerRecord | src/ai/patternAnalyzer.js:43-51 | on success each score depends on its own record only |
| PatternAnalyzer.OneFailureSpoilsAll | src/ai/patternAnalyzer.js:52-55 | one failing prediction spoils every score |

## Left out

- Cryptography: BIP-32 derivation, secp256k1, P2PKH encoding, WIF and the BIP-39 checksum are opaque functions of `Crypto.Suite` or a checksum predicate, so no real key is ever computed.
- Machine learning and floating point: TensorFlow model construction, training, prediction and save/load are out. The network's answer and `Math.log1p` are parameters. Transaction entropy and the normalised histogram of `extractAddressFeatures` are out, and only its integer counts are modelled (`PatternLearner.AddressByteCounts`).
- `learnFromAddressPattern` and `predictSimilarity` are one parameter `Scorer` of `MnemonicAnalyzer.ApplyAIOptimizations`, because their model calls are opaque.
- I/O back-ends: HTTP (axios) becomes the `Api` parameter, and SQLite becomes a map field. `Date.now()`, `new Date()` and `performance.now()` become `now` and `elapsed` parameters.
- Clock reads: one `now` stands for the several clock reads inside `trackError` and `updateErrorPatterns`, and the store timestamps are integers of milliseconds.
- `JSON.stringify`/`JSON.parse`: the round trip of a record through the `data` column is taken as the identity.
- Concurrency: the model is sequential.
  - Worker threads, `pLimit(3)` and Promise interleaving are out.
  - `Promise.all` reports the earliest rejection in time; the model reports the first failure in input order.
  - The read-before-write order of a balance batch is modelled as all reads, then the misses in order.
  - Completions of the worker pool arrive as explicit `Complete`/`Fail` calls.
- Worker creation: the net effect of `busy = true` then `cleanupWorker` in the catch of `processNextTask` is modelled; the Worker object itself, its `terminate()` and the `worker` field are not.
- WorkerPool.Pool.ProcessNextTask: requires at most one queued task and, like the other Pool methods, an empty queue between calls, because `runTask` pushes one task and dispatches at once; deeper queues cannot arise in the shipped pool.
- Sequences of the Pool outside `SubmitAll` (interleaved completions on the shipped pool) are stated per step (`WorkerPool.RunTaskOutcome`, `WorkerPool.FinishKeeps`), not as a whole-run lemma.
- CLI, UI and entry points: `startCLI`, `mainMenu`'s prompt with its `trim().toLowerCase()`, `showHelp`, `interactiveAnalysis`, `displayResults`, `showPerformanceMetrics` and `parseInt` coercion are out. `showStatus` is the `Status` action only; it always throws, because `getSize` and `getActiveCount` are not defined, and `processCommand` absorbs the throw.
- `mnemonicAnalyzer.analyzeMnemonic`, `validateAndPrepare`, `generateSeed` and `handleError` are thin compositions of modelled or opaque calls plus `crypto.randomUUID`; they are not modelled.
- `mnemonicAnalyzer.cleanup`: only whether it resolves is modelled, as the `cleanupOk` parameter of `Dispatch` and `ProcessCommand`. It closes the readline interface first, so after a rejected cleanup the next prompt of `mainMenu` reads from a closed interface; that is not modelled.
- The `analyzerCore` and `addressAnalyzer` `cleanup` methods and `PatternAnalyzer.cleanup` only dispose of workers and tensors.
- `keyDeriver.deriveFromWIF` is a single opaque library call.
- src/utils/crypto/keyDeriver.js, which addressAnalyzer.js imports, is not part of this model; the functions of src/utils/keyDeriver.js stand in for it.
- AddressAnalyzer.CachedEnrich: makes two corrections, not one. It supplies the cache, and it passes each derived record's `address` to the checker, where src/core/addressAnalyzer.js:46 passes the records themselves. What the checker does with a record object as a cache key and in the request URL is not modelled.
- AddressAnalyzer.AnalyzeRange: requires a finite loop bound, so a zero batch size with a positive count is excluded. `Batching.ZeroSizeUnbounded` states that such a call never ends.
- KeyDeriver.Scan: counters, indices and counts are exact integers, where the source's are JS Numbers (IEEE doubles), so they are taken as safe integers (below 2^53). From 2^53 up the source's `i++` at src/utils/keyDeriver.js:45 stops advancing, and the loop tries the same candidate forever. `KeyDeriver.BruteforceAddress`, `KeyDeriver.ScanFindsFirst`, `KeyDeriver.ScanMisses` and `KeyDeriver.ScanInRange` state the exact-integer scan, so for windows that reach 2^53 they promise an end that the source never reaches. The only call, from `AddressAnalyzer`, uses [1, 1000000] (`AddressAnalyzer.BruteWindowSafe`).
- Text.IntToString: prints every integer in plain decimal, as `${n}` does only below 10^21; from there up the source prints exponent form such as "1e+21".
- Batching.CeilDiv: is exact for every integer. `Math.ceil(a / b)` on doubles is exact only while a is a safe integer; from 2^53 up the rounded quotient can land on a neighbouring integer.
- Logging (`logger.*`) carries no state.
- The `storeUp` switch models a store that fails on every call of one operation, not a store that fails part-way through a batch.
- `WorkerPool.SaturatedLoses`, `WorkerPool.BackloggedWaits`, `AddressAnalyzer.BatchFnAt`, `KeyDeriver.EmptyWindow`, `KeyDeriver.HugeStartThrows` and `MnemonicAnalyzer.DefaultBatchChunks` follow from their definitions by unfolding alone; they are kept because they state source behaviour.

## Findings

| source | as written | input that shows it | evidently intended | confidence | as-written member | corrected member |
|---|---|---|---|---|---|---|
| src/utils/workers/workerPool.js:30-33 | `shift()` runs before the free-slot test, so a task submitted while all four slots are busy leaves the queue and its promise never settles | five `runTask` calls on a fresh pool before any worker replies; with the default batch of 100 `deriveAddresses` submits ten chunks, and six are lost | keep the task queued until a slot frees | not executed | WorkerPool.SubmitAll | WorkerPool.SubmitAllChecked |
| src/core/analyzerCore.js:41 | `this.analyzeBatch` is not a method of the class, so every positive count throws a TypeError | `runBatchAnalysis(0, 1)` | call a per-batch analysis and append its results | not executed | AnalyzerCore.ShippedRunThrows | AnalyzerCore.RunCover |
| src/core/addressAnalyzer.js:10 | the BalanceChecker is built without a cache, so its first `this.cache.get` throws | `analyzeRange(0, 1)` | pass the shared cache, as src/services/mnemonicAnalyzer.js:20 does, and hand the checker each record's `address` string, as src/services/mnemonicAnalyzer.js:270 does (line 46 hands it the records) | not executed | AddressAnalyzer.ShippedRangeThrows | AddressAnalyzer.CachedEnrichShape |
| src/ai/patternLearner.js:117-129 | MAX_PATTERNS_TO_STORE is not imported (line 5), so the size test throws after the entry is set and the Map is never trimmed | any `storePattern` call | evict the oldest entry beyond 10000 entries | not executed | PatternLearner.ShippedStoreGrows | PatternLearner.StoreBounded |
| src/services/mnemonicAnalyzer.js:283-308 | `createPattern` is not defined (src/ai/patternLearner.js:48) and PATTERN_SIMILARITY_THRESHOLD is not imported (line 10), so every non-empty list falls back unranked | `applyAIOptimizations` on one result | rank by similarity and mark results above 0.85 | not executed | MnemonicAnalyzer.ShippedNeverRanks | MnemonicAnalyzer.OptimizeRanks |
| src/core/analyzerCore.js:17-18 | `addressManager.deriveAddresses` resolves with the worker's reply object `{ addresses }` (src/utils/workers/addressWorker.js:8, src/services/addressManager.js:20), and `enrichAddresses` hands it to `checkBalancesBatch`, whose `addresses.map` is not a function | `analyzeMnemonic(m, 0, 1)` with a derivation that succeeds | unwrap `.addresses`, as src/services/mnemonicAnalyzer.js:260 does | not executed | AnalyzerCore.ShippedMnemonicThrows | AnalyzerCore.UnwrappedReports |
