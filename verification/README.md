# Verified models of the agent SDK's kernels

This project models the parts of the SDK whose correctness takes an argument: the agreement
statistics of the benchmark, tool-log compaction, the ACP byte-stream server, bounded fan-out
and deterministic fan-in, the time-windowed spend and replay guards, and the ledgers, histories
and bounded reports around them. `dafny verify dfyconfig.toml` checks all of it.

Code that computes a value is a function; code that changes state is a class or a method with
loops, proved against such a function. Clock readings, embeddings, scores, signatures, byte
decoding, JSON text, white space and the language model are parameters. Numbers are exact:
`int` where the source counts, `real` where it divides; a square root is any function with
`r >= 0` and `r * r == x`.

| module | what it models |
|---|---|
| `Ranking`, `Spearman` | tie-averaged ranks; Spearman's rho from rank differences |
| `Kappa` | binary and quadratic-weighted Cohen's kappa |
| `StableSort`, `Arithmetic` | the stable sort the other modules rely on, with its uniqueness; signs of products and bounds of quotients |
| `ToolLog` | decay compaction of a tool log in exchange units |
| `Framing`, `JsonRpc`, `StdioServer` | ndjson framing, the JSON-RPC 2.0 envelope, the response stream |
| `Fan` | the shared-cursor worker pool as a transition system; total-order argmin |
| `CircuitBreaker`, `EconomyRouter`, `ReplayGuard` | spend windows, budgets, signed events with a nonce store |
| `CostLedger` | cost cells per (cycle, worker), roll-ups and snapshots |
| `Coherence`, `Progress` | pairwise cosine stall detection; plateau detection on a delta window |
| `Conversation` | working memory, summaries, snapshots |
| `Digest` | severity-sorted digests under a length budget |
| `DriftLens` | changed files against allowed paths |
| `ApprovalStore` | approval requests and their single settlement |

## Where the code differs from its documentation

The models follow the code. Each difference is a theorem.

- `spearman` is documented to give NaN at zero variance (evals/sprint-b-bench.ts:78). It only
  tests the lengths: a constant list scores at least 1/2, and exactly 1/2 when the other list
  has no ties (`Spearman.ZeroVarianceIsNotNaN`).
- `keepTopK` is documented as the most tool messages kept (src/budget/budget-state.ts:209). It
  bounds units, and so it bounds tool messages under every score and every `keepTopK` exactly when
  no unit of the log holds two of them (`ToolLog.KeepTopKCapsToolsExactly`,
  `ToolLog.KeepTopKCountsUnits`).
- `push` is commented to copy pending bytes (src/acp/framing.ts:54-59). A chunk without a newline
  is retained as it is; the caller may reuse its buffer exactly when the chunk held a newline
  (`Framing.FrameDecoder.Push`, `Framing.OverwriteAfterNewline`, `Framing.OverwriteWhilePending`).
- A malformed line is commented never to stop the server loop (src/acp/stdio-server.ts:90-93). An
  `initialize` request with absent or null params does, and nothing else does
  (`StdioServer.ServeThrowsExactly`). Up to that point the output is a function of the bytes. How
  lines are grouped into pushes shows exactly when some line after a throwing one is answered
  (`StdioServer.GroupingIsInvisibleExactly`).
- With a nonce store, replay of a signed event is possible exactly when its timestamp does not
  parse, because the skew comparison with NaN is false, or when twice the skew, plus the longest
  delay between the two clock readings of a call, reaches the nonce TTL. Without a store it is
  possible exactly when the caller does not require one and the skew check can pass. Both
  defaults, no store and a TTL of twice the skew, are on the failing side
  (`ReplayGuard.ReplayPossibleExactly`).
- A plateau is documented with a closed interval and promises in 0 to 1
  (src/budget/promise-progress.ts:36-41). The test is strict: the two disagree exactly when every
  delta of the window is within epsilon and one reaches it (`Progress.PlateauIsDocumentedExactly`),
  which outputs can bring about exactly for an epsilon from 0 to 2
  (`Progress.DifferenceIsReachedExactly`). A promise is negative exactly when the dot product is
  (`Progress.SimilaritySign`). A window of zero or less makes every run a plateau
  (`Progress.EmptyWindowIsAlwaysPlateau`), an epsilon of zero or less with a positive window none
  (`Progress.NoPlateauWithoutEpsilon`).
- `fromJSON` does not restore the context-window resolver, so `maybeCompact` may decide
  differently; `Conversation.RestoredDecidesAlikeExactly` says when it does not.
- `maxChars` is documented as a hard cap (src/alerts/digest.ts:69). `Digest.CapHoldsExactly` says
  when it is one.
- The cost snapshot is documented to have one record per distinct cycle and per worker
  (src/economy/cost-accounting-port.ts:52-55). The two ids are joined by a NUL, and
  `CostLedger.KeysCollideExactly` says which ids share a key; every finished call has a cell of
  exactly its own cycle and worker if and only if no two finished calls collide
  (`CostLedger.CellsAreOwnExactly`). `CostLedger.CollisionMergesCells` is a run that merges two.
- The approval store accepts entries that are not pending or carry a verdict already, so a
  verdict marks resolved requests exactly when every accepted entry was consistent
  (`ApprovalStore.VerdictsFitExactly`).

Other limits that turned up: admission reserves nothing, so two admitted cycles can together
overspend a budget (`EconomyRouter.ConcurrentAdmissionsOverspend`); any number of cycles in flight
is safe exactly when the spend so far and all their estimates fit both budgets
(`EconomyRouter.InFlightIsSafeExactly`). A breaker with a negative threshold never admits
(`CircuitBreaker.NewBreakerAdmitsExactly`); a turn added while a compaction awaits its summary is
lost (`Conversation.TurnsAddedMeanwhile`), and overlapping compactions summarise a block twice
(`Conversation.OverlapCountsTwice`); a digest may truncate a text that fits
(`Digest.AllShownExactly`).

## Model

| member | source | states |
|---|---|---|
| StableSort.StableSortIsUnique | src/budget/budget-state.ts:306 | every sorted rearrangement that keeps equal elements in order is the same sequence, so the engine's sorting algorithm does not matter |
| StableSort.SortIsStable | src/alerts/digest.ts:181-190 | elements the comparator cannot tell apart keep their input order |
| Ranking.RankArray | evals/sprint-b-bench.ts:57-74 | the sort-and-scan loop fills position i with the rank counted for value i: smaller values plus the middle of its tie group |
| Ranking.BlockRank | evals/sprint-b-bench.ts:64-72 | the averaged position of a maximal tie block in the sorted list is the counted rank of its value |
| Ranking.RankIsBalance | evals/sprint-b-bench.ts:57-74 | twice a rank is n + 1 plus the number of smaller values minus the number of larger ones |
| Spearman.RanksFollowOrder | evals/sprint-b-bench.ts:54-74 | ranks are equal exactly on equal values and strictly smaller exactly on smaller values |
| Spearman.RankSums | evals/sprint-b-bench.ts:57-74 | ranks sum to n(n+1)/2 with any ties; their squares sum to at most n(n+1)(2n+1)/6, with equality exactly when there are no ties |
| Spearman.SquaresBound | evals/sprint-b-bench.ts:57-74 | the squared balances sum to at most (n^3 - n)/3, with equality exactly when there are no ties |
| Spearman.SpearmanRho | evals/sprint-b-bench.ts:80-92 | NaN exactly on unequal lengths or fewer than two items, otherwise rho over the two rank arrays |
| Spearman.RhoRangeAndSymmetry | evals/sprint-b-bench.ts:80-92 | rho lies in [-1, 1] and is symmetric for every pair of lists of length at least 2, ties included |
| Spearman.PerfectRho | evals/sprint-b-bench.ts:80-92 | rho is 1 exactly when both lists order the items the same way |
| Spearman.OppositeRho | evals/sprint-b-bench.ts:80-92 | rho is -1 exactly when both lists are untied and order the items in reverse |
| Spearman.ZeroVarianceIsNotNaN | evals/sprint-b-bench.ts:76-92 | a constant list gives a rho between 1/2 and 1, and 1/2 exactly when the other list is untied |
| Spearman.RhoVersusPearson | evals/sprint-b-bench.ts:86-91 | the difference formula is at least the normalised covariance of the ranks, and equal to it exactly when neither list has ties |
| Kappa.OrdinalCohenKappa | evals/sprint-b-bench.ts:140-189 | NaN exactly on unequal lengths or empty input; otherwise the matrix computation equals the matrix-free reference kappa of the bins, and for ordered thresholds that of the levels, the numbers of thresholds the scores reach |
| Kappa.CohenKappa | evals/sprint-b-bench.ts:99-121 | NaN exactly on unequal lengths or empty input; otherwise the agreement shares give the same reference kappa on the levels of the one threshold 0.5 |
| Kappa.BinIsLevelExactly | evals/sprint-b-bench.ts:127-155 | the bin of a score is the number of thresholds it reaches, except exactly when the thresholds are swapped and the score lies between them |
| Kappa.BinRises | evals/sprint-b-bench.ts:150-155 | a higher score never falls in a lower bin, whatever the thresholds |
| Kappa.BitsAreLevels | evals/sprint-b-bench.ts:102-105 | the bit of a score is 1 exactly from 0.5 on |
| Kappa.DisagreementIsCutsBetween | evals/sprint-b-bench.ts:133-136 | the observed disagreement adds up, over the items, the square of the number of thresholds between the two scores |
| Kappa.ObservedMatrix | evals/sprint-b-bench.ts:160-164 | cell (i, j) counts the items that the judges put in bins i and j |
| Kappa.WeightedSums | evals/sprint-b-bench.ts:173-185 | the nested loops compute the sums of the weighted observed and expected cells |
| Kappa.Marginals | evals/sprint-b-bench.ts:166-168 | row and column sums of the pair counts are the bin counts of the two judges |
| Kappa.KappaRangeAndSymmetry | evals/sprint-b-bench.ts:123-189 | kappa lies in [-1, 1] and is symmetric in the judges |
| Kappa.KappaPerfect | evals/sprint-b-bench.ts:119-120 | kappa is 1 exactly when the judges rate every item alike |
| Kappa.KappaOpposite | evals/sprint-b-bench.ts:187-188 | kappa is -1 exactly when the two ratings of an item always add up to the same number, both judges have the same sum, and the ratings are not all one value |
| Kappa.ZeroDenominator | evals/sprint-b-bench.ts:187-188 | the denominator vanishes exactly when all ratings of both judges are one and the same, and then the numerator is 0 too |
| Kappa.DistanceBound | evals/sprint-b-bench.ts:178-188 | the observed disagreement, scaled, is at most twice the expected one, and equal to it exactly when the sums of both judges agree and their ratings of an item always add up to the same number |
| Kappa.BinaryKappa | evals/sprint-b-bench.ts:107-120 | observed and chance agreement on bits give the reference kappa |
| ToolLog.CompactToolLogDecay | src/budget/budget-state.ts:229-331 | the two configuration errors exactly when the source throws them, otherwise the log without the evicted units |
| ToolLog.GroupLog | src/budget/budget-state.ts:261-285 | the grouping loop finds the protected messages and the exchange units of the log with their positions |
| ToolLog.ReadUnit | src/budget/budget-state.ts:270-279 | the inner loop reads an assistant message and exactly the tool messages that directly follow |
| ToolLog.ScoreUnits | src/budget/budget-state.ts:292-303 | every unit gets the score of its messages and its number of turns from the end |
| ToolLog.AgeIsUnitsAfter | src/budget/budget-state.ts:295-297 | the age a unit is scored with is the number of units that start after it, 0 for the most recent |
| ToolLog.NewestAreKept | src/budget/budget-state.ts:215-218 | under a score that falls with age whatever the content, the newest units are kept |
| ToolLog.NewestAreKeptExactly | src/budget/budget-state.ts:295-307 | the newest units are kept for every keepTopK if and only if each unit outscores all older ones |
| ToolLog.OlderSurvivesOnWorth | src/budget/budget-state.ts:220-224 | under a recency that falls with age plus a worth of the content, an older unit survives a newer one only if it is worth more, by at least the difference in recency |
| ToolLog.BlocksPartition | src/budget/budget-state.ts:264-285 | the blocks are consecutive pieces of the log and nothing is lost |
| ToolLog.SortBreaksTiesByAge | src/budget/budget-state.ts:305-306 | the stable sort by score leaves the older of two equal units first |
| ToolLog.TopUnitsAreTop | src/budget/budget-state.ts:305-307 | min(keepTopK, units) units are kept and none is beaten by an evicted one, ties going to the older |
| ToolLog.KeptUnitsAreTop | src/budget/budget-state.ts:305-307 | a set of units meets that requirement if and only if it is the set the code keeps |
| ToolLog.RebuildPreserves | src/budget/budget-state.ts:215-227 | whatever is evicted, the result is a subsequence of the log and keeps every system and user message |
| ToolLog.NoOrphanSurvives | src/budget/budget-state.ts:244-247 | if every tool message directly follows an assistant or tool message, the same holds in the result |
| ToolLog.RegroupingYieldsKept | src/budget/budget-state.ts:249-253 | grouping the result again yields exactly the kept blocks, so each unit is kept or dropped whole |
| ToolLog.SortedItemsAreSelect | src/budget/budget-state.ts:314-325 | sorting protected messages and kept units by position restores log order |
| ToolLog.NothingToEvict | src/budget/budget-state.ts:287-290 | with no more units than keepTopK the general rebuild is the early return |
| ToolLog.OutputUnitCount | src/budget/budget-state.ts:305-330 | the result has min(keepTopK, units) units, counted in the result itself |
| ToolLog.CompactionIsIdempotent | src/budget/budget-state.ts:229-331 | compacting twice equals compacting once, even with another score the second time |
| ToolLog.KeepTopKCapsToolsExactly | src/budget/budget-state.ts:209-210 | for every score and keepTopK the result holds at most keepTopK tool messages, if and only if each unit of the log holds at most one |
| ToolLog.KeepTopKCountsUnits | src/budget/budget-state.ts:209-210 | one unit with any number of tool messages survives keepTopK = 1 |
| Framing.ChunkingDoesNotMatter | src/acp/framing.ts:31-63 | lines and waiting bytes after any chunks are the newline split of the whole stream |
| Framing.ChunkStep | src/acp/framing.ts:44-63 | one push extends the split of the stream so far to the split of the longer stream |
| Framing.FramesOfLines | src/acp/framing.ts:27-63 | framing the lines again and appending the tail gives the stream back |
| Framing.LinesOfFrames | src/acp/framing.ts:22-29 | framing newline-free lines and splitting returns those lines |
| Framing.FramedMessagesComeBack | src/acp/framing.ts:22-63 | frames of newline-free messages come back one by one under any chunking, with nothing waiting |
| Framing.FrameDecoder.Push | src/acp/framing.ts:44-63 | the lines a chunk completes and the bytes left waiting; the caller's array is retained exactly when it is newline-free, otherwise only fresh copies are |
| Framing.FrameDecoder.Flush | src/acp/framing.ts:65-73 | undefined exactly when no bytes are waiting, otherwise all of them as one line |
| Framing.FrameDecoder.TakeLine | src/acp/framing.ts:75-89 | the pending parts and the tail in order, copied into one buffer, and nothing pending afterwards |
| Framing.OverwriteAfterNewline | src/acp/framing.ts:53-61 | overwriting a pushed buffer that held a newline leaves the pending bytes alone |
| Framing.OverwriteWhilePending | src/acp/framing.ts:53-61 | overwriting a pushed newline-free buffer changes the pending bytes |
| Framing.DecodeStream | src/acp/framing.ts:42-73 | pushing any chunks and flushing delivers the lines and the tail of the concatenated bytes |
| JsonRpc.ClassifyExactly | src/acp/jsonrpc.ts:90-178 | an object is accepted as a message exactly when the message is well formed and the object carries its envelope, other fields being ignored |
| JsonRpc.RejectedExactly | src/acp/jsonrpc.ts:90-178 | when each kind of malformed value is rejected with which error |
| JsonRpc.RoundTrip | src/acp/jsonrpc.ts:180-185 | classifying a serialised well-formed message returns it |
| StdioServer.Server.HandleLine | src/acp/stdio-server.ts:77-130 | blank lines, incoming responses and notifications write nothing; a malformed line, a known and an unknown request write their one frame |
| StdioServer.Server.Push | src/acp/stdio-server.ts:57-61 | the frames appended are those of the lines the chunk completes, up to the first exception |
| StdioServer.Server.End | src/acp/stdio-server.ts:63-75 | a trailing line is handled like any other, and a second end does nothing |
| StdioServer.RunStream | src/acp/stdio-server.ts:39-75 | what is written for a whole stream is a function of its bytes, whatever the chunks |
| StdioServer.OneResponsePerRequest | src/acp/stdio-server.ts:77-142 | the frames are, in line order, exactly one answer per request and per malformed line: the request's id or null, the parse-error or method-not-found code, and for `initialize` a result with the requested version when supported and a supported one otherwise (JSON-RPC 2.0, sections 4.1 and 5) |
| StdioServer.ReactionAnswers | src/acp/initialize.ts:83-123 | a line is answered exactly when it is a request or malformed, and the negotiated version is supported and the requested one if that is supported |
| StdioServer.InitializeIsHonest | src/acp/initialize.ts:95-123 | the result of `initialize` carries the agent's identity, no way to authenticate, and no capability flag that is set |
| StdioServer.FrameReadsBack | src/acp/stdio-server.ts:140-142 | a written frame ends in a newline and reads back as the response it carries, if the JSON text of that response does |
| StdioServer.AnswersComeBack | src/acp/stdio-server.ts:39-142 | a client that decodes the output bytes under any chunking reads exactly the answers to the lines that asked, in order, with nothing left over |
| StdioServer.HypothesesAreMet | src/acp/stdio-server.ts:47-143 | what is asked of JSON text and wire encoding is met by a server that answers a request |
| StdioServer.ServeThrowsExactly | src/acp/initialize.ts:109-114 | the loop throws exactly on an initialize request whose params are absent or null |
| StdioServer.FramesBeforeThrow | src/acp/stdio-server.ts:57-61 | what was written before an exception is what the earlier lines asked for |
| StdioServer.GroupingIsInvisibleExactly | src/acp/stdio-server.ts:57-61 | every grouping of the lines into pushes writes the same frames, if and only if no line after a throwing one is answered |
| Fan.RunInv | src/compute/fan.ts:39-48 | in every run each started index is in flight or settled, no index twice, and every step settles exactly one |
| Fan.BoundedConcurrency | src/compute/fan.ts:26-48 | at every moment at most min(maxConcurrency, n) evaluations are in flight, indices start once and in order, and a run has at most n steps |
| Fan.ResultsInInputOrder | src/compute/fan.ts:26-48 | when no evaluation rejects, every schedule ends after n steps with results[i] the outcome of item i |
| Fan.RejectsIffSomeEvaluationDoes | src/compute/fan.ts:41-48 | the promise rejects exactly when some evaluation does |
| Fan.FirstRejectionWins | src/compute/fan.ts:46-47 | the promise is rejected with the error of the evaluation that rejected first |
| Fan.SelectionIsArgmin | src/compute/fan.ts:57-76 | the winner has the least score and among equal scores the least id, and the trace is the permutation of the candidates sorted by score, then id |
| Fan.SelectionIgnoresOrder | src/compute/fan.ts:11-19 | permuting the candidates never changes the trace, and not the winner when ids are distinct |
| Fan.StringOrder | src/compute/fan.ts:71 | the order on ids is total and strict |
| Fan.StringLessExactly | src/compute/fan.ts:71 | and it is the lexicographic one: the strings agree up to a place where the smaller ends or has the smaller code unit |
| CircuitBreaker.FleetCircuitBreaker.CanProceed | src/economy/circuit-breaker.ts:45-68 | answer and new state of the three-state machine |
| CircuitBreaker.FleetCircuitBreaker.RecordCost | src/economy/circuit-breaker.ts:71-93 | new state after a recorded cost, tripping or closing included |
| CircuitBreaker.FleetCircuitBreaker.EvictOld | src/economy/circuit-breaker.ts:116-121 | the loop drops exactly the stale prefix of the window |
| CircuitBreaker.WindowIsFilteredHistory | src/economy/circuit-breaker.ts:71-121 | in every run the evicted window is the full history since the last reset, filtered by the last cutoff |
| CircuitBreaker.EvictIsFilter | src/economy/circuit-breaker.ts:116-121 | dropping a stale prefix is filtering, when the clock does not go back |
| CircuitBreaker.Reachable | src/economy/circuit-breaker.ts:45-132 | every reachable closed breaker has its window within the threshold, and every half-open one has used its probe |
| CircuitBreaker.ClosedAdmits | src/economy/circuit-breaker.ts:66-67 | a closed breaker always admits |
| CircuitBreaker.NewBreakerAdmitsExactly | src/economy/circuit-breaker.ts:66-67 | a new breaker admits exactly when its threshold is not negative |
| CircuitBreaker.HalfOpenAdmitsOnce | src/economy/circuit-breaker.ts:58-64 | after the probe nothing is admitted until a cost is recorded or the breaker reset |
| CircuitBreaker.CooldownIsKept | src/economy/circuit-breaker.ts:49-56 | nothing is admitted for cooldownMs after a trip, whatever is called in between, short of a reset |
| CircuitBreaker.CooldownEndsExactly | src/economy/circuit-breaker.ts:49-64 | after a trip the next request is admitted exactly when the cooldown is over, and then leaves the breaker half-open with its probe used; until then it stays open |
| CircuitBreaker.RecordDecidesExactly | src/economy/circuit-breaker.ts:71-93 | a recorded cost trips a breaker that is not open exactly when the spend of the window exceeds the threshold, and closes it otherwise; an open one stays open |
| CircuitBreaker.ClosedAdmitsExactly | src/economy/circuit-breaker.ts:66-67 | a closed breaker admits exactly when the spend of the window is within the threshold, for any costs |
| CircuitBreaker.ClosedHasNoTime | src/economy/circuit-breaker.ts:49-93 | in every run the breaker is closed exactly while no opening time is stored |
| EconomyRouter.EconomyRouter.RecordCycle | src/economy/economy-router.ts:105-125 | new history and circuit after a recorded cycle |
| EconomyRouter.EconomyRouter.CanProceed | src/economy/economy-router.ts:174-208 | answer and new state, with the projected amounts that exceed a budget |
| EconomyRouter.EconomyRouter.SumSince | src/economy/economy-router.ts:150-164 | the sum of the costs not older than the cutoff |
| EconomyRouter.BudgetsAreKept | src/economy/economy-router.ts:166-208 | if each admitted cycle records at most its estimate before the next admission, hourly and monthly spend stay within budget at every time and the circuit never opens |
| EconomyRouter.CooldownIsKept | src/economy/economy-router.ts:174-185 | once a recorded cost opens the circuit nothing is admitted for the whole cooldown, whatever is called in between |
| EconomyRouter.CooldownEndsExactly | src/economy/economy-router.ts:174-208 | after an opening the next request leaves the circuit open exactly while the cooldown runs; afterwards it is judged by the two budgets alone |
| EconomyRouter.ClosedAnswersExactly | src/economy/economy-router.ts:187-207 | with the circuit closed, the refusal names the first budget that the spend plus the estimate exceeds, and without one the cycle may proceed |
| EconomyRouter.RecordOpensExactly | src/economy/economy-router.ts:115-125 | a recorded cost opens a closed circuit exactly when the hourly spend exceeds the budget |
| EconomyRouter.OpenCircuitHasTime | src/economy/economy-router.ts:116-119 | in every run the circuit is open exactly while an opening time is stored |
| EconomyRouter.ConcurrentAdmissionsOverspend | src/economy/economy-router.ts:174-208 | without that discipline two admissions spend twice the hourly budget and open the circuit |
| EconomyRouter.InFlightIsSafeExactly | src/economy/economy-router.ts:174-208 | for any number of cycles in flight, every way of completing them within their estimates keeps both budgets, if and only if the spend so far plus all those estimates fits both |
| EconomyRouter.ReservedIsSafe | src/economy/economy-router.ts:105-125 | and then a closed circuit stays closed |
| EconomyRouter.RunTenant | src/economy/economy-router.ts:210-223 | operations on a tenant's router never change its parent |
| ReplayGuard.VerifyEvent | src/auth/verify-event.ts:77-124 | the verdict and the new store, with a store and without: unknown source, wrong signature and clock skew exactly when their own check is the first to fail; rejections before the nonce leave the store alone |
| ReplayGuard.VerdictExactly | src/auth/verify-event.ts:82-124 | in any run, with a store or without: when each of the three checks rejects, that only genuine and timely events are accepted, and without a store exactly those unless one is required |
| ReplayGuard.InMemoryNonceStore.SetNX | src/auth/nonce-store.ts:33-45 | the sweep leaves exactly the unexpired claims, and the key is claimed if and only if it was not among them |
| ReplayGuard.AcceptedExactly | src/auth/verify-event.ts:111-121 | with a store an event is accepted exactly when it comes from a known source, is signed, is timely, and no acceptance of its key is younger than the TTL |
| ReplayGuard.AcceptancesAreSpaced | src/auth/verify-event.ts:39-43 | two acceptances of one key claim it at least a TTL apart |
| ReplayGuard.SameStampAcceptances | src/auth/verify-event.ts:104-115 | two acceptances of one parsable timestamp need twice the skew plus the second call's delay to reach the TTL, and at equality they are at the two ends of the window |
| ReplayGuard.ReplayPossibleExactly | src/auth/verify-event.ts:82-121 | an event can be accepted twice if and only if it is genuine and: with a store, its timestamp does not parse or twice the skew plus the delay within a call reaches the TTL; without one, a store is not required and the skew check can pass |
| ReplayGuard.DefaultsAllowReplay | src/auth/verify-event.ts:39-43 | with the default skew a genuine event can be accepted twice, without a store and with one |
| CostLedger.CostAccountingPort.Finish | src/economy/cost-accounting-port.ts:186-203 | a finished call, successful or not, is posted to its own cell and nothing else changes in the account of finished calls |
| CostLedger.AmountsAreReported | src/economy/cost-accounting-port.ts:112-126 | every amount of an account adds up what its calls reported: one call each, one error per call that threw or finished with an error, and the tokens, costs and times |
| CostLedger.PostedTo | src/economy/cost-accounting-port.ts:187-188 | a call is posted to the cycle and worker it names, and to "unknown" where it names none |
| CostLedger.CostAccountingPort.AddUsage | src/economy/cost-accounting-port.ts:112-126 | the cell grows by the call field by field, created from zero when missing |
| CostLedger.CostAccountingPort.TakeSnapshot | src/economy/cost-accounting-port.ts:214-225 | totals are the sum over all calls since the last reset, both groupings add up to them and carry the wildcard in the other id, errors are at most calls, the hit ratio is the share of cache reads in [0, 1], and each record is exact when no keys collide |
| CostLedger.GroupBy | src/economy/cost-accounting-port.ts:139-155 | one record per distinct id in order of first use, holding the sum of its cells |
| CostLedger.GroupingConserves | src/economy/cost-accounting-port.ts:139-155 | a selection made on ids has the same sum before and after grouping |
| CostLedger.LedgerStep | src/economy/cost-accounting-port.ts:175-183 | after one more call the cells are the grouping of the longer list of calls |
| CostLedger.AttributionIsExact | src/economy/cost-accounting-port.ts:175-183 | when no keys collide, the cells of a cycle or worker hold exactly its calls |
| CostLedger.KeysCollideExactly | src/economy/cost-accounting-port.ts:82-176 | two keys are equal exactly for the same cycle and worker, or when one cycle id continues the other by a separator and a piece that the other worker id starts with |
| CostLedger.SeparatorFreeIsEnough | src/economy/cost-accounting-port.ts:82-176 | cycle ids without the separator never collide, whatever the worker ids |
| CostLedger.CellsAreOwnExactly | src/economy/cost-accounting-port.ts:175-183 | every finished call has a cell under its own cycle and worker that holds exactly their calls, if and only if no two finished calls with different ids share a key |
| CostLedger.CollisionMergesCells | src/economy/cost-accounting-port.ts:175-183 | after two calls with colliding keys the ledger has one cell, under the first call's ids, and the second cycle has nothing |
| CostLedger.TotalBounds | src/economy/cost-accounting-port.ts:112-126 | errors never outnumber calls, and token sums stay non-negative when the tokens are |
| Coherence.Cosine | src/budget/semantic-coherence.ts:56-71 | the loop computes the cosine, which lies in [-1, 1], and 0 for a zero vector |
| Coherence.CosineRange | src/budget/semantic-coherence.ts:52-71 | in every dimension cosine lies in [-1, 1] (Cauchy-Schwarz), is symmetric, and is 1 exactly for vectors pointing the same way |
| Coherence.CosineScales | src/budget/semantic-coherence.ts:56-71 | cosine times both lengths is the dot product, also for vectors of length zero, whose cosine is 0 |
| Coherence.MeanPairwiseCosine | src/budget/semantic-coherence.ts:77-88 | the nested loops average the cosines of all unordered pairs and the mean lies in [-1, 1] |
| Coherence.RowsArePairs | src/budget/semantic-coherence.ts:81-86 | row by row, every unordered pair is visited once |
| Coherence.MeanPairwiseRange | src/budget/semantic-coherence.ts:73-88 | the mean over n(n-1)/2 pairs lies in [-1, 1] |
| Coherence.MeanIsOneExactly | src/budget/semantic-coherence.ts:77-88 | the mean is 1 exactly when there are two embeddings at least and any two have cosine 1, and 0 below two |
| Coherence.SemanticCoherenceTracker.Observe | src/budget/semantic-coherence.ts:137-170 | the two errors exactly when the source throws them, without effect; otherwise a verdict on the last windowSize accepted embeddings |
| Coherence.CreateTracker | src/budget/semantic-coherence.ts:115-129 | the two configuration errors exactly when the source throws them |
| Progress.PromiseProgressTracker.Observe | src/budget/promise-progress.ts:85-110 | promise in [-1, 1], delta to the previous one, plateau verdict as defined on the whole history, earlier history unchanged |
| Progress.PromiseProgressTracker.CurrentSnapshot | src/budget/promise-progress.ts:112-119 | the latest promise and delta, or zeros, and the same plateau verdict |
| Progress.PromiseProgressTracker.DetectPlateau | src/budget/promise-progress.ts:151-154 | the sliding window answers for the last windowSize deltas of the whole history |
| Progress.PlateauBoundsDrift | src/budget/promise-progress.ts:147-154 | on a plateau the net promise change over the window is below windowSize * epsilon |
| Progress.PlateauBoundsPairs | src/budget/promise-progress.ts:147-154 | any two promises the window spans differ by less than epsilon per step between them |
| Progress.DriftBoundIsTight | src/budget/promise-progress.ts:147-154 | every smaller change is made by a steady climb of numbers the detector calls a plateau |
| Progress.DriftBoundIsReached | src/budget/promise-progress.ts:85-154 | when the climb starts and ends in [-1, 1], some outputs have it as their promises |
| Progress.EveryHistoryIsReachable | src/budget/promise-progress.ts:91-101 | every history of promises in [-1, 1] is that of some outputs against one goal |
| Progress.EmptyWindowIsAlwaysPlateau | src/budget/promise-progress.ts:151-154 | without a positive window every run is a plateau |
| Progress.NoPlateauWithoutEpsilon | src/budget/promise-progress.ts:147-154 | with a positive window and an epsilon of at most zero no history is a plateau |
| Progress.PlateauIsDocumentedExactly | src/budget/promise-progress.ts:39-40 | the strict test and the documented closed interval disagree exactly when all window deltas are within epsilon and one of them is epsilon or its negative |
| Progress.DifferenceIsReachedExactly | src/budget/promise-progress.ts:85-154 | some goal and outputs make the two disagree if and only if 0 <= epsilon <= 2 |
| Progress.SimilaritySign | src/budget/promise-progress.ts:36-37 | a promise is at least 0 exactly when the dimensions differ or the dot product is at least 0 |
| Progress.SimilarityIsZeroExactly | src/budget/promise-progress.ts:36-37 | a promise is 0 exactly when the dimensions differ or the dot product is 0 |
| Progress.ProgressAddsUp | src/budget/promise-progress.ts:38-39 | the deltas add up to the change since the first promise: positive is toward the goal |
| Progress.StandstillIsPlateauExactly | src/budget/promise-progress.ts:39-42 | a run that stands still is a plateau exactly once it has as many observations as the window |
| Progress.ObserveThenRead | src/budget/promise-progress.ts:85-119 | what an observation answers is what the current snapshot shows next |
| Conversation.ConversationContext.StartCompact | src/conversation/context.ts:196-220 | up to the await: nothing to wait for when few enough turns are live, otherwise the turns it started from |
| Conversation.ConversationContext.FinishCompact | src/conversation/context.ts:222-240 | after the await, on whatever state the context has by then: the new turns, summaries and report |
| Conversation.ConversationContext.Compact | src/conversation/context.ts:196-241 | both halves with nothing in between: new turns and summaries, the report, and no change when nothing is old enough or the model fails |
| Conversation.ConversationContext.MaybeCompact | src/conversation/context.ts:251-262 | compaction runs exactly when the fill ratio exceeds the threshold; then it fails exactly when the model is asked and fails, and otherwise answers true |
| Conversation.ConversationContext.EstimatedTokens | src/conversation/context.ts:181-190 | the loops compute the sum of the rounded-up quarters |
| Conversation.HistoryIsAccountedFor | src/conversation/context.ts:112-241 | over any additions and compactions the summarised blocks followed by the live turns are the full history, each summary counts its own block and is the model's answer to it, and older blocks never change |
| Conversation.TurnsAreConserved | src/conversation/context.ts:224-232 | the turn counts of the summaries plus the live turns count every turn added |
| Conversation.LiveTurnsAreRecent | src/conversation/context.ts:192-212 | the live turns are the most recent ones, and a compaction leaves exactly min(n, max(keepLast, 0)) of them |
| Conversation.CompactionShrinksExactly | src/conversation/context.ts:177-240 | the estimate falls exactly when the summary costs fewer tokens than the turns it replaces |
| Conversation.RoundingGap | src/conversation/context.ts:181-214 | the block estimate rounded once is at most the per-turn estimate and less than one token per turn below it |
| Conversation.OriginalTokens | src/conversation/context.ts:213-231 | a summary gives for its block a quarter of the characters, rounded up once |
| Conversation.TurnsAddedMeanwhile | src/conversation/context.ts:222-232 | turns added while the summary is awaited are dropped; the outcome is compact-then-add exactly when there were none |
| Conversation.InterleavedIsKeptExactly | src/conversation/context.ts:196-241 | under any interleaving of additions and overlapping compactions, blocks and live turns spell the history at every moment exactly when each summary arrives on the turns its compaction started from |
| Conversation.BlocksDescribed | src/conversation/context.ts:224-231 | under any interleaving each summary counts the turns of its own block |
| Conversation.InterleavedIsConservedExactly | src/conversation/context.ts:224-232 | the turn counts add up at every moment exactly when each summary arrives on as many live turns as its compaction started from |
| Conversation.SurplusStep | src/conversation/context.ts:224-232 | an arriving summary changes the count by the live turns at its start less those now |
| Conversation.OverlapCountsTwice | src/conversation/context.ts:211-232 | two compactions of the same turns in flight count the summarised block twice |
| Conversation.RestoreAndReplay | src/conversation/context.ts:267-290 | a restored context and the original hold the same state after any later additions and compactions, independently of each other |
| Conversation.ConversationContext.FromJSON | src/conversation/context.ts:280-290 | an error exactly for versions other than 1, otherwise turns, summaries and size of the snapshot and no resolver |
| Conversation.RestoredDecidesAlikeExactly | src/conversation/context.ts:251-291 | a restored context takes the original's compaction decisions on every conversation if and only if both windows lead to the same token limit |
| Conversation.FiresAbove | src/conversation/context.ts:256-257 | the ratio test fires exactly above a whole number of tokens |
| Conversation.WindowIgnoresSuffix | src/conversation/context.ts:251-255 | what follows an `@` in the model name never changes the window, and a resolver is asked for the base name first |
| Conversation.RestoredMayCompactEarlier | src/conversation/context.ts:253-257 | a conversation the original leaves alone and the restored context compacts |
| Digest.BuildAlertDigest | src/alerts/digest.ts:164-238 | no message for no items, one per item up to the threshold, one digest above it |
| Digest.FillBody | src/alerts/digest.ts:206-231 | the loop shows the longest run of lines that leaves the reserve free, and shown plus truncated is the number of items |
| Digest.DigestLines | src/alerts/digest.ts:181-190 | the body lines are a prefix of one line per item, rank by rank in the configured order |
| Digest.SortIsRankByRank | src/alerts/digest.ts:78-83 | the comparator sort lists the severities in configured order, unlisted ones last, each in input order |
| Digest.BuildHeader | src/alerts/digest.ts:123-139 | the header with the non-zero counts in configured order |
| Digest.BreakdownInOrder | src/alerts/digest.ts:130-138 | a listed severity that occurs has its count at its place in the configured order, the others none |
| Digest.HeaderText | src/alerts/digest.ts:137-139 | the text of the header around those counts |
| Digest.DecimalDenotes | src/alerts/digest.ts:133-139 | a count is written in digits that denote it, without a leading zero |
| Digest.LineText | src/alerts/digest.ts:208-212 | the text of a line with reference and component, and without |
| Digest.FullIndividualText | src/alerts/digest.ts:109-117 | the text of an individual message with all its details |
| Digest.CountSeverities | src/alerts/digest.ts:192-195 | the map counts every severity that occurs |
| Digest.CountsAddUp | src/alerts/digest.ts:130-138 | for a severity order without repetitions the counts of the header and the unlisted items add up to the total |
| Digest.HeaderLeadsWithFirstItem | src/alerts/digest.ts:135-136 | the head emoji is the one of the first body line, except that an unlisted or empty severity gets the bullet |
| Digest.LayoutLength | src/alerts/digest.ts:201-237 | the exact length of a digest with k lines, count line and pointer, for any number of items |
| Digest.LayoutEnds | src/alerts/digest.ts:233-237 | the header comes first, the pointer last, and the count of the others right after the lines shown |
| Digest.CapHoldsExactly | src/alerts/digest.ts:69-72 | below 10^7 items the cap holds exactly when the first line fits or header, count line and pointer already do |
| Digest.CapHolds | src/alerts/digest.ts:201-225 | below 10^7 items, header + pointer + 16 <= maxChars suffices |
| Digest.ShownIsMaximal | src/alerts/digest.ts:218-228 | no longer body leaves the reserve free |
| Digest.AllShownExactly | src/alerts/digest.ts:217-231 | everything is shown exactly when the full text fits and the reserve is free before the last line |
| DriftLens.PrefixIsComponentPrefix | src/delivery/drift-lens.ts:84-96 | "equal or starts with prefix and slash" holds exactly when the prefix's components begin the file's components |
| DriftLens.SplitExactly | src/delivery/drift-lens.ts:77-80 | splitting is the only way to write a string as separator-free parts joined by the separator |
| DriftLens.ScopeIsContainment | src/delivery/drift-lens.ts:70-96 | an accepted file, walked from any worktree, ends inside the directory its allowed path names |
| DriftLens.CanonicalScopeIsContainment | src/delivery/drift-lens.ts:84-96 | between paths without empty, `.` and `..` components the test is containment in both directions |
| DriftLens.ContainmentIsNotScope | src/delivery/drift-lens.ts:90-96 | a path through `.` names an allowed file and is rejected |
| DriftLens.NormaliseGitPath | src/delivery/drift-lens.ts:74-82 | null exactly for absolute paths and paths with a `..` component |
| DriftLens.MatchesAllowedPrefix | src/delivery/drift-lens.ts:90-96 | true exactly when some allowed path, without one trailing slash, covers the file component-wise |
| DriftLens.TrailingSlashIsIgnored | src/delivery/drift-lens.ts:84-96 | an allowed path with one slash at its end covers exactly the path itself and what lies below it |
| DriftLens.CheckInputs | src/delivery/drift-lens.ts:131-212 | passes exactly on valid inputs, and otherwise reports the first failing guard in source order |
| DriftLens.ReasonIsFirst | src/delivery/drift-lens.ts:131-212 | what each reason says about the inputs |
| DriftLens.HexRefExactly | src/delivery/drift-lens.ts:63-68 | a commit reference is 7 to 40 of the characters 0 to 9 and a to f |
| DriftLens.DiffIsOfTheRange | src/delivery/drift-lens.ts:214-221 | what is executed asks for the names changed from the base to the head, in the worktree |
| DriftLens.FindViolations | src/delivery/drift-lens.ts:243-255 | the loop collects exactly the files out of scope, in diff order |
| DriftLens.ViolationsExactly | src/delivery/drift-lens.ts:243-255 | a file is reported exactly when it was changed and is out of scope |
| DriftLens.TrimExactly | src/delivery/drift-lens.ts:236-239 | trimming takes blank ends and leaves none |
| DriftLens.Evaluate | src/delivery/drift-lens.ts:130-268 | score 1 exactly when the inputs validate, git succeeds and every non-blank trimmed line is in scope, otherwise 0; the reason is the first failing guard, what went wrong with git, or the files out of scope |
| ApprovalStore.InMemoryApprovalStore.Create | src/hitl/approval-channel.ts:155-160 | a new entry, or the duplicate error without effect |
| ApprovalStore.InMemoryApprovalStore.Resolve | src/hitl/approval-channel.ts:167-173 | true exactly on a pending request, which then holds the verdict |
| ApprovalStore.InMemoryApprovalStore.Cancel | src/hitl/approval-channel.ts:175-180 | true exactly on a pending request, which is then cancelled |
| ApprovalStore.InMemoryApprovalStore.ExpireOverdue | src/hitl/approval-channel.ts:182-191 | exactly the overdue pending requests time out, and the count is theirs |
| ApprovalStore.SettledIsFinal | src/hitl/approval-channel.ts:128-145 | over any run a request is never dropped and a settled one never changes again |
| ApprovalStore.AtMostOneChange | src/hitl/approval-channel.ts:167-191 | over any run a request changes once if it left pending and otherwise never |
| ApprovalStore.FirstWriterWins | src/hitl/approval-channel.ts:132-141 | after a successful settlement every later one on that request fails, whatever happens in between |
| ApprovalStore.VerdictsFitExactly | src/hitl/approval-channel.ts:155-180 | verdicts mark exactly the resolved requests throughout a run if and only if every accepted entry was consistent |
| ApprovalStore.UncheckedEntryStays | src/hitl/approval-channel.ts:155-160 | an entry accepted as resolved without a verdict stays so in every run |
| ApprovalStore.RequestsAreConserved | src/hitl/approval-channel.ts:152-191 | requests created pending equal those still pending plus successful resolves, cancels and all expiry counts |
| ApprovalStore.StatusesAreCounted | src/hitl/approval-channel.ts:152-191 | the requests in each settled status are those that arrived in it and those its own operation moved there |
| ApprovalStore.SweepIsComplete | src/hitl/approval-channel.ts:182-191 | after a sweep nothing pending is overdue, and a sweep at an earlier time finds nothing |

## Left out

- `compactToolLog`, `detectLoop`, `createCoherenceDetector` and `createBudgetState`: slices and counters settled by reading one body.
- `selectTier`, event publishing and the circuit callback of the economy router: table lookup and output.
- `RedisNonceStore`, and every other network, file, process or database client.
- `stream` and `estimateCost` of the accounting port: passed through without accounting.
- `toMessages` and the wording of the summary prompt; the summariser is a function of the turns it is given.
- `listAll` of the approval store, the approval channels, and copying of entries against later mutation by the caller.
- HMAC, canonical JSON and date parsing: the signature and the parsed date are functions of the event.
- JSON text syntax and UTF-8 decoding: one line decodes by a parameter, as section 3 of RFC 3629 allows for a split at byte 10.
- Floating point: rounding, infinities, negative zero, and NaN other than as an explicit result or an unparsable date.
- Non-integer values of keepTopK, maxConcurrency, windowSize, keepLast and millisecond times.
- The default emoji map, default thresholds and default severity order: configuration is a parameter.
- The values in the table of built-in context windows and in the set of known event sources: constants, about which nothing is proved.
- Paths on Windows, symbolic links, and file names that begin or end with white space (the lens trims them).
- The regular expression for tool errors and the score formula of the compaction: the score is any function of a unit and its turns from the end.
- ReplayGuard.ReplayPossibleExactly: assumes a clock that does not go back.
- Fan.ResultsInInputOrder: steps are settled evaluations; what a worker does between two awaits is one step, as the event loop guarantees.
- Digest.CapHoldsExactly: at 10^7 items or more the count line can outgrow the reserve; `Digest.LayoutLength` gives the exact length there.
- EconomyRouter.BudgetsAreKept: assumes a clock that does not go back, non-negative costs and budgets, and one cycle in flight.
- EconomyRouter.InFlightIsSafeExactly: assumes non-negative costs and estimates, and a clock that does not go back while the cycles complete.
- CircuitBreaker.Reachable: assumes non-negative costs and a non-negative threshold.
- CircuitBreaker.WindowIsFilteredHistory: assumes a clock that does not go back.
- Conversation.RestoredDecidesAlikeExactly: assumes a resolver that does not return a negative window.
- Conversation.ConversationContext.Compact: runs without another operation between its start and the arrival of the summary; `StartCompact` and `FinishCompact` are its halves, and the interleaving lemmas cover everything that can happen between them.
- StdioServer.OneResponsePerRequest: assumes that the JSON text of each response the server writes parses back to it; the text syntax is a parameter.
- StdioServer.AnswersComeBack: assumes in addition that those texts are encoded without a newline byte and decode to themselves.
- Names inherited by plain JavaScript objects, such as `constructor`, as model names, severities or JSON keys.
- ToolLog.CompactToolLogDecay: messages are values, so that the result is a new array of the same message objects is not stated.
