# Verified engines of the agent-business platform

A Dafny model of the small deterministic engines that carry the guarantees of the platform, with
proofs over every input, every run and every interleaving. Code that updates state in place is
modelled by classes and loops proved against specification functions; what the source promises is
then proved about those functions.

| engine | files |
|---|---|
| Asynchronous ideation runner: a registry, active slots and per-run queues changed by starts, coroutine stretches, worker callbacks, a timeout and a halt check | `IdeationProtocol.dfy` (steps and invariant), `IdeationSafety.dfy` (each step keeps it), `IdeationTheorems.dfy` (whole runs), `IdeationRunner.dfy` (the object) |
| Content planning: largest-remainder apportionment, platform rotation, reweighting | `StableOrder.dfy`, `Apportionment.dfy`, `Social.dfy` |
| Capital allocation: a greedy pass under a moving budget | `Portfolio.dfy`, `PortfolioTheorems.dfy` |
| Experiments: idempotent persist-and-emit, and two read models that must agree | `Experiments.dfy`, `ReadModels.dfy` |
| Audit log: canonical JSON with its reader, hash chain, concurrent appenders | `CanonicalJson.dfy`, `Audit.dfy`, `AuditAppenders.dfy` |
| Ledger and money path: double entry, the relational refinement under concurrent posts, gated payments and metered model calls | `Ledger.dfy`, `LedgerStore.dfy`, `LedgerConcurrency.dfy`, `Factory.dfy`, `Gateway.dfy`, `GatewayTheorems.dfy` (each operation), `GatewayRuns.dfy` (whole runs), `GatewayConcurrency.dfy` (calls that overlap) |
| Authority routing and the publish gate | `Org.dfy` |
| Product delivery: gated stages, personal-data gate, slugs, charters, scaffolds | `Text.dfy`, `SdlcPipeline.dfy`, `ProductSlug.dfy`, `ProductCharter.dfy` |

`Common.dfy` holds shared value types, string order, sums and counts. `dafny verify dfyconfig.toml`
checks everything.

Where the code does not meet what one would expect of it, the model keeps the code's behaviour and
states the exact condition:

- A halt check that raises leaves its run RUNNING for good, with no terminal frame
  (`RaisedRunsForGood`, `NoTerminalIffRaised`), and a business has two RUNNING runs at some point iff
  it was started after such a raise (`TwoRunningIffRaised`, reachable by `RaiseReachable`).
- The funded set is optimal iff no funded score is negative; a negative winning threshold allows
  one (`NegativeScoreNotOptimal`). An increment of zero or less funds all winners or none.
- Businesses that share an id share one decision: that of the winner ranked last with the id, or else
  of the last in the list (`WhoseDecision`); when a business keeps its own is stated by
  `LoserKeepsOwnIff` and `WinnerKeepsOwnIff`.
- The hash chain does not notice that the newest rows were dropped (`ChainedPrefix`).
- The relational ledger refuses a fresh key with a used transaction id, which the in-memory ledger
  applies (`PostRefines`, reachable by `ClashReachable`).
- A model call whose cost exceeds the ledger's cap is refused after the model has run
  (`CompleteExactly`, `UnmeteredCallReachable`), and model calls can overdraw cash
  (`ModelCallMayOverdraw`, `OverdraftReachable`).
- A payment scoped to no business passes no gate, even if its source is an account of a business
  (`UnscopedTakes`). The calls of a business cost what its meter says iff no such payment was booked
  from the meter, and then stay within the budget (`CostWithinBudgetIff`); otherwise they can cost more
  (`BudgetExceededReachable`).
- The gates of overlapping calls read balances that others still change: with k calls of a business in
  flight its budget can be exceeded by k - 1 times the cap, its cash by k - 1 payments, and by no more
  (`OvershootBounded`, `OvershootReached`, `ShortfallBounded`, `ShortfallReached`).
- A payment whose event was not published is never announced: its replay is silent (`LostForGood`).
- The charter consistency check does not compare the stack (`RestackedIsConsistent`).

What comes from outside enters as parameters: the outcome of model calls, the halt check, kill
switch and compliance answers, whether a publish succeeds, UUIDs (assumed not to repeat), the MAC (a
function to hex digests; no collision-freedom is assumed: where it would be needed, a theorem returns
two colliding MAC inputs of rows of the very logs it speaks of), the lower-casing of
characters (any function that is right on ASCII).

## Model

| member | source | states |
|---|---|---|
| IdeationProtocol.EvictsOldestInactive | src/ab_growth/ideation_runner.py:296-304 | Eviction terminates and removes exactly the oldest inactive runs in insertion order: as many as exceed the cap, or all there are; everything active or younger stays. |
| IdeationProtocol.DropKeeps | src/ab_growth/ideation_runner.py:296-304 | Eviction registers nothing new, repeats nothing and never drops an active run. |
| IdeationProtocol.DropReachesCap | src/ab_growth/ideation_runner.py:298-304 | If the cap is still exceeded after eviction, every run left is active. |
| IdeationSafety.StepKeeps | src/ab_growth/ideation_runner.py:130-304 | Every step of every interleaving (start, coroutine stretches, worker callbacks, timeout, halt check) keeps the registry, slot, queue and status invariant. |
| IdeationSafety.StartKeeps | src/ab_growth/ideation_runner.py:130-141 | A start, with its eviction, keeps the invariant: no not-yet-started or active run is lost. |
| IdeationSafety.PreCheckKeeps | src/ab_growth/ideation_runner.py:182-190 | The halt check keeps it whether it passes, halts or raises. |
| IdeationSafety.DeliverKeeps | src/ab_growth/ideation_runner.py:177-180 | Delivering a progress frame or the pipeline outcome keeps it, also after a timeout. |
| IdeationSafety.FinishKeeps | src/ab_growth/ideation_runner.py:187-190 | The `finally` block keeps it: a late one never clears the slot of a newer run. |
| IdeationTheorems.Reachable | src/ab_growth/ideation_runner.py:130-304 | The invariant holds in every state any interleaving reaches from the empty registry. |
| IdeationTheorems.OneLiveRunPerBusiness | src/ab_growth/ideation_runner.py:131-140 | Each business has at most one live run; live runs are registered; each active entry names a registered, unfinished run of its own business. |
| IdeationTheorems.LookupsNeverFail | src/ab_growth/ideation_runner.py:132-160 | The registry lookups of `start` and of a new coroutine never fail. |
| IdeationTheorems.StartAttachesIffLive | src/ab_growth/ideation_runner.py:130-141 | A start re-attaches to a run iff that is the live run of the business, and then changes nothing; else it launches a run nobody has seen, registered, waiting to begin and in the slot. |
| IdeationTheorems.LaunchEvicts | src/ab_growth/ideation_runner.py:136-141 | A launch evicts nothing while the cap allows one more; else just so many of the oldest inactive runs that the cap is met, or all of them if that is not enough. |
| IdeationTheorems.RegistryBounded | src/ab_growth/ideation_runner.py:296-304 | In every reachable state at most `max_runs` runs are registered, or all of them belong to different businesses. |
| IdeationTheorems.NeverStuck | src/ab_growth/ideation_runner.py:159-229 | A run that is not finished can always take another step. |
| IdeationTheorems.MarksAreHistory | src/ab_growth/ideation_runner.py:182-204 | The history flags the other results read are what happened: the halt check raised, the whole-run timeout fired, among the steps so far. |
| IdeationTheorems.ProgressKept | src/ab_growth/ideation_runner.py:177-180 | Over every run: the progress in the queue, followed by what the event loop has still to deliver, is what the worker reported, in order, none lost and none repeated. |
| IdeationTheorems.OneRunningRun | src/ab_growth/ideation_runner.py:130-141 | Two RUNNING runs of one business occur only if the halt check of one of them raised. |
| IdeationTheorems.RaisedRunsForGood | src/ab_growth/ideation_runner.py:182-190 | A run whose halt check raised is RUNNING ever after: finished, its queue `started` and the sentinel alone, no result, no reason. |
| IdeationTheorems.NoTerminalIffRaised | src/ab_growth/ideation_runner.py:182-190 | A finished run has a terminal frame in its queue iff its halt check did not raise. |
| IdeationTheorems.StartAfterRaise | src/ab_growth/ideation_runner.py:130-141 | Every start of a business after one of its halt checks raised leaves two RUNNING runs of it. |
| IdeationTheorems.TwoRunningNeedsRaise | src/ab_growth/ideation_runner.py:130-141 | Two RUNNING runs of a business occur only if it was started after a raise. |
| IdeationTheorems.TwoRunningIffRaised | src/ab_growth/ideation_runner.py:130-190 | Along every run of the system a business has two RUNNING runs at some point iff it was started after one of its halt checks raised. |
| IdeationTheorems.RaiseReachable | src/ab_growth/ideation_runner.py:130-190 | That happens under every configuration and for every business: a reachable state with two RUNNING runs. |
| IdeationTheorems.FinishedStream | src/ab_growth/ideation_runner.py:143-151 | A finished run whose halt check did not raise queued `started`, the progress its worker reported in order, exactly one terminal frame that reports its status, exactly one sentinel after it; a consumer sees the frames up to the sentinel; unless its timeout fired, all that was reported stands before the terminal frame. |
| IdeationTheorems.UnfinishedStream | src/ab_growth/ideation_runner.py:163-216 | An unfinished run has no sentinel yet, a terminal frame iff it has reported, and as progress what its worker reported but for what is still to be delivered. |
| IdeationTheorems.ScanShape | src/ab_growth/ideation_runner.py:143-151 | The stream automaton agrees with the frame-by-frame form of the queue. |
| IdeationTheorems.StepWritesStatusOnce | src/ab_growth/ideation_runner.py:212-246 | A step changes a status only from RUNNING and together with the terminal frame that reports it. |
| IdeationTheorems.NothingRecordedYet | src/ab_growth/ideation_runner.py:203-246 | A run has neither result nor reason while it is RUNNING. |
| IdeationTheorems.HoldsLastPool | src/ab_growth/ideation_runner.py:285-285 | While a run is RUNNING its partial result is the last pool its worker showed. |
| IdeationTheorems.EndsAsItMust | src/ab_growth/ideation_runner.py:182-264 | Over every run: the step that ends a RUNNING has exactly one cause among the steps taken (halted check, timeout, outcome the worker ended with), leaves exactly the status, reason and result that cause calls for given the last pool the worker showed, and no other step ends it. |
| IdeationTheorems.StatusFrozen | src/ab_growth/ideation_runner.py:203-246 | Once written, status, result and reason stay for the rest of the run, however late progress arrives. |
| IdeationTheorems.SlotKept | src/ab_growth/ideation_runner.py:188-190 | Until a run reports, nobody else frees or takes its slot, and it stays registered. |
| IdeationRunner.InProcessIdeationRunner.constructor | src/ab_growth/ideation_runner.py:106-126 | A new runner is empty and satisfies the invariant. |
| IdeationRunner.InProcessIdeationRunner.EvictOldest | src/ab_growth/ideation_runner.py:296-304 | The nested loops compute the specified eviction. |
| IdeationRunner.InProcessIdeationRunner.Start | src/ab_growth/ideation_runner.py:130-141 | Re-attaches to the run in flight or registers, evicts and schedules a new one: exactly the protocol step. |
| IdeationRunner.InProcessIdeationRunner.Begin | src/ab_growth/ideation_runner.py:160-163 | Finds the run and queues `started`. |
| IdeationRunner.InProcessIdeationRunner.Fail | src/ab_growth/ideation_runner.py:231-246 | Writes status, reason, partial result if any, and the terminal frame. |
| IdeationRunner.InProcessIdeationRunner.Finally | src/ab_growth/ideation_runner.py:187-190 | Frees the slot only if it still names this run, then queues the sentinel. |
| IdeationRunner.InProcessIdeationRunner.PreCheck | src/ab_growth/ideation_runner.py:182-190 | Starts the worker, fails as halted, or runs only the `finally` block if the check raises. |
| IdeationRunner.InProcessIdeationRunner.EmitStep | src/ab_growth/ideation_runner.py:177-180 | Hands a progress frame to the event loop. |
| IdeationRunner.InProcessIdeationRunner.SetPartial | src/ab_growth/ideation_runner.py:285-285 | Overwrites the candidate pool snapshot. |
| IdeationRunner.InProcessIdeationRunner.EndPipeline | src/ab_growth/ideation_runner.py:287-294 | Records how the pipeline ended. |
| IdeationRunner.InProcessIdeationRunner.Settle | src/ab_growth/ideation_runner.py:202-217 | Completes the run, or fails it with the reason and partial result its exception calls for. |
| IdeationRunner.InProcessIdeationRunner.DeliverNext | src/ab_growth/ideation_runner.py:177-217 | Runs the oldest callback of the run: queues a progress frame, or settles the run; an outcome after a timeout is dropped. |
| IdeationRunner.InProcessIdeationRunner.OnTimeout | src/ab_growth/ideation_runner.py:198-204 | Fails the run with the gated snapshot while the worker goes on. |
| IdeationRunner.InProcessIdeationRunner.Finish | src/ab_growth/ideation_runner.py:187-190 | The last stretch of the coroutine. |
| IdeationRunner.InProcessIdeationRunner.Stream | src/ab_growth/ideation_runner.py:143-151 | A consumer yields the frames up to the sentinel and ends iff there is one; an unknown or evicted run yields nothing. |
| IdeationRunner.InProcessIdeationRunner.Snapshot | src/ab_growth/ideation_runner.py:153-155 | Returns a run iff it is registered. |
| StableOrder.OrderIs | src/ab_social/core.py:57-57 | The computed order lists every position once, larger keys first, ties by position. |
| StableOrder.OrderUnique | src/ab_portfolio/core.py:96-96 | That order is unique, so any stable sort yields it. |
| Apportionment.Allocate | src/ab_social/core.py:51-60 | The in-place loop computes the largest-remainder allocation. |
| Apportionment.AllocationQuota | src/ab_social/core.py:51-60 | For all positive weights and counts the slots add up to the count exactly and each pillar gets its exact share rounded down or up. |
| Apportionment.SharesProportional | src/ab_social/core.py:54-55 | The exact share of a pillar over the count is its weight over the total weight. |
| Apportionment.RemainderRange | src/ab_social/core.py:56-58 | The leftover is never negative and always smaller than the number of pillars. |
| Apportionment.LuckyHasFraction | src/ab_social/core.py:57-59 | No pillar whose share is whole is rounded up. |
| Apportionment.HeavierNotFewer | src/ab_social/core.py:51-60 | A heavier pillar never gets fewer slots. |
| Apportionment.GroupNeverLoses | src/ab_social/core.py:51-60 | Shifting exact shares towards a group of pillars never lowers the slots of the group, for any count and tie pattern. |
| Apportionment.NoSwap | src/ab_social/core.py:57-59 | A pillar whose share grew cannot lose a slot while one whose share shrank gains one. |
| Apportionment.ScaleUpNeverLoses | src/ab_social/optimize.py:55-60 | Multiplying the weights of a group by a factor of one or more never lowers its slots. |
| Apportionment.ScaleDownNeverGains | src/ab_social/optimize.py:55-60 | Multiplying them by a factor of at most one never raises its slots. |
| Apportionment.ScaleUpGains | src/ab_social/optimize.py:55-60 | Unless the group is nobody or everybody, scaling it up strictly raises its slots in every plan from some size on, which is returned. |
| Apportionment.ScaleDownLoses | src/ab_social/optimize.py:55-60 | And scaling it down strictly lowers them. |
| Social.TopFormat | src/ab_social/core.py:73-73 | The format with the largest share, equal shares broken by the larger name. |
| Common.LexLessIff | src/ab_social/core.py:73-73 | Names compare by the first character that differs, and a text comes after its proper prefixes. |
| Social.Plan | src/ab_social/core.py:63-83 | The loops draw exactly the specified plan, or fail as the code does. |
| Social.PlanSize | src/ab_social/core.py:63-83 | A plan has `count` items (none without pillars) and fails iff a slot it must fill has no platform or no format. |
| Social.PlanItems | src/ab_social/core.py:66-82 | Which item stands where: pillars in order, each with its slots in one stretch, platforms in turn by remainder, the top format, business and key message. |
| Social.TurnIsRemainder | src/ab_social/core.py:71-72 | The platform rotation is the slot number modulo the number of platforms. |
| Social.PlatformsBalanced | src/ab_social/core.py:68-72 | Each item is drawn from the platform whose turn it is, with its top format; any two positions of the platform list, whatever their names, have equally many turns, give or take one, earlier ones first. |
| Social.PlatformNamesBalanced | src/ab_social/core.py:68-72 | When the platforms have different names, so each name is used. |
| Social.ReweightScales | src/ab_social/optimize.py:55-60 | Reweighting multiplies the weights of every pillar of that name and no other. |
| Social.OptimizeWeights | src/ab_social/optimize.py:84-88 | SCALE multiplies the weights of the challenger by 3/2 and KILL by 1/2; other weights, names, platforms and the business stay; the other decisions change nothing. |
| Social.OptimizationMovesSlots | src/ab_social/optimize.py:84-88 | SCALE never lowers and KILL never raises the slots of the challenger in the next plan of the same size; the other decisions change nothing. |
| Social.OptimizationBites | src/ab_social/optimize.py:84-88 | If some pillar has the name of the challenger and some another, SCALE strictly raises and KILL strictly lowers its slots in every plan from some size on; if not, no decision moves them in any plan. |
| Portfolio.Triage | src/ab_portfolio/core.py:71-92 | The first loop sunsets, starves or holds everyone but the winners and adds up the reclaimed capital. |
| Portfolio.FundInTurn | src/ab_portfolio/core.py:96-118 | The second loop decides the ranked winners in turn under the moving budget. |
| Portfolio.Allocate | src/ab_portfolio/core.py:56-119 | The whole engine, for any ids: each position gets the last decision written for its id. |
| Portfolio.EveryoneDecided | src/ab_portfolio/core.py:119-119 | The final lookup never fails. |
| Portfolio.RankedIs | src/ab_portfolio/core.py:96-96 | Ranking permutes the winners, higher scores first. |
| PortfolioTheorems.FundedByRank | src/ab_portfolio/core.py:96-118 | A ranked winner is funded iff it is profitable and fewer profitable ones precede it than increments fit the headroom. |
| PortfolioTheorems.NonPositiveIncrement | src/ab_portfolio/core.py:104-111 | With an increment of zero or less, all profitable winners are funded or none. |
| PortfolioTheorems.RankIsPosition | src/ab_portfolio/core.py:96-96 | The place in the ranked list is the number of profitable winners with a higher score, or an equal score and an earlier place in the input. |
| PortfolioTheorems.AllocationExactly | src/ab_portfolio/core.py:74-119 | The whole outcome of each business (action, amount, reason) from its raw counts: sunset iff score and number of experiments condemn it, and a profitable winner is funded iff after one increment for each profitable winner in front of it one more fits the budget less the capital that stays. |
| PortfolioTheorems.FundedCount | src/ab_portfolio/core.py:96-111 | Exactly min(n, headroom div increment) of the n profitable winners are funded. |
| PortfolioTheorems.SlotsAreTheQuotient | src/ab_portfolio/core.py:104-111 | The number of increments that fit is the quotient of headroom and increment. |
| PortfolioTheorems.HeadroomIs | src/ab_portfolio/core.py:94-95 | The headroom is the budget less the capital of the businesses that are not sunset. |
| PortfolioTheorems.WithinBudget | src/ab_portfolio/core.py:94-111 | Capital is conserved and the cap kept: invested is at most max(0, budget less the capital that stays). |
| PortfolioTheorems.FundedIsOptimal | src/ab_portfolio/core.py:96-111 | No other set of profitable winners that fits the headroom has a larger total score, provided no funded score is negative. |
| PortfolioTheorems.NegativeScoreNotOptimal | src/ab_portfolio/core.py:83-84 | That proviso is exact: with a negative funded score a better set fits. |
| PortfolioTheorems.OneMoreMoneyLoser | src/ab_portfolio/core.py:97-111 | Marking one more business unprofitable takes funding from no other; a business gains it iff it was next in line behind exactly the funded and the marked one stood before it. |
| PortfolioTheorems.NextInLineIsUnique | src/ab_portfolio/core.py:97-111 | At most one business can be next in line. |
| PortfolioTheorems.WhoseDecision | src/ab_portfolio/core.py:71-119 | Whatever the ids, whose decision a position gets: that of the winner ranked last with its id if there is one, else that of the last business in the list with its id. |
| PortfolioTheorems.LoserKeepsOwnIff | src/ab_portfolio/core.py:74-92 | A business that is no winner keeps its own verdict iff no winner has its id and the last with its id gets the same verdict. |
| PortfolioTheorems.WinnerKeepsOwnIff | src/ab_portfolio/core.py:96-119 | A ranked winner keeps its own decision iff the winner ranked last with its id has the same score and is funded alike. |
| ReadModels.Rollup | src/ab_portfolio/rollup.py:18-39 | One performance per business with a conclusion, in first-seen order, with its capital and the number of its scale, pivot and kill conclusions in their fields; fails on the first business with negative capital. |
| ReadModels.TallyUp | src/ab_portfolio/rollup.py:24-29 | The loop over the tallies dictionary counts each outcome per business and skips `continue`. |
| ReadModels.SeenIffTallied | src/ab_portfolio/rollup.py:26-28 | Exactly the businesses with a conclusive outcome appear. |
| ReadModels.SeenInOrder | src/ab_portfolio/rollup.py:24-29 | They appear in the order of their first conclusive events. |
| ReadModels.RollupFeedsAllocator | src/ab_portfolio/rollup.py:30-39 | A rollup has distinct ids, as the allocator needs. |
| ReadModels.Accumulate | src/ab_growth/kpis.py:27-36 | The loop over the accumulator counts open, concluded and scaled records and adds budgets per business. |
| ReadModels.ExperimentKpis | src/ab_growth/kpis.py:25-47 | A row for exactly the businesses with a record, sorted by business, with its open, concluded and scaled records, its budgets, and the win rate to the nearest basis point, ties to even. |
| ReadModels.KpisPartition | src/ab_growth/kpis.py:25-47 | The rows split the fleet: open and concluded over all rows are the records, and the budgets add up. |
| ReadModels.ScaledAreConcluded | src/ab_growth/kpis.py:30-36 | Scaled records are among the concluded, and open and concluded records make up all of the business. |
| ReadModels.ConcludedSplits | src/ab_growth/kpis.py:30-34 | In every reachable state the concluded records are those of the four outcomes together. |
| ReadModels.RoundHalfEvenIs | src/ab_growth/kpis.py:43-43 | The win rate is the nearest integer, ties to the even neighbour. |
| ReadModels.WinRateRange | src/ab_growth/kpis.py:43-43 | A win rate lies between 0 and 10000 basis points, with the ends where they belong. |
| ReadModels.KpisOrderFree | src/ab_growth/kpis.py:25-47 | The KPIs, as a list, depend only on which records there are, not on their order. |
| ReadModels.RollupMatchesKpis | src/ab_portfolio/rollup.py:24-39 | Over every run: the scale count the rollup reports plus the conclusions in flight or lost equals the `scaled` the KPI list reports, business by business, if experiments are assembled from their records. |
| ReadModels.QuiescentAgreement | src/ab_portfolio/rollup.py:24-39 | With nothing in flight or lost each performance of the rollup equals the table, outcome by outcome, its experiments are the concluded ones less those left to continue, and no business with such a row is missing. |
| ReadModels.MisfiledConclusionDiverges | src/ab_growth/store.py:56-71 | A run in which one conclusion is filed under another business makes the two disagree. |
| Experiments.GrowthStore.constructor | src/ab_growth/store.py:33-71 | An empty table and log. |
| Experiments.GrowthStore.PersistAndEmit | src/ab_common/eventstore.py:20-38 | Write, commit, publish iff a row changed; the publisher may die after the commit. |
| Experiments.GrowthStore.Create | src/ab_growth/store.py:33-53 | Inserts and announces a fresh id; a replay changes and publishes nothing. |
| Experiments.GrowthStore.Conclude | src/ab_growth/store.py:56-71 | Concludes and announces a known open experiment: its row gets the decision and nothing else changes; replays and unknown ids change and publish nothing. |
| Experiments.UpdateConcludes | src/ab_growth/store.py:64-67 | The guarded update concludes the row of a known, open experiment and touches no other. |
| Experiments.StepKeeps | src/ab_common/eventstore.py:33-38 | Each commit, publish or death keeps: unique rows, events that agree with rows, one event per transition. |
| Experiments.Reachable | src/ab_common/eventstore.py:33-38 | These hold in every state any interleaving reaches. |
| Experiments.PublishedOnce | src/ab_common/eventstore.py:33-38 | Each experiment has exactly one created event iff its row exists and exactly one concluded event iff it is concluded, with the decision of the row, unless that event is still in flight or was lost; never more. |
| Experiments.CreatedRepeatsRow | src/ab_growth/store.py:33-53 | Over every run a created event carries the business and budget of the row of its experiment. |
| Experiments.RowAsProposed | src/ab_growth/store.py:33-53 | A row is what was proposed under its id, for good, but for its status and decision. |
| Experiments.EventsMatchRows | src/ab_growth/store.py:56-71 | Per business and outcome, the events called for are as many as the rows, if experiments are assembled from their records. |
| CanonicalJson.ValueRead | src/ab_audit/store.py:29-41 | Round trip: a reader of compact JSON recovers every value from its text, whatever follows that cannot extend a number. |
| CanonicalJson.CharRead | src/ab_audit/store.py:29-41 | Every character is read back from its escape, surrogate pairs included. |
| CanonicalJson.EncodeInjective | src/ab_audit/store.py:29-41 | So the text is injective on values: null, booleans, integers, strings, arrays, objects. |
| CanonicalJson.SameValue | src/ab_audit/store.py:29-41 | No text of a value starts the text of another, even with more text following. |
| Audit.CanonicalRecord | src/ab_audit/store.py:26-41 | Read back, the canonical text is an object with exactly the six parts of the record under their names, keys sorted. |
| Audit.CanonicalInjective | src/ab_audit/store.py:26-41 | Different records have different canonical texts. |
| Audit.UniqueSplit | src/ab_audit/store.py:44-46 | The previous hash and the canonical text in the MAC input cannot run into each other. |
| Audit.SameTailSameLog | src/ab_audit/store.py:88-105 | Two verified logs with the same last hash are equal row for row, or a row of the one and a row of the other have different MAC inputs with one MAC, and those are returned. |
| Audit.EditDetected | src/ab_audit/store.py:88-105 | Changing any row but the last is rejected, or a MAC input of the log collides with one of the changed log. |
| Audit.DeletionDetected | src/ab_audit/store.py:88-105 | Striking out any row but the last is rejected, or a MAC input of the log collides with one of the cut log. |
| Audit.NoFork | src/ab_audit/store.py:57-63 | No two rows of a verified log link the same hash, or the MAC inputs of two of its rows collide. |
| Audit.ChainedPrefix | src/ab_audit/store.py:88-105 | Every prefix of a verified log verifies, so truncation goes unnoticed. |
| Audit.ChainedSnoc | src/ab_audit/store.py:61-68 | Exactly a properly linked next row keeps a log verified. |
| Audit.AuditLog.constructor | src/ab_audit/store.py:22-22 | An empty log verifies. |
| Audit.AuditLog.Append | src/ab_audit/store.py:49-70 | Adds exactly one linked row, keeps the log verified and returns its new tail. |
| Audit.AuditLog.VerifyChain | src/ab_audit/store.py:88-105 | The loop returns true iff every row is intact. |
| AuditAppenders.StepKeeps | src/ab_audit/store.py:54-70 | Each step of each appender keeps: the log verifies, the lock has one active holder, what the holder read is the tail. |
| AuditAppenders.Reachable | src/ab_audit/store.py:54-70 | That holds in every state any interleaving of appenders, failures included, reaches. |
| AuditAppenders.CommittedLogsVerify | src/ab_audit/store.py:54-70 | Every committed log any interleaving reaches verifies. |
| AuditAppenders.CommittedLogsNeverFork | src/ab_audit/store.py:54-70 | No two rows of such a log link the same hash, or the MAC inputs of two of its rows collide. |
| AuditAppenders.OneRowPerCommit | src/ab_audit/store.py:64-69 | The log is append-only with exactly one row per commit, in commit order; an aborted append leaves none. |
| AuditAppenders.RecordsItsOwn | src/ab_audit/store.py:49-70 | What an appender in flight records is the entry it began with. |
| AuditAppenders.NeverStuck | src/ab_audit/store.py:57-60 | While an appender is active, some step other than a failure can be taken. |
| AuditAppenders.WithoutLockForks | src/ab_audit/store.py:57-60 | From any verified log, two appenders that skip the lock and both read the tail before either commits leave two rows that link one hash, and the log is rejected (or two of its MAC inputs collide). |
| Ledger.ValidIff | src/ab_ledger/core.py:100-114 | A transaction passes iff it has postings, balances and, unless a second person checked it, stays within the cap and pays only listed parties. |
| Ledger.RefusedIff | src/ab_ledger/core.py:100-114 | Every refusal exactly: nothing posted, unbalanced by the named total, no second person where the cap or an unlisted payee needs one, or the maker as checker; with the reason and the unlisted payees. |
| Ledger.PaysOnlyIff | src/ab_ledger/core.py:64-75 | The derived payees are the parties external accounts name in debits, and the explicit payee. |
| Ledger.DebitsLessCredits | src/ab_ledger/core.py:59-62 | Total debits less total credits is the balance, so the magnitude of a balanced transaction is the money moved. |
| Ledger.InMemoryLedger.constructor | src/ab_ledger/core.py:126-132 | An empty ledger. |
| Ledger.InMemoryLedger.Post | src/ab_ledger/core.py:134-147 | Validates before mutating, skips a known key, else appends entries, key and header. |
| Ledger.RunIsFirsts | src/ab_ledger/core.py:134-147 | After any calls the ledger is the fold over the first valid occurrence of each idempotency key, and each call returns accordingly. |
| Ledger.AppliedOnce | src/ab_ledger/core.py:142-146 | A key is applied exactly once if a valid call carries it, and never otherwise. |
| Ledger.AppliedUnderControl | src/ab_ledger/core.py:109-114 | No applied transaction over its cap or to an unlisted party lacks a second person. |
| Ledger.TrialBalanceZero | src/ab_ledger/core.py:149-151 | The trial balance is zero after any calls. |
| Ledger.AccountsCancel | src/ab_ledger/core.py:153-154 | Over any list of all accounts used, the balances cancel. |
| LedgerStore.Store.constructor | src/ab_common/db.py:61-83 | Empty tables. |
| LedgerStore.Store.Post | src/ab_ledger/store.py:15-44 | Header then entries in one transaction; a known key posts nothing, a used id is refused. |
| LedgerStore.PostRefines | src/ab_ledger/store.py:15-44 | One call returns and leaves what the in-memory ledger does, iff it is not a valid one with a fresh key and a used id; then only the tables refuse it. |
| LedgerStore.ClashReachable | src/ab_ledger/store.py:18-37 | That refusal is reachable under any cap and allow-list: two calls after which the tables hold one transaction and the in-memory ledger two. |
| LedgerStore.RunRefines | src/ab_ledger/store.py:15-44 | Over every run with fresh ids the tables refine the in-memory ledger and every call returns the same. |
| LedgerStore.BalancesAgree | src/ab_ledger/store.py:47-59 | Every account balance and the trial balance agree. |
| LedgerStore.SpendAgrees | src/ab_ledger/store.py:67-84 | The entries-join-headers sum equals the nested per-transaction sum. |
| LedgerStore.SpendRises | src/ab_ledger/store.py:67-84 | A transaction of the business that debits outsiders only raises its spend by the money moved; any other business keeps its own. |
| LedgerStore.OneMatch | src/ab_ledger/store.py:74-79 | The primary key leaves each entry one header to join with. |
| LedgerConcurrency.StepKeeps | src/ab_ledger/store.py:15-44 | Each step of concurrent posts keeps: tables and results are those of a sequential history, holders of a key or id are alone. |
| LedgerConcurrency.Reachable | src/ab_ledger/store.py:15-44 | That holds in every state any interleaving reaches. |
| LedgerConcurrency.Linearizable | src/ab_ledger/store.py:15-44 | Over every interleaving, failures included, the tables and every return value are those of the finished posts made one after another. |
| LedgerConcurrency.NoDoublePayment | src/ab_ledger/store.py:18-37 | Of the finished posts with one key at most one was applied, however they interleave. |
| LedgerConcurrency.InFlightSince | src/ab_ledger/store.py:15-44 | A post in flight is the call its process began and has been in flight ever since. |
| LedgerConcurrency.FinishedWasBegun | src/ab_ledger/store.py:15-44 | A finished post is a call some process began; at most one finishes in a step and none is forgotten. |
| LedgerConcurrency.ConcurrentRefines | src/ab_ledger/store.py:15-44 | With fresh ids the concurrent tables refine the in-memory ledger and stay balanced. |
| LedgerConcurrency.NeverStuck | src/ab_ledger/store.py:18-43 | Posts never wait on each other in a circle. |
| Factory.Readiness | src/ab_factory/core.py:52-67 | Lists exactly why a business is not ready, each lack under its own name; nothing iff funded, not killed and compliant. |
| Factory.Business.constructor | src/ab_factory/core.py:27-31 | A new business is a draft. |
| Factory.Business.Activate | src/ab_factory/core.py:87-91 | Flips a draft that passed the gate, and nothing else. |
| Factory.Provision | src/ab_factory/core.py:94-101 | Refuses iff capital is below the experiment budget, else creates a draft. |
| Gateway.Tools.constructor | src/ab_common/db.py:61-92 | Starts from the empty ledger and business tables. |
| Gateway.Tools.CompleteForBusiness | src/ab_gateway/tools.py:198-244 | Gate, model call, metering: exactly the specified step. |
| Gateway.Tools.GateBusinessSpend | src/ab_gateway/tools.py:167-195 | Tenant, existence, readiness, runway, in that order. |
| Gateway.Tools.TransferPayment | src/ab_gateway/tools.py:247-286 | Gate, post, publish iff applied: exactly the specified step. |
| GatewayTheorems.CompleteExactly | src/ab_gateway/llm_budget.py:27-43 | The model is invoked iff the projected spend lies between zero and the budget; the call returns iff the model does not fail and the cost needs no approval; the error of every other outcome; a cost over the cap is refused after the model ran; only a returned positive cost is metered. |
| GatewayTheorems.CallOnRecord | src/ab_gateway/tools.py:226-239 | A returned call with a positive cost leaves its header and two entries on record, any other call nothing. |
| GatewayTheorems.TransferExactly | src/ab_gateway/tools.py:247-286 | A payment is booked iff it is allowed (positive amount, payable by the business it is scoped to, within the ledger rules) and key and id are new; booked, it moves its amount from its source to the account of its payee and changes no other account. It is answered ok iff it is allowed and replays a known key, or has a new id and its event was published. |
| GatewayTheorems.TransferRefused | src/ab_gateway/tools.py:252-269 | Why a payment is refused: its arguments, what the gate answered, or what the ledger answered, exactly. |
| GatewayTheorems.PaymentOnRecord | src/ab_gateway/tools.py:255-285 | A booked payment leaves the header, the entries and the event, published or lost, with the amount that moved and the principals, payee, currency and business of the request. |
| GatewayTheorems.ScopedPaymentCovered | src/ab_gateway/tools.py:167-195 | A booked payment scoped to a business is covered by its cash and leaves that at zero or more. |
| GatewayTheorems.UnscopedTakes | src/ab_gateway/tools.py:252-258 | A payment scoped to no business passes no gate: the answers of tenant, kill switch and compliance do not matter, and booked from the meter or the cash of a business it lowers that by its amount. |
| GatewayTheorems.ExternalTenantCredited | src/ab_ledger/core.py:22-22 | Why a business id must not read as an external account: a booked payment to the returned payee credits the cash of the business. |
| GatewayTheorems.GateIsPayable | src/ab_gateway/tools.py:167-195 | The gate opens iff the tenant serves the business, it is active and launch-ready, and its cash covers a positive amount; else it names the first thing that is missing. |
| GatewayTheorems.ReplayChangesNothing | src/ab_gateway/tools.py:266-285 | A replayed key pays and publishes nothing. |
| GatewayTheorems.ProvisionExactly | src/ab_factory/store.py:41-83 | The row is created iff the request is funded and the id is free, and which of the two failed otherwise; active iff the business is then ready, draft otherwise; the capital is booked iff, besides, its key is new; nothing else changes. |
| GatewayTheorems.CapitalOnRecord | src/ab_factory/store.py:41-83 | Booked capital leaves its header, made by the allocator and checked by the treasury, and its entries. |
| GatewayRuns.StepAccounts | src/ab_gateway/tools.py:198-286 | Every step moves meter and cash of a business by returned cost, own payment, capital and unscoped drawing, and by nothing else. |
| GatewayRuns.AccountsExplained | src/ab_gateway/tools.py:198-286 | Over every run, with no exclusion: the meter is the cost of the calls that returned less what unscoped payments drew on it; cash is capital less that cost, less own payments, less what unscoped payments drew on it. |
| GatewayRuns.MeterWithinBudget | src/ab_gateway/tools.py:215-224 | Over every run the meter never exceeds the budget. |
| GatewayRuns.CostWithinBudgetIff | src/ab_gateway/tools.py:215-243 | The meter is the cost of the returned calls iff no unscoped payment was booked from it; that cost never exceeds the budget by more than what such payments drew, and never exceeds it without them. |
| GatewayRuns.BudgetExceededReachable | src/ab_gateway/tools.py:252-263 | With such a payment it does: a run whose calls cost more than the budget. |
| GatewayRuns.CashFloor | src/ab_gateway/tools.py:198-286 | Over every run cash is never short by more than the model calls cost and unscoped payments took. |
| GatewayRuns.OneEventPerPayment | src/ab_gateway/tools.py:266-285 | Over every run each booked payment has one event, in order, published or lost; no key appears twice among both. |
| GatewayRuns.LostForGood | src/ab_gateway/tools.py:266-285 | An event lost because its publish failed or its caller died is never published later. |
| GatewayRuns.MoneyConserved | src/ab_gateway/tools.py:198-286 | The trial balance stays zero over every run. |
| GatewayRuns.ModelCallMayOverdraw | src/ab_gateway/tools.py:215-239 | A model call takes the cash of the business below zero iff it returns with a cost above that cash. |
| GatewayRuns.OverdraftReachable | src/ab_gateway/tools.py:215-243 | It happens: a run in which a returned call leaves cash below zero. |
| GatewayRuns.UnmeteredCallReachable | src/ab_gateway/tools.py:226-243 | It happens under any cap: a run in which the model is invoked, the ledger refuses its cost and nothing is metered. |
| GatewayConcurrency.AtOnce | src/ab_gateway/tools.py:198-286 | A call that posts right after its gate is a step of the sequential gateway, so what follows is about the same calls. |
| GatewayConcurrency.OvershootBounded | src/ab_gateway/tools.py:215-243 | However calls interleave between gate and posting, with at most k of a business in flight its meter exceeds its budget by at most k - 1 times the cap: not at all one at a time. |
| GatewayConcurrency.OvershootReached | src/ab_gateway/tools.py:215-243 | That bound is reached for every k and every positive cap. |
| GatewayConcurrency.ShortfallBounded | src/ab_gateway/tools.py:182-195 | However calls interleave, with at most k of a business in flight and no payment of its own over a limit, its own payments take its cash below zero by at most k - 1 times the limit. |
| GatewayConcurrency.ShortfallReached | src/ab_gateway/tools.py:182-195 | That bound is reached for every k: k payments of 1, each covered when it asks, leave a cash of 1 at 1 - k. |
| SdlcPipeline.StepExactly | src/ab_product/pipeline.py:71-95 | Each operation passes the gate of its stage to the next one, halts there, or changes nothing; exactly when. |
| SdlcPipeline.CallExactly | src/ab_product/pipeline.py:71-95 | When each operation is refused and with which error, and the reason it records otherwise. |
| SdlcPipeline.Reachable | src/ab_product/pipeline.py:59-95 | In every run the status fits the stage, and a halt is never at a human or terminal stage. |
| SdlcPipeline.VisitedInOrder | src/ab_product/pipeline.py:25-35 | Every run visits the stages in order and skips none. |
| SdlcPipeline.GatesPassed | src/ab_product/pipeline.py:71-95 | The effective steps of every run passed the gates behind it one by one. |
| SdlcPipeline.LaunchedProperly | src/ab_product/compliance.py:40-62 | A launched run took exactly eight effective steps through all stages, passed the DPIA only by clearing it (with an approver whenever one is due) and ended with a human approval. |
| SdlcPipeline.FinalStays | src/ab_product/pipeline.py:74-77 | Halted and launched runs never change again; a halt is never at a human stage. |
| SdlcPipeline.LaunchReachable | src/ab_product/pipeline.py:55-95 | From every state that is not halted a launch is reachable, in as many steps as stages are left. |
| SdlcPipeline.RequiresDpiaPerField | src/ab_product/compliance.py:32-37 | A DPIA is due iff the title, the hypothesis, some key feature or some constraint on its own names personal data: joining adds no signal. |
| Text.ContainsJoined | src/ab_product/compliance.py:34-37 | Searching the joined, lowered fields is searching each field. |
| Org.Route | src/ab_org/core.py:36-52 | The loop terminates on any reporting graph and computes the specified routing. |
| Org.ChainIsReportingLine | src/ab_org/core.py:43-51 | The chain is the duplicate-free walk along `reports_to`, up to the top, an unknown agent or a repeated one. |
| Org.RouteFindsFirst | src/ab_org/core.py:49-52 | The decider is the first agent of the chain with the authority; a human is asked iff there is none, after the whole chain. |
| Org.RouteMonotone | src/ab_org/core.py:36-52 | The path for a lower level is a prefix of that for a higher one, and escalation is monotone. |
| Org.AuthorizePublish | src/ab_social/governance.py:32-47 | Mode always requires a human; mode never requires one iff nobody on the reporting chain has the level; mode first-n requires one iff fewer posts were published or nobody has it. The reasons say which, in that order. |
| Org.HumanMonotone | src/ab_social/governance.py:32-47 | Raising the level never drops the human; having published more never adds one. |
| ProductSlug.SlugAccepted | src/ab_product/classify.py:20-21 | A minted id is in normal form, and is accepted iff the lowered title has a letter a-z or a digit; else it is empty. |
| ProductSlug.SlugKeepsWords | src/ab_product/classify.py:20-21 | A minted id is the one text in normal form with the letters and digits of the lowered title, in order, two of them side by side iff they are so in the title; so a hyphen stands between two iff something else stood there. |
| ProductSlug.ClassifyIs | src/ab_product/classify.py:24-38 | An initiative that names a business extends that one; any other founds one under the slug of its title. |
| ProductSlug.AsciiTitleLowers | src/ab_product/classify.py:20-21 | One ASCII letter or digit in the title is enough. |
| ProductSlug.SlugFixedPoints | src/ab_product/classify.py:20-21 | Minting leaves exactly the normal forms alone, so it is idempotent. |
| ProductSlug.ServiceNamesDistinct | src/ab_product/scaffold.py:114-114 | Distinct slugs give distinct service names. |
| ProductSlug.ServiceNameIs | src/ab_product/scaffold.py:114-114 | A service name is the prefix and the slug with underscores for hyphens. |
| ProductCharter.ExtendAllIs | src/ab_product/charter.py:96-111 | Any number of extensions keeps id, design and stack, raises the version by one each and adds exactly their rules to the rules and their dependencies to the dependencies. |
| ProductCharter.ConsistentIffExtended | src/ab_product/charter.py:113-123 | The consistency check holds iff one or more extensions lead there, the stack aside. |
| ProductCharter.RestackedIsConsistent | src/ab_product/charter.py:117-123 | A changed stack passes the check although no extension makes it. |
| ProductCharter.SortedOf | src/ab_product/charter.py:147-150 | The members of a set, sorted. |
| ProductCharter.CharterConformance | src/ab_product/charter.py:141-153 | Clean iff the artifact conforms; names exactly each wrong theme, forbidden dependency, missing rule and bad version, in that order and sorted by name. |
| ProductCharter.ScaffoldConforms | src/ab_product/scaffold.py:111-132 | A scaffold on any charter grown from the default tech conforms, and declares the version and rules of that charter. |
| ProductCharter.OlderScaffoldConforms | src/ab_product/charter.py:141-153 | An older scaffold still conforms after extensions iff they added no rule. |
| ProductCharter.PromotionConforms | src/ab_gateway/tools.py:146-157 | A new initiative can found a charter iff its title has a letter or digit once lowered, and its scaffold is then never refused. |

## Left out

- Floating-point rounding in `_allocate` and the reweighting: weights and shares are exact reals. The win rate's float division is modelled as the exact quotient.
- A negative `count` for a content plan: the source has no such caller and the apportionment is stated for counts of zero or more.
- The text form of run ids (`run_<business>_<number>`): ids are pairs.
- The ideation pipeline itself, its model and its advisory trace; lifecycle events sent to the event sink, and an event of a run that cannot be built; the model sees a worker that emits frames, snapshots candidates and ends.
- A second consumer of a finished run's stream, which would wait for ever: one consumer per run is assumed.
- Whether an experiment's significance test passes (`ab_growth/stats.py`): a conclusion is any decision.
- GrowthStore.Create: arms and success metrics of a proposal, which no transition reads; timestamps and the newest-first order of listings.
- CanonicalJson.EncodeInjective: floats and values written by `default=str` do not occur as payload values; an object is its key-sorted field list.
- HMAC internals, the numeric form jsonb gives to numbers, and timestamps: a row carries the ISO text that was hashed. `occurred_at` is taken before the lock, so no claim is made about its order.
- Audit.AuditLog.Append: models one appender on its own; interleaved appenders are the state machine of AuditAppenders.
- LedgerConcurrency.Linearizable: how Postgres makes an insert wait on a unique index is taken as given: it waits while another open transaction holds the same key or id.
- Postgres, Kafka, HTTP services, templates, the policy engine and the other clients: tables are sequences and maps, the bus an append-only log.
- ApprovalReason's text and its sorted payee list: the reason holds the set.
- GatewayRuns.MeterWithinBudget: business ids that read as external accounts are excluded there; `ExternalTenantCredited` says what happens to them. Calls come one at a time there; GatewayConcurrency covers overlapping ones, with a gate and a posting as one step each and provisioning as one.
- Gateway's other tools (decisions, experiments, notifications), the clearance and input-trust checks, and the business-activated event.
- Factory's currency handling: the source adds minor units across currencies, and so does the model.
- Final sigma, the one character whose lower case depends on its neighbours: lower-casing is character by character.
- ProductCharter's CSS character checks of design tokens, theme rendering and the generated files: the scaffold is its service name and declared artifact.
- Classify's rationale text, `team`, `governed_publish`, `should_boost`, `qa` and the KPI gauges: they would only add easy members.
