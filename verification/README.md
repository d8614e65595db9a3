# Prayer: a verified model of its protocols and its command language

Prayer drives space-trading bots. This project models, in Dafny, the parts of it whose correctness is not visible in any
one function, and proves what they promise.

* **State synchronisation.** The server answers a conditional read with whole sections, nothing, or a keyed delta of the
  station markets; the TypeScript client merges the answer into its cache. Requests may process snapshots out of order,
  and any number of clients may interleave with world updates. `StateServer.dfy`, `StateClient.dfy`, `SyncProtocol.dfy`
  (with `WorldViews.dfy` and `TextOrder.dfy`).
* **The two-lane scheduler.** Generation-stamped claims, a normal lane, a preempting interrupt lane, continuations,
  cancel, halt, checkpoint and restore. `Scheduler.dfy`, `SchedulerRuns.dfy`.
* **Run-creation idempotency.** Per-key locks in a swept table of weak references, a record map, and a file written by
  many requests at once, restarts included. `IdempotencyStore.dfy`, `IdempotencyProtocol.dfy`.
* **Weighted routing and the refuel station.** The cost table, and a choice of station that must not change while the
  bot follows the route to it. `RouteTable.dfy`, `Navigation.dfy`.
* **PrayerLang.** Printing, lexing, the clause parsers, trade offers, identifier resolution with its edit distance,
  validation, analysis and lowering. `TextTools.dfy`, `Decimal.dfy`, `Lexing.dfy`, `BuySell.dfy`, `Crafting.dfy`,
  `Transfers.dfy`, `TransferClauses.dfy`, `TradeOffers.dfy`, `EditDistance.dfy`, `Resolution.dfy`, `Commands.dfy`,
  `Pipeline.dfy`, `Statements.dfy`, `CommandText.dfy`.
* **Two codecs.** The runtime bridge's transfer arguments and the byte stream behind the fleet token.
  `TransferCodec.dfy`, `FleetToken.dfy`.

Code that changes state step by step is a class (the server's cache and history, the client, the scheduler, the
idempotency store) or a method with loops; each method is proved against a function of the old state, and the theorems
are about those functions. Interleavings are state machines over labelled steps, and safety is proved over every run.

`dafny verify dfyconfig.toml` checks everything.

## Where the code does not do what one might expect

Each of these is a lemma with the exact condition.

* A revoked claim stays refused for ever exactly when its generation is below the largest u64; one that carries the
  largest can be issued again (`SchedulerRuns.FencedForEverExactlyBelowSaturation`).
* An empty interrupt batch pauses the running action with nothing to resume it
  (`SchedulerRuns.PauseBreaksExactlyOnEmptyBatch`, `SchedulerRuns.EmptyBatchStrandsRunningAction`).
* The edit distance sizes its rows in bytes and fills them by characters, so for a non-ASCII candidate the answer is 0
  or a byte count. It is still the distance for equal texts of odd length, and where that byte count happens to be the
  distance, which takes a text at least as long (`EditDistance.ReportIsRightExactlyWhen`,
  `EditDistance.ShortReportIsRightExactlyWhen`).
* A legacy order without a price is accepted and then prints to something that is refused
  (`BuySell.AcceptedBuyReprints`, `BuySell.AcceptedSellReprints`).
* A value with other punctuation in it, such as a dot, is printed bare and then not read back as one word
  (`Lexing.LostExactlyWhen`, `Lexing.DottedWordIsLost`).
* A transfer of all cargo prints to a transfer of an item called `all` (`TransferClauses.AllCargoIsReadAsItem`).
* A refuel request whose target is spelled as a number changes meaning when printed (`Statements.RefuelRoundTrip`).
* A trade offer of more than six terms lowers, prints and lowers again, but its printed form does not validate
  (`Statements.TradeOfferValidatesUpToSixTerms`).
* `found_station` and `trade_offer` are the two commands that can validate, analyse and then fail to compile: the one
  unless it says true or false, the other unless its words are a target and a list of terms (`Pipeline.Progress`,
  `TradeOffers.OfferIsListOfTerms`).

## Model

| member | source | states |
|---|---|---|
| StateServer.Server.ObserveSnapshot | prayer-api/src/v1.rs:614-702 | under the domain lock the cache becomes the one `Observe` gives, field by field; a new world moves the tags of exactly the domains in which it differs from the cached one |
| StateServer.TagMovesExactlyOnChange | prayer-api/src/v1.rs:643-690 | a new world moves a domain's tag to its own version exactly where the domain's content differs from the cached world, and leaves every other tag where it was; the first world moves all nine |
| StateServer.NothingNewChangesNothing | prayer-api/src/v1.rs:614-642 | a version already observed, or a world that cannot be mapped, leaves cache and tags as they are |
| StateServer.Server.RecordMarkets | prayer-api/src/v1.rs:704-715 | under the other lock, when the markets changed, the revision is appended unless the newest one has its version, and only the last two revisions stay |
| StateServer.Server.Respond | prayer-api/src/v1.rs:717-837 | nothing is sent exactly when every requested tag is current; otherwise a domain with a current tag is left out, every other domain but the markets is sent whole, and the markets are sent as a delta, from the world of the requested version, exactly when the history still has that version |
| StateServer.SectionsAreSelective | prayer-api/src/v1.rs:717-810 | over all nine domains: what is current is left out, what is not is sent as it stands in the snapshot, and the markets come as a delta exactly when their requested version is remembered |
| WorldViews.WorldStandsIn | prayer-api/src/v1.rs:717-725 | the world version a caller names stands for each tag it leaves out and for none that it gives |
| StateServer.ObserveKeepsInvariant | prayer-api/src/v1.rs:614-702 | observing any genuine snapshot, in any order, keeps every tag naming the content it had at that world version |
| StateServer.RecordKeepsHistory | prayer-api/src/v1.rs:704-715 | whenever the push happens, every kept revision holds the markets of its own world version |
| StateServer.RemembersTheNewestTwo | prayer-api/src/v1.rs:704-715 | after a changed market exactly the new revision and the newest one before it are remembered |
| StateServer.DeltaIsExact | prayer-api/src/v1.rs:212-237 | patching the previous markets with the delta, upserts then removals, gives exactly the current markets |
| StateServer.DeltaIsMinimal | prayer-api/src/v1.rs:212-237 | nothing already right is upserted, exactly the vanished stations are removed, each once and in ascending order |
| StateClient.Client.BeginState | prayer-sdk-ts/src/client.ts:36-44 | a client with a cache asks for every domain at the tag it holds, one without a cache names no version at all |
| StateClient.Client.FinishState | prayer-sdk-ts/src/client.ts:45-61 | a complete answer replaces the cache with the merge; an incompatible delta asks for a full reread; an incomplete answer fails and leaves the cache as it was |
| StateClient.MergesExactlyWhen | prayer-sdk-ts/src/client.ts:45-82 | an answer is merged exactly when the client can complete it: a cached one refuses only a delta against markets it does not hold; a refused answer leaves the cache and asks for a reread exactly when it carried a delta |
| StateClient.Client.FinishFullReread | prayer-sdk-ts/src/client.ts:51-56 | it succeeds exactly when every section, markets in full among them, was sent, and then the cache is exactly what was sent; otherwise it reports an error and the cache is as before |
| SyncProtocol.AnswerIsExact | prayer-api/src/v1.rs:595-837 | an answer to a truthful request merges, without failing, into exactly the view of the snapshot it was built from |
| SyncProtocol.MarketsMergeExactly | prayer-sdk-ts/src/client.ts:68-82 | the delta base always matches the cached market version, and cached markets patched by the delta are the snapshot's markets |
| SyncProtocol.OmittedIsHeld | prayer-sdk-ts/src/client.ts:81-82 | a section the server leaves out is one the client already holds in the snapshot's form |
| SyncProtocol.StepKeepsInvariant | prayer-api/src/v1.rs:595-837 | each step of any client, of the server or of the world keeps the whole system sound |
| SyncProtocol.TagsAlwaysNameContent | prayer-api/src/v1.rs:614-715 | in every reachable state each tag names the domain's content at its world version and each history entry its own markets |
| SyncProtocol.Coherence | prayer-sdk-ts/src/client.ts:35-61 | in every interleaving a client with one call outstanding never needs the reread and ends the call holding exactly the snapshot its answer was built from, which is no older than the newest world when the call began nor than what the client held before |
| SyncProtocol.OnlyTheDifferenceIsSent | prayer-api/src/v1.rs:614-837 | in every run a caller that holds the tags of the cached world is sent exactly the domains in which its own snapshot differs from it, whatever happens between its three steps |
| SyncProtocol.QuietDomainKeepsTag | prayer-api/src/v1.rs:643-690 | over any stretch of a run in which the cached content of a domain stays the same, its tag stays the same |
| SyncProtocol.UnusableDeltaIsRecovered | prayer-sdk-ts/src/client.ts:49-56 | a client that could not use a delta asks for everything and then holds exactly the snapshot it is answered from |
| SyncProtocol.RereadRestores | prayer-sdk-ts/src/client.ts:49-55 | the recovery path, from any cache at all, ends with exactly the answered snapshot |
| Scheduler.Scheduler.FromCheckpoint | prayer-scheduler/src/lib.rs:182-222 | restoring gives a fresh scheduler in the restored state with no events, or the error that names the first foreign schema |
| Scheduler.Scheduler.Claim | prayer-scheduler/src/lib.rs:224-241 | claiming an unowned queue issues the next generation; an owned one is refused and unchanged |
| Scheduler.Scheduler.Reclaim | prayer-scheduler/src/lib.rs:244-253 | reclaiming needs the current generation and issues the next |
| Scheduler.Scheduler.Append | prayer-scheduler/src/lib.rs:255-268 | only the live claim appends, and then at the back of the normal queue |
| Scheduler.Scheduler.AppendInterrupts | prayer-scheduler/src/lib.rs:270-290 | a batch is admitted only while the interrupt lane is empty, in submission order, and pauses a running normal action |
| Scheduler.Scheduler.ReplaceInterruptActionsByPolicy | prayer-scheduler/src/lib.rs:293-308 | only the deferred interrupts of the named policy are rewritten, ids and order kept |
| Scheduler.Scheduler.StartNext | prayer-scheduler/src/lib.rs:310-350 | with no interrupt running the first waiting interrupt is started, with both lanes idle the first waiting normal action, and only an empty queue is reported empty; state and events are otherwise those of `StartNextOp` |
| Scheduler.Scheduler.SetContinuation | prayer-scheduler/src/lib.rs:352-361 | the continuation of the lane's action is set, or the lane is reported idle |
| Scheduler.Scheduler.ClearContinuation | prayer-scheduler/src/lib.rs:363-366 | the continuation of the lane's action is cleared, or the lane is reported idle |
| Scheduler.Scheduler.Complete | prayer-scheduler/src/lib.rs:368-393 | the lane's action moves to the completed list; finishing the last interrupt resumes the paused action |
| Scheduler.Scheduler.Release | prayer-scheduler/src/lib.rs:395-402 | releasing invalidates the claim and keeps the work |
| Scheduler.Scheduler.Cancel | prayer-scheduler/src/lib.rs:404-426 | cancelling with the live claim records the running actions as cancelled, drops what is queued and invalidates the claim |
| Scheduler.Scheduler.Halt | prayer-scheduler/src/lib.rs:428-447 | halting does the same without a claim |
| SchedulerRuns.LiveClaimIsCurrent | prayer-scheduler/src/lib.rs:224-253 | over every run a live claim carries the current generation |
| SchedulerRuns.RevokedIsOutrun | prayer-scheduler/src/lib.rs:489-492 | over every run a claim below the largest generation is outrun by the counter as soon as it is no longer live, and stays outrun |
| SchedulerRuns.RevokedClaimIsFenced | prayer-scheduler/src/lib.rs:395-479 | once a claim below the largest generation is no longer live, every later append, cancel and release with it is refused and changes nothing, whatever happens in between, and every claim granted later has a larger generation |
| SchedulerRuns.FencedForEverExactlyBelowSaturation | prayer-scheduler/src/lib.rs:470-492 | a revoked claim is refused in every later state of every run if and only if its generation is below the largest u64 |
| SchedulerRuns.ReclaimRevivesExactlyAtSaturation | prayer-scheduler/src/lib.rs:395-492 | released, cancelled or halted and then claimed by its old owner, a queue honours the old claim again exactly when that claim had the largest generation |
| SchedulerRuns.StepKeepsBalance | prayer-scheduler/src/lib.rs:255-447 | each operation keeps accepted ids equal, as a multiset, to pending, running, completed and dropped ones |
| SchedulerRuns.ReplaceKeepsIds | prayer-scheduler/src/lib.rs:293-308 | rewriting deferred interrupts keeps their ids and order |
| SchedulerRuns.RunConservesAndOrders | prayer-scheduler/src/lib.rs:182-447 | over every run, restores included, no action is lost or duplicated, and in each lane the started actions followed by the queued ones are the accepted ones in order |
| SchedulerRuns.NothingCompletesTwice | prayer-scheduler/src/lib.rs:368-393 | an id accepted once completes at most once, and not while it is still queued or running |
| SchedulerRuns.PauseBreaksExactlyOnEmptyBatch | prayer-scheduler/src/lib.rs:275-290 | an operation breaks "paused exactly while the interrupt lane is busy" exactly when it is an empty interrupt batch met by a running action and an idle interrupt lane |
| SchedulerRuns.RunPausesWhileBusy | prayer-scheduler/src/lib.rs:275-393 | over every run the running normal action is paused exactly while the interrupt lane is busy, if and only if no step of the run is an empty batch met by a running action and an idle interrupt lane |
| SchedulerRuns.EmptyBatchStrandsRunningAction | prayer-scheduler/src/lib.rs:275-290 | after an empty batch the running action stays paused with no interrupt that could resume it |
| SchedulerRuns.WaitingInterruptStarts | prayer-scheduler/src/lib.rs:310-331 | while no interrupt runs, the first waiting one is started before anything else, and a running normal action is paused |
| SchedulerRuns.WaitingActionStarts | prayer-scheduler/src/lib.rs:333-350 | with both lanes free the first waiting normal action is started, and `NothingPending` is answered only to an empty queue |
| SchedulerRuns.InterruptsDrain | prayer-scheduler/src/lib.rs:310-393 | one round of starting and completing per waiting interrupt empties the lane, completes the interrupts in order with their outcomes, and leaves the normal action running and not paused |
| SchedulerRuns.ActionsDrain | prayer-scheduler/src/lib.rs:333-393 | with the interrupt lane idle one round per waiting action completes the normal queue in order |
| SchedulerRuns.PreemptionIsUndone | prayer-scheduler/src/lib.rs:270-393 | an action with a continuation, preempted by a batch that is then worked off, is running again with that continuation, and nothing else has changed but the completions |
| SchedulerRuns.ClaimedWorkIsDone | prayer-scheduler/src/lib.rs:224-393 | whoever claims a free queue, appends a script and works it off has it completed in order, after what was waiting |
| SchedulerRuns.BatchIsAdmittedExactlyWhenIdle | prayer-scheduler/src/lib.rs:270-290 | a batch is turned away exactly while the interrupt lane is busy, and then nothing changes |
| SchedulerRuns.RewritesExactlyThePolicy | prayer-scheduler/src/lib.rs:293-308 | deferred interrupts of the named policy carry the new action and policy, all others are untouched, ids and places stay |
| SchedulerRuns.ReclaimComparesFirst | prayer-scheduler/src/lib.rs:244-253 | reclaiming succeeds exactly on a free queue still at the expected generation, and otherwise changes nothing |
| SchedulerRuns.OneReclaimWins | prayer-scheduler/src/lib.rs:244-253 | of two reclaims that expect one generation at most one succeeds short of saturation, whatever happens between them |
| SchedulerRuns.ContinuationIsTheLastSet | prayer-scheduler/src/lib.rs:352-366 | a lane's continuation is the last one set until it is cleared, and the other lane keeps its own |
| SchedulerRuns.CutShortCompletesWhatRan | prayer-scheduler/src/lib.rs:404-447 | cancelling completes the running normal action once with the reason and leaves the interrupt lane alone; halting completes what ran in both lanes |
| SchedulerRuns.RestoreIsLossless | prayer-scheduler/src/lib.rs:167-222 | over every run the checkpoint restores to the very same state exactly when every action it holds has the current schema, and never to another |
| SchedulerRuns.FirstBadSchemaFinds | prayer-scheduler/src/lib.rs:182-206 | the schema scan finds nothing exactly when every envelope has the current schema |
| SchedulerRuns.RefusalNamesTheFirst | prayer-scheduler/src/lib.rs:188-206 | the error of a refused restore names the first foreign action of the queue, else of the deferred interrupts, else the running one |
| SchedulerRuns.StepErases | prayer-scheduler/src/lib.rs:255-447 | with the interrupt lane erased a step is either invisible or the same step, with the same reply, of a one-lane scheduler |
| SchedulerRuns.InterruptsAreInvisible | prayer-scheduler/src/lib.rs:255-447 | erasing the interrupt lane from any run leaves a run of the one-lane scheduler with the same claims, queue, running action and completions |
| SchedulerRuns.ErasedCompletionsAreTheLanes | prayer-scheduler/src/lib.rs:368-447 | the completions of the erased run are the subsequence of the completed list that the normal lane finished, in order |
| IdempotencyStore.Store.EnterFlight | prayer-api/src/v1.rs:93-101 | entries nobody references are swept, and the key's live lock is shared or a new one inserted |
| IdempotencyStore.Store.Insert | prayer-api/src/v1.rs:114 | the record map gains exactly this record |
| IdempotencyStore.Store.Persist | prayer-api/src/v1.rs:115-121 | a successful write replaces the file with the snapshot, and the persistence lock is given up either way |
| IdempotencyProtocol.SameKeySameLock | prayer-api/src/v1.rs:93-103 | two requests that wait for or hold a lock of one key share the lock object |
| IdempotencyProtocol.SingleFlight | prayer-api/src/v1.rs:93-103 | in every reachable state no two requests of one key are in the guarded section |
| IdempotencyProtocol.AtMostOneRunPerKey | prayer-api/src/v1.rs:1047-1083 | in every reachable state no key was successfully started twice since the last restart, every success returned its key's run, and two successes of one key agree in run and fingerprint; `PromisedRunIsReplayed` and `RecordedRunIsReplayed` say what every lookup answers |
| IdempotencyProtocol.NoSecondStart | prayer-api/src/v1.rs:1219-1250 | between two restarts, once a run of a key was started no later step starts another for it |
| IdempotencyProtocol.FileOnlyGrows | prayer-api/src/v1.rs:551-577 | between any two moments of any run, failing writes and restarts included, the file only gains records; it always holds every record whose insertion returned and nothing that is not in the record map |
| IdempotencyProtocol.PromiseIsKept | prayer-api/src/v1.rs:109-121 | once an insertion for a key has returned, no later step starts a run for it and every success answers with the recorded run, across restarts too |
| IdempotencyProtocol.PromisedRunIsReplayed | prayer-api/src/v1.rs:1052-1064 | over every run, restarts included, each later lookup of a promised key answers `Conflict` if and only if the fingerprint differs, and otherwise with the promised run, or a failure when that run cannot be reached |
| IdempotencyProtocol.RecordedRunIsReplayed | prayer-api/src/v1.rs:1224-1236 | the same for a key only recorded, whatever became of its write, until the next restart |
| IdempotencyProtocol.NewKeyIsServed | prayer-api/src/v1.rs:1047-1088 | an undisturbed request for a new key starts its run, has it on file and answers with it |
| IdempotencyProtocol.RecordedKeyIsServed | prayer-api/src/v1.rs:1047-1064 | an undisturbed request for a recorded key starts nothing and is answered by the recorded run or a conflict |
| IdempotencyProtocol.SuccessMeansOnFile | prayer-api/src/v1.rs:1069-1087 | the request that started a run answers success only once its record is on file, and failure otherwise |
| IdempotencyProtocol.SomeoneCanStep | prayer-api/src/v1.rs:93-121 | no deadlock: in every reachable state an unfinished request, or the one it waits for, can take its next step |
| IdempotencyProtocol.StepBringsForward | prayer-api/src/v1.rs:93-121 | every step brings its own request forward and leaves the others where they are, so ten steps finish a request |
| IdempotencyProtocol.TableHoldsWhatIsInFlight | prayer-api/src/v1.rs:93-101 | whenever a request has entered it, the lock table holds exactly the keys of the requests in flight |
| IdempotencyProtocol.RestartReloadsTheFile | prayer-api/src/v1.rs:84-91 | after a restart exactly the records on file are known |
| IdempotencyProtocol.StepKeepsInvariant | prayer-api/src/v1.rs:93-121 | every step, with starts and writes that fail, replies that cannot be built, and restarts, keeps locks shared, mutexes honest, stages sound and starts accounted for |
| RouteTable.BuildRow | prayer-state/src/graph.rs:102-128 | the heap loop with lazy deletion leaves, for one source, the least path cost of every system and a first hop of a path of that cost |
| RouteTable.BuildWithPenalties | prayer-state/src/graph.rs:46-139 | every system gets a least-cost row |
| RouteTable.RelaxEdgeKeepsConsistent | prayer-state/src/graph.rs:109-127 | relaxing one edge keeps every recorded cost the weight of a real route by its recorded first hop, and either changes nothing or lowers the total |
| RouteTable.CostHasRoute | prayer-state/src/graph.rs:185-192 | every path cost is the weight of a path |
| RouteTable.CostIsLeast | prayer-state/src/graph.rs:185-192 | no path weighs less than the path cost, and where there is no cost no path stays below the sentinel |
| RouteTable.WeightIsJumpsAndPenalties | prayer-state/src/graph.rs:109-127 | a path costs its jumps and one more for each penalised system it enters |
| RouteTable.NextHopContinuesRoute | prayer-state/src/graph.rs:195-202 | the next hop exists whenever a cost does, is an edge, and takes exactly its weight off the remaining cost |
| Navigation.NearestRefuelStation | prayer-runtime/src/navigation.rs:219-263 | the docked station when it qualifies, otherwise the least (cost, system, POI) among the eligible reachable stations |
| Navigation.LeastOffer | prayer-runtime/src/navigation.rs:237-262 | the loop finds the least candidate whatever order the records are visited in |
| Navigation.NearestIsUnique | prayer-runtime/src/navigation.rs:219-263 | the answer depends on the records only, not on map order |
| Navigation.JumpKeepsChoice | prayer-runtime/src/navigation.rs:245-252 | one jump toward the chosen system keeps that system chosen, keeps the station too until arrival, and lowers the cost |
| Navigation.ChoiceIsRouteStable | prayer-runtime/src/navigation.rs:219-263 | re-evaluating at every stop, wherever the bot docks, always chooses the same system, the cost strictly falls and the bot arrives |
| Navigation.ChoiceIsSafe | prayer-runtime/src/navigation.rs:389-435 | whatever is chosen is a station of an empire, in no stronghold and of no pirates, in the system it is said to be in |
| Navigation.ReachableStationIsAnswered | prayer-runtime/src/navigation.rs:219-263 | there is an answer whenever some safe station can be reached |
| Navigation.StaysWhereDocked | prayer-runtime/src/navigation.rs:219-236 | a bot docked at a safe station of its own system stays there |
| Navigation.PirateLabelMeans | prayer-runtime/src/navigation.rs:437-443 | a label is a pirate's exactly when `pirate` or `pirates` stands in it, in either case, as a whole word |
| Lexing.UnquoteUndoesQuote | prayer-lang/src/action_projection.rs:436-447 | reading a quoted argument undoes the two replacements, for every text |
| Lexing.TokenRoundTrip | prayer-lang/src/parser.rs:204-245 | a printed value is read back as itself exactly when it is quoted by the printer or is a token as it stands |
| Lexing.BareIsExactly | prayer-lang/src/parser.rs:204-224 | the unquoted tokens, character by character |
| Lexing.LostExactlyWhen | prayer-lang/src/action_projection.rs:436-447 | a value is lost in printing exactly when it has no white space, no mark the printer quotes for and no comment in it, and yet is no word |
| Lexing.GapsAreExactly | prayer-lang/src/parser.rs:173-179 | tokens are set apart by blanks, tabs, returns and line feeds |
| Lexing.StatementRoundTrip | prayer-lang/src/action_projection.rs:360-373 | lexing a printed statement returns exactly the name and the values, if and only if the name is an identifier and every value is printable |
| Lexing.ScriptRoundTrip | prayer-lang/src/parser.rs:979-985 | a script of printed statements lexes back to its commands |
| Decimal.ParseU64OfShow | prayer-lang/src/parser.rs:462-468 | a printed number parses to itself exactly within the u64 range |
| Decimal.ParseI64OfShowInt | prayer-lang/src/analyzer.rs:630-633 | a printed integer parses to itself exactly within the i64 range |
| Decimal.SignsAreRead | prayer-lang/src/analyzer.rs:630-633 | a plus sign is read over, a minus sign only where the number may be negative |
| BuySell.ParseBuyParts | prayer-lang/src/parser.rs:470-561 | the index loop, legacy form included, gives what `BuyOf` gives on the token list, errors included |
| BuySell.ParseSellParts | prayer-lang/src/parser.rs:563-646 | the index loop, legacy form included, gives what `SellOf` gives on the token list, errors included |
| BuySell.BuyRoundTrip | prayer-lang/src/action_projection.rs:49-69 | parsing the printed tokens rebuilds the purchase if and only if it is well formed |
| BuySell.SellRoundTrip | prayer-lang/src/action_projection.rs:70-83 | parsing the printed tokens rebuilds the sale if and only if it is well formed |
| BuySell.BuyTextRoundTrip | prayer-lang/src/action_projection.rs:49-69 | the printed text lexes to those tokens and they parse to the purchase |
| BuySell.SellTextRoundTrip | prayer-lang/src/action_projection.rs:70-83 | the printed text lexes to those tokens and they parse to the sale |
| BuySell.AcceptedBuyReprints | prayer-lang/src/parser.rs:470-561 | whatever was accepted prints back to itself, exactly unless it is an order without a price |
| BuySell.AcceptedSellReprints | prayer-lang/src/parser.rs:563-646 | whatever was accepted prints back to itself, exactly unless it is an order without a price |
| BuySell.LegacyBuyIsClauseBuy | prayer-lang/src/parser.rs:470-504 | the legacy forms read as the clause forms with the same parts, errors included |
| BuySell.LegacyBuyReads | prayer-lang/src/parser.rs:470-504 | which legacy purchases are accepted, and what each of their words becomes |
| BuySell.LegacySellIsClauseSell | prayer-lang/src/parser.rs:563-600 | the same equality for sales |
| BuySell.LegacySellReads | prayer-lang/src/parser.rs:563-600 | which legacy sales are accepted, and what each of their words becomes |
| Crafting.ParseCraftParts | prayer-lang/src/parser.rs:685-768 | the index loop gives what `CraftOf` gives on the token list, errors included |
| Crafting.CraftRoundTrip | prayer-lang/src/action_projection.rs:214-230 | parsing the printed tokens rebuilds the request if and only if it is well formed |
| Crafting.RecycleRoundTrip | prayer-lang/src/parser.rs:672-683 | the same for recycling, where a preset is always refused |
| Crafting.CraftTextRoundTrip | prayer-lang/src/action_projection.rs:214-230 | the printed text lexes to those tokens and they parse to the request |
| Crafting.RecycleTextRoundTrip | prayer-lang/src/action_projection.rs:145-158 | the printed text lexes to those tokens and they parse to the request |
| Crafting.CollectsExactlyDistinct | prayer-lang/src/parser.rs:712-760 | clauses are accepted exactly when no kind repeats, and then each fills its own slot and no other slot is filled |
| Crafting.ClauseOrderIsIrrelevant | prayer-lang/src/parser.rs:712-760 | the same clauses in any order give the same result, and a repeated clause is refused in every order |
| Crafting.AcceptedIsFlattened | prayer-lang/src/parser.rs:712-760 | whatever the loop accepts is a list of valid clauses |
| Crafting.AcceptedCraftReprints | prayer-lang/src/parser.rs:685-768 | whatever was accepted prints to a form that reads back the same |
| Crafting.OmittedQuantityIsOne | prayer-lang/src/parser.rs:685-712 | a quantity that is left out is one, for crafting and recycling, before any clauses |
| Crafting.DryRunIsRefused | prayer-lang/src/parser.rs:690-752 | a dry run is refused wherever it is asked for |
| TransferClauses.ParseTransferParts | prayer-lang/src/parser.rs:841-859 | the subject loop and the clause loop give what `FlatOf` gives on the token list |
| TransferClauses.ParseTransferClauses | prayer-lang/src/parser.rs:861-881 | the clause loop places each endpoint once, in either order, and reports the rest |
| TransferClauses.ParseTransferBlockEntries | prayer-lang/src/parser.rs:797-839 | the block loop reads its rows in order, refuses endpoints inside it, and needs at least one row |
| TransferClauses.TransferRoundTrip | prayer-lang/src/action_projection.rs:384-416 | parsing the printed tokens of a flat transfer rebuilds it if and only if it is well formed, and lowering then gives the request |
| TransferClauses.TransferTextRoundTrip | prayer-lang/src/action_projection.rs:384-434 | the printed text of a well-formed flat transfer lexes, parses and lowers to the request |
| TransferClauses.EndsInEitherOrder | prayer-lang/src/parser.rs:861-881 | the two endpoint clauses may be swapped |
| TransferClauses.EntriesRoundTrip | prayer-lang/src/parser.rs:803-826 | rows are read back in order if and only if no id is a clause keyword and every quantity fits an i64 |
| TransferClauses.BlockRoundTrip | prayer-lang/src/compiler.rs:488-504 | with its endpoints before the block a transfer of items parses and lowers to itself |
| TransferClauses.BlockIsReadExactlyWhen | prayer-lang/src/parser.rs:797-839 | a block is accepted if and only if its endpoints and rows are readable and some row is not empty; it has one item for each such row |
| TransferClauses.ShortFormsMeanTheLong | prayer-lang/src/analyzer.rs:431-453 | a transfer with either or both ends left out means the transfer with the default ends written out |
| TransferClauses.AllCargoIsReadAsItem | prayer-lang/src/action_projection.rs:397-399 | a transfer of all cargo is printed with `all` for its subject, which is read as an item of that name |
| TradeOffers.TradeOfferAction | prayer-lang/src/compiler.rs:519-577 | the while loop with its final test gives what `OfferOf` gives; an accepted offer is for the first word and is not empty |
| TradeOffers.EmptinessTestIsDead | prayer-lang/src/compiler.rs:570-575 | the final emptiness test never refuses anything: what was read and added is not empty |
| TradeOffers.OfferIsListOfTerms | prayer-lang/src/compiler.rs:519-577 | words are an offer if and only if they are a target followed by triples, each a side with credits and an amount or with an amount and an item, credits at most once a side |
| TradeOffers.TargetAloneIsOfferedOneCredit | prayer-lang/src/compiler.rs:519-533 | a target alone means an offer of one credit |
| TradeOffers.TermsAddUp | prayer-lang/src/compiler.rs:536-569 | any list of terms adds up side by side: items in the order written, at most one amount of credits a side, an error otherwise |
| TradeOffers.InterleavingIsIrrelevant | prayer-lang/src/compiler.rs:536-569 | only the order within each side matters |
| TradeOffers.TradeOfferRoundTrip | prayer-lang/src/action_projection.rs:247-270 | lowering the printed tokens returns the offer if and only if some side of it is not empty |
| TradeOffers.AcceptedOfferReprints | prayer-lang/src/compiler.rs:519-577 | every accepted argument list re-renders to a form that lowers to the same offer |
| TradeOffers.TradeOfferTextRoundTrip | prayer-lang/src/action_projection.rs:247-270 | the printed text lexes to the tokens and they lower to the offer |
| EditDistance.Levenshtein | prayer-lang/src/analyzer.rs:747-762 | the two swapped arrays yield the recursive edit distance for an ASCII right-hand side, and exactly the byte length or zero for any other |
| EditDistance.AsciiDistanceIsLeast | prayer-lang/src/analyzer.rs:747-762 | for an ASCII right-hand side the answer is the least cost of any script of single-character edits |
| EditDistance.ReportIsRightExactlyWhen | prayer-lang/src/analyzer.rs:747-762 | the report is the distance if and only if the right-hand text is ASCII, or the texts are equal and of odd length, or the left-hand one is even, at least as long as the other has bytes, and that far away |
| EditDistance.ShortReportIsRightExactlyWhen | prayer-lang/src/analyzer.rs:747-762 | against a text of more bytes than the left-hand one has characters, the report is the distance if and only if that text is ASCII or the texts are equal and of odd length |
| EditDistance.NonAsciiReportIsWrong | prayer-lang/src/analyzer.rs:747-762 | one letter against an accented one is reported as no edit |
| EditDistance.ZeroReport | prayer-lang/src/analyzer.rs:747-762 | the report is zero exactly for equal texts, or for a non-ASCII text against one of odd length |
| Resolution.Dedupe | prayer-lang/src/analyzer.rs:727-737 | the loop keeps the first spelling of every token |
| Resolution.ResolveIdentity | prayer-lang/src/analyzer.rs:665-725 | the lookup gives what `Resolve` gives for the argument's kind |
| Resolution.ResolveMeaning | prayer-lang/src/analyzer.rs:682-725 | the first known identifier with the same token is returned; only when there is none is the first of least distance suggested; nothing is checked when nothing is known |
| Resolution.ResolveIsIdempotent | prayer-lang/src/analyzer.rs:686-693 | what resolution returns resolves to itself |
| Resolution.SpellingIsIrrelevant | prayer-lang/src/analyzer.rs:739-745 | spellings with one token resolve alike, the token included |
| Resolution.TokenIsStable | prayer-lang/src/analyzer.rs:739-745 | normalising twice is normalising once |
| Resolution.SpellingsAgree | prayer-lang/src/analyzer.rs:739-745 | spellings that differ in case, or in blank, hyphen and underscore, have one token |
| Resolution.GoPrefersSystems | prayer-lang/src/analyzer.rs:665-681 | a destination resolves to the system of that name before the place of that name |
| Commands.ValidateCommandArgs | prayer-lang/src/lib.rs:186-223 | the loop reports exactly the complaints of `Complaints`, in order |
| Commands.AcceptedMeansNoComplaint | prayer-lang/src/lib.rs:186-223 | there is no complaint if and only if there are enough arguments, not too many, and a number wherever one is asked for |
| Commands.CatalogSuffices | prayer-lang/src/catalog.rs:243-755 | for every catalogued command the catalog's argument list is enough for its lowering, exactly but for `found_station` and `trade_offer` |
| Commands.CatalogGuaranteesLowering | prayer-lang/src/compiler.rs:156-420 | whatever lowering takes from a catalogued command's arguments, the catalog has asked for; what it makes of them is `CommandText.FieldsAreTheArguments` |
| Pipeline.Validate | prayer-lang/src/lib.rs:153-171 | the statement loop collects every statement's diagnostics in order |
| Pipeline.Analyze | prayer-lang/src/analyzer.rs:162-245 | the statements are analysed in order with one error list, and succeed exactly when it stays empty |
| Pipeline.ValidExactlyWhen | prayer-lang/src/lib.rs:153-223 | a program has no diagnostics if and only if each command in it is catalogued, has enough arguments and not too many, and numbers where they are asked for |
| Pipeline.UnknownIsReportedWithNearest | prayer-lang/src/analyzer.rs:665-725 | an unknown name is reported once, where it stands, with the first known name that comes nearest to it |
| Pipeline.AllowedExactly | prayer-lang/src/analyzer.rs:467-583 | the ends of a transfer are accepted exactly for the moves allowed to its subject; a block moves out of cargo only |
| Pipeline.ShipIsGivenExactlyWhen | prayer-lang/src/analyzer.rs:310-350 | a name becomes a ship exactly when it is given to a player without a quantity and resolves to a ship the bot owns |
| Pipeline.RowsAreResolved | prayer-lang/src/analyzer.rs:362-382 | rows of a block keep their place and quantity, and each name becomes the known item it stands for |
| Pipeline.CompileNodes | prayer-lang/src/compiler.rs:72-142 | compilation gives one node and one span per statement, in order, or fails at the first statement that has no lowering |
| Pipeline.CommandProgress | prayer-lang/src/compiler.rs:156-420 | an accepted command compiles after analysis exactly when `found_station` says true or false and the words of `trade_offer` are a target and a list of terms; every other accepted command compiles |
| Pipeline.TransferProgress | prayer-lang/src/compiler.rs:471-509 | a transfer analysed without errors lowers |
| Pipeline.Progress | prayer-lang/src/compiler.rs:52-142 | a program without diagnostics and without analysis errors compiles, exactly when each `found_station` says true or false and the words of each `trade_offer` are a target and a list of terms naming credits at most once a side; spans are kept |
| Statements.RefuelRoundTrip | prayer-lang/src/parser.rs:402-427 | a refuel request survives printing, parsing and lowering exactly when its target is not a number |
| Statements.RepairRoundTrip | prayer-lang/src/parser.rs:428-448 | a repair request survives exactly when its target is not `with` and nothing is given without what it belongs to |
| Statements.ModifyOrderRoundTrip | prayer-lang/src/parser.rs:372-389 | a price change survives exactly when the price is positive |
| Statements.UnloadRoundTrip | prayer-lang/src/parser.rs:390-401 | unloading a passenger survives, with and without a target |
| Statements.CommissionRoundTrip | prayer-lang/src/parser.rs:648-670 | a commission survives, with and without materials |
| Statements.BuyMeansItself | prayer-lang/src/compiler.rs:108-118 | the text of a well-formed purchase lexes, parses, analyses and compiles to that purchase |
| Statements.SellMeansItself | prayer-lang/src/compiler.rs:119-128 | the text of a well-formed sale compiles to that sale |
| Statements.CraftMeansItself | prayer-lang/src/compiler.rs:450-459 | the text of a well-formed crafting request compiles to that request if and only if its recipe is canonical |
| Statements.RecycleMeansItself | prayer-lang/src/compiler.rs:460-469 | the text of a well-formed recycling request compiles to that request, source, destination and facility in their places, if and only if its recipe is canonical |
| Statements.CommissionMeansItself | prayer-lang/src/parser.rs:648-670 | the text of a commission compiles to that commission |
| Statements.TransferMeansItself | prayer-lang/src/compiler.rs:471-504 | the text of a well-formed flat transfer compiles to that transfer if and only if its endpoints may be paired, any quantity is positive, and an item's name is one that analysis keeps as that item |
| Statements.SpeechRoundTrip | prayer-lang/src/action_projection.rs:318-330 | speech is read back from its printed text if and only if content, channel and target are printable |
| Statements.OnlySaySpeaks | prayer-lang/src/parser.rs:312-337 | a text the common shape reads as a command is taken for speech only when its name begins with `say` |
| Statements.SayMeansItself | prayer-lang/src/parser.rs:312-337 | the text of what is said compiles to it if and only if its parts are printable, its channel exists, and it has a target exactly when the channel is the private one |
| Statements.TradeOfferMeansItself | prayer-lang/src/compiler.rs:519-577 | the text of a trade offer that is not empty compiles to that offer |
| Statements.TradeOfferValidatesUpToSixTerms | prayer-lang/src/catalog.rs:360-368 | the printed form of an offer passes validation exactly up to six terms |
| CommandText.LoweredIsTyped | prayer-actions/src/lib.rs:273-513 | lowering gives every command the fields of its typed action |
| CommandText.CanonicalLowers | prayer-lang/src/compiler.rs:156-420 | lowering gives every action printed as a command back from its own arguments, if and only if a repair names nothing without what it belongs to, a refuel target is no number and an offer is not empty |
| CommandText.FieldsAreTheArguments | prayer-lang/src/compiler.rs:156-420 | the words of the lowered fields, in order, are the accepted arguments, and a count that was left out is one; the switch, repair, refuelling and trading are `CanonicalLowers` |
| CommandText.CommandMeansItself | prayer-lang/src/action_projection.rs:8-332 | the printed text of every action in the common shape lexes, parses, analyses and compiles to that very action, if and only if grammar and lowering can carry its words and analysis leaves them alone |
| CommandText.NoWordIsIgnored | prayer-lang/src/compiler.rs:163-184 | commands whose lowering counts their words never pass over one |
| CommandText.BuyMeansTheStatement | prayer-lang/src/compiler.rs:215-221 | `buy` as a common command means the legacy purchase statement of the same words |
| CommandText.SellMeansTheStatement | prayer-lang/src/compiler.rs:222-227 | `sell` as a common command means the legacy sale statement of the same words |
| CommandText.ItemsAreLookedUp | prayer-lang/src/catalog.rs:243-755 | an argument is looked up among the known items exactly where the action has an item |
| TransferCodec.TransferArgs | prayer-runtime/src/action_resolution.rs:363-395 | the item loop gives what `Encode` gives |
| TransferCodec.TypedTransfer | prayer-runtime/src/action_resolution.rs:441-482 | the decoder gives what `Decode` gives, absent arguments and wrong types included |
| TransferCodec.ItemsFrom | prayer-runtime/src/action_resolution.rs:465-478 | the index loop gives what `DecodeItems` gives |
| TransferCodec.EndpointRoundTrip | prayer-runtime/src/action_resolution.rs:484-509 | an endpoint's text is read back, but that of a commission is not |
| TransferCodec.EncodesExactlyWhatFits | prayer-runtime/src/action_resolution.rs:281-285 | encoding is refused exactly when some integer is above the i64 range |
| TransferCodec.CodecRoundTrip | prayer-runtime/src/action_resolution.rs:363-509 | decoding the encoding gives the transfer back exactly unless it has a module subject, a commission endpoint or more items than can be counted |
| TransferCodec.DecodedReencodes | prayer-runtime/src/action_resolution.rs:441-482 | whatever decodes can be encoded again and decodes to the same |
| TransferCodec.WireForm | prayer-runtime/src/action_resolution.rs:363-439 | the arguments the runtime is sent, subject by subject and endpoint by endpoint |
| FleetToken.FleetVersionFor | prayer-api/src/v1.rs:248-267 | the sorted, byte-by-byte loop computes the hash of the canonical stream, whose properties are the rows below |
| FleetToken.TokenIgnoresOrder | prayer-api/src/v1.rs:248-251 | the order the bots are supplied in does not matter |
| FleetToken.StreamIsInjective | prayer-api/src/v1.rs:256-261 | the byte stream is uniquely decodable |
| FleetToken.TokenCollidesOnlyInTheHash | prayer-api/src/v1.rs:248-267 | two different fleets share a token only when the hash sends two different streams to one value |
| FleetToken.MixIsInjective | prayer-api/src/v1.rs:252-266 | mixing a byte keeps different 64-bit hashes different, and makes one hash differ for different bytes |
| FleetToken.OneByteTells | prayer-api/src/v1.rs:252-266 | streams of one length that differ in a single byte have different hashes |
| FleetToken.TokenSeesOneByte | prayer-api/src/v1.rs:248-267 | revising one bot so that a single byte of its revision changes always changes the token |
| FleetToken.TokenSeesNextRevision | prayer-api/src/v1.rs:248-267 | the next revision of a bot always changes the token unless it carries into the second byte |
| FleetToken.KnownHash | prayer-api/src/v1.rs:252-256 | the hash of the letter `a` is the published value of 64-bit FNV-1a |

## Left out

- Overlapping state() calls on one client: the client reads its cache again after awaiting, so coherence is claimed for one outstanding call at a time.
- Fleet and catalog content, and `updated_at_utc`, in the world view: the first two travel behind opaque tokens, the last has no tag.
- JSON, HTTP, authentication, telemetry and the generated clients: a domain's serialised form stands for its content, taken to be injective.
- World content is a function of the world version, as the server assumes when it compares versions.
- Cancelled request futures and crashes between starting a run and recording it in the idempotency protocol; run requests without an idempotency key.
- The run engine, orchestration, economy and the action payloads of the scheduler, which stay opaque.
- Scheduler.Scheduler.Halt: `halted` is never set to true by the code, so no halted mode is modelled beyond the guard that reads it.
- RouteTable.BuildWithPenalties: rows are maps from system names rather than slices of one row-major vector of indices, systems are taken in any order, and the unweighted distances and their first hops are not modelled.
- The set of penalised systems (within three jumps of a stronghold) is a parameter of the graph.
- Navigation.ChoiceIsRouteStable: records are taken to be stored under their own ids, as every writer of the table does.
- Navigation.NearestRefuelStation: the eligibility tests the loop makes record by record are applied first, as a filter on the records.
- The other navigation targets (mining, exploration, go).
- The prefilter for removed syntax, which scans inside quotes, and the textual error recovery for transfers; the grammar below them is modelled, with error kinds in place of error texts.
- The dedicated grammar alternative for flat transfers, which accepts nothing that the common command shape does not.
- The block form of a transfer as text: the printer writes the endpoints after the block and the parser wants them before it, so only its rows and endpoints are shown to round-trip.
- Command names are compared after ASCII lower-casing throughout; the analyser's Unicode lower-casing agrees with it on the names the lexer can produce.
- Commands.CatalogSuffices: argument lists are grouped by shape, and constant fields of an action are not carried.
- CommandText.CommandMeansItself: the spelling of each command name is a parameter, asked only to stand for the command and to have no grammar of another's.
- The normaliser for whole scripts, and the bridge's argument forms other than transfers, several of which lose information by design.
- FleetToken.FleetVersionFor: sorting is the ascending listing by code point, which is the byte order of UTF-8; ids do not repeat because they come from a map.
