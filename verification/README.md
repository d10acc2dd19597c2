# A verified model of the trading harness

The harness keeps a deterministic core under its language models and brokers: a lease protocol that
decides who may write, an append-only decision pipeline with daily limits, two ledgers, performance
accounting over corrected observations, and a public read model that is published incrementally and
read in pages. This project models that core in Dafny and proves the properties the core is there for.

| module | what it models | its theorems | what its operations answer |
|---|---|---|---|
| `Leases` | runtime runs, attempts, leases and fenced submissions | `LeaseTheorems` | `LeaseOutcomes` |
| `Pipeline` | the decision pipeline | `PipelineTheorems` | `PipelineOutcomes` |
| `Quotas` | the policy's daily counts | `QuotaTheorems` | `QuotaOutcomes` |
| `Reviews` | submitting what a review authored | `ReviewTheorems` | `ReviewOutcomes` |
| `IntervalCover`, `LinkedReturns` | coverage of a window; time-weighted returns across flows | `LinkedReturnTheorems` | `LinkedReturnOutcomes` |
| `Observations` | the correction store and the report's first guards | `ObservationTheorems` | `ObservationOutcomes` |
| `Episodes` | holding episodes | `EpisodeTheorems` | `EpisodeOutcomes` |
| `Sampling` | thinning a long chart | `Sampling` | `Sampling` |
| `PaperLedger` | paper fills, positions, replay | `PaperLedgerTheorems` | `PaperOutcomes` |
| `Publication` | triggers and incremental publication | `PublicationTheorems` | `PublicationOutcomes` |
| `Feed` | paged reads | `FeedTheorems` | `FeedOutcomes` |
| `RateLimiting` | the token-bucket limiter | `RateLimitTheorems` | `RateLimitOutcomes` |
| `StrictSchema` | the strict schema rewrite and the decoder that undoes it | `StrictSchemaTheorems` | |
| `Reporting`, `Sorting`, `Wrappers` | shared observation records; stable sorts and filters; options | | |

Code that updates state is modelled by classes and methods with the program's own steps, each tied by
its `ensures` to a function on values; the theorems are about those functions, over every input, every
interleaving and every run. The last column says, independently of how those functions compute, when each
operation does what: which guard answers with which error, and what is written, in the fields of the
tables. A database transaction is one method; a refused one leaves every table as
it was. Tables are sequences and maps, instants and money are integers, quantities, factors and shares
are exact reals, stored JSON is the record itself, and hashes are the identifiers they hash.

Where the code meets a property only under a condition, the condition is part of the statement and a
lemma shows an input without it:

| property | holds | an input without the condition |
|---|---|---|
| a publish equals a full rebuild | exactly when it selects a decision whose view refuses, or no decision it passes over would look different with the shared tables as they are now (`PublicationTheorems.EveryPublishIsARebuild`); for every projection at once, exactly when each of those was last looked at with the shared tables as they are now (`EveryProjectionExactly`) | `PublicationTheorems.BarOnNonSessionIsMissed`: a bar of a filled ticker, on or after its fill, on a day without a session, and exactly such a bar |
| an update stamps the decisions whose rows it changes | exactly when it takes no row away from a decision that the new row no longer names (`PublicationTheorems.UpdateStampsOrSparesExactly`) | `PublicationTheorems.LeavingIsPassedOver`: every update that does |
| replaying the paper fills gives the incremental positions | exactly when it does for each ticker alone (`PaperLedgerTheorems.RebuildAgreesExactly`); always when no two fills of one ticker and day are stamped out of order (`RebuildGivesIncrementalTable`), and also when two neighbours are that buy into an open position, or sell and leave more than dust (`CommutingPairAgrees`, `PurchasesCommute`, `SalesCommute`) | `PaperLedgerTheorems.ClockStepBreaksReplay`: a purchase and a sale in one settlement while the clock steps back |
| a day has at most two ordinary buys | exactly when no fresh one is asked for while two stand and the policy's guard holds: fewer than five buys, and fewer than two of them without a recorded pair (`QuotaTheorems.TwoOrdinaryBuysExactly`, `ThirdOrdinaryBuyExactly`); always over reviews, however they interleave, and manual submissions outside their namespaces (`ReviewTheorems.ReviewsKeepTwoOrdinaryBuys`) | `ReviewTheorems.LatePairMakesRoom`: not a run that the worker makes by itself. A manual submission has bought, in the namespace of an attempt, the very record, creation instant included, that the attempt's review then authors and funds |
| decoding undoes the strict rewrite | when a union has one part besides null, as every union of the program's own schema has (app/schemas/runtime.py, app/schemas/decision_record.py, app/schemas/public_authoring.py) | `StrictSchemaTheorems.LaterPartIsMisread` |

## Model

| member | source | states |
|---|---|---|
| Leases.Store.constructor | app/storage/database.py:5-32 | a new store has no run, attempt, lease, tag or link |
| Leases.Store.Expire | app/storage/runtime.py:124-143 | the loop over due leases ends every due holder's running row and frees its lease, and touches nothing else |
| Leases.Store.Claim | app/storage/runtime.py:166-234 | a claim sweeps due leases, then grants the next fence and attempt number, or is refused with every table as it was |
| Leases.Store.Heartbeat | app/storage/runtime.py:237-263 | only a live fence with a clock not behind the last heartbeat renews a lease, and only that row and lease change |
| Leases.Store.Finish | app/storage/runtime.py:266-344 | the steps of a finish: fence, clock, tagged decisions, the prepared reasoning run, then the row and its lease; `LeaseOutcomes.FinishExactly` says with which status and when |
| Leases.Store.Submit | app/reason/run.py:421-468 | a submission is checked against its fence, run identity and namespace, linked once, and tagged with its attempt, or rolled back |
| Leases.Store.SaveRun | app/storage/runtime.py:75-105 | a run is stored once, is immutable, and cannot wrap a reasoning run already completed |
| Leases.Store.Complete | app/storage/records.py:115-162 | a prepared reasoning run is completed by hand once, with exactly the decisions linked to it, or is left as it was |
| LeaseTheorems.CompletedByHandIsNeverClaimed | app/storage/runtime.py:201-204 | once its reasoning run is completed by hand, a run without an attempt never gets one, whatever happens later |
| LeaseTheorems.RunsAreSafe | app/storage/runtime.py:124-344 | over any operations in any order at any clock readings the whole lease invariant holds, fences never fall, ended rows and set tags never change |
| LeaseTheorems.OneRunningAttemptPerScope | app/storage/runtime.py:187-233 | a scope has at most one running attempt, and an attempt runs exactly when its scope's lease names it with the same fence |
| LeaseTheorems.ClaimedFenceIsFresh | app/storage/runtime.py:191-232 | a granted fence is above every fence any attempt of that scope ever had |
| LeaseTheorems.EndedAttemptsAreDead | app/storage/runtime.py:146-163 | once an attempt has left running, no later heartbeat, finish or fenced submission in its name succeeds with any fence, and its row never changes |
| LeaseTheorems.ClaimHoldsUntil | app/storage/runtime.py:146-163 | a claimed fence passes validation exactly until its lease runs out |
| LeaseTheorems.HeartbeatHoldsUntil | app/storage/runtime.py:259-262 | after a heartbeat the fence is valid exactly for the lease asked for, counted from that heartbeat |
| LeaseTheorems.SweepEndsExactlyTheDue | app/storage/runtime.py:127-142 | a sweep ends exactly the running attempts whose own scope's lease has run out |
| LeaseTheorems.AttributionIsFencedAndFinal | app/reason/run.py:424-468 | a decision gains an attempt's tag only from a submission under that attempt's live fence while it runs, and keeps it for ever |
| LeaseTheorems.AttemptsAreNumbered | app/storage/runtime.py:196-220 | every attempt's number is one more than the attempts of its run before it, and only the last of a run can be running, completed or without action |
| LeaseTheorems.NoActionStaysEmpty | app/storage/runtime.py:302-306 | an attempt finished without action never gains a decision |
| LeaseOutcomes.SweepExactly | app/storage/runtime.py:124-143 | a sweep ends exactly the running rows and frees exactly the leases that are due, field by field |
| LeaseOutcomes.ClaimExactly | app/storage/runtime.py:166-234 | in every reachable state the first guard that fails refuses the claim, with its error and every table as it was; otherwise the swept tables gain the run's next attempt under its scope's next fence |
| LeaseOutcomes.HeartbeatExactly | app/storage/runtime.py:237-263 | the guards with their errors; a renewal sets the row's time and stage and the lease's expiry, and nothing else |
| LeaseOutcomes.FinishExactly | app/storage/runtime.py:266-344 | the guards with their errors; an accepted finish gives the row the status asked for, the finished stage and the time, frees its lease, completes its prepared reasoning run, and moves nothing else |
| LeaseOutcomes.SuccessIsFinal | app/storage/runtime.py:205-206 | once an attempt is finished as completed or without action, no claim of its run is granted after any operations |
| LeaseOutcomes.FailureCanBeRetried | app/storage/runtime.py:195-234 | after any other finish a retry that meets the session, schedule and identifier guards is granted |
| LeaseOutcomes.SubmitExactly | app/reason/run.py:421-468 | which of fence, identity, namespace, pipeline, link and tag refuses a submission, and what an accepted one links and tags |
| LeaseOutcomes.SaveRunExactly | app/storage/runtime.py:75-105 | which guard refuses a run, and that an accepted one is stored under its identifier |
| LeaseOutcomes.CompleteExactly | app/storage/records.py:115-162 | which guard refuses a completion by hand, and that an accepted one records its result |
| Pipeline.Ledger.AppendStatus | app/state/pipeline.py:68-105 | a status already in the history is a no-op, a legal one is appended, an illegal one is refused |
| Pipeline.Ledger.PlaceIntent | app/state/pipeline.py:287-305 | the intent is created unless it is there, and then recorded |
| Pipeline.Ledger.Fail | app/state/pipeline.py:127-136 | a schema failure is recorded with its detail and reported |
| Pipeline.Ledger.Evaluate | app/state/pipeline.py:230-311 | the record, its statuses, the evaluation and the intent are written in order, or the call raises |
| Pipeline.Ledger.ProcessInside | app/state/pipeline.py:108-311 | every branch of one call: malformed, replayed, dated in the future, evaluated |
| Pipeline.Ledger.ProcessDecision | app/state/pipeline.py:314-350 | the savepoint: an exception restores every table |
| PipelineTheorems.ReasonsRoundTrip | app/state/pipeline.py:181-186 | joining the policy's reasons and splitting the stored text gives the same reasons in the same order |
| PipelineTheorems.DecisionsEndProperly | app/state/pipeline.py:108-311 | after any calls a decision has no status or one of four ends; an intent exists exactly at the last, is on the decision's side, and the recorded evaluation approved it |
| PipelineTheorems.ReplayReturnsFirstOutcome | app/state/pipeline.py:138-214 | resubmitting an evaluated record in its scope, after any other calls and whatever policy and clock say now, returns the first outcome, reasons included, and changes nothing |
| PipelineTheorems.ReplayIsInert | app/state/pipeline.py:138-192 | a saved decision answers from its tables, or raises on another scope or other content |
| PipelineTheorems.StepKeepsShape | app/state/pipeline.py:68-311 | every call keeps every decision in one of the five reachable shapes |
| PipelineTheorems.OthersUntouched | app/state/pipeline.py:108-311 | a call touches no decision but its own |
| PipelineTheorems.RunKeepsEvaluation | app/state/pipeline.py:108-311 | what was recorded about an evaluated decision never changes over any run |
| PipelineOutcomes.ProcessExactly | app/state/pipeline.py:108-311 | in every reachable state, for any call: whether it raises, the final status, reasons and order it reports, and every row it writes; a schema failure is recorded once with its detail and reported without an order |
| Quotas.CheckCounts | app/policy/decision_policy.py:154-183 | each rule is reported exactly when its own count is full and it applies, never two of them, and none exactly when the counts leave room |
| Quotas.Judge | app/policy/decision_policy.py:154-183 | a live submission is approved only when the counts leave room and no other rule objects |
| QuotaTheorems.ApprovedHadRoom | app/policy/decision_policy.py:154-183 | an approved live submission had passed the count rules of its own profile and day |
| QuotaTheorems.OrdinaryAreCounted | app/reason/live_context.py:49-61 | buys less recorded swap buys, which the policy judges by, is never below the ordinary buys that no pair names |
| QuotaTheorems.NewIntent | app/state/pipeline.py:230-311 | an intent appears only with its own record, just judged and approved, on the clock and in the scope of that call |
| QuotaTheorems.StepKeepsLimits | app/reason/worker.py:1229-1293 | every submission with its own funding flag, and every pair recorded by a worker whose funded submission found the intent, keeps every profile and day within its limits |
| QuotaTheorems.DailyLimitsHold | app/reason/live_context.py:37-64 | over any serialised run each profile has per New York day at most 5 buying and 10 selling intents, and at most 2 ordinary buys besides those that a pair names |
| QuotaTheorems.OrdinaryBuysGrowExactly | app/policy/decision_policy.py:154-175 | on every reachable desk a step adds to a day's ordinary buys exactly the purchase that is asked for as one, is stopped by nothing else, and meets counts that leave room; ordinary buys are never lost |
| QuotaTheorems.ThirdOrdinaryBuyExactly | app/policy/decision_policy.py:161-175 | with two ordinary buys a third passes if and only if the policy's guard, checked before the call, lets it; then a recorded pair names one of the two |
| QuotaTheorems.TwoOrdinaryBuysExactly | app/reason/live_context.py:37-64 | over any run a day stays within two ordinary buys if and only if no step meets that guard while two stand |
| QuotaTheorems.AgreeingRunsHaveTwoOrdinaryBuys | app/reason/run.py:404-458 | over any submissions that agree, decision by decision, on the funding flag, no pair names an ordinary buy and a day has at most 2 |
| QuotaOutcomes.VerdictExactly | app/policy/decision_policy.py:154-183 | a submission is approved if and only if no other rule objects and, if it is live, the counts leave it room; a paper submission is not counted |
| QuotaOutcomes.CountsExactly | app/reason/live_context.py:37-64 | the counts see exactly the profile's live intents of the New York day |
| QuotaOutcomes.SubmitExactly | app/reason/run.py:404-468 | what a submission that returns leaves: its call's tables, a swap for a new funded intent, and a pair due for a live funded purchase |
| Reviews.Worker.SubmitOne | app/reason/run.py:421-468 | a submission is processed and tagged with its attempt, or leaves the tables as they were |
| Reviews.Worker.TakeDraft | app/reason/worker.py:1230-1272 | one draft is submitted with the accepted sale of its swap's incumbent, if any, and what it settled is remembered |
| Reviews.Worker.TakePair | app/reason/worker.py:1286-1293 | the pair of a funded purchase is recorded once, or the review ends |
| Reviews.Worker.SubmitAll | app/reason/worker.py:1217-1293 | the loop over the drafts, sales first: accepted sales are remembered, a purchase is submitted with the sale that funds it, and the pair is recorded; an exception ends it |
| ReviewTheorems.LoopIsItsTransactions | app/reason/worker.py:1223-1293 | running the loop to its end is taking its transactions one by one |
| ReviewTheorems.ReviewsKeepTwoOrdinaryBuys | app/reason/worker.py:1217-1293 | over every interleaving of the transactions of any reviews, ended early or not, and of manual submissions outside their namespaces, each profile and day has at most 2 ordinary buys; that funding agrees is derived from the loop |
| ReviewTheorems.LatePairMakesRoom | app/reason/run.py:434-466 | with a manual submission inside a namespace there are runs with three: the review submits the same record again, funded, and its pair makes room |
| ReviewOutcomes.OrderExactly | app/reason/worker.py:1229-1232 | the drafts are taken each once, every sale before anything else |
| ReviewOutcomes.SalesAreRemembered | app/reason/worker.py:1271-1272 | before each draft the review remembers exactly the sales it had accepted, by ticker, the last one of each |
| ReviewOutcomes.FundingExactly | app/reason/worker.py:1227-1240 | a purchase is submitted with the last accepted sale of its own incumbent, and with none if and only if no draft of the review sold it and was accepted |
| ReviewOutcomes.SubmittedExactly | app/reason/worker.py:1233-1267 | everything a draft is submitted with |
| ReviewOutcomes.RoundExactly | app/reason/worker.py:1253-1293 | what one draft leaves: its submission's tables and tag, the pair of a funded purchase, and when the review ends there |
| IntervalCover.ComputeCovered | app/performance/calculate.py:28-41 | the greedy walk answers true exactly when every instant of the window lies in a qualifying interval |
| IntervalCover.CoverSplits | app/performance/calculate.py:28-41 | covering a window is covering both parts of it |
| IntervalCover.CoverIgnoresOrder | app/performance/calculate.py:34-40 | the order of the intervals does not matter |
| LinkedReturns.LinkFlows | app/performance/calculate.py:117-162 | the loop crosses each flow in order and stops at the first that cannot be linked; `LinkedReturnOutcomes.ReturnExactly` says which that is and with what reason |
| LinkedReturns.ComputeLinkedReturn | app/performance/calculate.py:44-191 | the guards in order, the loop, the last segment and the precision guard; `LinkedReturnOutcomes.AvailableExactly` says when they all pass |
| LinkedReturnTheorems.ReturnsCompose | app/performance/calculate.py:44-191 | returns available from A to B and from B to C make the one from A to C their exact product, zero balances included, unless the product overflows the precision guard; flows and gains add |
| LinkedReturnTheorems.ReturnIsProductOfSegments | app/performance/calculate.py:117-191 | the factor is the product of the growth of the stretches between flows, the gain the sum of their gains, and nothing grows from zero |
| LinkedReturnTheorems.ReturnIgnoresListOrder | app/performance/calculate.py:95-98 | the order in which flows and coverage are listed never shows |
| LinkedReturnOutcomes.GuardsExactly | app/performance/calculate.py:52-94 | each reason before the flows is given if and only if its own guard is the first to fail |
| LinkedReturnOutcomes.ReturnExactly | app/performance/calculate.py:95-191 | past the guards: the flows must be told apart and name each boundary once; the reason is that of the first flow that cannot be linked; otherwise factor, gain and net flow are those of the stretches between |
| LinkedReturnOutcomes.AvailableExactly | app/performance/calculate.py:44-191 | a return is available if and only if the guards hold, every flow's two boundaries exist, are complete and match, nothing is gained on a zero balance, flows at one instant join without a gap, some balance was positive, and the product is below the precision limit; so an account funded from zero has one |
| Observations.ObservationStore.Ingest | app/performance/storage.py:20-167 | an observation is inserted, recognised as stored, or refused for the first failing check with the store unchanged |
| ObservationTheorems.IngestKeepsInv | app/performance/storage.py:20-167 | every ingestion keeps chains, instants and flow boundaries |
| ObservationTheorems.EventsAreChains | app/performance/storage.py:32-58 | in every store built by ingestion the observations of one event are one chain of corrections with one root, one head and recorded times that never fall |
| ObservationTheorems.StoredFlowsReconcile | app/performance/storage.py:105-134 | a stored flow always fits the boundary valuations it names and is the difference of their balances where both are known |
| ObservationTheorems.CurrentInstantsDiffer | app/performance/storage.py:59-81 | current ordinary valuations of an account have distinct instants |
| ObservationTheorems.CurrentAre | app/performance/storage.py:170-182 | the current observations of an account are its stored ones that are neither voided nor corrected |
| ObservationTheorems.ReportGuardsHold | app/performance/report.py:159-179 | on current observations the ambiguous-instant and mixed-account errors cannot occur |
| ObservationTheorems.BoundariesAlwaysMatch | app/performance/calculate.py:133-144 | on current observations a linked return never fails on a boundary that does not match its flow |
| ObservationOutcomes.IngestExactly | app/performance/storage.py:20-167 | which check refuses an observation and with which error, transfers included, or that it is inserted or recognised |
| ObservationOutcomes.AcceptedExactly | app/performance/storage.py:20-167 | after any submissions an observation is taken in if and only if its identifier is new, it begins its event or corrects the one that stands for it, and the check of its kind passes |
| ObservationOutcomes.CurrentExactly | app/performance/storage.py:170-182 | the current observations are those that stand, each once, by instant and then identifier |
| ObservationOutcomes.SelectedExactly | app/performance/report.py:159-179 | the report starts from exactly the ordinary current valuations, oldest first, when there are any |
| Episodes.OpenPositions | app/performance/report.py:45-64 | the opening loop: one open episode for each position held |
| Episodes.ReplayEvents | app/performance/report.py:78-123 | the event loop, with `current` pointing at the open episodes it updates, stopping at a negative quantity; `EpisodeOutcomes.TrackFollowsPath` says by what each event moves it |
| Episodes.ComputeEpisodes | app/performance/report.py:31-141 | the whole report with its reasons for being unavailable, which `EpisodeOutcomes.ReportExactly` gives exactly |
| EpisodeTheorems.EpisodesTellHoldings | app/performance/report.py:37-141 | under any limit, an available report gives the end of each ticker's own history, all of it when the limit drops nothing: episodes in time order without overlap, the quantity never negative, and what the latest valuation lists at the end; `EpisodeOutcomes.HeldExactly` says what that quantity is |
| EpisodeTheorems.OpenEpisodeIsListed | app/performance/report.py:134-141 | under any limit, a held ticker's open episode is listed if and only if fewer episodes were opened after it than are listed |
| EpisodeTheorems.OneOpenIffHeld | app/performance/report.py:96-121 | a ticker has exactly one open episode while something is held and none otherwise |
| EpisodeTheorems.EpisodesIgnoreListOrder | app/performance/report.py:66-141 | under any limit, listing the observations in another order leaves the outcome, the length and every ticker's undropped episodes, and the whole report when identifiers are not shared |
| EpisodeTheorems.FoldTracks | app/performance/report.py:78-123 | the interleaved loop runs each ticker's track over that ticker's events alone |
| EpisodeTheorems.FoldStops | app/performance/report.py:91-96 | the loop stops exactly when some ticker's own track goes negative |
| EpisodeOutcomes.ReportExactly | app/performance/report.py:31-141 | each reason is given if and only if its guard is the first to fail: opening quantities, activity coverage, events told apart, and no ticker ever negative with the ends as the latest valuation lists them |
| EpisodeOutcomes.HeldExactly | app/performance/report.py:82-141 | in an available report a ticker's open episode has its opening quantity taken through its events, a purchase or transfer in adding, a sale or transfer out subtracting, a split multiplying, and there is one if and only if that is positive |
| EpisodeOutcomes.SplitFreeSum | app/performance/report.py:82-90 | without a split that is the opening quantity plus what came in less what went out |
| EpisodeOutcomes.TrackFollowsPath | app/performance/report.py:82-96 | a ticker's replay stops if and only if some prefix of its events takes it below zero |
| Sampling.SelectForced | app/performance/report.py:385-392 | the first loop selects both ends and both sides of every change of gap class, and no other point |
| Sampling.SelectSpread | app/performance/report.py:397-401 | the first rounded positions fill the selection to exactly 400 points and no fewer of them would, for any nearest-integer rounding |
| Sampling.Sample | app/performance/report.py:382-402 | a long chart is refused exactly when more than 400 points are forced; otherwise exactly 400 increasing points are kept, both ends included, and every dropped point has the gap class of its kept neighbours; besides the forced points they are the first rounded positions |
| Sampling.KeepsGapsExactly | app/performance/report.py:385-392 | increasing points keep the gap classes if and only if they include the forced ones, so a refused chart has no 400 points that would |
| Sampling.SpreadAlone | app/performance/report.py:397-401 | a chart whose ends alone are forced keeps exactly the rounded positions |
| Sampling.SpreadIsEven | app/performance/report.py:401 | neighbouring rounded positions are at most a 399th of the chart, rounded up, apart |
| PaperLedger.Ledger.CashBalance | app/paper/broker.py:22-32 | starting cash less purchases plus sales up to a date |
| PaperLedger.Ledger.ApplyFill | app/paper/broker.py:35-82 | a purchase averages into its position, a sale reduces or closes it, and a bad fill changes nothing |
| PaperLedger.Ledger.FillCandidate | app/paper/broker.py:118-173 | one candidate is filled at its target weight, left waiting, or fails the settlement, as `PaperOutcomes.CandidateExactly` says when |
| PaperLedger.Ledger.Settle | app/paper/broker.py:85-174 | the whole settlement, as one transaction, which `PaperOutcomes.SettlementExactly` says when it raises |
| PaperLedger.Ledger.RebuildPositions | app/paper/broker.py:177-199 | positions are replayed from the fills in day, time and identifier order, or left as they were |
| PaperLedgerTheorems.FillIsSelfFinancing | app/paper/broker.py:118-173 | a fill keeps cash non-negative, leaves cash plus positions at that day's opens unchanged, and puts the ticker at exactly its target weight, up to a closed remainder below 1e-9 shares |
| PaperLedgerTheorems.BuyAddsToBasis | app/paper/broker.py:53-72 | a purchase adds what was paid to the cost of its position and keeps when and why it was opened |
| PaperLedgerTheorems.SettlingCounts | app/paper/broker.py:85-174 | settled plus awaiting is the number of intents without a fill, and a settlement only adds fills |
| PaperLedgerTheorems.RunsAreSound | app/paper/broker.py:85-199 | after any run of settlements and rebuilds, under any prices and any clock, cash is not negative, holdings are positive and listed once, and every fill a further settlement writes is self-financing |
| PaperLedgerTheorems.RebuildChangesNothing | app/paper/broker.py:177-199 | a rebuild of fills stamped in order ticker by ticker changes nothing |
| PaperLedgerTheorems.RebuildGivesIncrementalTable | app/paper/broker.py:85-199 | after any run, under any clock, a rebuild gives the incremental positions as long as no two fills of one ticker and day are stamped out of order |
| PaperLedgerTheorems.RebuildAgreesExactly | app/paper/broker.py:85-199 | after any run of settlements and rebuilds, under any clock, a rebuild gives the positions there are if and only if each ticker's own fills in stamp order replay to what they replay to in the order the table came to be |
| PaperLedgerTheorems.PurchasesCommute | app/paper/broker.py:53-72 | two purchases into an open position give the same position, or are refused, in either order |
| PaperLedgerTheorems.SalesCommute | app/paper/broker.py:73-82 | two sales that together leave more than dust give the same position in either order |
| PaperLedgerTheorems.CommutingPairAgrees | app/paper/broker.py:177-199 | a ticker whose fills are in stamp order but for two neighbours that commute replays to the same position |
| PaperLedgerTheorems.ClockStepBreaksReplay | app/paper/broker.py:85-199 | from the empty account one settlement buys and sells a ticker on one day while the clock steps back, and the rebuild is refused |
| PaperOutcomes.QueueExactly | app/paper/broker.py:87-117 | the candidates are exactly the intents without a fill that have a bar after their New York day and not after the last day asked for, each at its first, by day, creation and identifier |
| PaperOutcomes.WaitingExactly | app/paper/broker.py:112-114 | the intents that wait from the start are exactly those with neither a fill nor such a bar |
| PaperOutcomes.ApplyExactly | app/paper/broker.py:35-82 | which fills are refused and why; a purchase goes into its position at the average of what was paid or opens one, a sale takes its shares out and closes a position of dust, and no other position moves |
| PaperOutcomes.CandidateExactly | app/paper/broker.py:118-173 | in a book as every run leaves it, a candidate waits if and only if its day is not behind a fill and some held ticker has no bar that day; is filled if and only if besides all held and its own open positive, the change has the side's sign, a purchase is within cash and its decision is stored; and fails with the first reason otherwise |
| PaperOutcomes.SettlementExactly | app/paper/broker.py:118-174 | a settlement of any reachable account raises if and only if some candidate it comes to objects, and otherwise ends with the book the candidates leave in turn |
| PaperOutcomes.RebuildExactly | app/paper/broker.py:177-199 | a rebuild applies exactly the fills there are, by day, stamp and identifier, to an empty table |
| Publication.Tracked.Trigger | app/storage/publication_changes.py:65-128 | a trigger moves its sections' counters and stamps the decisions its row touches, or the rebuild marker |
| Publication.Tracked.Perform | app/storage/publication_changes.py:65-128 | a write and its trigger: an update sees only the new row, a delete only the old one |
| Publication.Store.UpsertOne | app/public/publication.py:877-919 | a row is inserted with a fresh identifier, updated, or left alone when content and scope are the same and it is not withdrawn |
| Publication.Store.PlaceAll | app/public/publication.py:619-919 | the loop over selected decisions: rows, updates counted, decisions seen |
| Publication.Store.WithdrawAll | app/public/publication.py:920-942 | the loop over withdrawal keys withdraws exactly the visible rows it looked at and did not see |
| Publication.Store.PublishFrom | app/public/publication.py:235-311 | one publish: unchanged checkpoint, quiet checkpoint, partial or full, or refused with the store as it was |
| Publication.Store.RevokeOne | app/public/publication.py:136-179 | a revocation flips the flag and moves the revision, once |
| PublicationTheorems.UpdateStampsOrSparesExactly | app/storage/publication_changes.py:86-128 | an update of any row of any table stamps a decision, or asks for a rebuild, or leaves the decision's own rows as they were, if and only if the old row was not one that the decision reads and the new row no longer names |
| PublicationTheorems.WriteStampsOrSpares | app/storage/publication_changes.py:67-128 | every insert, every delete and every update that takes no row away stamps a decision above every checkpoint, or asks for a rebuild, or leaves the decision's own rows as they were |
| PublicationTheorems.LeavingIsPassedOver | app/storage/publication_changes.py:86-107 | any other update shortens what the decision reads, and the next publish passes it over |
| PublicationTheorems.PublishingIsExact | app/public/publication.py:619-942 | a publish shows each decision it looks at exactly as its tables now say, or hides it, and leaves the entries of all others alone |
| PublicationTheorems.StampedEqualsAll | app/public/publication.py:287-311 | revisiting only stamped decisions gives the very rows, sequence, identifiers and revision that revisiting all gives, when the rest is in sync |
| PublicationTheorems.StableKeysKeepRows | app/storage/publication_changes.py:86-128 | runs whose updates keep the columns naming a decision, an intent or a run take no row away |
| PublicationTheorems.PartialEqualsRebuildExactly | app/public/publication.py:243-311 | in every reachable state a publish does what a full rebuild would if and only if it selects a decision whose view refuses, or no decision it passes over would look different with the aside as it is now |
| PublicationTheorems.EveryProjectionExactly | app/public/publication.py:243-311 | for given tables, checkpoint and visits, a publish equals a rebuild under every projection if and only if each decision passed over was last looked at with the aside as it is now |
| PublicationTheorems.PublishShows | app/public/publication.py:619-942 | after a publish every decision is shown from its own rows now and the aside it was last looked at with |
| PublicationTheorems.AccountsMoveTheCounter | app/storage/publication_changes.py:8-31 | a write that leaves the accounting counter leaves every row behind the paper account |
| PublicationTheorems.StepKeepsInv | app/public/publication.py:243-311 | writes that take no row away, publishes and revocations keep the store in sync with its checkpoint |
| PublicationTheorems.EveryPublishIsARebuild | app/public/publication.py:243-311 | from empty stores, over any interleaving of such writes to any sources, publishes under any configuration, clock and instant, and revocations: the exact condition for the next publish to equal a rebuild, and that it holds when each decision passed over reads nothing of the aside, or accounts whose counter and clock stood still, and other evidence that did, since it was last looked at |
| PublicationTheorems.BarOnNonSessionIsMissed | app/performance/paper.py:66-82 | a paper decision is filled and published and a price bar arrives: the next publish still shows its execution as recorded, and equals a rebuild if and only if the bar is not one of the filled ticker, on or after the fill's day, on a day without a session |
| PublicationOutcomes.TriggerExactly | app/storage/publication_changes.py:65-128 | which counters a write of each table moves, which decisions it stamps, and when it asks for all |
| PublicationOutcomes.VisitedExactly | app/public/publication.py:243-301 | when a publish looks at nothing, at the stamped decisions, or at all |
| PublicationOutcomes.PublishExactly | app/public/publication.py:235-311 | when a publish is refused; otherwise every old and new row, the checkpoint, and the revision, which moves by one if and only if the line of an old row moved |
| PublicationOutcomes.SliceExactly | app/storage/publication_changes.py:86-128 | which rows a decision's view reads as its own |
| FeedTheorems.PublishingBumps | app/public/publication.py:904-944 | a publish moves the revision exactly when it changes a line that was already public, and never renumbers or renames one |
| FeedTheorems.StepBumps | app/public/publication.py:136-179 | the same for every step, revocations included |
| FeedTheorems.PageAt | app/public/queries.py:113-192 | a page is the next lines of the listing the cursor stands in, with the listing's length and a cursor to the rest |
| FeedTheorems.RemainingIsSuffix | app/public/queries.py:158-179 | past a cursor lie exactly the lines after it, ranked by exact ticker, creation and public identifier |
| FeedTheorems.FollowingReadsOneSnapshot | app/public/queries.py:113-192 | following cursors, with any page sizes and any publishes in between, reads in order the listing the first page saw, without gap or duplicate: all of it when it completes, exactly as much as was asked for otherwise |
| FeedTheorems.RestartExactlyWhenAltered | app/public/queries.py:121-122 | a cursor is refused exactly when some step since its page changed a line that was already public |
| FeedTheorems.PageListsVisible | app/public/queries.py:130-179 | whatever its cursor, a page lists only stored lines that match the query, are of its portfolio and are neither revoked nor withdrawn |
| FeedTheorems.RevokedIsNeverListed | app/public/publication.py:136-143 | once revoked, a decision is on no later page, whatever is published after it |
| FeedOutcomes.ReadExactly | app/public/queries.py:113-192 | which cursors are refused; otherwise a page has the first lines past its cursor that are neither revoked nor withdrawn, of the query's portfolio and with every value it gives, by exact ticker, creation and identifier, with their number in all and a cursor to the rest |
| FeedOutcomes.ReadingListsExactly | app/public/queries.py:113-192 | a reading that completes lists every such line at or below the high water, each once and in order, and nothing else |
| RateLimiting.RateLimiter.constructor | app/public/hardening.py:91-107 | a new limiter holds no bucket |
| RateLimiting.RateLimiter.DropStale | app/public/hardening.py:117-121 | the loop drops refilled clients from the front |
| RateLimiting.RateLimiter.DropExcess | app/public/hardening.py:130-131 | the loop evicts the longest unseen clients beyond the bound |
| RateLimiting.RateLimiter.Acquire | app/public/hardening.py:112-132 | one call: forget, refill, spend or wait, store, evict |
| RateLimitTheorems.AcquireKeepsInv | app/public/hardening.py:112-132 | clients stay distinct and in last-seen order, at most `max_clients`, with between 0 and `capacity` tokens |
| RateLimitTheorems.ForgettingIsUnobservable | app/public/hardening.py:116-121 | a client the bound never evicts gets exactly the answers of a limiter that drops nothing |
| RateLimitTheorems.AdmissionBound | app/public/hardening.py:122-129 | between two instants a client is admitted at most capacity plus rate times elapsed time |
| RateLimitTheorems.WaitIsLeast | app/public/hardening.py:124-128 | the wait is the least whole number of seconds, at least one, that refills a token |
| RateLimitTheorems.RetryAfterWait | app/public/hardening.py:122-132 | a refused client retrying after v seconds is admitted exactly when v reaches the wait, whatever others do meanwhile |
| RateLimitOutcomes.AcquireExactly | app/public/hardening.py:112-132 | a call finds the caller's refilled tokens, answers with no wait or the least that refills one, drops exactly the refilled clients and puts the caller last |
| RateLimitOutcomes.EvictExactly | app/public/hardening.py:130-131 | exactly the excess is evicted, and none that was seen later than one that stays |
| StrictSchemaTheorems.DecodeIsSound | app/reason/codex_runner.py:62-120 | every value that conforms to the strict rewrite decodes to one that conforms to the original schema |
| StrictSchemaTheorems.RoundTrip | app/reason/codex_runner.py:62-120 | filling absences with nulls gives a value of the strict form, and decoding it gives the value back, with nulls spelled out only for nullable properties it left out |
| StrictSchemaTheorems.NullIsDroppedExactly | app/reason/codex_runner.py:105-117 | a null given for a property is dropped if and only if the property is known, optional and no part of its union is null; any other is kept |
| StrictSchemaTheorems.LaterPartIsMisread | app/reason/codex_runner.py:96-101 | a union with two parts besides null can be decoded by the wrong part and fit neither |

## Left out

- LinkedReturns.ComputeLinkedReturn: factors are exact reals; the 40-digit rounding, the six-digit percentage and the cent formatting are not modelled.
- LinkedReturnTheorems.ReturnsCompose: A and C carry different identifiers, as valuations of different instants do in the store.
- LinkedReturnTheorems.ReturnIgnoresListOrder: assumes that one identifier names one flow, which the store guarantees.
- PublicationTheorems.EveryPublishIsARebuild: a projection is any function of the configuration, the decision's own rows and the aside: the tables behind the paper account, run provenance, execution models, trigger posts, digest models, the accounting clock and the instant of the publish. It does not read the public run identifiers kept in the target store, which the program also looks up.
- Publication.Store.PublishFrom: the activity, performance, policy and portfolio sections, `updated_at`, the version number, a source without change counters, and the check that live profiles share one account are not modelled; decisions are visited in table order.
- Reviews.Worker.SubmitAll: heartbeats, the fence itself, held-back buys, snapshots and the review's text are not modelled; whether a submission or a pair meets a live fence is an input, and so are the clock and the other rules. A pair is kept by its purchase, without the sale it names.
- Quotas.CheckCounts: the other policy rules are arbitrary lists of reasons around the three count rules.
- PaperLedgerTheorems.RebuildGivesIncrementalTable: goes one way; `RebuildAgreesExactly` goes both, ticker by ticker.
- PaperLedger.Ledger.Settle: finite-number tests, the check that no fill belongs to a live intent, and sums in floating point are not modelled.
- Observations.ObservationStore.Ingest: whether an agent's fill matches its order intent and account snapshots is an input.
- Leases.Store.Claim: the schedule's own guard on a claim, the session day and the fresh identifier are inputs; model names, reasons and public summaries are not stored.
- Leases.Store.SaveRun: the checks on the session, the intake file, the triggers and the matching snapshot before the transaction are one input.
- Leases.Store.Complete: whether the record is the stored one, and whether its immutable fields agree, are inputs.
- Leases.Store.Submit: what the decision pipeline did inside the submission is an input here and is modelled by itself in `Pipeline`.
- Episodes.ComputeEpisodes: the episode dictionaries that the program reaches through two containers are rows of one list and indices into it; episode identifiers keep the external identifier they hash.
- Sampling.Sample: works on the gap classes; building the chart points is left out.
- StrictSchemaTheorems.DecodeIsSound: schemas are values, so the in-place order of the rewrite is not modelled; defaults, formats, bounds and the replaced `created_at` property do not affect the decoder; an object's fields are a list in order.
- FeedTheorems.FollowingReadsOneSnapshot: cursors are records rather than base64 text, the query signature is the query, and the search index is given as the searches that find a row.
- `daily_pnl` and `session_timestamp_reason`, the benchmarks, labels and month cutoffs of a report: expressions whose properties would be read off their bodies.
- Regime hysteresis, the watchlists, the broker state table, execution packets, newsletters, X ingestion, dashboards and HTTP: separate code, mostly text and I/O.
- Time zones, Unicode, SQL text and JSON encoding.
