# Kamby: verified models of the shared algorithms and protocols

Kamby is a social trading app. Most of it moves data between services; the parts modelled here are
the exact algorithms and the small protocols that the rest relies on: keeping a browser's feed lists
equal to the server's by patches, first-in-first-out profit accounting, percentage rounding, tiered
fees, the promise and connection state machines of the web client, and a few loops that must agree
with a simple definition.

Each component is one module. Code that changes variables step by step is a method (or a class with
the same fields) proved against a specification function or predicate; what the code is for is then
proved about that specification, for every input, every run or every interleaving. Protocols are
transition systems: a run is any sequence of enabled steps, and a class whose methods take the steps
one by one keeps the invariant.

| module | models |
|---|---|
| `FeedDiff`, `FeedReplication` | the diff/patch pair for keyed lists, and what it promises to current and to stale viewers |
| `TabReplication` | tabs of several lists kept current by snapshots and patches, over whole runs |
| `PumpFunBatch` | folding a live batch of launches into Trenches, Bonding and Graduated |
| `FifoLedger` | matching sells to lots, writing the matches back, and the ledger over runs of trades |
| `PredictionShares`, `FeeTiers`, `Concentration` | largest-remainder percentages, tiered fees, the concentration index |
| `SerialChain`, `WalletCreation`, `NegotiationQueue` | work chained to one promise, and the two protocols built on it |
| `ReconnectMachine` | the event stream that reopens itself |
| `DayStreaks`, `VisitStreak`, `AchievementMetrics` | runs of days, the visit streak, the sliding window and the streak loops |
| `PairSanity`, `SteadyOrder`, `ConsentWire` | median-filtered pool choice, the list that keeps its order, the consent object's wire form |
| `Common`, `Sequences` | optional values and text; sums, counts, filters and the stable sort |

`dafny verify dfyconfig.toml` checks everything.

## Where the code and its documentation differ

The model follows the code. In each case a lemma says exactly when the documented behaviour holds.

- Half rows (packages/domain/src/market-feeds.ts:208-211). The guard against a changed-fields-only row
  compares the row's printed key with the expected one, so a half row that happens to print its own
  key passes: `HalfRowPasses`, `ShiftedColonPasses`. `WholeRowsIff`: all viewers end with the server's
  whole row for each new coin exactly when the patch holds no such row. It takes a mint with a colon,
  a pair whose token has one before or after the change, or the pair `undefined:undefined`
  (`HalfRowNeedsColon`); a colon in the chain alone, as in `eip155:8453`, does no harm. Without those,
  every accepted row is whole (`PlainRowsAreWhole`).
- Reconnecting at once when back online (apps/web/lib/resilient-event-source.ts:12-13, 66-69). A retry
  that is already pending with a delay is waited out: `OnlineAtOnceIff`.
- Closing for good (apps/web/lib/resilient-event-source.ts:22-26, 73-79). If the status callback closes
  the stream while it is being reopened, the new stream stays open: `LeakIff`, `LeakHappens`,
  `LeakEndsIff`. From anywhere else closing is final: `CloseIsFinal`.
- "A retry really retries" (apps/web/lib/embedded-wallet-creation.ts:9-10). A call made in the handler
  that hears of the failure comes before the attempt is cleared, joins it and fails again:
  `EarlyRetryJoinsTheFailure`; `RetryIff` gives the exact condition.
- Oldest lots first (packages/domain/src/pnl.ts:47-54). Every sell keeps to it (`SellDrawsOldestFirst`),
  but a buy that the sweep has to try again is filed late and can leave an untouched lot before a
  drawn one: `LedgerIsOldestFirstIff`, `LateBuyBreaksOldestFirst`.
- One launch per ticker (apps/web/lib/market-feeds.ts:152-153). The rule is asked of newcomers only; a
  report that gives a listed coin a taken ticker breaks it: `TickersStayDistinctIff`.
- Racing visits "simply agree" (apps/api/src/discovery/services/return-loop.service.ts:49-51). On one
  UTC day they do (`SameDayCallsAgree`); in general exactly under the condition of `RaceAgreesIff`.
- "The chart pool wins whenever it is sane" (packages/domain/src/pair-sanity.ts:35-36). It is compared
  with the pick, not with the median: `SaneChartPoolCanLose`; `ChartStaysNearThePick` gives the exact rule.
- Hanging up "also stops the mic / camera" (apps/web/lib/call-engine.ts:163). Only tracks whose
  publishing has completed are stopped: `EndSilencesIff`, `SettledSilenceIff`, `HangUpMissesPublishing`.
- A live stream's queue and `end` have no closed check (apps/web/lib/live-engine.ts:93-103, 249-258):
  `EndsReported`, `LiveStreamEndsAgain`.

## Model

| member | source | states |
|---|---|---|
| FeedDiff.ChangedFields | packages/domain/src/market-feeds.ts:189-193 | the loop collects exactly the fields of the new row that are not in the unsent set and that the old row lacks or holds another value of |
| FeedDiff.SentRows | packages/domain/src/market-feeds.ts:181-195 | a whole row for each new key, the changed fields for a changed one, nothing for an unchanged one; the last row of a repeated key that has something to send wins |
| FeedDiff.DiffFeedList | packages/domain/src/market-feeds.ts:178-198 | the patch carries the new key order and the sent rows, and is null exactly when the order is the old one and nothing is sent |
| FeedDiff.ApplyFeedList | packages/domain/src/market-feeds.ts:201-215 | null as soon as some ordered key is neither held nor sent under its own key; otherwise one row per ordered key, the sent fields laid over the held row |
| FeedReplication.KeyIs | packages/domain/src/market-feeds.ts:166-168 | a row goes by its mint when it has one that is not null, else by chain and token with a colon between, an absent half reading undefined |
| FeedReplication.LastRowHeld | packages/domain/src/market-feeds.ts:202 | of several rows with one key the index holds the last |
| FeedReplication.NoPatchIffNothingVisible | packages/domain/src/market-feeds.ts:177-198 | no patch is made if and only if the old list has the new list's key order and every value of every new row outside the unsent fields |
| FeedReplication.PrintedPair | packages/domain/src/market-feeds.ts:166-168 | two chain:token keys printed alike differ in both halves or in neither, wherever colons fall, so a pair key can be rebuilt from changed fields |
| FeedReplication.MergedKey | packages/domain/src/market-feeds.ts:208-212 | laying the changed fields of a row, or all of it, over any held row of its key gives a row of that key |
| FeedReplication.ListStep | packages/domain/src/market-feeds.ts:177-215 | on a viewer in sync, applying the diff (or doing nothing when it is null) gives exactly what a naive replica holds that is sent every row in full but for the unsent fields, and the viewer is in sync with the new list |
| FeedReplication.StaleViewerKeys | packages/domain/src/market-feeds.ts:200-215 | for any uniformly keyed list whatsoever, a patch is refused or gives a list whose row keys are exactly the patch's order |
| FeedReplication.WholeRowsIff | packages/domain/src/market-feeds.ts:208-211 | every viewer that accepts a patch ends with the server's whole row for each coin it did not hold, if and only if the patch has no changed-fields row, less than the server's row, that prints its own key |
| FeedReplication.PrintsOwnKeyIff | packages/domain/src/market-feeds.ts:166-168 | a changed-fields row prints its own key exactly when, for mints, its chain and token print the mint, and for pairs, the chain half changed or the pair is undefined:undefined |
| FeedReplication.HalfRowNeedsColon | packages/domain/src/market-feeds.ts:166-168 | so a half row needs a mint with a colon, a pair whose old or new token has one, or the pair undefined:undefined |
| FeedReplication.HalfRowShown | packages/domain/src/market-feeds.ts:208-214 | each half row is in fact shown, to a viewer that holds the whole old list but for that coin |
| FeedReplication.HalfRowPasses | packages/domain/src/market-feeds.ts:208-214 | such a patch exists: a mint that reads undefined:undefined of which only another field changed reaches a viewer without the coin as a row of that field alone |
| FeedReplication.ShiftedColonPasses | packages/domain/src/market-feeds.ts:208-214 | and for pairs: a colon that moves from the chain to the token reaches a viewer without the market as a row of the two halves alone |
| FeedReplication.PlainRowsAreWhole | packages/domain/src/market-feeds.ts:208-214 | when no mint of the two lists has a colon, or no token has one and no pair is undefined:undefined, any viewer that accepts the patch gets the server's whole row for each coin it did not hold, and a keyed list stays keyed |
| TabReplication.ApplyListPatch | apps/web/lib/market-feeds.ts:173-182 | all lists the patch is about change together with the time stamp, or the state is returned as it was; other tabs never change |
| TabReplication.ApplyTabEvent | apps/web/lib/market-feeds.ts:184-189 | a snapshot replaces its tab, a patch is applied to its tab, and other tabs stay |
| TabReplication.PatchesBringUpToDate | apps/api/src/market-feeds/market-feeds.service.ts:206-212 | a list is patched exactly when the old list does not show the new one, and whoever holds the old list can apply its patch and then shows the new one |
| TabReplication.TabStep | apps/web/lib/market-feeds.ts:173-189 | one server event, full or incremental, takes a tab in sync with the old state to one in sync with the new, holding what the naive replica holds |
| TabReplication.ReplicationOverRun | packages/domain/src/market-feeds.ts:172-215 | after every event of any run of snapshots and patches the viewer equals the naive replica: the server's key order and every sent field of every row, through rows and fields that leave and return |
| TabReplication.OnlyTwoFieldsAge | packages/domain/src/market-feeds.ts:172-174 | after every event of any run, every field of every row but lastPriceUpdateAt and discoveryScore reads on the viewer as on the server |
| TabReplication.UnsentFieldsFreeze | packages/domain/src/market-feeds.ts:172-174 | while only patches come, the unsent fields of a row that stays listed read as they did when it joined or when the last snapshot came |
| TabReplication.SnapshotHeals | apps/api/src/market-feeds/market-feeds.service.ts:196-205 | whatever a viewer held before, from the first full snapshot on it is in sync after every event |
| TabReplication.StaleTabStep | apps/web/lib/market-feeds.ts:170-182 | a viewer in any state takes a tab's patch for every list it is about, ending with the server's key order in each, or for none; lists without a patch stay |
| PumpFunBatch.UpsertBy | apps/web/lib/market-feeds.ts:124-130 | reports whether the mint is listed, and replaces its first row |
| PumpFunBatch.ApplyPumpFunBatch | apps/web/lib/market-feeds.ts:136-167 | the three reassigned lists are those of the fold of the batch with Bonding sorted at the end, as tidy as before; a coin new in Trenches has a report in the batch, not complete, less than ten minutes after its launch |
| PumpFunBatch.BatchAddsOnlyNewLaunches | apps/web/lib/market-feeds.ts:156-158 | so does the fold itself: no report of an older or undated coin adds a row |
| PumpFunBatch.BatchesAreTidy | apps/web/lib/market-feeds.ts:136-167 | over any number of batches: one row per mint in each list, Trenches and Bonding disjoint, and the caps |
| PumpFunBatch.LaunchJoinsIff | apps/web/lib/market-feeds.ts:148-158 | a report of a launch still under way joins Trenches, in front and pushing out the last beyond 50, exactly when its mint is in neither list, no coin there has its ticker, and now is less than 600,000 ms past its date; otherwise no mint joins or leaves |
| PumpFunBatch.CompletionGraduates | apps/web/lib/market-feeds.ts:141-147 | a completed launch is in Graduated afterwards, in its old place, or in front and pushing out the last beyond 30 |
| PumpFunBatch.FoldIsTidy | apps/web/lib/market-feeds.ts:140-159 | one row per mint in each list, Trenches and Bonding disjoint, and no list above its cap of 50 or 30 unless it came so |
| PumpFunBatch.FoldIsCurrent | apps/web/lib/market-feeds.ts:140-159 | after a batch every row of Trenches and Bonding is its mint's last report, which was not complete, or the row it was; every row of Graduated is its last completed report, or the row it was |
| PumpFunBatch.BondingSurvivors | apps/web/lib/market-feeds.ts:141-151 | a mint is in Bonding afterwards exactly when it was before and no report completed it; one whose last report is complete is not in Trenches |
| PumpFunBatch.TrenchesSurvivors | apps/web/lib/market-feeds.ts:140-159 | over a whole batch a coin is in Trenches afterwards exactly when it was there or joined at some point, and no report since has completed it or joined while it was last in line |
| PumpFunBatch.GraduatedSurvivors | apps/web/lib/market-feeds.ts:141-147 | over a whole batch a coin is in Graduated afterwards exactly when it was there or was completed at some point, and no new completion since has joined while it was last in line |
| PumpFunBatch.BondingEndsSorted | apps/web/lib/market-feeds.ts:160 | Bonding ends by falling progress, as a permutation of what survived, equals in the order they had |
| PumpFunBatch.OneTicker | apps/web/lib/market-feeds.ts:132-133 | a name, whatever its case and however many dollar signs precede it, is one ticker: the name in lower case |
| PumpFunBatch.TickerIgnoresBlanks | apps/web/lib/market-feeds.ts:132-133 | blanks around a symbol do not change its ticker |
| PumpFunBatch.NoTicker | apps/web/lib/market-feeds.ts:132-133 | no symbol, a blank one or one of dollar signs alone gives no ticker |
| PumpFunBatch.TickersStayDistinctIff | apps/web/lib/market-feeds.ts:148-158 | a report leaves Trenches with one coin per ticker if and only if it does not give a listed coin a ticker that another coin there has |
| PumpFunBatch.ListedTickerTaken | apps/web/lib/market-feeds.ts:148-158 | a coin first listed without a ticker can be given a taken one in place |
| PumpFunBatch.DogTakenTwice | apps/web/lib/market-feeds.ts:133-158 | for one, a coin without a ticker that is then given dog while another coin is listed as dog |
| PumpFunBatch.BatchKeepsOnePerTickerIff | apps/web/lib/market-feeds.ts:136-167 | over a whole batch Trenches has one coin per ticker after every report if and only if no report takes the ticker of another listed coin |
| FifoLedger.MatchFifoSell | packages/domain/src/pnl.ts:55-76 | the loop's matches and what it leaves unmatched are those of taking from the lots in order, each match priced from its lot; a negative quantity is an error |
| FifoLedger.MatchesArePriced | packages/domain/src/pnl.ts:62-71 | a match takes units its lot has, and its cost times the lot's original quantity is the lot's cost times the units taken |
| FifoLedger.SellTakesAllItCan | packages/domain/src/pnl.ts:60-75 | a sell leaves unmatched exactly what it exceeds the remaining units by |
| FifoLedger.SellConserves | packages/domain/src/pnl.ts:55-76 | matched plus unmatched is what was sold, nothing negative is left unmatched, and the units and the cost of the matches, so priced, are exactly what the lots lose |
| FifoLedger.SellsCompose | packages/domain/src/pnl.ts:47-76 | selling q1, writing it back and selling q2 leaves the same lots and the same total unmatched as selling q1 + q2, and takes the same units and the same cost from every lot |
| FifoLedger.ProceedsFollowTheMatchedFraction | packages/domain/src/pnl.ts:95-116 | the allocated proceeds are the sell's proceeds times its matched fraction, equal to the whole exactly when all was matched or there were none, and profit is allocated proceeds less cost |
| FifoLedger.FillsAreProportional | packages/domain/src/pnl.ts:109-113 | each match is paid its own part of the proceeds by quantity, and its profit is that less its cost |
| FifoLedger.ProceedsAreProportional | packages/domain/src/pnl.ts:95-116 | allocated proceeds times the quantity sold is the whole proceeds times the quantity matched |
| FifoLedger.UsedUpLotsDoNotMatter | apps/workers/src/pnl/pnl-ledger-sweep.ts:280-289 | leaving the used-up lots out of the query changes neither the matches nor what is unmatched |
| FifoLedger.WritingBackSettles | apps/workers/src/pnl/pnl-ledger-sweep.ts:299-302 | subtracting each match from the lot found by its id comes to taking from the lots in order |
| FifoLedger.SettleKeepsSound | packages/domain/src/pnl.ts:47-54 | a sell leaves no lot below zero or above what was bought, and keeps every lot before a drawn one used up when that was so |
| FifoLedger.SellDrawsOldestFirst | packages/domain/src/pnl.ts:47-54 | whatever came before, a sell draws on a lot only if it leaves nothing in any lot acquired earlier |
| FifoLedger.Ledger.Buy | apps/workers/src/pnl/pnl-ledger-sweep.ts:154-167 | a buy files an untouched lot by its time of acquisition, which is how a sell will find it, and keeps the ledger sound |
| FifoLedger.BuyKeepsOldestFirstIff | apps/workers/src/pnl/pnl-ledger-sweep.ts:76-101 | a buy keeps every lot before a drawn one used up if and only if it brings nothing or no lot acquired later has been drawn on |
| FifoLedger.LedgerIsOldestFirstIff | apps/workers/src/pnl/pnl-ledger-sweep.ts:91-101 | over any run, every lot older than a drawn one is used up after every trade if and only if no buy of anything is filed after a lot acquired later was drawn on |
| FifoLedger.LedgerIsOldestFirst | apps/workers/src/pnl/pnl-ledger-sweep.ts:76-101 | which holds throughout when the buys come in the order they were made |
| FifoLedger.LateBuyBreaksOldestFirst | apps/workers/src/pnl/pnl-ledger-sweep.ts:91-101 | a buy that is tried again after a later sell leaves an untouched lot before a drawn one |
| FifoLedger.Ledger.Sell | apps/workers/src/pnl/pnl-ledger-sweep.ts:280-302 | a sell reports the allocated matches, each priced from one of the lots, and leaves the lots as taking from them in order does; a negative sell changes nothing |
| FifoLedger.LedgerConserves | packages/domain/src/pnl.ts:55-116 | over any run of buys and sells, filed in any order: units sold are matched or unmatched, units bought are matched or remain, and every dollar paid is the cost of a match or the proportional cost of what remains |
| FifoLedger.LotIsNeverOverdrawn | packages/domain/src/pnl.ts:47-54 | the matches recorded against a lot over a run are exactly the units it lost, never more than it was bought with |
| FifoLedger.LotCostIsRecovered | packages/domain/src/pnl.ts:66-71 | over a run a lot's matches have cost its cost in proportion to the units it has lost, and all of it once it is used up |
| FifoLedger.UnsoldIsProportional | packages/domain/src/pnl.ts:66-71 | what the balance counts as still tied up in a lot is its cost in proportion to the units that remain |
| PredictionShares.PredictionShares | packages/domain/src/predictions.ts:80-93 | the array bumped in place ends as the floors with one more for the first options by falling remainder |
| PredictionShares.SharesSumToHundred | packages/domain/src/predictions.ts:79-82 | the shares sum to 100; when there are no votes every share is 0 |
| PredictionShares.SharesAreClose | packages/domain/src/predictions.ts:83-91 | each share is less than one from the exact percentage, between 0 and 100, and exact when that is whole |
| PredictionShares.SharesFollowVotes | packages/domain/src/predictions.ts:86-91 | more votes never get a smaller share, and of equal votes the earlier option never does |
| PredictionShares.LeftIsCovered | packages/domain/src/predictions.ts:85-91 | what the floors leave over is between 0 and the number of options, and every bumped option has a positive remainder, so the loop always hands everything out |
| PredictionShares.SharesAreOptimal | packages/domain/src/predictions.ts:79-93 | no other split into integers summing to 100 has a smaller total distance from the exact percentages |
| FeeTiers.ResolveTierFeeBps | packages/domain/src/trading.ts:125-138 | the rate of the last tier whose minimum is met, or of the first tier when none is; refused exactly for amounts not finite or negative and for no tiers |
| FeeTiers.RateIsUnique | packages/domain/src/trading.ts:120-124 | there is exactly one such rate |
| FeeTiers.RateFallsWithSize | packages/domain/src/trading.ts:89-97 | in an ascending schedule a larger trade is never charged at a higher rate |
| FeeTiers.PlatformTiersAscend | packages/domain/src/trading.ts:104-109 | the platform's schedule ascends in size and does not rise in rate |
| FeeTiers.PlatformRate | packages/domain/src/trading.ts:104-109 | the platform charges 400 basis points under $10, 200 under $100, 100 under $500 and 75 from there |
| FeeTiers.FeeAmount | packages/domain/src/trading.ts:145-149 | the fee is the largest integer not above the exact share; negative rates and amounts are errors |
| FeeTiers.SplittingSavesOnlyRounding | packages/domain/src/trading.ts:104-149 | n trades, each charged at its own tier, together pay at least the single trade's fee less n - 1 raw units |
| FeeTiers.RoundingCanBeSaved | packages/domain/src/trading.ts:145-149 | that bound is met: two halves pay one unit less than the whole |
| Concentration.IndexRange | packages/domain/src/trader-intelligence.ts:67-78 | with k tokens of positive volume the index lies between 1/k and 1, is 1 exactly when k is 1, and 1/k exactly when all positive volumes are equal |
| Concentration.IndexIsSumOfSquares | packages/domain/src/trader-intelligence.ts:67-78 | the index times the square of the whole positive volume is the sum of the squared positive volumes |
| Concentration.ComputeConcentrationIndex | packages/domain/src/trader-intelligence.ts:74-78 | there is no index exactly when no token has positive volume |
| SerialChain.OneAtATime | apps/web/lib/call-engine.ts:214-218 | in an orderly chain at most one piece of work runs |
| SerialChain.NeverStuck | apps/web/lib/live-engine.ts:93-103 | while anything waits, something runs or something is due, however the pieces before it ended |
| WalletCreation.EmbeddedWallets.CreateEmbeddedWalletOnce | apps/web/lib/embedded-wallet-creation.ts:20-32 | a call resolves at once, joins the attempt in flight, or queues a new attempt after the last one, and keeps the invariant |
| WalletCreation.EmbeddedWallets.StartCreate | apps/web/lib/embedded-wallet-creation.ts:24 | an attempt starts once the one it is chained to has settled; the invariant is kept |
| WalletCreation.EmbeddedWallets.FinishCreate | apps/web/lib/embedded-wallet-creation.ts:24-25 | an attempt succeeds or fails; the invariant is kept |
| WalletCreation.EmbeddedWallets.RememberSuccess | apps/web/lib/embedded-wallet-creation.ts:27-28 | a success is added to the created kinds; the invariant is kept |
| WalletCreation.EmbeddedWallets.ClearInFlight | apps/web/lib/embedded-wallet-creation.ts:29-30 | the kind leaves the in-flight map after that; the invariant is kept |
| WalletCreation.RunKeepsInv | apps/web/lib/embedded-wallet-creation.ts:14-32 | every interleaving of calls, starts, outcomes and microtasks keeps the invariant that the two maps and the chain tell the truth about all attempts |
| WalletCreation.AttemptStepByStep | apps/web/lib/embedded-wallet-creation.ts:24-30 | a start and an outcome change only the attempt; remembering adds its kind to the created ones, and clearing takes it out of the in-flight map |
| WalletCreation.AnswerIsCurrent | apps/web/lib/embedded-wallet-creation.ts:20-31 | a call is told that its kind is created only when some attempt succeeded, and otherwise follows the last attempt of its kind, which is not cleared |
| WalletCreation.OncePerPage | apps/web/lib/embedded-wallet-creation.ts:8-10 | in every interleaving at most one creation runs, and an attempt follows another of its kind only after that one failed and was cleared |
| WalletCreation.NeverCreatedAgain | apps/web/lib/embedded-wallet-creation.ts:15-21 | once a kind has succeeded no further attempt of it is ever made |
| WalletCreation.SuccessIsKnown | apps/web/lib/embedded-wallet-creation.ts:15-30 | a succeeded kind is among the created ones or still in flight, at every moment |
| WalletCreation.RetryIff | apps/web/lib/embedded-wallet-creation.ts:9-10 | a call makes a new attempt exactly when every earlier attempt of the kind has failed and been cleared |
| WalletCreation.EarlyRetryJoinsTheFailure | apps/web/lib/embedded-wallet-creation.ts:22-31 | a call made as soon as the failure is known, before the attempt is cleared, makes no attempt and is given the old failure |
| WalletCreation.NeverStalls | apps/web/lib/embedded-wallet-creation.ts:24-30 | while an attempt is in flight, a creation is running or some step of the page's own can be taken |
| NegotiationQueue.NegotiationEngine.Queue | apps/web/lib/call-engine.ts:214-218 | the job joins the end of the chain and a track to publish is already capturing |
| NegotiationQueue.NegotiationEngine.TakeTurn | apps/web/lib/call-engine.ts:198-215 | a due job starts, or is skipped when the call is closed; taking a kind down removes and stops its track at once, and no other turn touches a track |
| NegotiationQueue.NegotiationEngine.FinishJob | apps/web/lib/call-engine.ts:187-193 | a published track is recorded; a refused request stops it in a call; any other failure leaves it |
| NegotiationQueue.NegotiationEngine.EndLocally | apps/web/lib/call-engine.ts:170-179 | recorded tracks are stopped and the end reported; a closed call does nothing |
| NegotiationQueue.NegotiationsNeverRace | apps/web/lib/call-engine.ts:20-26 | over all runs jobs start in the order they were queued and never two run at once |
| NegotiationQueue.FailuresDoNotBlock | apps/web/lib/live-engine.ts:93-103 | however the jobs ahead ended, a waiting job's turn comes as soon as none is running |
| NegotiationQueue.EndedCallStaysEnded | apps/web/lib/call-engine.ts:171-179 | after a call has ended no job starts and the end is not reported again, in any continuation |
| NegotiationQueue.EndsReported | apps/web/lib/live-engine.ts:249-258 | over all runs a call reports its end once however often it is ended, a live stream every time |
| NegotiationQueue.TakeDownIsImmediate | apps/web/lib/call-engine.ts:198-203 | after the turn of a job that takes a kind down, the kind is not published, its track is not capturing, and every other kind and track is as before |
| NegotiationQueue.PublishingEnds | apps/web/lib/call-engine.ts:181-196 | a track is published when its job ends well, stopped when a call is refused it, and otherwise left; no other job that ends touches a track |
| NegotiationQueue.CaptureStartsAndEnds | apps/web/lib/call-engine.ts:170-179 | a track captures from when its publishing is asked for, and hanging up stops exactly the published ones |
| NegotiationQueue.CameraOff | apps/web/lib/call-engine.ts:129-134 | a camera turned on and off again is neither published nor capturing |
| NegotiationQueue.LiveStreamEndsAgain | apps/web/lib/live-engine.ts:249-258 | a live stream can start a job after its end |
| NegotiationQueue.EndSilencesIff | apps/web/lib/call-engine.ts:163-196 | after any run, ending leaves no track capturing if and only if no publishing is queued or running and no step replaced a published track or let one go through a failure |
| NegotiationQueue.SettledSilenceIff | apps/web/lib/call-engine.ts:163-196 | after any run that leaves nothing to publish, closed or not, no track is capturing if and only if none is recorded as published and no step let one go |
| NegotiationQueue.HangUpMissesPublishing | apps/web/lib/call-engine.ts:170-196 | a call hung up while its camera is being published goes on capturing unless the request is refused |
| ReconnectMachine.ResilientEventSource.OpenNow | apps/web/lib/resilient-event-source.ts:22-27 | nothing when closed; otherwise a new stream becomes the source, even if the status callback closes |
| ReconnectMachine.ResilientEventSource.ReopenAfter | apps/web/lib/resilient-event-source.ts:51-58 | a timer is set unless closed or one is already kept |
| ReconnectMachine.ResilientEventSource.OnOpen | apps/web/lib/resilient-event-source.ts:40-44 | a successful open resets the backoff and keeps the invariant |
| ReconnectMachine.ResilientEventSource.OnFailure | apps/web/lib/resilient-event-source.ts:45-48 | a stream that closed asks for another, after 1, 2, 5, 10 or 30 seconds by the failures in a row, and keeps the invariant |
| ReconnectMachine.ResilientEventSource.OnTimer | apps/web/lib/resilient-event-source.ts:53-57 | the old stream is closed before the new one is opened; the invariant is kept |
| ReconnectMachine.ResilientEventSource.OnWatchdog | apps/web/lib/resilient-event-source.ts:60-65 | a visible stream silent for over a minute is restarted; the invariant is kept |
| ReconnectMachine.ResilientEventSource.OnOnline | apps/web/lib/resilient-event-source.ts:66-69 | the backoff is reset and a restart asked for; the invariant is kept |
| ReconnectMachine.ResilientEventSource.CloseByCaller | apps/web/lib/resilient-event-source.ts:73-79 | the source is closed and the pending timer cancelled; the invariant is kept |
| ReconnectMachine.OneStreamOneTimerNeverStuck | apps/web/lib/resilient-event-source.ts:15-80 | in every reachable state at most one stream is alive and at most one retry pending, and until the caller closes it a dead stream has a retry pending |
| ReconnectMachine.FailureWaits | apps/web/lib/resilient-event-source.ts:45-48 | after any run, a failure with no retry pending sets a timer of 1, 2, 5, 10 or 30 seconds by the number of failures since the last good open or online event |
| ReconnectMachine.RetriesNeverSpeedUp | apps/web/lib/resilient-event-source.ts:45-48 | over every run the timers that failures really set never get shorter until a good open or an online event |
| ReconnectMachine.WatchdogRestarts | apps/web/lib/resilient-event-source.ts:60-65 | a visible stream silent for more than 60,000 ms is restarted at once; otherwise the watchdog changes nothing |
| ReconnectMachine.SignsOfLife | apps/web/lib/resilient-event-source.ts:31-44 | a good open resets the backoff; it and any event reset the silence; a dropped stream just connects again |
| ReconnectMachine.RetryOpens | apps/web/lib/resilient-event-source.ts:53-57 | a retry whose time has come opens exactly one stream, as the source, and is no longer pending |
| ReconnectMachine.LeakIff | apps/web/lib/resilient-event-source.ts:22-26 | a step leaves a stream open after closing exactly when the status callback closes during a reopening |
| ReconnectMachine.LeakHappens | apps/web/lib/resilient-event-source.ts:53-57 | from the start, a failure followed by such a reopening reaches that state |
| ReconnectMachine.LeakEndsIff | apps/web/lib/resilient-event-source.ts:73-79 | a stream left open stays open through every step but two: the browser giving up on it, or the caller closing again |
| ReconnectMachine.CloseIsFinal | apps/web/lib/resilient-event-source.ts:73-79 | closed from anywhere else, no stream and no retry is left, in any continuation |
| ReconnectMachine.OnlineAtOnceIff | apps/web/lib/resilient-event-source.ts:66-69 | coming back online leaves a restart pending at once exactly when no retry with a delay was pending |
| ReconnectMachine.OnlineWaitsOutTheBackoff | apps/web/lib/resilient-event-source.ts:51-52 | a stream that has just failed keeps its delay through an online event |
| DayStreaks.LaterDay | packages/domain/src/retention.ts:129-137 | adding a later day to a set of days lengthens the run to it by one or starts a new run, and the longest run ever is the larger of the two |
| VisitStreak.StreakIsTheHistory | packages/domain/src/retention.ts:104-138 | for every visit history in time order the current streak is the number of consecutive UTC days visited up to the last visit, and the longest is the longest such run there has been |
| VisitStreak.VisitKeepsLongest | packages/domain/src/retention.ts:114-138 | from any row whatever: a visit on the last day changes neither count, any other continues the streak exactly from the day before and keeps the longest up with it |
| VisitStreak.SameDayCallsAgree | apps/api/src/discovery/services/return-loop.service.ts:53-73 | any interleaving of same-day reads and writes leaves the counts of one call once any has written |
| VisitStreak.RaceAgreesIff | apps/api/src/discovery/services/return-loop.service.ts:46-73 | two calls that both read before either writes leave what the same calls leave in turn if and only if the first adds nothing (same day, day already visited, or a gap after it and no new longest streak) when the later writes last, and only on one day when the earlier writes last |
| VisitStreak.LastWriteWins | apps/api/src/discovery/services/return-loop.service.ts:63-70 | such a race leaves what the call that writes last would have left alone |
| VisitStreak.MidnightRaceEndsStreak | apps/api/src/discovery/services/return-loop.service.ts:53-73 | a race across midnight can end a streak of three days that the two calls in turn would make five |
| AchievementMetrics.MaxInWindow | apps/api/src/achievements/achievement-metrics.ts:239-247 | for times in any order and any width from zero up, the largest number of times in any closed interval of that width |
| AchievementMetrics.WinStreak | apps/api/src/achievements/achievement-metrics.ts:159-173 | the length of the longest stretch of sells, in time order, that all made money |
| AchievementMetrics.EarlyBirdStreak | apps/api/src/achievements/achievement-metrics.ts:299-305 | the most UTC days in a row that each have a trade before 06:00 |
| AchievementMetrics.EarlyDaysAre | apps/api/src/achievements/achievement-metrics.ts:300 | a day counts exactly when some trade falls in its first 21,600,000 ms |
| PairSanity.PickSanePair | packages/domain/src/pair-sanity.ts:24-33 | there is a pick exactly when some pool has a positive price; the reduced list is never empty |
| PairSanity.CandidatesAre | packages/domain/src/pair-sanity.ts:25-28 | considered are the pools with a positive price quoted in a standard token when there are any, else all with a positive price |
| PairSanity.PickPrefersStandard | packages/domain/src/pair-sanity.ts:20-28 | the pick is quoted in a standard token whenever any pool with a positive price is |
| PairSanity.MedianSplits | packages/domain/src/pair-sanity.ts:29-30 | more than half of the prices are no higher than the median and at least half no lower |
| PairSanity.PickIsDeepestSane | packages/domain/src/pair-sanity.ts:15-33 | the pick is a candidate within a factor of two of the candidates' median, and no such candidate is deeper |
| PairSanity.MinorityCannotMislead | packages/domain/src/pair-sanity.ts:15-22 | when more than half of the candidates are priced in a band, there is a pick and it is priced within a factor of two of it, however deep the others are |
| PairSanity.ChartStaysNearThePick | packages/domain/src/pair-sanity.ts:37-44 | the asked-for pool is shown exactly when it is priced within a factor of two of the pick, otherwise the pick; either way the shown price is that near |
| PairSanity.FoundPool | packages/domain/src/pair-sanity.ts:40 | the pool asked for is the first of that address, whatever the case, and none only when no pool has it |
| PairSanity.SaneChartPoolCanLose | packages/domain/src/pair-sanity.ts:35-43 | a pool within a factor of two of the median can lose to a pick on the median's other side |
| SteadyOrder.SteadyList.Use | apps/web/lib/use-steady-order.ts:12-27 | the two refs move and the rows shown are those of the specification: as given at a re-sort, else in the steady order |
| SteadyOrder.RenderedKeys | apps/web/lib/use-steady-order.ts:21-26 | what is shown is exactly what is remembered, and only current rows |
| SteadyOrder.ResortsIff | apps/web/lib/use-steady-order.ts:12-20 | the first render sorts, and after a sort the next comes exactly when `resortMs` have passed since |
| SteadyOrder.NoResortSoon | apps/web/lib/use-steady-order.ts:16-20 | renders within `resortMs` of a sort do not sort, and a sort shows the rows as given |
| SteadyOrder.LastRowShown | apps/web/lib/use-steady-order.ts:21-26 | between sorts, of rows that share a key the last is shown |
| SteadyOrder.EveryRenderPermutes | apps/web/lib/use-steady-order.ts:12-27 | from the first render on, every render shows a permutation of the rows it was given, with their current values |
| SteadyOrder.KeptInOrder | apps/web/lib/use-steady-order.ts:22-25 | rows that stay keep their relative places |
| SteadyOrder.NewcomersLast | apps/web/lib/use-steady-order.ts:23-25 | newcomers come after every row that stays, among themselves as given |
| SteadyOrder.PlacesHold | apps/web/lib/use-steady-order.ts:5-11 | between re-sorts two rows that are never missing keep their order over any number of renders |
| ConsentWire.ParsePrinted | packages/domain/src/evm-relayer.ts:139-162 | reading back the decimal text of any integer gives the integer |
| ConsentWire.PrintParsedIff | packages/domain/src/evm-relayer.ts:139-162 | a text survives being read and printed if and only if it is a canonical decimal |
| ConsentWire.WireRoundTrip | packages/domain/src/evm-relayer.ts:151-163 | parsing the wire form of a consent object gives the object back |
| ConsentWire.WireReprintsIff | packages/domain/src/evm-relayer.ts:139-163 | a wire object parses and prints back to itself if and only if its three numbers are canonical decimals |
| ConsentWire.ConsentSaysWhatTheSourceSays | packages/domain/src/evm-relayer.ts:91-149 | a consent is built exactly when the value is readable, and from it and from its wire form each field of the source reads back in its own place: addresses in lower case, the expiry in whole seconds |
| ConsentWire.SameConsentIff | packages/domain/src/evm-relayer.ts:91-111 | two sources build the same consent if and only if the value is readable and they agree on every field up to the case of addresses, how the value is written, and the part of a second in the expiry |
| ConsentWire.ParsePrefixed | packages/domain/src/evm-relayer.ts:151-162 | a text with a base prefix reads as its digits in that base, and as nothing without digits |
| ConsentWire.ParseSigned | packages/domain/src/evm-relayer.ts:151-162 | a signed text reads as its decimal digits with that sign, and as nothing without digits |
| ConsentWire.ParseIgnoresBlanks | packages/domain/src/evm-relayer.ts:151-162 | blanks around a number are ignored, and blanks alone read as zero |

## Left out

- Floating point: profit, shares, prices, fees' dollar sizes and the concentration index are exact rationals or reals here; rounding of JavaScript numbers is not modelled. In `predictionShares` this means remainders are compared exactly.
- Integer widths: raw token amounts are `bigint` in the source and unbounded here; times are integers of milliseconds.
- Feed rows: fields whose value is `undefined`, and keys that name members of `Object.prototype` in the patch's `rows` object, are not modelled; a row is a finite map of JSON values.
- Fields the server drops from a row stay on the viewer, as in the source; the naive replica of `ReplicationOverRun` keeps them too.
- Tabs that receive Pump.fun batches as well as patches can differ from the server until the next snapshot; no equality is claimed for them, and `PumpFunBatch` works on typed rows of its own with an abstract `rest`.
- Case folding and trimming cover ASCII letters and JavaScript white space; tickers with other letters are not folded.
- Fee rates that are not integers, which the source refuses, are not in the model's type of rates.
- Races of three or more visits on different days: `RaceAgreesIff` is about two; `SameDayCallsAgree` about any number on one day.
- UTC days are day numbers rather than text; the two agree for the years 0 to 9999.
- Calls: the pulled-track map, the set of tracks a pull asks for, muting, flipping the camera, the screen's own stop button, and every WebRTC call inside a job; a job is its start and its outcome.
- Streams: status texts, the event payloads and the interval of the watchdog; the caller can close from the status callback only where that changes what happens, in a reopening.
- Wallet creation: the reset of its module state, and the wait before Kamby's own creation begins.
- apps/web/lib/private-stream.ts and apps/web/lib/token-chat-client.ts, whose code does not keep one source at a time or merge without duplicates.
- The connection state of apps/web/lib/market-feeds.ts, which follows the same reconnect rules with listeners added.
- The typed-data schema, signing, and the checks of a transaction against its quote; `calculateMinOutputAmount`, which adds nothing to the fee's rounding argument.
- The other achievement counters, duels, holder tiers, deep links, scores with logarithms, and text matching by regular expressions.
- The order of lots acquired at the same millisecond, which the query leaves open; the model keeps the one filed first in front.
- Databases, locks, queues and network calls; the ledger is one wallet's lots of one token, changed by one trade at a time as the lock in the sweep ensures.
