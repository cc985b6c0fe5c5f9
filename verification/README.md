# SideWatch in Dafny

SideWatch watches a P2Pool sidechain for its miners: it announces new Monero blocks, splits the
reward of each found block over the known miners, sells subscriptions against on-chain payments,
and prunes what a miner's subscription no longer pays for. This project models the parts that keep
money and data, and proves what they keep.

## How it is modelled

Objects whose methods update fields are classes (`CoinbaseScanner.Scanner`,
`BlockListener.BlockListener`, `Ledger.SubscriptionScanner`, `Retention.RetentionTables`,
`TierCache.Service`, `RateLimit.RateLimiter`, `Hub.Hub`, `NodePool.Pool`). Each method is proved
equal to a function on plain values, loops included, and the promises are proved of those functions
over whole runs. A table is a map or a set that an object holds; one SQL statement, or one section
under a mutex, is one atomic step. Answers of monerod, wallet-rpc, Redis and the price oracle,
errors included, are arbitrary inputs. So is the order in which a Go map is ranged over.

| module | what it holds |
|---|---|
| `Prelude` | options, 64-bit wrap-around, sums, iteration orders |
| `Payout` | the proportional split of a coinbase reward |
| `BlockStore` | the blocks table, the ledger, and `processBlock` statement by statement |
| `ScannerMachine` | any number of goroutines between lock boundaries; no height is lost |
| `BlockAnswers` | one block as a decision; from monerod's answers to rows and batches |
| `ScannerPayments`, `ScannerLimits` | paid once and in full; exactly which steps and crashes break that |
| `CoinbaseScanner`, `ScannerRefinement` | the scanner object, and that its calls are machine runs |
| `BlockListener` | polling and ZMQ driving the scanner; the exact delay |
| `Tiers`, `Ledger` | tiers, the subscriptions row, the wallet scanner |
| `LedgerProofs`, `ExpiryProofs` | activations and the fund; expiry in closed form |
| `LedgerNumbers` | values, tiers, rows and columns in plain numbers |
| `ScanEffects`, `ScanOrder` | one scan entry by entry; exactly when its order does not matter |
| `Retention`, `RetentionProofs` | the pruner and its handlers; the one-pass rule; interrupted prunes |
| `HeldExports`, `ExportRequests` | held years and their downloads; overlapping and failing export requests |
| `TierCache` | tier lookups through the 30-second cache |
| `WorkerCsv`, `RateLimit`, `Hub`, `NodePool` | worker lines, rate limit with fallback, connection counts, node allocator |

## Main results

- **No height is lost, none is processed early** (`ScannerMachine.NoHeightLost`): every interleaving,
  every failure, any number of goroutines, whatever rows the database starts with.
- **Paid once, in full** (`ScannerPayments.PaidAtMostOnce`, `PaidInFullOnce`): under a discipline on
  announcements, recovery and backfilled hashes. It is exact (`ScannerLimits.DisciplineIsExact`): a step is
  disciplined if and only if no disciplined run after it pays a height twice. Every step that leaves it, with
  the height at any stage, has a continuation that pays twice (`IndisciplinePaysTwice`). The discipline holds
  by itself when callbacks and recovery passes never overlap, no paid height is announced again and
  monerod's blocks have hashes (`SerialRunsPayOnce`).
- **From monerod to the ledger** (`BlockAnswers.RowsAreAnswers`, `PaidWhatWasAnswered`): over every run a row is the
  initial one, the empty one, or exactly what monerod answered for its height; and the batch of a block filled in the
  run adds up to that reward.
- **Forgotten blocks** (`ScannerLimits.CrashWindow`, `SuccessForgets`): after a crash an unpaid found block can
  still be paid if and only if its row was not backfilled; without a crash a block is forgotten if and only if
  it is backfilled and processing ends unpaid.
- **Exact delay** (`BlockListener.BlockListener.RunPolling`, `RunZMQ`): polling announces contiguous heights;
  starting with nothing pending and without failures the processed log is the announced log `confirmDepth` behind,
  with ZMQ as long as the reported ranges follow on from each other.
- **Payout conservation and order** (`Payout.PayoutConserves`, `AgreesWithReference`): two iteration orders differ
  by the dust for the miners visited last and not at all for the others (`PayoutIgnoresOrder`), and give everyone
  the same exactly when they end alike or there is no dust (`SamePayout`).
- **Expiry in closed form**, no activated time is lost, tiers never fall
  (`ExpiryProofs.ExpiryOfRun`, `TermsFromActivations`, `CoveredTime`, `TermsNeverFall`).
- **Reordering a scan** changes neither its payment rows nor what it activates if and only if entries that share a
  hash agree (`ScanOrder.ScanOrderExact`); then terms and fund are the same too (`ScanOrderIrrelevant`).
- **Each transaction activates at most once, and the fund is what was activated**
  (`LedgerProofs.ActivatesAtMostOnce`, `FundConserved`).
- **Six pruning phases are one rule**, whatever instants they run at (`RetentionProofs.RealPruneIsSurvivors`,
  `PruneIsSurvivors`), pruning forgets its history (`ChainIsLastPrune`), and a later prune makes up for an
  interrupted one (`InterruptionIsRepaired`).
- **Both promised downloads are complete** (`HeldExports.BothDownloadsComplete`), and how many are served is
  known exactly for every run of overlapping and failing requests (`ExportRequests.ServedExactly`,
  `TwoDownloadsAHold`, `CarefulIsExact`).
- **An export contains its own miner's payments and no others** (`HeldExports.ExportServesExactly`).
- **What a transfer is worth** (`LedgerNumbers.WorthAtPrice`, `ActivationsAreWorth`): amount, price and tier thresholds
  in numbers, for every activation of every run.
- **The cache is at most 30 seconds behind** (`TierCache.LookupSays`, `LookupIsRecent`, `SettledLookupIsExact`): a paid
  tier is granted exactly when a row of that time was paid and its grace period has not ended.
- **Two bursts per window** across Redis and its fallback (`RateLimit.RateBound`); without any order of the
  windows, the fallback's count exactly (`FallbackCount`); **fair allocation**
  (`NodePool.FairAllocation`), **worker lines round-trip** exactly when comma-free (`WorkerCsv.PrintThenParse`).

## Where the code and its documentation part

The model follows the code.

- The last miner visited gets the whole rest of the reward, not its share of it
  (services/manager/internal/scanner/coinbase.go:68-70); the comments and the test suite speak of a share of
  the pool-wide hashrate (coinbase.go:93-97, coinbase_test.go:150-195). A lone local miner therefore
  gets everything: `Payout.LoneMinerTakesAll`. The two agree exactly when there is no reward, or the local
  miners are the whole pool and every product divides evenly: `Payout.AgreesWithReference`.
- The split uses the latest hashrate bucket, not the shares in the PPLNS window as the comment at
  coinbase.go:25-33 says.
- Payments of a miner whose grace period is still running are not pruned
  (services/manager/internal/aggregator/timeseries.go:278-303 touches shares and hashrates only), although the
  comment at timeseries.go:189, README.md:98, docs/SECURITY.md:54 and docs/DEPLOYMENT.md:235 name 15 months.
- "Exactly 2 CSV downloads" (docs/DEVELOPMENT_TIMELINE.md:566): any number of overlapping requests is served
  while one download is left (`ExportRequests.OverlappingExportsOverserve`), as is any number whose decrement
  fails (`FailedDecrementsOverserve`); two a hold are kept when decrements succeed and no more requests are
  between check and decrement than downloads are left (`TwoDownloadsAHold`). A second hold on the same year is
  granted exactly when payments of that year were recent at the clearing (`HeldExports.SecondHold`).
- The deletion mark is never taken back, so a miner that asked for deletion loses any later subscription at the
  next prune (`HeldExports.DeletionIsForGood`).
- A transaction that pays two subscription subaddresses is reported once for each (one `txid`, one subaddress
  index per entry, services/manager/pkg/walletrpc/types.go:53-63). The confirmed flag is kept by tx_hash, so the entry
  met first is settled and the others are skipped for good (scanner.go:175-183): what they paid is lost
  (`ScanOrder.LaterEntryIsLost`), and who is subscribed depends on the order (`ScanOrder.PairOrder`).
- A payment without a price counts as USD 0.80 and activates (services/manager/internal/subscription/scanner.go:293-297);
  the comment above it says 0. The configured minimum (scanner.go:49-51) plays no part in the tier.

## Assumptions

- The pool total covers the miners and no product but the last miner's leaves 64 bits, where a lemma says
  so (`Sum(...) <= total`, `LoopFits`). At a reward of 6e11 atomic units this is about 30.7 MH/s a miner.
- A commit or statement that reports an error has written nothing.
- USD values are exact reals; fund totals are whole cents, rounded half up.
- `EXTRACT(YEAR ...)` and `make_date` agree on years (`ValidCalendar`), as they do in one session time zone.
- Redis and the gateway share a clock, and an answered INCR was executed within the 500 ms deadline
  (`RateLimit.Timely`); one whose answer is lost may be executed at any later time.

## Model

| member | source | states |
|---|---|---|
| `Payout.ExtractPayments` | services/manager/internal/scanner/coinbase.go:52-90 | for any iteration order and any numbers, wrap-around included, the loop returns the payments of the specification that the lemmas below are about |
| `Payout.AmountsTotal` | services/manager/internal/scanner/coinbase.go:63-76 | whatever overflows, the amounts add up to the reward modulo 2^64, and to the reward itself exactly when the shares before the last do not exceed it |
| `Payout.EmittedTotal` | services/manager/internal/scanner/coinbase.go:78-87 | dropping zero amounts drops no money, and every kept payment is non-zero and carries the block's height and hash |
| `Payout.EmittedEach` | services/manager/internal/scanner/coinbase.go:63-88 | exactly the miners with a non-zero amount are paid, each its own amount, none twice |
| `Payout.ShareExact` | services/manager/internal/scanner/coinbase.go:73 | a share is the exact floor if and only if the product fits 64 bits, and otherwise too small |
| `Payout.FairShareSums` | services/manager/internal/scanner/coinbase.go:72-73 | the floors together lose less than one unit per miner |
| `Payout.DustBounds` | services/manager/internal/scanner/coinbase.go:68-73 | the remainder is never negative when the total covers the miners, and below n units when it is their sum |
| `Payout.AmountsAreFair` | services/manager/internal/scanner/coinbase.go:68-74 | every miner but the last gets its exact floor, the last its floor and all the dust, without wrap-around |
| `Payout.PayoutConserves` | services/manager/internal/scanner/coinbase.go:59-90 | the emitted payments add up to exactly the coinbase reward, for every non-empty miner map and order |
| `Payout.EachGetsItsShare` | services/manager/internal/scanner/coinbase.go:72-74 | each miner visited but the last gets its hashrate times the reward over the pool total, rounded down, and no payment exactly when that is zero |
| `Payout.NoRewardNoPayments` | services/manager/internal/scanner/coinbase.go:78-80 | a block whose reward was never recorded pays nobody |
| `Payout.AgreesWithReference` | services/manager/internal/scanner/coinbase_test.go:159-195 | the loop agrees with the remainder-free reference if and only if the reward is zero, or the miners make up the whole pool and every product divides evenly; the lists differ only in the last miner visited, by the dust |
| `Payout.SharesAndRemainders` | services/manager/internal/scanner/coinbase.go:72-73 | all shares times the total miss the products by exactly the sum of the remainders |
| `Payout.NobodyPaid` | services/manager/internal/scanner/coinbase.go:52-80 | nobody is paid if and only if the pool total or the reward is zero or there are no miners, overflow or not |
| `Payout.LoneMinerTakesAll` | services/manager/internal/scanner/coinbase.go:68-70 | a lone local miner with 162 H/s of a 5 MH/s pool gets the whole 0.6 XMR, not its 19440000 atomic units |
| `Payout.HashrateSumIgnoresOrder` | services/manager/internal/scanner/coinbase.go:64 | every range over the same map visits the same total hashrate |
| `Payout.PayoutIgnoresOrder` | services/manager/internal/scanner/coinbase.go:63-74 | for any pool total that covers the miners, two iteration orders differ by exactly the dust for the two miners visited last and not at all for the others; by at most n-1 units when the total is the miners' sum |
| `Payout.DustIgnoresOrder` | services/manager/internal/scanner/coinbase.go:68-73 | the dust is the same for every order |
| `Payout.SamePayout` | services/manager/internal/scanner/coinbase.go:63-74 | two orders give everyone the same if and only if they end with the same miner, or the reward is zero, or the miners are the whole pool and every product divides evenly |
| `ScannerMachine.AccountedStep` | services/manager/internal/scanner/scanner.go:76-80 | each step between lock boundaries keeps every height pending, in a goroutine's hands, or processed |
| `ScannerMachine.NeverEarlyStep` | services/manager/internal/scanner/scanner.go:132-136 | each step keeps that nothing is taken before a tip confirmDepth above it was seen |
| `ScannerMachine.NoHeightLost` | services/manager/internal/scanner/scanner.go:109-160 | in every interleaving of any number of goroutines, with any failures and any rows in the database at the start, no height is lost and none processed early |
| `ScannerPayments.InvStep` | services/manager/internal/scanner/scanner.go:195-215 | a disciplined step keeps: a height has one owner, a paid height is backfilled for good and nowhere in the pipeline, and no two batches share a height |
| `ScannerLimits.DisciplineIsExact` | services/manager/internal/scanner/scanner.go:51-160 | from any state with the invariant, a step is disciplined if and only if no disciplined run after it pays a height twice, and if and only if it keeps the invariant |
| `ScannerLimits.IndisciplinePaysTwice` | services/manager/internal/scanner/scanner.go:51-160 | after any undisciplined step, of each of the five kinds, some disciplined run commits two batches for one height |
| `ScannerLimits.TwoCopiesPayTwice` | services/manager/internal/scanner/scanner.go:142-156 | a height that is pending and in a goroutine's hands, at whatever stage, can be paid twice |
| `ScannerPayments.PaidAtMostOnce` | services/manager/internal/scanner/scanner.go:254-285 | in every disciplined run from an empty database, or one such a run left, through retries, recoveries and crashes, no height has two committed batches |
| `ScannerPayments.SerialRunsPayOnce` | services/manager/cmd/manager/main.go:105-125 | if callback and recovery tick never overlapped, no paid height were announced again and blocks have hashes, nothing would be paid twice |
| `ScannerPayments.ExtractPaysInFull` | services/manager/internal/scanner/scanner.go:254-264 | the payments handed to the insert add up to the recorded reward |
| `ScannerPayments.PaidInFullOnce` | services/manager/internal/scanner/scanner.go:195-285 | every paid height has exactly one batch, and it adds up to the reward recorded for the block |
| `ScannerLimits.AnnouncedAfterPaid` | services/manager/internal/scanner/scanner.go:109-112 | from every state with a paid height and an idle goroutine, announcing the height again can pay it twice |
| `ScannerLimits.RecoveryOverlapsFlight` | services/manager/internal/scanner/scanner.go:52-80 | from every state where a goroutine holds an unfilled block, at whatever stage, and another one is idle, a recovery can pay it twice without announcing any of a given set of heights |
| `ScannerLimits.ForgottenForever` | services/manager/internal/scanner/scanner.go:51-53 | a backfilled, unpaid height that memory has lost stays unpaid in every run that does not announce it |
| `ScannerLimits.CrashWindow` | services/manager/internal/scanner/scanner.go:195-285 | after a crash an unpaid found block can be paid without an announcement if and only if it was not backfilled |
| `ScannerLimits.SuccessForgets` | services/manager/internal/scanner/scanner.go:188-264 | without a crash, processing leaves a block unpaid and invisible to recovery if and only if it is backfilled and it is an orphan, its transaction is no coinbase, no miner is known, or the pool hashrate is zero |
| `CoinbaseScanner.Scanner.constructor` | services/manager/internal/scanner/scanner.go:33-45 | a depth of zero means ten, nothing is pending, and the database is the one given |
| `CoinbaseScanner.Scanner.RecordPayments` | services/manager/internal/scanner/coinbase.go:139-167 | one batch with all the rows, or, if any insert or the commit fails, the ledger unchanged |
| `CoinbaseScanner.Scanner.ProcessBlock` | services/manager/internal/scanner/scanner.go:163-301 | database and verdict are those of the four stages run in turn, every early return included |
| `BlockAnswers.ProcessVerdict` | services/manager/internal/scanner/scanner.go:163-301 | success is reported exactly for an unknown height, an orphan, no coinbase, nobody to pay, or an insert that goes through |
| `BlockAnswers.ProcessTables` | services/manager/internal/scanner/scanner.go:195-285 | only this block's row may change, from one lacking hash or reward to exactly monerod's answer; one batch of its payments is added or none |
| `BlockAnswers.StepRow` | services/manager/internal/scanner/scanner.go:198-202 | each step leaves a row alone, inserts it empty, or fills it with exactly the hash and reward answered |
| `BlockAnswers.RowsAreAnswers` | services/manager/internal/scanner/scanner.go:195-202 | over every run a row is its initial one, the empty one, or exactly what monerod answered for that height when the update went through |
| `BlockAnswers.BatchesAreNamed` | services/manager/internal/scanner/scanner.go:254-285 | over every run each payment of a new batch names its height and a hash monerod answered for it |
| `BlockAnswers.PaidWhatWasAnswered` | services/manager/internal/scanner/scanner.go:182-285 | each batch of a block filled in the run adds up to a reward monerod answered for that height |
| `CoinbaseScanner.Scanner.CheckConfirmations` | services/manager/internal/scanner/scanner.go:129-160 | takes exactly the heights deep enough, processes them in some order, and puts back exactly those that fail |
| `CoinbaseScanner.Scanner.Collect` | services/manager/internal/scanner/scanner.go:131-136 | the loop over the pending map lists every deep enough height once |
| `CoinbaseScanner.Scanner.TakeOut` | services/manager/internal/scanner/scanner.go:137-139 | removes exactly the listed heights |
| `CoinbaseScanner.Scanner.HandleNewBlock` | services/manager/internal/scanner/scanner.go:109-124 | adds the height, then the new pending set, log and database are those of one confirmation pass under it |
| `CoinbaseScanner.Scanner.RecoverUnprocessed` | services/manager/internal/scanner/scanner.go:51-104 | adds exactly the rows with empty hash or zero reward, each of which is then pending or processed; processes only if there are some and the tip is known |
| `ScannerRefinement.BlockIsRun` | services/manager/internal/scanner/scanner.go:147-156 | processing one block, failed or not, is a run of the goroutine machine |
| `ScannerRefinement.LoopIsRun` | services/manager/internal/scanner/scanner.go:142-157 | so is the loop over the confirmed heights |
| `ScannerRefinement.HandleNewBlockIsRun` | services/manager/internal/scanner/scanner.go:109-124 | a call as the object's contract states it is a machine run with the same pending set and database |
| `ScannerRefinement.RecoverIsRun` | services/manager/internal/scanner/scanner.go:51-104 | the same for a recovery pass |
| `BlockListener.LastIsHighest` | services/manager/internal/events/zmq.go:159-195 | the last height is the highest header ever answered or the initial one, whatever errors come between |
| `BlockListener.HighestReached` | services/manager/internal/events/zmq.go:189-196 | the height that never-early speaks of is an announced one, and no other is higher |
| `BlockListener.BlockListener.FireHandlers` | services/manager/internal/events/zmq.go:55-63 | one announcement loses nothing and processes nothing early; without failures what was due is processed and leaves the pending set |
| `BlockListener.BlockListener.CatchUp` | services/manager/internal/events/zmq.go:191-195 | every missed height is announced once, in ascending order |
| `BlockListener.BlockListener.RunPolling` | services/manager/internal/events/zmq.go:152-199 | announcements are contiguous from the first header on; from an empty pending set and without failures the processed log is the announced log confirmDepth behind and the pending set has min(n, confirmDepth) heights; with failures nothing is lost or early |
| `BlockListener.BlockListener.FireBlocks` | services/manager/internal/events/zmq.go:140-146 | a message announces exactly the heights of its range, none if its count is not positive |
| `BlockListener.FollowedHeights` | services/manager/internal/events/zmq.go:142-146 | what a message announces is the list of consecutive heights from its first one |
| `BlockListener.ReportedSnoc` | services/manager/internal/events/zmq.go:111-146 | a further message announces its whole range after what the others announced, an unreadable one nothing |
| `BlockListener.ReportedExactly` | services/manager/internal/events/zmq.go:140-146 | a height is announced if and only if it lies in the range of some readable message, and as many heights are announced as the positive counts add up to |
| `BlockListener.BlockListener.RunZMQ` | services/manager/internal/events/zmq.go:111-147 | announces the ranges of all readable messages in order; nothing is lost or processed early, even when heights come again; while the ranges follow on from each other and nothing fails, the delay is exactly confirmDepth |
| `BlockListener.DueNext` | services/manager/internal/scanner/scanner.go:132-139 | announcing the next height makes exactly the one confirmDepth below it due |
| `BlockListener.KeptStep` | services/manager/internal/scanner/scanner.go:142-157 | what was due is processed or pending again after every announcement |
| `BlockListener.FailuresNotLogged` | services/manager/internal/scanner/scanner.go:147-156 | a block that fails goes back and is not logged as processed |
| `BlockListener.SmoothSucceeds` | services/manager/internal/scanner/scanner.go:163-301 | a block whose questions are all answered is processed without error, be it unknown, orphaned or not a coinbase |
| `Ledger.SubscriptionScanner.constructor` | services/manager/internal/subscription/scanner.go:45-80 | zero settings become 10 confirmations, 30 days and 48 hours |
| `Ledger.SubscriptionScanner.RecordUnconfirmed` | services/manager/internal/subscription/scanner.go:248-271 | inserts an unpriced, unconfirmed row for a known subaddress and never touches an existing one |
| `Ledger.SubscriptionScanner.ActivateSubscription` | services/manager/internal/subscription/scanner.go:305-356 | extends from a running paid expiry or from now, never downgrades, keeps the first retention date |
| `Ledger.SubscriptionScanner.UpdateFundMonth` | services/manager/internal/subscription/scanner.go:359-371 | adds the value to the month's total in cents, or changes nothing if it fails |
| `Ledger.SubscriptionScanner.ProcessTransfer` | services/manager/internal/subscription/scanner.go:152-245 | tables and outcome of one transfer, with every failing read and write |
| `LedgerNumbers.WorthAtPrice` | services/manager/internal/subscription/scanner.go:220-236 | at a positive USD price a settling transfer is worth its amount over 10^12 times the price; below USD 0.80 nothing is activated, from USD 4 on champion, in between supporter |
| `LedgerNumbers.WorthWithoutPrice` | services/manager/internal/subscription/scanner.go:292-297 | without a positive USD price any amount buys supporter at USD 0.80 |
| `LedgerNumbers.SettlingRow` | services/manager/internal/subscription/scanner.go:200-208 | the row is confirmed at the transfer's height with the USD and CAD prices first met, and keeps miner and amount; no other row changes |
| `LedgerNumbers.ShallowRow` | services/manager/internal/subscription/scanner.go:248-271 | a new row with miner, amount and height, unconfirmed and without prices, if every statement goes through; else nothing changes |
| `LedgerNumbers.UnsettledChangesNoTerms` | services/manager/internal/subscription/scanner.go:152-183 | a shallow, unknown, known or failing transfer changes neither subscriptions nor fund |
| `LedgerNumbers.ActivatedRow` | services/manager/internal/subscription/scanner.go:305-346 | tier, expiry, grace, contribution and first retention date of the activated row; API key, hold and deletion mark stay, and so does every other row |
| `Ledger.SubscriptionScanner.Scan` | services/manager/internal/subscription/scanner.go:113-149 | a poll cycle is the run of its transfers in order, errors of single ones skipped; without an answer from the wallet it changes nothing |
| `LedgerNumbers.OnlyIncomingActivates` | services/manager/internal/subscription/scanner.go:120-146 | every incoming transfer is processed, and pool and pending ones change neither activations, subscriptions nor fund |
| `LedgerProofs.ConfirmedRowFrozen` | services/manager/internal/subscription/scanner.go:175-206 | a confirmed row never changes in any column and never activates again |
| `LedgerProofs.ActivatesAtMostOnce` | services/manager/internal/subscription/scanner.go:113-245 | over any number of rescans each tx_hash activates at most once, and only once confirmed |
| `LedgerProofs.ActivationsFromTransfers` | services/manager/internal/subscription/scanner.go:152-236 | every activation belongs to a deep enough transfer that was shown, at its own value and tier |
| `LedgerNumbers.ActivationsAreWorth` | services/manager/internal/subscription/scanner.go:113-300 | over every run each activation credits the miner its subaddress belongs to, at the transfer's amount and the USD price met, for the tier that is worth |
| `LedgerProofs.ActivatesUnlessKnown` | services/manager/internal/subscription/scanner.go:176-183 | a paying transfer activates if and only if it was not read to be confirmed, so a failing read activates it again |
| `LedgerProofs.FailedActivationIsLost` | services/manager/internal/subscription/scanner.go:200-236 | a transfer whose activation write fails is never activated by a later scan |
| `LedgerProofs.DeletionForgetsActivations` | services/manager/cmd/manager/routes.go:582-592 | after a deletion, a confirmed paying transfer activates again if and only if it was the deleted miner's |
| `LedgerProofs.CentsAdd` | services/manager/internal/subscription/scanner.go:360-365 | adding to a total of whole cents rounds only what is added |
| `LedgerProofs.FundConserved` | services/manager/internal/subscription/scanner.go:359-371 | in every run a month's total grows by exactly the values of the transfers activated in it whose fund update went through |
| `LedgerProofs.FundRounding` | services/manager/internal/subscription/scanner.go:364 | the total is within half a cent per activation of the exact values |
| `ExpiryProofs.TermsFromActivations` | services/manager/internal/subscription/scanner.go:305-346 | tier, expiry and grace are the best tier bought, the stacked expiry, and a fixed time after it |
| `ExpiryProofs.TermsNeverFall` | services/manager/internal/subscription/scanner.go:324-336 | in every run with working reads the tier never falls and paid time never shrinks |
| `ExpiryProofs.ExpiryClosedForm` | services/manager/internal/subscription/scanner.go:315-321 | after k activations the expiry is the maximum over i of t_i + (k-i+1)D and of the old expiry + kD |
| `ExpiryProofs.ExpiryOfRun` | services/manager/internal/subscription/scanner.go:305-346 | in every run with working expiry reads, a miner's stored expiry is that maximum over its own activations, its grace follows by a fixed time, and k activations bought exactly kD seconds before it |
| `ExpiryProofs.CoveredBounds` | services/manager/internal/subscription/scanner.go:315-321 | the seconds bought end at the expiry and were not paid for before |
| `ExpiryProofs.CoveredTime` | services/manager/internal/subscription/scanner.go:315-321 | k activations cover exactly k times the duration |
| `ExpiryProofs.UnreadExpiryCostsTime` | services/manager/internal/subscription/scanner.go:310-319 | a failing expiry read shortens the paid time if and only if it was still running |
| `ScanOrder.BatchPayments` | services/manager/internal/subscription/scanner.go:120-128 | where entries of one hash agree, a scan leaves a confirmed row alone, makes of any other what each settling entry makes of it, and inserts new ones |
| `ScanEffects.BatchActivations` | services/manager/internal/subscription/scanner.go:120-236 | for any transfers, exactly those activate that are the first of an unconfirmed hash to settle and are worth a tier |
| `ScanOrder.ScanOrderExact` | services/manager/internal/subscription/scanner.go:113-128 | every order of one scan leaves the same rows and activates the same if and only if entries that share an unconfirmed hash agree: in height, miner, tier and cents where they settle, in miner and amount where the hash is new |
| `ScanOrder.ScanOrderIrrelevant` | services/manager/internal/subscription/scanner.go:113-128 | then reordering changes no tier, expiry, grace, payment row or fund total |
| `ScanOrder.DistinctIsConsistent` | services/manager/internal/subscription/scanner.go:113-128 | a scan without two different entries of one transaction is such a case |
| `ScanOrder.PairOrder` | services/manager/internal/subscription/scanner.go:175-236 | the order of two settling entries of one transaction does not matter to terms and fund if and only if they are for the same miner, raise it to the same tier and are worth the same cents |
| `ScanOrder.LaterEntryIsLost` | services/manager/internal/subscription/scanner.go:175-183 | once a transaction was settled, no entry of it activates again, in this scan or any later one |
| `Retention.RetentionTables.PurgeMiner` | services/manager/internal/aggregator/timeseries.go:346-370 | the four deletes and the reset in order, up to the one that fails; everyone else untouched |
| `Retention.RetentionTables.PruneNuked` | services/manager/internal/aggregator/timeseries.go:321-376 | the loop, in any order, purges exactly the marked miners and counts them; at the first failure some are gone and at most one partly |
| `Retention.RetentionTables.PruneRetention` | services/manager/internal/aggregator/timeseries.go:190-317 | the statements in turn, each at its own clock, up to the one that fails, be it in phase 1 or later |
| `Retention.RetentionTables.PruneTables` | services/manager/internal/aggregator/timeseries.go:230-303 | the five deletes of phases 4 to 6 in turn |
| `Retention.RetentionTables.HandleTaxExport` | services/manager/cmd/manager/routes.go:400-450 | paid miners export freely; a lapsed one only its held year, one count less, or not at all; a failing decrement is served, a failing payment query is not |
| `HeldExports.ExportServesExactly` | services/manager/cmd/manager/routes.go:400-450 | an export is forbidden, fails or is served exactly when the source says so; served, it contains exactly the miner's own payments of the year asked for or held, or of every year |
| `Retention.RetentionTables.HandleNukeData` | services/manager/cmd/manager/routes.go:569-605 | mark, then try all four deletes, then reset; nothing happens without the mark, and each of the others may fail by itself |
| `RetentionProofs.DeleteTakesAll` | services/manager/cmd/manager/routes.go:569-605 | at once nothing of the miner is left but its row, marked and reset to the free tier; nobody else notices |
| `Retention.RetentionTables.TryDeletes` | services/manager/cmd/manager/routes.go:582-592 | a failing delete leaves its table and does not keep the others from running |
| `Retention.RetentionTables.HandleHeldDataStatus` | services/manager/cmd/manager/routes.go:629-653 | reports held data exactly when its read succeeds and some export request would be served |
| `RetentionProofs.GrantedAndCleared` | services/manager/internal/aggregator/timeseries.go:201-228 | the flag phases after the purge equal one per-miner rule |
| `RetentionProofs.RowsSurvive` | services/manager/internal/aggregator/timeseries.go:230-303 | a share or hashrate survives phases 4 and 6 unless the delete that applies to its miner, at its own clock, finds it too old |
| `RetentionProofs.PaymentsSurvive` | services/manager/internal/aggregator/timeseries.go:257-276 | a payment survives if recent, or its miner is in grace, or its year is held with exports left |
| `RetentionProofs.PruneIsSurvivors` | services/manager/internal/aggregator/timeseries.go:190-317 | at one instant the six phases leave exactly the tables of the rule with one age limit: 450 days in grace, 30 otherwise |
| `RetentionProofs.PruneInNumbers` | services/manager/internal/aggregator/timeseries.go:190-317 | what survives, with 2592000 and 38880000 seconds, grace dates and marks written out |
| `RetentionProofs.HoldsInNumbers` | services/manager/internal/aggregator/timeseries.go:201-228 | a hold on last year with two downloads is granted exactly to a lapsed miner that holds none, is not deleted and has a payment of that year; a used-up hold is given up, others stay |
| `RetentionProofs.ChainIsLastPrune` | services/manager/internal/aggregator/timeseries.go:230-255 | any ascending chain of prunes leaves the shares and hashrates its last prune alone would leave |
| `RetentionProofs.NoLapseIsOneInstant` | services/manager/internal/aggregator/timeseries.go:204-208 | if no grace period ends between the statements, their clocks do not matter |
| `RetentionProofs.RealPruneIsSurvivors` | services/manager/internal/aggregator/timeseries.go:190-317 | whatever instants the statements run at, the phases leave exactly the tables of the one-pass rule for these instants |
| `RetentionProofs.LapseInsidePruneLosesPayment` | services/manager/internal/aggregator/timeseries.go:204-272 | a payment is deleted that a prune at the instant of phase 5 would keep if and only if it is an old one of last year and its miner, holding no year, lapses between phases 2 and 5 |
| `RetentionProofs.InterruptionIsRepaired` | services/manager/internal/aggregator/timeseries.go:321-376 | after a failure anywhere in phase 1, the next prune leaves what it would have left without the failure |
| `RetentionProofs.PurgedInOrder` | services/manager/internal/aggregator/timeseries.go:346-370 | a purge that fails has gone through shares, hashrates, payments, subscription payments and subscription in this order |
| `RetentionProofs.PrunedInOrder` | services/manager/internal/aggregator/timeseries.go:201-303 | a prune that fails has gone through flags, free shares, free hashrates, payments, paid shares and paid hashrates in this order |
| `RetentionProofs.FailedDeletesAreRepaired` | services/manager/cmd/manager/routes.go:569-605 | failed deletes of the handler are made up for by the next prune if and only if the miner has a subscription row to carry the mark, or nothing was missed |
| `HeldExports.BooksStep` | services/manager/internal/aggregator/timeseries.go:204-228 | every step keeps held year and count null together, the count in 0..2, and served plus count at 2 |
| `HeldExports.HeldExportAccounting` | services/manager/cmd/manager/routes.go:405-442 | the same in every reachable state of prunes, exports, deletions and activations |
| `HeldExports.HoldLasts` | services/manager/internal/aggregator/timeseries.go:265-271 | hold and rows stay until the downloads are used up, through any prune |
| `HeldExports.GrantIsHolding` | services/manager/internal/aggregator/timeseries.go:204-214 | the granting prune itself deletes no payment of the held year |
| `HeldExports.DownloadIsComplete` | services/manager/cmd/manager/routes.go:405-444 | while downloads are left, a request is served and contains all the rows held |
| `HeldExports.BothDownloadsComplete` | services/manager/internal/aggregator/aggregator.go:631-642 | whatever instants the statements of the prunes run at, each of the two served downloads contains every payment of the year the miner had at the grant |
| `ExportRequests.AloneIsHandler` | services/manager/cmd/manager/routes.go:405-450 | without others in between, check, decrement and query are the handler, failures included |
| `ExportRequests.ServedExactly` | services/manager/cmd/manager/routes.go:405-450 | in every run of overlapping and failing requests, downloads served are two a hold plus the wasted decrements, less those left, waiting, failed or forfeited |
| `ExportRequests.TwoDownloadsAHold` | services/manager/cmd/manager/routes.go:409-433 | at most two a hold are served when decrements succeed and requests pass the check only while fewer are before their decrement than downloads are left |
| `ExportRequests.OneAtATimeIsCareful` | services/manager/cmd/manager/routes.go:409-433 | letting no request pass while another is between check and decrement is enough for that |
| `ExportRequests.FinishServesAll` | services/manager/cmd/manager/routes.go:429-450 | open requests are all served if nothing fails, and each one more than downloads are left wastes its decrement |
| `ExportRequests.UncarefulReadOverserves` | services/manager/cmd/manager/routes.go:409-433 | finishing all open requests after a check serves more than is left if and only if the check was not careful |
| `ExportRequests.CarefulIsExact` | services/manager/cmd/manager/routes.go:405-450 | while no more requests are in between than downloads are left, an event is careful if and only if no careful run after it serves more than was waiting, left or granted |
| `ExportRequests.OverlappingExportsOverserve` | services/manager/cmd/manager/routes.go:409-433 | while one download is left, any number of overlapping requests can all be served, and the count stops at zero |
| `ExportRequests.FailedDecrementsOverserve` | services/manager/cmd/manager/routes.go:429-436 | any number of requests whose decrement fails are served one after the other, and nothing changes |
| `HeldExports.PruneInsideLastExport` | services/manager/cmd/manager/routes.go:429-444 | a prune between the last decrement and the query leaves a payment in the download if and only if it is recent |
| `HeldExports.SecondHold` | services/manager/internal/aggregator/timeseries.go:204-224 | after the hold is used up the same year is held again if and only if recent payments of it remain |
| `HeldExports.DeletionIsForGood` | services/manager/internal/aggregator/timeseries.go:323-370 | once marked, in every later run, the next prune deletes every share, hashrate, payment and subscription payment of the miner and clears its tier, dates, API key and hold |
| `TierCache.Service.CheckTier` | services/manager/internal/subscription/service.go:183-220 | reply and cache are those of the lookup function, failing Redis and database included |
| `TierCache.Service.CheckTierByAPIKey` | services/manager/internal/subscription/service.go:223-269 | the same for API keys, which are not cached when unknown |
| `TierCache.Service.InvalidateCache` | services/manager/internal/subscription/service.go:363-367 | removes the address entry and no other, or nothing if Redis fails |
| `TierCache.InvRun` | services/manager/internal/subscription/service.go:214-217 | in every run each entry is what a lookup stored at its time from the database of that time |
| `TierCache.HitAgrees` | services/manager/internal/subscription/service.go:191-199 | an entry answers later what its database would answer then, against the later clock |
| `TierCache.LookupIsRecent` | services/manager/internal/subscription/service.go:183-269 | every successful lookup is the uncached answer now for a database current at most 30 s ago |
| `TierCache.LookupSays` | services/manager/internal/subscription/service.go:183-269 | in every run a successful lookup grants a paid tier exactly when some row of the last 30 s was supporter or champion with a grace period still running, and then that tier; for API keys with that row's address |
| `TierCache.LookupFails` | services/manager/internal/subscription/service.go:201-205 | a lookup that reaches the database fails only if that fails, and otherwise answers from the current row |
| `TierCache.SettledLookupIsExact` | services/manager/internal/subscription/service.go:183-269 | so it is the uncached answer once the row was left alone for 30 s |
| `WorkerCsv.SplitCSV` | services/manager/pkg/p2poolclient/types.go:119-130 | the loop over start offsets returns the comma split the lemmas are about |
| `WorkerCsv.ParseUint` | services/manager/pkg/p2poolclient/types.go:132-140 | the digits read as a decimal number modulo 2^64, other characters skipped |
| `WorkerCsv.OthersSkipped` | services/manager/pkg/p2poolclient/types.go:132-140 | a character that is no digit does not matter, wherever it stands |
| `WorkerCsv.ParseWorkerCSV` | services/manager/pkg/p2poolclient/types.go:98-117 | the five fields by position, missing ones zero |
| `WorkerCsv.Workers` | services/manager/pkg/p2poolclient/types.go:85-94 | the parsed lines with a connection, in order |
| `WorkerCsv.WorkersInOrder` | services/manager/pkg/p2poolclient/types.go:85-94 | lines are kept in order, each by itself, and exactly those with text before the first comma |
| `WorkerCsv.FieldsByPosition` | services/manager/pkg/p2poolclient/types.go:98-117 | connection, hashrate, hashes, best difficulty and wallet prefix in this order, numbers modulo 2^64; a missing field is zero or empty |
| `WorkerCsv.SplitThenJoin` | services/manager/pkg/p2poolclient/types.go:119-130 | splitting then joining is the identity, and no part contains a comma |
| `WorkerCsv.JoinThenSplit` | services/manager/pkg/p2poolclient/types.go:119-130 | joining comma-free parts then splitting gives them back |
| `WorkerCsv.DecimalValue` | services/manager/pkg/p2poolclient/types.go:132-140 | reading inverts decimal printing |
| `WorkerCsv.PrintThenParse` | services/mocknode/main.go:287-300 | a printed worker reads back unchanged if and only if its text fields are comma-free |
| `RateLimit.RateLimiter.constructor` | services/gateway/internal/middleware/ratelimit.go:40-61 | the burst is twice the rate and the fallback store is empty |
| `RateLimit.RateLimiter.InMemoryCheck` | services/gateway/internal/middleware/ratelimit.go:120-131 | counts the request in its window, a first one always admitted, later ones up to the burst |
| `RateLimit.RateLimiter.Middleware` | services/gateway/internal/middleware/ratelimit.go:66-116 | WebSocket requests pass; Redis's count decides, the first asks for an expiry of 2000 ms, and Redis's failure hands over to the fallback |
| `RateLimit.RedisCountsAll` | services/gateway/internal/middleware/ratelimit.go:75-107 | the expiry never resets a counter in use, and INCRs whose answer is lost, however late, admit nothing; so Redis admits at most the burst |
| `RateLimit.RedisAdmits` | services/gateway/internal/middleware/ratelimit.go:81-107 | Redis admits exactly those requests of a window that are answered among the first burst INCRs |
| `RateLimit.AllAnswered` | services/gateway/internal/middleware/ratelimit.go:81-107 | when every INCR is answered, exactly the first burst requests pass |
| `RateLimit.FallbackBound` | services/gateway/internal/middleware/ratelimit.go:120-131 | with windows in order the fallback admits at most the burst per window |
| `RateLimit.RateBound` | services/gateway/internal/middleware/ratelimit.go:66-131 | any mix of Redis successes, failures and lost answers admits at most two bursts per address and window |
| `RateLimit.AlternatingWindowsUnbounded` | services/gateway/internal/middleware/ratelimit.go:124-128 | alternating between two windows, the fallback admits any number of requests of each |
| `RateLimit.GroupsAreMaximal` | services/gateway/internal/middleware/ratelimit.go:125 | the groups are the checks of an address, cut exactly where the window changes |
| `RateLimit.FallbackCount` | services/gateway/internal/middleware/ratelimit.go:120-131 | whatever the order of the windows, the fallback admits for a window exactly the sum over its groups of min(length, burst), with at least one each |
| `RateLimit.RateBoundAnyOrder` | services/gateway/internal/middleware/ratelimit.go:66-131 | so both back ends together admit at most one burst plus that sum |
| `Hub.JoinCounts` | services/manager/internal/ws/hub.go:47-48 | a fresh connection raises its own address's number by one and no other |
| `Hub.LeaveCounts` | services/manager/internal/ws/hub.go:56-58 | a leaving connection lowers its own address's number by one and no other |
| `Hub.Hub.AddClient` | services/manager/internal/ws/hub.go:41-51 | registers if and only if the address has fewer than five connections; the counters keep agreeing with the map |
| `Hub.Hub.RemoveClient` | services/manager/internal/ws/hub.go:54-65 | unregisters once, a second removal changes nothing; the counters keep agreeing |
| `Hub.Hub.RemoveFailed` | services/manager/internal/ws/hub.go:114-122 | a broadcast over a stale snapshot removes exactly the connections whose write fails |
| `NodePool.Pool.AssignNode` | services/manager/internal/nodepool/pool.go:247-266 | one more subscriber on one of the least loaded running nodes that no other transaction holds, or nothing when there is none |
| `NodePool.LevelStep` | services/manager/internal/nodepool/pool.go:249-257 | one assignment raises one node of the lower level |
| `NodePool.FairAllocation` | services/manager/internal/nodepool/pool.go:247-266 | after m assignments over n nodes with equal counts every node gained floor(m/n) or one more, exactly m mod n of them one more, whatever the ties |

## Left out

- Heights and times are unbounded integers: a polling loop at height 2^64-1 and time overflow are not modelled.
- `BlockListener.BlockListener.RunPolling`: takes a finite list of replies and one registered handler, which is what the program registers; contexts, tickers and reconnects are left out.
- `BlockListener.BlockListener.RunZMQ`: promises no exact delay once heights come again or are skipped, as they may during a reorganisation.
- `Payout.PayoutIgnoresOrder`: needs products that fit 64 bits and a total that covers the miners, as the other exact statements about the split do.
- `ScannerPayments.PaidAtMostOnce`: holds for disciplined runs only; the runs outside are in `ScannerLimits`.
- `HeldExports.HeldExportAccounting`: takes the export handler as atomic and its statements as successful, and so do the other lemmas of that module; `ExportRequests` does not.
- `LedgerProofs.FundConserved`: counts activations whose fund update went through; the update is allowed to fail.
- `ScanOrder.ScanOrderIrrelevant`: says nothing of the last contribution amount, which is that of the transfer processed last.
- `TierCache.LookupIsRecent`: takes a lookup as atomic; a slow one may store a row older than its entry.
- `NodePool.FairAllocation`: serial assignments only, where no transaction holds a row.
- `WorkerCsv.ParseUint`: works on characters; the source's offsets are bytes, which is the same for commas and digits.
- `Hub.Hub.RemoveFailed`: fetching and encoding the statistics before the writes is left out.
- `RateLimit.RateBound`: a Redis that loses its keys and an extraction of the wrong address are not modelled.
- Prices attached to coinbase payments, metrics, logging: they decide nothing here.
- Rounding of stored prices and the width of NUMERIC and BIGINT columns; an insert they refuse is a failing statement.
- Assigning subaddresses: only its effect on the address table; the wallet call is left out.
- API keys: generating and hashing them; the 16-digit prefixes of live hashes are taken to be distinct.
- The extended_retention flag, e-mail and timestamps of a subscription: nothing modelled reads them.
- The rollup, snapshots and the remembered last block of the indexer; only its insert matters here.
- The CSV formatting and the year range check of the export, JSON, HTTP, routing and authentication.
- The frontend, the mock node's simulation, health checks, the price oracle and the scripts: plumbing or one-branch code.
