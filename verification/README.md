# Verification of the QDAY PPLNS pool

A Dafny model of the pool's money path and of the Stratum bookkeeping around
it, with proofs about every input, every interleaving and every run.

| module | file | models |
|---|---|---|
| ShareWindow, Apportionment, Ranking | window.dfy, apportionment.dfy, ranking.dfy | the PPLNS window as the newest N units of work, and the division of a reward by largest remainder, both stated without a loop or an iteration order |
| Ledger | ledger.dfy | the database as a value: shares, blocks with allocations, payouts with items, and the balances derived from them |
| StoreModel | store.dfy | the store as a class whose methods update the tables, each proved to do what the Ledger function says; a Go map iteration is an arbitrary choice of key |
| PoolSystem | system.dfy | the whole pool as a transition system: workers that record, allocate and submit, the controller, a node that is idempotent on request ids, lost replies, failed writes and crashes between any two steps |
| Guarantees, Settlement, Receipts, Rows, Winning | guarantees.dfy, settlement.dfy, receipts.dfy, rows.dfy, winning.dfy | what every run keeps: conservation, no overpayment, absorbing states, rows that move only by the node's reply, blocks that pay out their whole reward, the window frozen at a win |
| Progress, Batching, Retries, Payoff | progress.dfy, batching.dfy, retries.dfy, payoff.dfy | what repeated passes achieve: no candidate starves, when a retry of an executed payout is accepted, and how far payouts have got in any run |
| ControllerModel, Submission | controller.dfy, stratum.dfy | the controller's passes and the handling of a solved share as methods over the store and the node, each shown to be a run of the transition system when no other actor is at work; interleavings are covered by the transition system |
| Targets, Headers | targets.dfy, headers.dfy | difficulty, targets and credited work; the header of a submission and why no two miners hash the same one |
| Publishing, Connections, Vardiff | publishing.dfy, connections.dfy, vardiff.dfy | the bounded job registry, publishers racing to a client, connection counters, variable difficulty |
| Amounts | amounts.dfy | the amount printer and parser |
| Sums, Arith, Wrappers | sums.dfy, arith.dfy, wrappers.dfy | finite sums, products, results |

The tables are sequences and maps, and one store transaction is one atomic
step. `big.Int` is `nat` or `int`. Node answers, clocks, random request ids and
the failures of the network and of database writes are parameters, or actions
of the transition system, and are unconstrained.

## What the proofs say about the code

- `SetBlockState` does not protect a mature block. In any sound tables, updating one keeps the books sound exactly when the block stays mature or every balance still covers what the block has credited (`UpdateOfMatureBlock`). In a pool that has paid the block out, every other answer breaks the books (`PaidOutBlockIsExposed`). The invariant therefore belongs to the whole system, in which the controller feeds it pending rows only.
- Pruning alone does not promise a frozen window. `PruneKeepsWindowExactly` says when it does, in terms of the rows before the prune, and `LaterShareEvictsWinner` shows a prune that empties the window of a winner. The simpler guard of `PruneKeepsWindow` suffices: the retained work covers the window and the work recorded since the winner.
- Difficulty can fall below the configured minimum when the network difficulty is below it (`LowNetworkEscapes`). `RunWithin` proves the range for all other networks.
- The bound of a 4-fold raise for three accepted shares holds of every run exactly when the share target is below 103.5 seconds or the maximum difficulty leaves no room above the highest starting value (`GrowthBoundExact`). Otherwise one counted share is enough for a raise.
- A retry repeats a row's outputs and fee but takes address and unit from the node's status of the moment. If these count as contents of the request, a retry of an executed row is accepted exactly when they are those of the first call (`RetryAccepted`). Once they have changed, as the unit does at PQ Day, the row stays active and no further batch is prepared (`ChangedWalletBlocks`); with the first wallet one pass confirms it (`SameWalletConfirms`).
- Two clients of one server can be made to hash the same header exactly when the coinbase prefixes of their jobs differ in length (`ClientsClashExactly`).
- A second removal of a closed connection would corrupt the counters whenever another client shares its address (`RemoveCounted`); the once-only close is what prevents it.
- A negative amount is printed but never read back (`PrintParse` is an equivalence). The parser rejects a bare point such as `1.`.
- In `acceptedAt` the guard that replaces a non-positive elapsed time by a millisecond can never act: a window is only evaluated once 90 seconds, or a positive time, have passed.

## Model

| member | source | states |
|---|---|---|
| ShareWindow.SelectedWork | internal/store/store.go:299-330 | the selected work is the window, or all work up to the cutoff when there is less |
| ShareWindow.WindowByShare | internal/store/store.go:299-330 | share by share: the window credits an address with the part of each of its shares that lies among the newest units up to the cutoff |
| ShareWindow.WindowNotEmpty | internal/store/store.go:299-330 | a window of positive size is empty exactly when no share is as old as the cutoff |
| ShareWindow.TallyTotal | internal/store/store.go:303-325 | grouping by address loses and adds no work, and every grouped address has some |
| ShareWindow.PrunedIsShortest | internal/store/store.go:223-263 | a prune leaves the shortest newest part of the table that holds the work to retain, or all of it |
| ShareWindow.PruneKeepsWindowExactly | internal/store/store.go:225-263 | a prune leaves the window of an earlier winner alone if and only if no row it may drop, counted over the rows before the prune, is needed by that window |
| ShareWindow.LaterShareEvictsWinner | internal/store/store.go:225-263 | one later share that fills the retention alone empties the window of the winner |
| ShareWindow.PruneKeepsWindow | internal/store/store.go:225-263 | retaining the window plus the work recorded after the cutoff suffices |
| ShareWindow.WindowFrozenAtWinner | internal/store/store.go:299-330 | whatever is recorded and pruned after the winner, within that guard, its window is the newest units at the moment it was recorded |
| ShareWindow.SplitShareSameWindow | docs/accounting.md:21-34 | a share replaced by two adjacent ones of the same address and total work changes no window: only work counts |
| Apportionment.ApportionTotal | internal/store/store.go:331-352 | the amounts add up to the distributable value, over exactly the addresses with work |
| Apportionment.ApportionQuota | internal/store/store.go:336-352 | each amount is the exact share rounded down, or one atom more, and less than one atom away from it |
| Apportionment.LeftoverTimesWork | internal/store/store.go:336-343 | the leftover atoms times the selected work are the sum of the remainders |
| Apportionment.LeftoverBound | internal/store/store.go:343-352 | there are fewer leftovers than addresses, so the modulo of the hand-out loop never wraps |
| Apportionment.NoExtraWithoutRemainder | internal/store/store.go:344-352 | an address owed a whole number of atoms gets exactly that number |
| Apportionment.MoreWorkNeverEarnsLess | internal/store/store.go:344-352 | strictly more work never earns less, ties included |
| Apportionment.ExtraAtomOrder | internal/store/store.go:344-352 | an extra atom goes to the larger remainder, and between equal ones to the smaller address |
| Apportionment.ThresholdRoundingOptimal | internal/store/store.go:336-352 | any rounding at one common remainder threshold minimises the total error among all assignments with its total |
| Apportionment.ApportionOptimal | internal/store/store.go:331-352 | no assignment of the same atoms to the same addresses, negative amounts included, has a smaller sum of absolute errors |
| Ranking.SortSlice | internal/store/store.go:344-349 | sorting by descending key with ties by address gives an ordered list of the same elements |
| Ranking.LessAtFirstDifference | internal/store/store.go:344-349 | addresses are ordered at their first difference, by the smaller character or by the one that ends there |
| Ranking.SortedUnique | internal/store/store.go:344-353 | that order is the only one, whatever order the map iteration produced |
| Ranking.SortedTop | internal/store/store.go:350-352 | the first k of the sorted list are the k elements of lowest rank, a notion that mentions no list |
| StoreModel.SelectWindow | internal/store/store.go:299-330 | the newest-first loop with its truncated boundary share groups exactly the window of units |
| StoreModel.Quotients | internal/store/store.go:334-343 | for every iteration order of the grouping map, each address is listed once with its quotient and remainder |
| StoreModel.HandOut | internal/store/store.go:350-352 | the modulo loop adds one atom to each of the first leftover addresses and to no other |
| StoreModel.Divide | internal/store/store.go:334-353 | for every iteration order the result is the largest-remainder division, listed in address order |
| StoreModel.FreezeRow | internal/store/store.go:331-372 | the inserted block row with fee, default maturity and amounts is the one frozen for the window, whose meaning FrozenPaysOut states |
| StoreModel.Store.RecordShare | internal/store/store.go:198-213 | a complete share with a new hash gets the next id, its work and its address; anything else changes nothing, and only a known hash is called a duplicate |
| StoreModel.Store.PruneShares | internal/store/store.go:225-263 | keeps exactly the shortest newest suffix that holds the work to retain |
| StoreModel.Store.AllocateBlock | internal/store/store.go:274-372 | when it succeeds, and then one new row that describes the block and pays out its reward: the pool fee rounded up, each amount within two atoms of the exact part, allocations in address order |
| StoreModel.Store.PendingBlocks | internal/store/store.go:417-435 | the lowest pending blocks up to the limit, each once, none passed over for a higher one |
| StoreModel.Store.SetBlockState | internal/store/store.go:437-455 | the whole row after one observation, whatever the present status |
| StoreModel.Store.Balances | internal/store/store.go:489-536 | for every row order, the sums by address of mature, pending, reserved and paid amounts |
| StoreModel.Store.AccountOf | internal/store/store.go:710-733 | the account of an address; in sound tables its balance is not negative and its paid sum is matured |
| StoreModel.Store.PreparePayouts | internal/store/store.go:538-605 | when it fails, when there is nothing to pay, and else one new row with the given fee and request id, whose items are the largest eligible balances in full, returned as the batch to send |
| StoreModel.Store.ActivePayouts | internal/store/store.go:607-658 | the active payouts of lowest id, in id order, each with the request id, fee and items of its row |
| StoreModel.Store.SetPayoutState | internal/store/store.go:660-673 | only an active row with a transaction moves, and only to submitted or confirmed; it takes the transaction and nothing else changes |
| Ledger.FrozenBalances | internal/store/store.go:331-371 | pool fee and amounts of a frozen block make up its whole reward |
| Ledger.FrozenPaysOut | internal/store/store.go:331-371 | a frozen row divides the whole reward: the fee in basis points, rounded up, to the pool, and to each address its part by work to within two atoms |
| Ledger.BalanceOrder | internal/store/store.go:489-536 | 0 <= paid <= reserved <= mature for every address of sound tables |
| Ledger.EligibleByBalance | internal/store/store.go:553-564 | an address is eligible exactly when its balance reaches the threshold |
| Ledger.Conservation | docs/accounting.md:45-66 | rewards of pending and mature blocks are the pool fees plus everything pending, reserved or owed |
| PoolSystem.StepKeepsInv | internal/pool/controller.go:108-206 | every step, lost replies, failed writes and crashes included, keeps the invariant |
| PoolSystem.RunKeepsInv | internal/pool/controller.go:89-106 | so does every run |
| Guarantees.NoOverpayment | docs/accounting.md:75-84 | in every run the node pays an address at most what its batches reserve, which is at most its matured credit |
| Guarantees.ExecutedRequestsAreRows | internal/pool/controller.go:182-191 | every executed request has the request id, fee and outputs of exactly one payout row |
| Guarantees.LedgerAlwaysBalances | internal/store/store.go:489-536 | conservation and non-negative balances in every reachable state |
| Guarantees.SingleActivePayout | internal/pool/controller.go:168-181 | at most one payout is active in every reachable state |
| Guarantees.AllocatedBeforeSubmitted | internal/stratum/server.go:897-917 | every block id the node was sent has an allocation that, with the pool fee, is the whole template payout |
| Guarantees.FinalStatesAbsorb | internal/store/store.go:437-465 | no later step of any run touches a frozen allocation, a mature or orphan status, or a confirmed payout; so no id is allocated twice |
| Guarantees.StatusChangesOnlyByObservation | internal/pool/controller.go:119-134 | in every run a pending block matures if and only if an answer about it is canonical at its maturity, and becomes an orphan if and only if one is not canonical six blocks on; no other status ever changes |
| Guarantees.UpdateOfMatureBlock | internal/store/store.go:443-452 | in any sound tables, updating a mature block keeps the books sound if and only if it stays mature or every balance covers what it credited |
| Guarantees.PaidOutBlockIsExposed | internal/store/store.go:443-452 | in a pool that has paid the block out, every answer that does not leave it mature breaks the books |
| Guarantees.RunTraceApplies | internal/store/store.go:198-263 | what a run does to the shares is a trace of records with ever larger ids and of prunes |
| Guarantees.AllocationFrozenAtWin | internal/stratum/server.go:879-910 | whatever the rest of the pool does between the win and its allocation, within the retention guard, the row is the one frozen at the win |
| Winning.PolicyRetains | internal/stratum/server.go:319-323 | pruning to a hundred windows keeps the retention guard until ninety-nine windows of work have come in |
| Winning.AllocationFrozenByPolicy | internal/stratum/server.go:879-910 | with an id that at the win is neither allocated nor held by another worker, and under the server's pruning to a hundred windows, the row is the one frozen at the win as long as at most ninety-nine windows of work have come in since |
| Settlement.PaidExecutedReserved | internal/pool/controller.go:188-201 | in every run what is booked as paid has been executed, and what has been executed is reserved |
| Receipts.StatusFollowsReply | internal/pool/controller.go:188-201 | in every run a payout row changes status or transaction exactly when the reply held for it is stored: to confirmed if and only if the reply is, to submitted otherwise |
| Receipts.HeldReplyWasGiven | internal/pool/controller.go:182-197 | the reply that the controller holds is one the node gave, accepting a call for that very batch |
| Receipts.EveryPaidRowWasAnswered | internal/pool/controller.go:182-201 | in every run a row booked as submitted or confirmed was sent with its own request id, fee and items, and shows the transaction and finality of an answer to that call |
| Receipts.OnlyPreparedIsUnpaid | internal/store/store.go:513-535 | in every run, what is reserved but not paid is what the one prepared row holds |
| Rows.NoShareTwice | internal/store/store.go:198-213 | in every run the share table holds no hash twice and no share without miner, work or hash |
| Rows.EveryBlockPaysOut | internal/store/store.go:274-372 | in every run every block row divides its whole reward over at most a window of work, whatever has become of the block |
| Batching.RecipientsAreLargest | internal/store/store.go:569-577 | everyone in a batch has at least the balance of anyone left waiting, ties by address |
| Batching.RecipientCount | internal/store/store.go:576-578 | a batch takes everyone eligible, up to the limit |
| Batching.BatchZeroesRecipients | internal/store/store.go:555-604 | a batch zeroes the balances of its recipients and touches no other |
| Batching.EligibleAfterBatch | internal/store/store.go:555-604 | exactly the recipients stop being eligible |
| Batching.DrainCount | internal/store/store.go:538-605 | with nothing newly matured and each batch confirmed, k batches leave max(0, eligible - k * limit) waiting |
| Payoff.EligibleOverRuns | internal/pool/controller.go:163-205 | from any reachable state and in any run by which nothing matures, with calls refused, lost, unconfirmed or retried and with crashes, max(0, eligible - batches * limit) addresses are left waiting after the batches prepared since |
| Payoff.DueIsConserved | internal/pool/controller.go:182-205 | in such runs every confirmation, and nothing else, takes one off the batches due |
| Payoff.PaidOffExactly | internal/pool/controller.go:163-205 | everyone is paid and every batch confirmed exactly when as many batches have been confirmed as were due: the active one, and the eligible addresses divided by the limit, rounded up |
| Payoff.BatchesForIsCeiling | internal/store/store.go:576-578 | the batches that n addresses need are n divided by the limit, rounded up |
| Payoff.PassConfirms | internal/pool/controller.go:163-201 | a payout pass whose first call is confirmed and stored settles its row and ends idle, whether the row is new or was submitted by any number of earlier passes |
| Payoff.PassesPayEveryone | internal/pool/controller.go:137-206 | whatever steps lie between them by which nothing matures, as many passes confirmed from the wallet of the first call as batches are due leave nobody eligible and no batch active |
| Retries.RetryAccepted | internal/pool/controller.go:182-188 | in every reachable state a retry of an executed row is accepted if and only if it comes from the address and unit of the first call |
| Retries.ChangedWalletBlocks | internal/pool/controller.go:168-193 | as long as no call does, the row stays active and executed as it was and no payout row is added, in every run |
| Retries.SameWalletConfirms | internal/pool/controller.go:182-201 | one pass from the first wallet, answered and stored, confirms the row and executes nothing new |
| Progress.NoCandidateStarves | internal/store/store.go:414-421 | whatever happens between passes and whatever workers do during them, in every run of the system a candidate is resolved within ahead / 1000 + 1 conclusive passes, provided blocks found meanwhile are higher |
| Progress.PassAdvances | internal/pool/controller.go:114-134 | one conclusive pass resolves a candidate or a thousand of those ahead of it |
| ControllerModel.Node.Payout | docs/accounting.md:78-84 | the node executes a request id once, repeats itself on an identical call, with its address and unit, and rejects others |
| ControllerModel.SyncPassIsRun | internal/pool/controller.go:119-134 | observing a page of blocks, whatever is answered and whichever writes fail, is a run of the system |
| ControllerModel.ConclusivePassResolves | internal/store/store.go:443-452 | a pass whose tips are past maturity and six blocks resolves exactly the listed blocks |
| ControllerModel.ConclusivePassProgress | internal/pool/controller.go:108-135 | with nothing allocated meanwhile it cuts the pending count by min(1000, pending) |
| ControllerModel.ConclusivePassIsPass | internal/pool/controller.go:108-135 | the pass of the code, answered conclusively, is a pass of which Progress shows that no candidate starves |
| ControllerModel.Controller.SyncBlocks | internal/pool/controller.go:108-135 | the block pass as code, with no other actor at work: its page, its tables afterwards, and that it is a run of the system |
| ControllerModel.Controller.PayOne | internal/pool/controller.go:182-205 | sending one batch and storing the reply is a run of the system; the row is confirmed exactly on a confirmed reply, submitted on any other, and without a stored reply at most its error message changes |
| ControllerModel.Controller.Batches | internal/pool/controller.go:163-181 | the active batches, or a newly prepared one when there are none |
| ControllerModel.Controller.ProcessPayouts | internal/pool/controller.go:137-206 | the payout pass as code, with no other actor at work, is the run PayoutPass of the system, to which Receipts applies, and does nothing when the node is not ready |
| ControllerModel.Controller.PayAll | internal/pool/controller.go:182-205 | sending the batches in turn is a run of the system and ends idle |
| Submission.Server.Book | internal/stratum/server.go:879-935 | record, allocate, submit as code, with no other actor at work, a run of the system: the share is credited by its share target, the block row has a window of so many times the block's work and covers the winner whole, nothing is sent without that row, and what the miner is told |
| Submission.WinnerBookedWhole | internal/stratum/server.go:904-910 | with the share target of the job, the row of a block credits its winner with at least the share that solved it |
| Submission.WhatTheMinerIsTold | internal/stratum/server.go:879-935 | accepted means a new share and, for a block, the node's answer with its own id; a known hash is a duplicate, no answer leaves the block unresolved, another id is unexpected |
| Targets.WorkAntitone | internal/stratum/work.go:280-284 | a harder target is worth no less, and every target at least one hash |
| Targets.TargetIsQuotient | internal/stratum/work.go:261-278 | the target of a difficulty lies on the same side of every whole number in range as the exact quotient of difficulty one |
| Targets.WorkBounds | internal/stratum/work.go:261-284 | for quotients D1 / d within range, the work w credited for difficulty d satisfies w D1 / d < 2^256 < (w + 1) (D1 / d + 2) |
| Targets.WorkTimesTarget | internal/stratum/work.go:280-284 | expected hashes w of a target t satisfy w (t + 1) <= 2^256 < (w + 1) (t + 1) |
| Targets.DifficultyRoundsUp | internal/stratum/work.go:245-259 | the network difficulty is the least representable value not below the rounded ratio |
| Targets.ShareTargetNotHarder | internal/stratum/work.go:207-229 | for every representable difficulty the share target is at least the block target |
| Targets.JobIsConsistent | internal/stratum/work.go:207-229 | a job announces the difficulty its share target stands for, the network's own when the client's is not below it |
| Targets.WinningHashIsShare | internal/stratum/work.go:334-337 | a hash that meets the block target meets the share target, and a share is worth at most the block's work |
| Targets.WinnerCountedWhole | internal/stratum/server.go:904-910 | the winner's own work is counted whole in its window |
| Targets.CompareIsNumeric | internal/stratum/work.go:334-337 | comparing 32-byte strings compares the numbers |
| Targets.WholeNumbersFaithful | internal/stratum/work.go:245-278 | the rounding assumptions have a model |
| Headers.LittleEndianRoundTrip | internal/stratum/work.go:286-290 | numbers below 256^n survive encoding in n bytes |
| Headers.BytesRoundTrip | internal/stratum/work.go:310-316 | bytes survive decoding, so equal times have equal bytes |
| Headers.LittleEndianDigit | internal/stratum/work.go:286-290 | byte i of the encoding is the digit of weight 256^i |
| Headers.FoldInjective | internal/stratum/work.go:237-243 | the root determines branch and transaction, even between depths |
| Headers.FoldIsRoot | internal/stratum/work.go:237-243 | for every Merkle tree, folding a coinbase into the left siblings of its last leaf gives the root of the tree with the coinbase there |
| Headers.MerkleRoot | internal/stratum/work.go:324-327 | the loop computes the fold |
| Headers.Solve | internal/stratum/work.go:300-338 | which submissions are accepted, which are refused as low difficulty, the header they get, field by field, and when they are blocks |
| Headers.CommitsToTemplate | internal/stratum/work.go:131-151 | a submission commits to the node's own transactions exactly when its two extranonces are the template's work nonce |
| Headers.NoBlockIsLowDifficulty | internal/stratum/work.go:215-219 | no block is rejected as a low difficulty share |
| Headers.HeaderDetermines | internal/stratum/work.go:319-333 | for prefixes of one length, equal headers have equal extranonces, time and nonce |
| Headers.Miner.JobTimestamp | internal/stratum/server.go:710-718 | a client's job times strictly increase below 2^64 |
| Headers.JobTimeIsLeast | internal/stratum/work.go:201-206 | a job's time is the least that is past its client's last one and behind neither the clock nor the template |
| Headers.WorkIsDisjoint | internal/stratum/server.go:518-522 | with at most 2^32 connections, equal headers on prefixes of one length mean the same job of the same client and the same submission |
| Headers.ClientsClashExactly | internal/stratum/server.go:518-522 | for p, q > 0, jobs of different clients of one run with prefixes of these lengths can have accepted submissions with one header if and only if p differs from q |
| Publishing.HexInjective | internal/stratum/server.go:412-413 | different sequence numbers have different job ids |
| Publishing.HexRoundTrip | internal/stratum/server.go:412-413 | a job id reads back as its number and has no leading zero |
| Publishing.HoldsIsBounded | internal/stratum/server.go:418-425 | the order is bounded and free of repeats, and each remembered id maps to its own job |
| Publishing.Registry.Register | internal/stratum/server.go:418-425 | the registry holds exactly the most recently registered jobs, in order |
| Publishing.Registry.Lookup | internal/stratum/server.go:435-439 | finds exactly the last 8192 registered jobs |
| Publishing.Receiver.SendJob | internal/stratum/server.go:761-779 | a job that a newer one overtook is dropped; the last job never goes back |
| Publishing.PublishersInOrder | internal/stratum/server.go:407-427 | under every interleaving of publishers each client is told of strictly newer jobs |
| Connections.RemoveCounted | internal/stratum/server.go:441-450 | removal keeps the counters exact if and only if the client is live or alone at its address |
| Connections.CountersSum | internal/stratum/server.go:214-226 | the counters add up to the number of clients |
| Connections.Listener.Accept | internal/stratum/server.go:214-226 | admits exactly below both limits, keeping counters exact |
| Connections.Listener.Close | internal/stratum/server.go:534-539 | repeated closing keeps counters exact |
| Vardiff.Client.AcceptedAt | internal/stratum/server.go:794-833 | the whole state after an accepted share, as a function of the state before |
| Vardiff.Client.LowerIdleDifficulty | internal/stratum/server.go:835-844 | the state after an idle check |
| Vardiff.NextWindowSound | internal/stratum/server.go:788-844 | while a window is open it measures the difficulty in force |
| Vardiff.RunWithin | internal/stratum/server.go:788-844 | with every network difficulty at least the minimum, difficulty and jobs stay within the limits in every run |
| Vardiff.LowNetworkEscapes | internal/stratum/server.go:804-808 | otherwise one share carries the difficulty below the minimum |
| Vardiff.EveryRetarget | internal/stratum/server.go:818-832 | every retarget of every run is within 1/2 and 2, or 4 in a fast window, and at least 15% away from 1 |
| Vardiff.EveryWindowFollowsRate | internal/stratum/server.go:806-833 | in every run within the limits a counted share changes nothing before 90 seconds or three shares in five; then the difficulty stays within 15% of the target rate, is raised only above it and lowered only below it, and else moves in proportion to the rate, up to the limits and the largest step |
| Vardiff.SilentClientIsHalved | internal/stratum/server.go:835-844 | n checks of a silent client, four share targets apart, halve its difficulty n times, down to the minimum |
| Vardiff.GrowthBound | internal/stratum/server.go:788-844 | n accepted shares raise the difficulty at most 4^(n/3)-fold over the highest starting value, for share targets below 103.5 seconds |
| Vardiff.GrowthBoundExact | internal/stratum/server.go:788-844 | that bound holds of every run if and only if the share target is below 103.5 seconds or the maximum difficulty is at most the highest starting value |
| Amounts.PrintParse | internal/web/server.go:153-170 | for every unit of k decimals, printing then parsing gives the amount back exactly when it is not negative |
| Amounts.ParsePrint | internal/amount/amount.go:13-59 | an accepted text comes back trimmed, without trailing fraction zeros or a bare point |
| Amounts.SameAtoms | internal/amount/amount.go:13-59 | two texts denote the same atoms exactly when they agree after that trimming |
| Amounts.ReadsDecimalsExactly | internal/amount/amount.go:13-59 | accepted are exactly decimals without sign, superfluous leading zero or bare point and with at most k digits after it, and each denotes its decimal value to the atom |
| Amounts.OnlyPowersOfTen | internal/amount/amount.go:15-24 | nothing is read under a unit that is not a power of ten |

## Left out

- SQLite, SQL text, WAL, scanning and the decimal strings in which amounts are stored: a table is a sequence or a map, and a failed write is an action of the transition system.
- Columns that take no part in the accounting: timestamps, worker labels, parent and job ids of a share, the finder of a block, submission time and the count of outputs of a payout.
- The order of the outputs inside a payout request: the first request lists them by amount and retries by address, so contents are an address-to-amount map plus the fee.
- The HTTP client, node status and DEFEND calls: readiness is one flag, address and unit are parameters, answers are arbitrary.
- ControllerModel.Controller.ProcessPayouts: no other actor acts during the method; the transition system covers that.
- ControllerModel.Controller.SyncBlocks: no worker acts during the method; the transition system and Progress cover that.
- Submission.Server.Book: no other actor acts during the method; the transition system covers that.
- StoreModel.Store.RecordShare: the rejection of a zero timestamp, since timestamps are not modelled.
- StoreModel.Store.AccountOf: the counts of shares and workers, which only the dashboard shows.
- Winning.AllocationFrozenByPolicy: the network target is taken to stay that of the winner, so that a hundred windows are the same amount of work at every prune.
- Payoff.PassesPayEveryone: that a confirmed answer comes at all is up to the node; the passes that bring one are counted.
- Headers.ClientsClashExactly: whether a node would build both templates is not modelled; they differ only in what is cut off as prefix.
- ControllerModel.Node.Payout: the node's idempotence on request ids is an assumption about the node, taken from docs/accounting.md, as is that address and unit belong to the contents of a request; the node is not part of this model.
- Heights, maturities and confirmation counts are unbounded: the sums with 6 and 60 are taken to stay below 2^64, and share ids and job numbers below 2^63 and 2^64.
- Headers.WorkIsDisjoint: takes BLAKE2b-256 (RFC 7693) as free of collisions with leaves and pairs apart, and the coinbase prefixes as equally long, without which it fails (ClientsClashExactly).
- Headers.Solve: hexadecimal decoding is done before it, and the encoding of a solved block is left out, since go.sia.tech/core is not part of this model; the checks of newWorkTemplate other than the extranonce sizes are left out for the same reason.
- Targets.ShareTargetNotHarder: float64 and 256-bit floats enter as any rounding with the stated properties, without overflow, infinities or NaN; a zero target stands for the error.
- Targets.WholeNumbersFaithful: the model it gives of the rounding assumptions has whole-number difficulties; that float64 satisfies them is not proved.
- Targets.WorkBounds: difficulties whose quotient lies outside 1 .. 2^256 - 1 are clamped, which TargetIsQuotient covers.
- The difficulties of VarDiff are exact reals; the rounding of each product and quotient is not modelled.
- The cache of seen submissions, rate limits, deadlines, JSON framing, authorisation, stale-parent checks and counters for the dashboard.
- The order on the wire of set_difficulty and notify, which are written after the state lock is released.
- DeleteShare, which no code calls, and the dashboard queries (top miners, share summary, round work, paging), which only read the tables and move no money.
