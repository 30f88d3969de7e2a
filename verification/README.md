# bc-forge: verified models of its TypeScript and Python machinery

bc-forge ships, beside its contracts, an event indexer, a client SDK with an
in-memory vault, a React binding and some build scripts. This project models the
parts of them that are small state machines or algorithms, and proves what they
are for: that holder balances are the fold of the stored events, that a window
walk of the chain leaves no gap, that the vault stays solvent, that no superseded
asynchronous call writes anything, that printers lose nothing. Where a property
does not hold of the code, the model keeps the code as it is and states exactly
when it holds.

| file | subject |
|---|---|
| `Ledger.dfy`, `Store.dfy` | event deltas and their fold; the database rows and the holder table kept beside them |
| `LedgerCursor.dfy`, `IndexerLoop.dfy` | parent-hash continuity, the rewind on a reorganisation, the ingestion loop |
| `Pagination.dfy` | cursor pagination of the read API |
| `Vault.dfy` | share accounting of the mock vault |
| `Submission.dfy`, `Subscription.dfy` | retries, fee bumps and polling; the event subscription's cursor |
| `TransactionHook.dfy`, `WalletMachine.dfy` | the submission hook and the wallet connection, with every await an interleaving point |
| `CrateCycles.dfy`, `BundleBudget.dfy` | cycle detection and reachability by depth-first search |
| `Amounts.dfy`, `CsvReport.dfy` | exact decimal printing; the CSV report and a reader following section 2 of RFC 4180 |
| `Filters.dfy` | what it means for one list to be another, filtered |
| `MapSums.dfy`, `Arithmetic.dfy`, `Wrappers.dfy` | sums over maps, permutations, products and quotients, `Option` and `Result` |

How the source's parts appear: the database is a class whose tables are sequences
and maps, and a transaction is one atomic method; objects that update their fields
are classes, and their loops are loops; an asynchronous React callback is a program
counter with its locals, advanced by the events of its environment. Replies of the
RPC, of wallets and of the database, failures included, are arguments; nothing is
assumed of them beyond what a contract's `requires` says.

## What turned out not to hold

- A rewind deletes event rows but not their effect on the holder table. From then on every
  balance is off by the net of the deleted rows, whatever is delivered later. The table is
  right, after a rewind and later deliveries or after a whole run with any number of
  rewinds, exactly when what was deleted cancels out for every address
  (`LedgerCursor.HoldersSurviveRewindIff`, `IndexerLoop.HoldersRightAfterRunIff`); every
  deleted row that is delivered again counts a second time
  (`LedgerCursor.RewindThenReplayCountsTwice`), although `persistEventRow` says that a
  re-index cannot apply an event twice. `IndexerLoop.RewindLeavesHolder` is such a pass.
- Two token events of one kind in one transaction share a key, so only the first is stored
  (`Store.SecondMintIsDropped`). Every event gets stored exactly when no two share table and
  transaction hash (`Store.EveryEventStoredIff`); one event that a pass ingests is stored
  exactly if no other had taken its key before (`IndexerLoop.IngestedEventStoredIff`).
- A rewind goes to the last checkpoint up to which all checkpoints of the last 1000 ledgers
  agree with the RPC. That is the last one of these that agrees exactly when none agrees
  behind one that does not (`LedgerCursor.RewindIsGreatestIff`), which holds if they are of
  one parent-linked chain. It is the last one of the whole table exactly when, moreover, the
  oldest of the window agrees or no older one does
  (`LedgerCursor.RewindIsGreatestOverallIff`); on a deeper fork the rewind goes to 0
  (`LedgerCursor.DeepForkRewindsToZero`).
- The stored checkpoints need not be of one chain. After the first commit a window is only
  compared with the ledger before it in the same reply, if that is there. The stored table
  stays linked exactly if every committed window, where the ledger before it is stored, has
  its hash as parent hash (`IndexerLoop.CheckpointsStayLinkedIff`); two passes between which
  the RPC changes its chain break it (`IndexerLoop.LaterWindowNeedNotJoin`), and then even an
  RPC that reports the very cursor causes a rewind, to 0
  (`IndexerLoop.UnlinkedTableRewindsFromAgreeingTip`).
- The fold keeps every non-zero balance, so also a negative one, which `ledger.ts` calls the
  set of positive-balance holders. All are positive exactly when no address is debited more
  than it is credited (`Ledger.FoldKeepsOnlyPositiveIff`); a burn of 1 from an address that
  owns nothing is kept as -1 (`Ledger.BurnOfNothingIsKept`).
- The mock vault accepts negative transfers. Balances stay non-negative exactly when
  the receiver can bear the amount (`Vault.TransferKeepsNonNegativeIff`). With a negative
  balance beside it somebody can withdraw more shares than there are, and a vault can be
  left with shares and no assets, in which every deposit divides by zero
  (`Vault.OverdrawnVaultDividesByZero`).
- A depositor who withdraws at once gains exactly when the vault held assets with no
  shares (`Vault.RoundTripGainsIff`), which rewards paid into an empty vault bring about:
  after a reward of 10, a deposit of 5 can be taken out as 15
  (`Vault.RewardedEmptyVaultPaysDepositor`).
- Nothing happens after a timeout inside `submitTransaction`, but `withRetry` around it
  submits again after one, since that is none of the three errors it stops at
  (`Submission.TimeoutIsRetried`; an RPC that accepts everything and finds nothing is sent
  to in three invocations, `Submission.SilenceIsSentThrice`).
- A reply of the RPC that ends inside a ledger makes the subscription lose the rest of
  that ledger for good (`Subscription.CutLosesNothingIff`, `Subscription.SkippedIsLost`;
  with two events of one ledger, `Subscription.CutLedgerLosesEvent`).
- The promise of a `submit` that waits for a retry or for its next poll never settles if the
  timers are cleared meanwhile, by another submission, a retry, a reset or the unmounting,
  and only then does a run hang (`TransactionHook.HangsIffCleared`,
  `TransactionHook.HungIsFinal`, `TransactionHook.ResetStrandsRetry`).
- `formatTokenAmount` is exact exactly when the decimals are not negative or the amount
  is 0 (`Amounts.FormatDenotesIff`); 5 with -1 decimals is printed as "5"
  (`Amounts.NegativeDecimalsMisprint`).
- `stroopsToXlm` agrees with the SDK's printer exactly on non-negative amounts and whole XLM,
  since below zero a minus sign stands behind the point (`Amounts.StroopsAgreeIff`); -5
  stroops are printed as "0.00000-5" (`Amounts.FiveStroopsBelowZero`).
- Wallet clients that are configured with an adapter of their own are out of step with
  the machine until the first connect or disconnect (`WalletMachine.InStepFromStartIff`).

## Model

| member | source | states |
|---|---|---|
| Ledger.FoldLedgerEvents | indexer/src/ledger.ts:102-108 | the in-place fold computes `Fold`, about which the next rows speak |
| Ledger.Accumulator.ApplyLedgerEvent | indexer/src/ledger.ts:85-95 | updating the accumulator in place is one step of `Fold` |
| Ledger.FoldReflectsNet | indexer/src/ledger.ts:85-108 | each address ends with the sum of its signed deltas, and is listed exactly if that is not zero, self-transfers included |
| Ledger.FoldIsOrderIndependent | indexer/src/ledger.ts:102-108 | every permutation of the events gives the same balances and supply |
| Ledger.SupplyIsSumOfBalances | indexer/src/ledger.ts:61-95 | the balances always add up to the supply |
| Ledger.ApplyMovesByNet | indexer/src/ledger.ts:41-55 | one event moves every balance by its net, whichever addresses coincide |
| Ledger.FoldKeepsOnlyPositiveIff | indexer/src/ledger.ts:79-95 | all kept balances are positive exactly when no address is debited more than it is credited |
| Ledger.BurnOfNothingIsKept | indexer/src/ledger.ts:85-95 | a burn of 1 from an address that owns nothing is kept as -1 |
| Store.Database.ApplyLedgerEventAggregates | indexer/src/aggregates.ts:54-88 | the stored holder table moves as the in-memory one does, or a failing call, that for the supply point included, is reported |
| Store.Database.PersistEventRow | indexer/src/indexer.ts:159-186 | row and aggregates commit together or not at all; success exactly for a free key and no failing call |
| Store.Database.ProcessEvent | indexer/src/indexer.ts:218-332 | any event, failures and repeats included, is one `Process` step; only an unreadable topic escapes |
| Store.DecodesIffCarries | indexer/src/indexer.ts:218-332 | an event asks for a row exactly if its topic and fields are those of a mint, burn or transfer with that row; any other topic and any short or mistyped tuple asks for none |
| Store.PersistKeepsConsistent | indexer/src/indexer.ts:155-186 | one insertion keeps the holder table equal to the fold of the stored rows, and adds exactly its row |
| Store.RunKeepsConsistent | indexer/src/indexer.ts:155-186 | so does every run of deliveries with repeats and failed transactions anywhere |
| Store.ReplayChangesNothing | indexer/src/indexer.ts:155-158 | delivering stored events again, in any order and number, changes nothing |
| Store.RunStoresDelivered | indexer/src/indexer.ts:218-332 | of events no two of which share table and transaction hash, the stored ones are exactly those delivered with a committed transaction |
| Store.AtLeastOnceIsExactlyOnce | indexer/src/indexer.ts:155-186 | for events no two of which share table and transaction hash, at-least-once delivery leaves the holders that one delivery of each would |
| Store.EveryEventStoredIff | indexer/src/indexer.ts:159-186 | a complete delivery stores every event exactly when no two share table and transaction hash |
| Store.SecondMintIsDropped | indexer/src/indexer.ts:159-186 | of two mints in one transaction, both committed, only the first is stored and counted |
| Store.DeliveredIsStoredIff | indexer/src/indexer.ts:159-186 | in any run of deliveries a committed one is stored in the end exactly if no other entry had taken its key before |
| Store.EmissionsCountOnce | indexer/src/indexer.ts:218-332 | from the event tuples as the contract emits them to the balances: if each arrives at least once with a transaction that goes through, the holders are the fold of the events |
| LedgerCursor.HasContinuousParentChain | indexer/src/cursor.ts:22-34 | true exactly if every ledger is linked to its predecessor and the first to the previous one |
| LedgerCursor.SeedLedgerCheckpoints | indexer/src/cursor.ts:36-61 | a cursor without a hash gets the coordinates that the reply has for it, and the checkpoints up to it are stored; otherwise nothing changes |
| LedgerCursor.SeedingStores | indexer/src/cursor.ts:36-61 | in terms of the reply: the cursor gets the first coordinates with its number; every ledger up to it has its number or hash stored then, nothing else is added or changed |
| LedgerCursor.StoredIffHashIsFree | indexer/src/cursor.ts:53-54 | of checkpoints with different numbers, one whose number is free is stored exactly if its hash is neither in the table nor that of an earlier one |
| LedgerCursor.AcceptedWindowIsExact | indexer/src/indexer.ts:74-95 | an accepted window lists startLedger..endLedger once each, parent-linked |
| LedgerCursor.BetweenFilters | indexer/src/indexer.ts:74-76 | the window is the reply, filtered: its ledgers of the range, each of them and in its order |
| LedgerCursor.WindowIsContained | indexer/src/indexer.ts:74-76 | if the range stands in one stretch of the reply and nowhere else, that stretch is the window |
| LedgerCursor.ListsIffInOrder | indexer/src/indexer.ts:74-88 | the window is complete exactly if the reply has each ledger of the range once, in ascending order, whatever else it has |
| LedgerCursor.Compare | indexer/src/cursor.ts:81-124 | the scan finds a mismatch exactly if a checkpoint or the cursor differs, and the coordinate to return to |
| LedgerCursor.ReconcileLedgerCursor | indexer/src/cursor.ts:64-146 | without a mismatch nothing changes; with one no event row or checkpoint above the rewind ledger remains, the cursor stands there, the holders are untouched |
| LedgerCursor.AgreesIffReported | indexer/src/cursor.ts:80-91 | a checkpoint agrees exactly if the last entry of the reply with its number is that very coordinate |
| LedgerCursor.CompareIffForked | indexer/src/cursor.ts:71-126 | for any cursor, a mismatch is found exactly if a checkpoint of the last 1000 ledgers is not reported, or the cursor is not though its hash is known and its ledger not stored |
| LedgerCursor.RewindSavesCheckpoint | indexer/src/cursor.ts:128-131 | the cursor gets the coordinates of the checkpoint it goes back to, or 0 and none |
| LedgerCursor.RewindWithoutCheckpoints | indexer/src/cursor.ts:110-131 | without a checkpoint in the last 1000 ledgers the rewind goes to the reported parent of the cursor, if there is one, and else to 0 |
| LedgerCursor.RewindKeepsRows | indexer/src/cursor.ts:133-136 | the rows up to the common ledger stay, all of them and in order |
| LedgerCursor.AgreementIsPrefixClosed | indexer/src/cursor.ts:83-95 | collision-free chains that agree at a ledger agree at every earlier one |
| LedgerCursor.RewindsToAgreeingPrefix | indexer/src/cursor.ts:81-131 | for any stored table and reply, the rewind goes to the last checkpoint up to which all of the scan window agree, 0 if the first does not |
| LedgerCursor.RewindIsGreatestIff | indexer/src/cursor.ts:81-131 | that is the last one of the window that agrees exactly when none agrees behind one that does not |
| LedgerCursor.MismatchIffSomeDiffers | indexer/src/cursor.ts:81-126 | for any stored table that does not contradict the cursor, a mismatch is reported exactly when a checkpoint of the window or the cursor differs |
| LedgerCursor.LinkedTablesCloseAgreement | indexer/src/cursor.ts:83-95 | if the stored table is linked and without gaps, no checkpoint agrees behind one that does not |
| LedgerCursor.RewindsToGreatestShared | indexer/src/cursor.ts:63-131 | for checkpoints of one parent-linked chain the rewind goes to the greatest of the scan window that both chains share, 0 if none |
| LedgerCursor.MismatchIffTipDiffers | indexer/src/cursor.ts:81-126 | for checkpoints of one parent-linked chain and a cursor at its tip, a mismatch is reported exactly when the chains differ there |
| LedgerCursor.RewindGoesBack | indexer/src/cursor.ts:126-131 | a rewind always lands below the cursor |
| LedgerCursor.RewindIsGreatestOverallIff | indexer/src/cursor.ts:71-78 | for any stored table, the rewind finds the last checkpoint of all that agrees exactly when none agrees behind one that does not and the oldest of the window agrees or no older one does |
| LedgerCursor.DeepForkRewindsToZero | indexer/src/cursor.ts:71-78 | a fork deeper than the window: ledger 1 is stored and shared, the rewind goes to 0 |
| LedgerCursor.HoldersSurviveRewindIff | indexer/src/cursor.ts:133-143 | after a rewind and any later deliveries the holders are the fold of the stored rows exactly when the deleted rows cancel out |
| LedgerCursor.RewindLeavesDrift | indexer/src/cursor.ts:133-143 | after a rewind and any later deliveries each balance is off by exactly the net of the deleted rows |
| LedgerCursor.RewindThenReplayCountsTwice | indexer/src/cursor.ts:133-143 | every stored row that a rewind deletes and that is delivered again is counted a second time |
| IndexerLoop.Indexer.constructor | indexer/src/indexer.ts:37-41 | the loop starts at the ledger after the saved cursor, or at 1, and cursor and checkpoints are what seeding makes of them |
| IndexerLoop.Indexer.Ingest | indexer/src/indexer.ts:108-110 | exactly the events up to the first with an unreadable topic are delivered, in order |
| IndexerLoop.Indexer.Refuse | indexer/src/indexer.ts:87-95 | a refused window rewinds tables, checkpoints and cursor to the fork point exactly if the cursor read at start-up has forked, and otherwise changes nothing |
| IndexerLoop.Indexer.Commit | indexer/src/indexer.ts:112-127 | checkpoints and the cursor at the window's last ledger are saved together and the start moves on |
| IndexerLoop.Indexer.Pass | indexer/src/indexer.ts:44-137 | one pass computes `PassResult`: outcome, start, every table, checkpoints and cursor |
| IndexerLoop.Indexer.Run | indexer/src/indexer.ts:43-138 | any number of passes computes `RunResult`, the outcomes of all passes and the world they leave, about which the next rows speak |
| IndexerLoop.PassCommitsIff | indexer/src/indexer.ts:45-127 | the i-th pass commits exactly if its reply has each ledger from the start that the passes before have left to 1000 later, or to the latest, once and in order, each with the hash of the one before as parent hash, the first that of the start-up cursor if this is the ledger before, else of the ledger before if the reply lists it, and all events are readable and nothing fails |
| IndexerLoop.StretchIsOffered | indexer/src/indexer.ts:74-90 | a reply that has the window in one stretch, and its ledgers nowhere else, offers it exactly if the stretch is parent-linked and linked to its predecessor |
| IndexerLoop.PassEndsAs | indexer/src/indexer.ts:45-137 | every pass is idle, commits, goes back or fails, each exactly when the replies call for it; what a pass that goes back leaves, and that the others but commits move neither start, cursor nor checkpoints |
| IndexerLoop.CommitStoresWindow | indexer/src/indexer.ts:112-127 | a commit saves the coordinates of the last ledger; of the window, a ledger whose number is free is stored exactly if its hash is new, and nothing else changes |
| IndexerLoop.CommittedWindowsTile | indexer/src/indexer.ts:66-127 | in every run the committed windows tile the ledgers from the first start to the next one |
| IndexerLoop.CursorFollowsRun | indexer/src/indexer.ts:91-127 | the saved cursor is where the last commit or rewind has put it, and the end of the last window exactly if that was no rewind |
| IndexerLoop.RunDelivers | indexer/src/indexer.ts:97-110 | without a rewind the tables are what the deliveries of all passes make of them, and the holders stay the fold of the rows |
| IndexerLoop.IngestedEventStoredIff | indexer/src/indexer.ts:97-127 | without a rewind, an event that a pass ingests, whether or not it commits afterwards, and on which the database did not fail, is stored in the end exactly if no other entry had taken its key before |
| IndexerLoop.DeliveriesAreIngested | indexer/src/indexer.ts:97-110 | every delivery of a run is the event of a pass that offers its window, with only readable events up to it |
| IndexerLoop.CommittedEventsAreStored | indexer/src/indexer.ts:97-127 | without a rewind, and with unique keys among all that is stored and delivered, every event of a committed window on which the database did not fail is stored |
| IndexerLoop.HoldersRightAfterRunIff | indexer/src/indexer.ts:87-110 | after any run, rewinds included, the holders are the fold of the stored rows exactly when what the rewinds deleted cancels out |
| IndexerLoop.CheckpointsStayLinkedIff | indexer/src/indexer.ts:77-115 | the stored checkpoints stay parent-linked throughout a run exactly if every committed window joins them |
| IndexerLoop.JoinsIffPredecessorIsStored | indexer/src/indexer.ts:77-90 | a window joins exactly if the predecessor that it was compared with has the stored hash |
| IndexerLoop.LaterWindowNeedNotJoin | indexer/src/indexer.ts:77-127 | two passes from an empty database that store two ledgers which are not linked |
| IndexerLoop.UnlinkedTableRewindsFromAgreeingTip | indexer/src/cursor.ts:81-131 | on that table an RPC that reports the very cursor is a mismatch and leads back to 0 |
| IndexerLoop.RewindLeavesHolder | indexer/src/cursor.ts:133-143 | a pass that rewinds a mint away and leaves its holder |
| IndexerLoop.TilesHoldEachLedgerOnce | indexer/src/indexer.ts:66-127 | tiling means that each ledger of the range lies in exactly one window and no other in any |
| Pagination.LimitIsCapped | indexer/src/api.ts:73-87 | a numeric limit is accepted exactly if it is an integer from 1 on, and cut off at 100 |
| Pagination.ParseLimit | indexer/src/api.ts:73-87 | an accepted limit lies between 1 and 100 |
| Pagination.ParametersRead | indexer/src/api.ts:73-102 | of a repeated parameter the first is read, an absent limit is 50, an absent or empty cursor is none |
| Pagination.RefusedIff | indexer/src/api.ts:280-314 | a request is refused exactly for a limit that is not accepted or a cursor that names no row |
| Pagination.PageContents | indexer/src/api.ts:295-318 | a page holds the next rows after its cursor and names the last of them exactly if more follow |
| Pagination.WalkLosesNothing | indexer/src/api.ts:280-319 | following nextCursor from anywhere ends, and the pages, all full but the last, add up to the rows that follow |
| Pagination.PagesAddUpToListing | indexer/src/api.ts:280-319 | for every accepted limit the pages from the first on concatenate to exactly the list |
| Vault.MockVaultClient.DoDeposit | sdk/src/mockClient.ts:303-341 | deposit in place computes `Deposit`, receipts and errors included |
| Vault.MockVaultClient.DoWithdraw | sdk/src/mockClient.ts:343-393 | withdraw in place computes `Withdraw` |
| Vault.MockVaultClient.DoDistributeRewards | sdk/src/mockClient.ts:395-410 | distributeRewards in place computes `DistributeRewards` |
| Vault.MockVaultClient.DoCompound | sdk/src/mockClient.ts:412-415 | compound in place computes `Compound` |
| Vault.MockVaultClient.DoTransfer | sdk/src/mockClient.ts:421-434 | transfer in place computes `Transfer` |
| Vault.DepositMintsWorth | sdk/src/mockClient.ts:309-340 | a deposit goes through exactly if its amount is worth the shares asked for, mints the most it is worth, or its amount while there are no shares, and moves only the caller; which error it fails with |
| Vault.WithdrawalPaysWorth | sdk/src/mockClient.ts:349-392 | a withdrawal goes through exactly if the caller owns the shares and they are worth the tokens asked for, and pays the most they are worth; which error it fails with |
| Vault.RewardsAreWorth | sdk/src/mockClient.ts:273-281 | calculateRewards is the most assets that the shares are worth, and fails exactly for negative shares or in a vault without any |
| Vault.RewardsRaiseAssets | sdk/src/mockClient.ts:395-410 | a distribution goes through exactly if it is positive, and raises assets and pending rewards by its amount and nothing else |
| Vault.RunBooks | sdk/src/mockClient.ts:303-434 | after any run the assets are what was there, paid in and rewarded, less what was paid out, and each balance and the total likewise in shares, by the receipts |
| Vault.PendingIsSinceCompound | sdk/src/mockClient.ts:395-415 | over any run pending rewards are the accepted distributions since the last compounding |
| Vault.RunKeepsSound | sdk/src/mockClient.ts:303-434 | every run with non-negative transfers keeps balances summing to totalShares and assets positive while shares exist |
| Vault.NewVaultRunsAreSound | sdk/src/mockClient.ts:317-318 | so in no run of a new vault does a deposit divide by zero |
| Vault.TransferKeepsNonNegativeIff | sdk/src/mockClient.ts:427-432 | a transfer keeps balances non-negative exactly when the receiver can bear the amount |
| Vault.NegativeTransferOverdraws | sdk/src/mockClient.ts:427-432 | a transfer of -5 out of a new vault leaves a balance of -5 |
| Vault.OverdrawnVaultDividesByZero | sdk/src/mockClient.ts:303-434 | a run with a transfer of -15 that leaves -5 shares and no assets, in which every deposit divides by zero |
| Vault.WithdrawalEmptiesIff | sdk/src/mockClient.ts:370-390 | after a withdrawal the assets are gone exactly when the shares are |
| Vault.StepNeverLowersPrice | sdk/src/mockClient.ts:303-434 | no operation lowers the assets per share |
| Vault.PriceNeverFalls | sdk/src/mockClient.ts:303-434 | nor does any run while shares remain outstanding |
| Vault.SplitWithdrawalNeverPaysMore | sdk/src/mockClient.ts:370-390 | successive chunks of a withdrawal never pay more than one withdrawal of the same shares |
| Vault.SplitDepositNeverMintsMore | sdk/src/mockClient.ts:317-338 | successive chunks of a deposit never mint more than one deposit of the same amount, and in a vault without shares no more than the amount |
| Vault.VaultIsSolvent | sdk/src/mockClient.ts:273-281 | what all holders could redeem never exceeds the assets |
| Vault.RoundTripGainsIff | sdk/src/mockClient.ts:303-393 | depositing and at once withdrawing gains exactly when the vault held assets with no shares |
| Vault.RewardedEmptyVaultPaysDepositor | sdk/src/mockClient.ts:303-410 | after a reward of 10 to a new vault a deposit of 5 is taken out as 15 |
| Submission.SubmitTransaction | sdk/src/utils.ts:99-358 | the loop computes `Submit`: outcome, attempts and the log of all calls with their replies, about which the next rows speak |
| Submission.SubmissionIsRecorded | sdk/src/utils.ts:99-358 | against any environment the log is the record of the calls made of it, each attempt sends once or twice and polls at most 30 times, and every fee is the next doubling |
| Submission.SubmissionFollowsGrammar | sdk/src/utils.ts:99-358 | the whole log, entry by entry: the first send is of the caller's transaction and every later one of the transaction built latest; a sequence or fee rejection with attempts left is followed by the rebuilding and the next send, thirty misses by the timeout, and so on for every entry; it ends only where it may, with the outcome that the last entry names |
| Submission.SubmissionEndsAsLogged | sdk/src/utils.ts:227-276 | a response is returned exactly if the last thing that happened is a poll that succeeded, a timeout raised exactly after a full round of misses, and nothing happens after a success or an error that stops |
| Submission.AttemptEndsAsAnswered | sdk/src/utils.ts:125-266 | an attempt returns exactly if its send is accepted and the first poll that finds the transaction, of 30, reports success; it times out exactly if all miss; a contract failure that decodes is raised and logged |
| Submission.SubmissionEndsAsAnswered | sdk/src/utils.ts:122-347 | a submission returns or times out exactly as its last attempt is answered, and ends at the first attempt in which the contract fails |
| Submission.ErrorGetsOutWell | sdk/src/utils.ts:260-346 | with attempts left, an error that does not stop gets out only if a rebuild has failed or none is possible |
| Submission.FeeDoublesUpToCap | sdk/src/utils.ts:200-202 | after j bumps from f0 below the cap the fee is min(f0 * 2^j, cap) |
| Submission.Send | sdk/src/utils.ts:127-132 | the transaction is sent once, and a second time exactly if building or sending it throws; the reply is that of the last send |
| Submission.PollUntilFound | sdk/src/utils.ts:227-239 | polling computes `AfterPolls`, which stops at the first reply that is not NOT_FOUND, or after 30 |
| Submission.BumpAndRebuild | sdk/src/utils.ts:309-343 | the transaction is rebuilt with the next fee exactly if attempts are left, rebuilding is possible, and the fee is positive and below the cap |
| Submission.WithRetry | sdk/src/client.ts:2102-2123 | the calls made of a function, and the outcome of the last, are those of `CallsMade` |
| Submission.RepeatsExactlyAfterRetryable | sdk/src/client.ts:2104-2121 | the k-th call made is the k-th call of the function, and there is another exactly after an error that is not a contract, simulation or signer error, while retries are left |
| Submission.InvokeOnce | sdk/src/client.ts:2184-2249 | one invocation is the submission of what was built; if building throws, its error is raised and nothing is sent |
| Submission.InvokeContract | sdk/src/client.ts:2167-2262 | the invocations made are those of building and submitting against the k-th environment |
| Submission.RetriesSendWithinBudget | sdk/src/client.ts:2102-2123 | all invocations of a call together send at most three times as often as one may |
| Submission.TimeoutIsRetried | sdk/src/client.ts:2108-2115 | after a timeout the function is called again while retries are left |
| Submission.SilenceIsSentThrice | sdk/src/client.ts:2102-2123 | against an RPC that accepts everything and finds nothing, three invocations send and time out |
| Subscription.Subscriber.constructor | sdk/src/events.ts:325-331 | an absent or zero start ledger is replaced by the latest |
| Subscription.Subscriber.HandleReply | sdk/src/events.ts:333-363 | a reply delivers its decodable events in order and moves the cursor past the last; a failed poll does nothing; polling goes on exactly while subscribed |
| Subscription.DecodableFilters | sdk/src/events.ts:347-351 | what a reply delivers is the reply, filtered: its decodable events, each of them, no other, in its order |
| Subscription.DeliversExactlyOnce | sdk/src/events.ts:333-363 | if replies end at ledger boundaries, any run of polls has delivered the history, filtered: each decodable event from start up to the cursor as often as it is there, no other, in its order |
| Subscription.AdvanceOverSlice | sdk/src/events.ts:352-354 | the cursor moves past exactly the events of the reply |
| Subscription.CutLosesNothingIff | sdk/src/events.ts:352-354 | a reply that stops early loses nothing exactly when it does not stop inside a ledger |
| Subscription.SkippedIsLost | sdk/src/events.ts:333-363 | what was left below the cursor is never delivered, however the later replies are cut |
| Subscription.CutLedgerLosesEvent | sdk/src/events.ts:347-355 | two events of one ledger and a reply that stops after the first: the second is never delivered |
| TransactionHook.EveryInterleavingIsHonest | react/src/hooks.ts:2993-3456 | at every await point, confirmed implies successful data and no error, failed an error, idle nothing |
| TransactionHook.StepKeepsInv | react/src/hooks.ts:2993-3456 | each call, mark, settlement, timer, reset or unmount keeps that invariant and the attempt and poll bounds |
| TransactionHook.SupersededRunWritesNothing | react/src/hooks.ts:2993-3024 | a run that is not the latest, or outlives the component, changes nothing shown |
| TransactionHook.SupersededForever | react/src/hooks.ts:2984-3024 | once superseded a run stays so in every continuation |
| TransactionHook.ResumeFrame | react/src/hooks.ts:3027-3368 | a run's step touches no other run, counter or mount flag |
| TransactionHook.ResetIsFinal | react/src/hooks.ts:3441-3456 | after a reset nothing is shown until a new run is started, whatever old runs do |
| TransactionHook.UnmountIsFinal | react/src/hooks.ts:2984-3009 | once the component is unmounted nothing shown changes, whatever is called or settles |
| TransactionHook.SubmissionStartsBlank | react/src/hooks.ts:3124-3163 | a submission wipes hash, data, error and retry count; without the wallet it needs it fails at once with that error |
| TransactionHook.RetryRepeatsLastSubmitted | react/src/hooks.ts:3370-3386 | in every history a retry is the submission of the action submitted last, or shows an error if there is none |
| TransactionHook.MarksAreShown | react/src/hooks.ts:3182-3204 | what an action marks is shown while its run is the latest, with the hash if it gives one |
| TransactionHook.UnmarkedActionHasSubmitted | react/src/hooks.ts:3214-3224 | an action that returns a failure without having marked anything is shown as submitting while it waits to be tried again, one that has as it marked |
| TransactionHook.ReportedHashIsShown | react/src/hooks.ts:3262-3312 | a hash that an action or its sending reports is shown, whatever becomes of the attempt |
| TransactionHook.ResumeMovesAhead | react/src/hooks.ts:3027-3368 | every resumption brings its run to a later attempt or nearer to the end of its attempt |
| TransactionHook.ResumptionsAreBounded | react/src/hooks.ts:3027-3368 | in no history is a run resumed more often than its attempts and polls allow |
| TransactionHook.HangsIffCleared | react/src/hooks.ts:2977-3024 | a run hangs exactly if the timers were cleared while it waited for one |
| TransactionHook.HungIsFinal | react/src/hooks.ts:2977-3024 | a run that hangs is never resumed |
| TransactionHook.ResetStrandsRetry | react/src/hooks.ts:3337-3456 | a submission that fails, waits to retry and is reset hangs |
| TransactionHook.LatestRunRetries | react/src/hooks.ts:3124-3368 | for every action, whatever its own marks and other runs do in between, the latest run goes on to exactly one more attempt after each failure that is not terminal while attempts are left, counts its retries, and ends only with a success or another failure |
| TransactionHook.SubmissionEndsAsLastAttempt | react/src/hooks.ts:3124-3368 | at every point of a submission that nothing supersedes, a settlement that makes the attempt succeed is shown as confirmed with its data and the number of failures as retries, one that makes it fail as failed if that is terminal or the last attempt and else retried, and no other ends the run |
| TransactionHook.SentHashIsConfirmed | react/src/hooks.ts:3027-3120 | a hash that was sent, as a string or in an output that is polled, is polled for while it is pending and polls are left and confirmed with its data when found, or at once if nothing can poll |
| TransactionHook.PolledRunIsConfirmedIff | react/src/hooks.ts:3027-3120 | in every history the latest run, a submission or a refetch, is confirmed after its polling exactly if the latest poll found the transaction and the callback does not throw; if that poll was refused, threw, or was the last one allowed, its error is shown or the attempt repeated |
| TransactionHook.FailedPollIsShown | react/src/hooks.ts:3053-3120 | a poll that is refused, throws, or is the last one allowed and pending leads to Failed with its error if that is terminal or nothing is left to try, else to the retry delay, and never to Confirmed |
| TransactionHook.RefetchedHashIsConfirmed | react/src/hooks.ts:3388-3438 | a refetch polls for the hash given or else the one shown, and is confirmed when it is found; without a hash it changes nothing |
| TransactionHook.TriedOncePerRetry | react/src/hooks.ts:3164-3367 | an action that keeps failing is tried maxRetries more times, and then shown as failed with its error |
| TransactionHook.StagedSubmissionIsConfirmed | react/src/hooks.ts:3224-3325 | from the call of submit, through whichever stages there are and any number of pending polls, to the confirmation |
| WalletMachine.EveryInterleavingInStep | react/src/context.tsx:872-1071 | from the first connect or disconnect on, both clients hold the machine's adapter exactly while it is connected, by the latest attempt and on a network not reported as different |
| WalletMachine.InStepFromStartIff | react/src/context.tsx:872-1071 | they are in step from the very start exactly if no adapter was configured |
| WalletMachine.SupersededAttemptChangesNothing | react/src/context.tsx:896-900 | a superseded attempt changes neither machine nor clients, however it settles |
| WalletMachine.LatestConnectEndsAsReported | react/src/context.tsx:888-976 | a connect that nobody supersedes ends connected, with both clients on its adapter, exactly if the adapter reports an account on no foreign network and nothing throws; otherwise in the matching state, with wallet, adapter and error, and empty clients |
| WalletMachine.DisconnectIsFinal | react/src/context.tsx:1007-1071 | after a disconnect the clients stay empty until somebody connects |
| WalletMachine.DisconnectReachesConnected | react/src/context.tsx:1010-1015 | the adapter that disconnect looks up is the connected one |
| WalletMachine.ConnectingIffAwaited | react/src/context.tsx:872-895 | the machine is connecting exactly while the latest attempt waits, names its wallet, and a disconnect finds its adapter |
| WalletMachine.FailedFactoryEndsConnect | react/src/context.tsx:888-976 | a connect whose adapter cannot be made ends at once in an error without adapter, with empty clients |
| CrateCycles.CycleFinder.Visit | scripts/check_crate_cycles.py:54-69 | a visit returns a closed walk, or colours its node black with everything it leads to; it terminates because it uses up a white node |
| CrateCycles.CycleFinder.FindCycle | scripts/check_crate_cycles.py:49-76 | None exactly if the graph restricted to its keys is acyclic; a result is a closed walk through distinct nodes |
| CrateCycles.RankedIsAcyclic | scripts/check_crate_cycles.py:67-69 | nodes finished in dependency order admit no cycle |
| CrateCycles.CloseCycleIsClosed | scripts/check_crate_cycles.py:60-62 | the path from the gray node on, closed, is a cycle |
| BundleBudget.InitialChunks.Visit | react/demo/vite.config.ts:83-87 | a visit adds only what its key reaches and leaves nothing half-visited, on cyclic manifests too |
| BundleBudget.InitialChunks.Collect | react/demo/vite.config.ts:82-90 | the set is exactly the keys reachable from entry chunks through static imports |
| BundleBudget.ClosedHoldsChain | react/demo/vite.config.ts:80-90 | a set closed under imports holds every chain that starts in it |
| Amounts.FormatDenotesExactly | react/src/utils.ts:53-73 | for positive decimals the text denotes amount / 10^decimals exactly, trimmed or not |
| Amounts.FormatDenotesIff | react/src/utils.ts:53-73 | in general it does exactly when the decimals are not negative or the amount is 0 |
| Amounts.FormatHasShape | react/src/utils.ts:53-73 | the text is a sign, whole digits without superfluous zeros, and either all decimals or, trimmed, a fraction that does not end in zero, without a bare point |
| Amounts.UnknownIsPrintedSo | react/src/utils.ts:59-60 | an unknown amount is the placeholder, an amount of unknown precision its integer |
| Amounts.NegativeDecimalsMisprint | react/src/utils.ts:60 | 5 with -1 decimals is printed as "5" and means 50 |
| Amounts.FormatIsInjective | react/src/utils.ts:53-73 | for fixed decimals different amounts are printed differently, even if one is trimmed and the other not |
| Amounts.UntrimmedIsAtomic | sdk/src/utils.ts:401-420 | untrimmed, the two printers agree wherever the SDK's accepts the decimals |
| Amounts.StroopsAgreeIff | react/src/hooks.ts:2500-2504 | stroops are printed as the SDK prints seven decimals exactly if they are not negative or are whole XLM |
| Amounts.FiveStroopsBelowZero | react/src/hooks.ts:2500-2504 | -5 stroops are printed as "0.00000-5", which the SDK does not print |
| Amounts.PaddedSplits | sdk/src/utils.ts:414-416 | cutting the padded numeral k digits from the right gives quotient digits and low digits |
| Amounts.ReadUndoesToString | indexer/src/ledger.ts:23-32 | toBigInt undoes fromBigInt on every integer |
| CsvReport.ReportRows | react/src/utils.ts:222-230 | header, role rows and audit rows in this order; fails exactly if an audit entry serializes to nothing |
| CsvReport.ExportCsv | react/src/utils.ts:222-242 | the reader gets the report back column by column: the header, a row for each role with address, role and granted, a row for each audit entry, each cell guarded |
| CsvReport.ReadUndoesWrite | react/src/utils.ts:231-242 | reading what was written gives back any guarded grid, quotes, commas and line breaks included |
| CsvReport.FieldUndoesCell | react/src/utils.ts:231-234 | one quoted cell is read back whatever follows it |
| CsvReport.GuardLosesOnlyApostrophe | react/src/utils.ts:232 | two cells are written alike exactly if they are equal or one is the other with the guarding apostrophe |
| CsvReport.GuardedIsNoFormula | react/src/utils.ts:232 | no cell read back starts as a formula does, and only cells that did are changed, by an apostrophe |

## Left out

- The contents of supply points (`resolveSupply`): they trust reported supplies and row order; only that writing one can fail is modelled, and supply is proved on the in-memory fold.
- The `ledger` column of a holder row, and the event families other than token events.
- Logging, metrics, delays and the `getEvents` filter; `runIndexer`'s endless loop is any finite prefix of it.
- Amounts in ledger events are integers; `Amounts.ReadUndoesToString` is the link to their text, and text that is no integer is not modelled.
- Sorting and filtering inside the database: pagination starts from the list it returns; a database error other than an unknown cursor is not modelled.
- A cursor row that no longer matches the filter of its page walk.
- `MockVaultClient` allowances, share price and the bookkeeping of the token client beside it.
- Error texts: what a message is recognised as is the environment's choice at each reply.
- A wallet adapter's own state and listeners, saved wallet sessions, `connectWallet`'s script loading, network switching, and a hardware probe that suspends.
- React rendering, effects other than unmounting, and callbacks that call back into the hook or throw, except `onSuccess`, which may throw.
- TransactionHook and WalletMachine: asynchronous callbacks are modelled on values, one step from await to await, since their interleaving is the subject; updates within such a step are not separated.
- `decodeEvent` is reduced to whether it yields a value; event callbacks that throw, which end a poll early, are not modelled.
- `onMint`, `onTransfer` and `onVaultDeposit`.
- Byte counts and the report of the bundle budget; reading the workspace manifests of the crates.
- The iteration orders of graph keys and dependencies are arbitrary, so sorting them is not modelled.
- The JSON branch and the file name of the report; UTF-16 surrogates; decimals that are no integer; interest-rate formulas over floating point.
- What the signer rebuilds is only its fee; after a failed rebuild that is retried, the older transaction is sent again as in the source.
