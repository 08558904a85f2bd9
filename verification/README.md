# tiny-solana: a verified model of the leader pipeline

tiny-solana takes signed transactions, groups them, charges them, locks their accounts, runs each group in parallel on
copy-on-write overlays and writes the overlays back. The claim behind that design is that the parallelism cannot be
seen. This project states that claim for the code as written, proves it, and proves what the surrounding components
promise. `dafny verify dfyconfig.toml` checks everything.

Where to start reading:

- `Serial.dfy`, `Interference.dfy`: running a group of transactions on one snapshot and flushing the overlays in order
  equals running them one at a time, although each overlay writes back every loaded account. The condition is exact.
- `Protocol.dfy`, `Claims.dfy`, `ProtocolSafety.dfy`, `ProtocolProgress.dfy`: any number of callers, with loads,
  executions, records, flushes of single keys, releases and callers that give up interleaved in any way, equal the serial
  run of the recorded groups in record order; and from every reachable state the holders can finish.
- `BatchCourse.dfy`, `BankingStage.dfy`: `process_batch`, as a function of its input and as one imperative method over the
  cost tracker, the lock table and the stores, for every batch and every way it can end. When its groups are free of
  interference its result is the serial one. `BatchLimits.dfy`: who is executed under the two limits, in exact sums of
  prices. `BatchOrder.dfy`: in which order, and when exactly a batch is interrupted.
- `Scheduler.dfy`, `AccountLocks.dfy`, `CostModel.dfy`, `Accounts.dfy`, `Banks.dfy`, `BlockhashQueue.dfy`: the parts it
  is built from. `Coverage.dfy`: what scheduling and locking need of a transaction's metas.
- `Merkle.dfy`, `MerkleSoundness.dfy`, `Poh.dfy`: what a state root and a proof-of-history entry commit to. SHA-256 is an
  arbitrary function; soundness is proved by producing two different inputs, both hashed on the way, with one digest.
- `SystemProgram.dfy`, `TokenProgram.dfy`, `Native.dfy`, `Lamports.dfy`, `TokenSupply.dfy`, `Authorization.dfy`,
  `WholeRuns.dfy`, `Loader.dfy`: the native programs, what they conserve over whole runs, and whom they may debit.
- `Parameters.dfy`, `ParameterLayout.dfy`: the byte buffer shared with a virtual machine, and what stands where in it.

## Findings

Where a promise does not hold for every input, the project proves exactly when it does.

- A group's parallel run is invisible for every executor if and only if no member loads a key that an earlier member
  loads and writes (`Interference.InvisibleIffNonInterfering`). Scheduling and locking look at instruction metas only:
  they protect a transaction in every batch, and from every other caller, if and only if its metas name every key it
  loads (`Coverage.AlwaysApartIffCovered`, `Coverage.LocksProtectIffCovered`). Nothing in the code checks that. With the
  system program alone, a payment and a transaction that merely loads the payer are scheduled together, both succeed, and
  the stale write-back of the second leaves one lamport too many (`Lamports.StaleWriteBackMints`); `process_batch` reports
  success for both (`WholeRuns.BatchMints`).
- A transaction's `account_keys` conserve lamports for every store and every accepted list of native instructions if and
  only if no key repeats or every key repeats (`Lamports.ConservesIff`); the same key lists, and no others, keep every token
  supply exact (`TokenSupply.KeepsLedgersIff`).
- A meta's signer flag is the sender's own claim; nothing compares it with the signatures that were checked, which are those
  of the first account keys (src/transactions.rs:83-101, src/bank.rs:284-291). An accepted transaction lowers exactly the
  accounts that its debiting metas name, so it lowers only accounts whose signatures were checked if and only if each
  debiting signer meta names one of them (`Authorization.AuthorizedIff`). `Authorization.StrangerPays` is a transaction with
  one signature, accepted whenever its payer has a lamport and its hash is recent, whose payer is another account than the one that signed.
- A token transfer keeps supply equal to holdings if and only if source and destination differ, the amount is zero, or
  the balance is already at the maximum (`TokenSupply.TransferKeepsLedgerIff`). The failing input is one the code accepts:
  one account named twice, not both times writable (`TokenSupply.SelfTransferMints`). Every other native instruction keeps
  every ledger, whatever its metas say about writing (`TokenSupply.KeepsEveryLedgerIff`), as long as no mint overflows and no
  account with tokens is created over (`TokenSupply.CreateKeepsLedgerIff` is exact for the latter).
- The native programs never look at writable flags. They change writable accounts only if and only if their caller marked
  the accounts that the instruction changes (`SystemProgram.SystemWellBehavedIff`, `TokenProgram.TokenWellBehavedIff`).
- The token program's `SetAuthority` never succeeds: the nested call decodes the token instruction's own bytes
  (`TokenProgram.SetAuthorityNeverSucceeds`).
- Over all runs with the costs of transactions, cost admission keeps the ledger exact if and only if the block limit is
  below 2^64-1 (`CostModel.BalancesIff`): at the largest limit the saturating check refuses nothing and the total wraps.
- The duplicate marker of the parameter buffer is a truncated index. Reading stays aligned if and only if no duplicate's
  first position has low byte 255 (`Parameters.TracksIff`); up to 256 accounts this cannot happen.
- Two account lists have one state root if and only if their sorted leaf digests agree once every level's odd last position
  is repeated, unless two different hashed inputs collide (`MerkleSoundness.EqualRootsIff`). Three and four copies of one
  account are such a pair. A well-keyed store never lists an account twice (`Accounts.ListedOnce`), so its root does pin it
  down (`Accounts.RootCommits`).
- The genesis blockhash is advertised as valid through slot 150 but has left the queue at slot 150
  (`BlockhashQueue.GenesisLeavesEarly`). Any other hash is accepted through its advertised height, and past it exactly
  while a later slot that reported the same root is recent (`BlockhashQueue.AdvertisedIsExact`).
- src/transactions.rs:83 slices the account keys by the number of signatures. More signatures than keys make that panic
  inside the spawned verification job, so `process_batch` returns an error before anything is charged and the whole batch is lost
  (src/banking_stage.rs:64-70). A transaction without signatures passes verification, since there is nothing to check, and
  src/tx_recorder.rs:34 then panics in `process_batch` itself if the transaction was admitted: its group stays charged and
  nothing of it is committed. `BankingStage.BankingStage.ProcessBatch` says exactly when each happens.
- readme.md:119-122 shows cost-rejected transactions being re-queued; src/banking_stage.rs:104-107 only reports them.
  The model follows the code.

## Model

| member | source | states |
|---|---|---|
| `Scheduler.ExtractSets` | src/scheduler.rs:71-88 | the read and write sets are exactly the keys of the read-only and writable metas |
| `Scheduler.Schedule` | src/scheduler.rs:19-68 | the groups partition the input, each in increasing input order; no member touches a key an earlier member writes; every member of a later group conflicts with a lower-indexed member of every earlier group |
| `Scheduler.ScheduleUnique` | src/scheduler.rs:32-66 | those properties leave exactly one schedule, so first-fit is fully specified by them |
| `AccountLocks.DeniedIffIncompatible` | src/account_locks.rs:79-90 | an attempt is denied exactly when it conflicts with an outstanding guard |
| `AccountLocks.EveryRunRepresents` | src/account_locks.rs:77-134 | over every run of attempts and drops the write set is the union of the guards' writes, read counts are the numbers of readers, guards never conflict, and without guards the table is empty |
| `AccountLocks.ReleaseUndoesAcquire` | src/account_locks.rs:92-134 | dropping a guard restores the table as it was before the guard |
| `AccountLocks.AccountLocks.TryLockAccountsForGroup` | src/account_locks.rs:58-111 | the call fails exactly on a conflict and then changes nothing; otherwise the table is the acquired one and the guard is recorded |
| `AccountLocks.AccountLocks.DropGuard` | src/account_locks.rs:114-135 | the table is the released one and exactly this guard is gone |
| `Serial.GroupIsSerial` | src/bank.rs:148-176 | executing a non-interfering group on one snapshot and flushing in order gives the store and the outcomes of the serial run, read-only write-backs included |
| `Serial.CommitIsMerge` | src/committer.rs:12-16 | flushing overlays one after another is overriding by their in-order merge |
| `Serial.SerialConcat` | src/banking_stage.rs:91-197 | running groups in sequence is the serial run of the flattened list |
| `Interference.InvisibleIffNonInterfering` | src/scheduler.rs:39-57 | for all executors and stores, parallel equals serial if and only if no later member loads a key an earlier one loads and writes |
| `Coverage.AlwaysApartIffCovered` | src/scheduler.rs:39-57 | in every schedule of every batch no earlier group member changes what a transaction loads, if and only if its metas name every key it loads |
| `Coverage.LocksProtectIffCovered` | src/account_locks.rs:77-90 | nothing that can be locked beside a transaction writes what it loads, if and only if its metas name every key it loads |
| `ProtocolSafety.StepKeeps` | src/banking_stage.rs:119-197 | every single step of any caller, giving up included, keeps the invariant linking store, locks, tasks and outcomes to the serial run of the recorded groups |
| `ProtocolSafety.EveryInterleavingIsSerial` | src/banking_stage.rs:119-197 | when no caller holds a guard, the store and every outcome are those of the recorded groups run serially in record order, groups that gave up have left no trace, and the lock table is empty |
| `ProtocolSafety.HolderCanStep` | src/banking_stage.rs:119-197 | in every reachable state a caller holding a guard has an enabled step of its own that is not giving up |
| `ProtocolProgress.StepProgress` | src/banking_stage.rs:119-197 | a holder's step shortens its own task and touches no other task |
| `ProtocolProgress.EveryStateCanFinish` | src/account_locks.rs:58-135 | from every reachable state the holders can finish without another lock attempt and without giving up; exactly their groups are then recorded besides those recorded before, and the store is the serial result |
| `Banks.PrepareAccountInfos` | src/bank.rs:250-297 | the loop computes the specified infos or the specified first error |
| `Banks.PrepareFailsIff` | src/bank.rs:267-282 | preparation fails exactly on a meta key the transaction did not load or a key marked writable twice |
| `Banks.PrepareErrors` | src/bank.rs:268-282 | the first failing meta decides the error: a key that was not loaded, or a second writable use |
| `Banks.PreparedInfos` | src/bank.rs:267-293 | every info carries its meta's key and flags, its account's executable flag and rent epoch, and points at the first cell of its key; no two writable infos share a cell |
| `Banks.InstructionsKeepFrame` | src/bank.rs:225-248 | if each program changes only writable infos, a transaction changes only keys with a writable meta |
| `Banks.RunnerFramed` | src/bank.rs:148-176 | the bank with such programs meets the hypothesis of the group theorem |
| `Banks.BankErrorsAreFinal` | src/transactions.rs:52-59 | no error of preflight or execution is one the banking stage re-queues |
| `Banks.Bank.ExecuteAll` | src/bank.rs:225-248 | for every executor the instruction loop computes the specified cells or error |
| `Banks.FirstFailure` | src/bank.rs:225-248 | the first instruction whose infos or program fail decides the transaction's error, whatever follows |
| `Banks.Bank.LoadAndVerifyAccounts` | src/bank.rs:206-223 | each loaded account is the stored one or the empty system account of its key, in key order |
| `Banks.LoadedExactly` | src/bank.rs:206-223 | a key the store does not hold is loaded as an empty, non-executable account of the all-zero owner |
| `Banks.Bank.ProcessSingleTransaction` | src/bank.rs:148-176 | for every executor: on success a fresh overlay holding every loaded account after execution, on failure the error; the bank's store does not change |
| `Banks.Bank.Genesis` | src/bank.rs:56-75 | a new bank is at slot 0, unfrozen, and its queue holds the zero hash of slot 0 only |
| `Banks.Bank.Freeze` | src/bank.rs:105-122 | freezing sets the hash to the root of the current view once and never changes it again |
| `Banks.Bank.FromParent` | src/bank.rs:77-103 | the child is the specified successor of the frozen parent, one slot on, and its newest queue entry is the parent's hash under the parent's slot |
| `Accounts.AccountStore.Load` | src/accounts.rs:154-159 | a load returns what the chain of overlays shows, nothing else |
| `Accounts.AccountStore.Flush` | src/accounts.rs:139-146 | the overlay becomes empty, its own view is unchanged, and the parent now shows that view |
| `Accounts.AccountStore.AllAccounts` | src/accounts.rs:166-175 | lists exactly the accounts that loads can return, through nested overlays |
| `Accounts.AccountStore.GetRootHash` | src/accounts.rs:177-184 | the root of the view; the default hash for an empty overlay, an error for an empty in-memory store |
| `Accounts.FromListing` | src/accounts.rs:166-175 | re-inserting listed accounts under their own pubkey rebuilds a well-keyed store |
| `Accounts.ListedOnce` | src/accounts.rs:166-175 | a well-keyed store lists no key twice |
| `Accounts.RootCommits` | src/accounts.rs:177-218 | two non-empty well-keyed stores with one root are equal, or two different inputs hashed for the two roots collide |
| `Accounts.FlushThenRoot` | src/accounts.rs:177-184 | the root reported before a flush is the root the parent reports after it |
| `Accounts.CommitOverlays` | src/committer.rs:12-16 | the parent shows its old view overridden by the overlays in order, and every overlay is empty |
| `Merkle.HashAccounts` | src/accounts.rs:187-218 | the level loop ends and returns the specified root, or the error on no accounts |
| `Merkle.LeafLayout` | src/accounts.rs:188-197 | what is hashed for an account, field by field: its key twice, lamports, data length, data, owner, one flag byte, rent epoch |
| `Merkle.LeafBytesInjective` | src/accounts.rs:188-197 | different accounts have different leaf bytes |
| `Merkle.DigestOrder` | src/accounts.rs:199 | digests are sorted by the first byte in which they differ |
| `Merkle.RootIgnoresOrder` | src/accounts.rs:199-212 | the root depends only on the multiset of accounts |
| `MerkleSoundness.RootIsTree` | src/accounts.rs:201-212 | the level loop computes the perfect tree over the sorted leaf digests, padded at the end: each node is the digest of its left child followed by its right child |
| `MerkleSoundness.SamePaddedSameRoot` | src/accounts.rs:199-212 | lists whose sorted leaves agree after padding every odd level have one root, for every digest function |
| `MerkleSoundness.EqualRootsIff` | src/accounts.rs:187-218 | for any two non-empty lists one root is equivalent to equal padded leaves, or two different inputs hashed for the two roots collide |
| `MerkleSoundness.EqualRootsEqualCount` | src/accounts.rs:187-218 | equally many accounts with equal roots are the same multiset, or two different hashed inputs collide |
| `MerkleSoundness.EqualRootsDistinctKeys` | src/accounts.rs:187-218 | the same for any two sizes when keys are distinct, as in a store |
| `MerkleSoundness.RepeatedAccountIsAmbiguous` | src/accounts.rs:202-212 | three and four copies of one account have equal padded leaves, so one root |
| `BlockhashQueue.QueueIsRecentHistory` | src/bank.rs:77-87 | along every chain the queue is the last min(slot+1, 150) entries ever pushed |
| `BlockhashQueue.NeverStale` | src/bank.rs:178-204 | no queue entry is past its expiry slot |
| `BlockhashQueue.PreflightIsMembership` | src/bank.rs:178-204 | on an unfrozen bank preflight succeeds exactly for queued hashes and never reports expiry |
| `BlockhashQueue.PreflightExact` | src/bank.rs:178-204 | on any bank: a frozen bank refuses everything, else the oldest entry with the hash decides, and it expires more than 150 slots after its own |
| `BlockhashQueue.EntryWindow` | src/bank.rs:77-87 | a slot's entry is queued at exactly the next 150 slots |
| `BlockhashQueue.PreflightIff` | src/bank.rs:178-204 | preflight accepts a hash exactly if one of the last 150 slots reported it, or it is the genesis hash before slot 150 |
| `BlockhashQueue.AdvertisedIsExact` | src/rpc/handlers.rs:213-225 | the advertised height is 150 past the newest entry's slot; that hash is accepted through it, and later exactly while a later slot reporting the same hash is recent |
| `BlockhashQueue.GenesisLeavesEarly` | src/bank.rs:56-61 | the genesis entry is advertised through slot 150 and queued at exactly the slots below 150 |
| `CostModel.CalculateCost` | src/cost_model.rs:91-124 | for every transaction the sum is its price in literals, and the written accounts are the keys some meta marks writable |
| `CostModel.CostIsPrice` | src/cost_model.rs:8-22 | the price is the smaller of 2^64-1 and 720 per signature, 300 per distinct key marked writable, 4 per data byte, 300 per call of the system or token program and 200_000 per other call, counted as cardinalities |
| `CostModel.ChargeBalances` | src/cost_model.rs:187-198 | an admitted charge wraps nowhere and keeps block and account totals equal to the outstanding charges |
| `CostModel.RefundBalances` | src/cost_model.rs:200-209 | refunding an outstanding charge underflows nowhere and keeps the totals exact |
| `CostModel.BalancesIff` | src/cost_model.rs:169-198 | over all runs with the costs of transactions the ledger stays exact if and only if the block limit is below the largest 64-bit value |
| `CostModel.FitsIff` | src/cost_model.rs:169-185 | admission is decided by the exact sums of outstanding charges, the block limit before the account limit |
| `CostModel.EveryRunBalanced` | src/cost_model.rs:159-215 | over every run totals are exact, the block limit holds, and an account above its limit has exactly one outstanding charge |
| `CostModel.CostTracker.Fits` | src/cost_model.rs:169-185 | the loop over written accounts decides the specified admission |
| `CostModel.CostTracker.AddCost` | src/cost_model.rs:187-198 | for any charge the tracker holds the charged ledger, wrap-around included, and one more outstanding charge; a charge that fits keeps it exact |
| `CostModel.CostTracker.SubtractCost` | src/cost_model.rs:200-209 | for any charge the tracker holds the refunded ledger, wrap-around included; refunding an outstanding charge keeps it exact |
| `BankingStage.BankingStage.constructor` | src/banking_stage.rs:35-45 | a new stage has the block limit 60_000_000 and the account limit 24_000_000, nothing charged, nothing locked |
| `BankingStage.BankingStage.AdmitGroup` | src/banking_stage.rs:97-108 | a member is charged and kept exactly if it fits the ledger it meets, else reported as over the block limit |
| `BankingStage.BankingStage.SettleAndCommit` | src/banking_stage.rs:164-194 | failures are refunded and reported, nothing is re-queued, successes are flushed in group order |
| `BankingStage.BankingStage.ProcessGroup` | src/banking_stage.rs:91-197 | for every group and executor: the members that fit when reached are admitted, locking cannot fail, they run on one snapshot, are committed in order and refunded if they failed; if the record fails they stay charged and nothing is committed |
| `BankingStage.BankingStage.ProcessBatch` | src/banking_stage.rs:47-202 | for every batch and executor, under the limits 60_000_000 and 24_000_000: the batch is lost unchanged exactly if some transaction has more signatures than keys; when it returns Ok it has completed, the tracker is reset and the lock table empty; when a record fails, the earlier groups are committed and the failed one is charged |
| `BatchLimits.AffordableBatch` | src/banking_stage.rs:95-108 | with nothing outstanding, if the verified transactions' prices add up to at most 60_000_000, and those writing any one key to at most 24_000_000, every verified transaction is executed and none is reported over the limit |
| `BatchLimits.ExecutedIff` | src/banking_stage.rs:97-108 | a scheduled transaction is executed if and only if the exact sums outstanding at its turn leave room for its price, in the block and on every already charged key it writes; else it is reported over the limit |
| `BatchLimits.OverLimitRejected` | src/banking_stage.rs:97-108 | a transaction whose price takes the exact block sum past 60_000_000, or an already charged key past 24_000_000, is rejected |
| `BatchLimits.BudgetIsPrice` | src/banking_stage.rs:149 | the compute budget handed to execution is the transaction's price |
| `BatchCourse.CompletedBatch` | src/banking_stage.rs:91-202 | in a completed batch nobody runs twice, whoever runs has verified, and the charges before the reset are those of the committed transactions on top of the old ones |
| `BatchOrder.CompletedInOrder` | src/banking_stage.rs:91-197 | a completed batch executes a subsequence of its schedule, group by group and in group order, only signed transactions, and the record of every group that executes was taken |
| `BatchCourse.InterruptedBatch` | src/tx_recorder.rs:23-42 | a batch is interrupted only if the record's receiver refuses it or an admitted transaction has no signature |
| `BatchOrder.InterruptedExactly` | src/tx_recorder.rs:23-42 | the first group that stops has an admitted member without signature if and only if the recorder panics, and else has members and a refused record; its admitted members stay charged and the store is that of the groups before |
| `BatchCourse.BatchIsDetermined` | src/banking_stage.rs:47-202 | completion leaves one schedule, one list of results and one final store for each input |
| `BatchCourse.BatchIsSerial` | src/banking_stage.rs:88-197 | if the scheduled groups are free of interference and the programs write marked accounts only, the final store and the reported outcomes are those of the executed transactions run one by one |
| `BatchCourse.CoveredIsPeaceful` | src/banking_stage.rs:88-91 | if verified transactions name every loaded key in a meta, every scheduled group is free of interference |
| `BatchCourse.PeacefulIffInvisible` | src/banking_stage.rs:88-197 | the scheduled groups are free of interference if and only if no executor can tell any group's parallel run from its serial run |
| `SystemProgram.DecodeEncode` | src/programs/system_program.rs:67-81 | every built instruction decodes to itself |
| `SystemProgram.DecodeExact` | src/programs/system_program.rs:13-28 | any bytes: exactly 12, 36 or 52 bytes starting with 0,0,0,0, 1,0,0,0 or 2,0,0,0 decode, with lamports in bytes 4 to 11, space in bytes 12 to 19 and the owner last |
| `SystemProgram.GarbageRefused` | src/programs/system_program.rs:87-92 | all other bytes, and no others, are refused as invalid instruction data |
| `SystemProgram.TooFewAccounts` | src/programs/system_program.rs:94-137 | too few accounts are refused before signatures and funds are looked at |
| `SystemProgram.SystemWellBehavedIff` | src/programs/system_program.rs:83-161 | a system instruction changes only accounts marked writable if and only if the accounts it would change are marked or it is refused |
| `SystemProgram.TransferExact` | src/programs/system_program.rs:94-117 | for any transfer bytes: succeeds exactly when the first meta has its signer flag and is funded, else with which error; between two accounts exactly the amount in the bytes moves, up to saturation, and to oneself nothing changes |
| `SystemProgram.CreateExact` | src/programs/system_program.rs:133-159 | likewise with both signer flags, and the new account, which may be the payer, has the owner in the bytes and as many zero bytes as they say |
| `SystemProgram.AssignExact` | src/programs/system_program.rs:118-132 | for any assignment bytes: succeeds exactly when the first meta has its signer flag, and changes the owner of the first account only |
| `Native.NativeWellBehavedIff` | src/runtime.rs:228-242 | behind one dispatch, an instruction changes only accounts marked writable, under every rent rule, if and only if what it would change is marked or it is refused |
| `Native.InstructionsConserve` | src/bank.rs:225-248 | any accepted list of system and token instructions conserves the loaded lamports |
| `Authorization.LoweredExactly` | src/programs/system_program.rs:94-159 | an accepted instruction list lowers, step by step, exactly the accounts that its debiting metas name |
| `Authorization.OnlyPayersLose` | src/bank.rs:166-173 | after the flush only such accounts have less than before, whatever keys repeat |
| `Authorization.AuthorizedIff` | src/bank.rs:284-291 | an accepted transaction lowers only accounts whose signatures were checked if and only if every debiting meta names one of them |
| `Authorization.StrangerPays` | src/transactions.rs:83-101 | a transaction with one signature is accepted and lowers another account than the one that signed |
| `Lamports.FlushTotal` | src/bank.rs:166-173 | with unrepeated keys a flush replaces exactly the loaded lamports |
| `Lamports.SerialConserves` | src/bank.rs:148-176 | any run of native transactions with such keys, failures included, leaves the store's total unchanged |
| `WholeRuns.BatchConserves` | src/banking_stage.rs:146-194 | so does a completed batch whose groups are free of interference and whose metas mark what changes |
| `WholeRuns.InterleavingConserves` | src/banking_stage.rs:119-197 | so does every finished interleaving of concurrent callers |
| `Lamports.ConservesIff` | src/bank.rs:166-173 | a key list always conserves the total if and only if no key repeats or every key does |
| `Lamports.StaleWriteBackMints` | src/bank.rs:166-173 | for every funded payer, a payment and a transaction that loads the payer without naming it are scheduled in one group, both succeed, and the total grows by one, unlike in the serial run |
| `WholeRuns.BatchMints` | src/banking_stage.rs:47-202 | process_batch on these two transactions, when it returns Ok, reports success for both and leaves the total one higher |
| `TokenProgram.MintRoundTrip` | src/programs/token_program.rs:74-90 | packing and unpacking a mint invert each other, on all mints and on all bytes that unpack |
| `TokenProgram.HolderRoundTrip` | src/programs/token_program.rs:92-108 | the same for token accounts |
| `TokenProgram.DecodeExact` | src/programs/token_program.rs:110-146 | any bytes: which five forms decode, and to which amount, key or decimals |
| `TokenProgram.MintBytes` | src/programs/token_program.rs:56-62 | 42 bytes hold a mint exactly if the last is 0 or 1: authority, supply, decimals, flag |
| `TokenProgram.HolderBytes` | src/programs/token_program.rs:66-72 | 73 bytes hold a token account exactly if the last is 0 or 1: mint, owner, amount, flag |
| `TokenProgram.GarbageRefused` | src/programs/token_program.rs:148-163 | other bytes are refused as invalid instruction data, and too few accounts before anything else |
| `TokenProgram.TransferExact` | src/programs/token_program.rs:190-224 | for any transfer bytes: succeeds exactly when signed by the owner, of one mint and funded, else with which error; between two accounts exactly the amount moves, up to saturation, and to oneself the amount is added |
| `TokenProgram.MintExact` | src/programs/token_program.rs:159-189 | for any minting bytes: succeeds exactly when signed by the mint's authority for one of its accounts, else with which error; then both totals grow, saturating |
| `TokenProgram.InitializeMintExact` | src/programs/token_program.rs:250-285 | succeeds exactly on an uninitialized, rent-exempt mint, which then has the authority and decimals in the bytes and no supply; else with which error |
| `TokenProgram.InitializeAccountExact` | src/programs/token_program.rs:286-333 | succeeds exactly on an uninitialized, rent-exempt account and an initialized mint, the account then starts empty; else with which error |
| `TokenProgram.TokenWellBehavedIff` | src/programs/token_program.rs:148-334 | a token instruction changes only accounts marked writable, under every rent rule, if and only if the accounts it would change are marked or it is refused |
| `TokenProgram.SetAuthorityNeverSucceeds` | src/programs/token_program.rs:225-249 | no SetAuthority instruction is ever accepted, and which error each gets |
| `TokenSupply.MintKeepsLedgerIff` | src/programs/token_program.rs:180-188 | minting keeps every supply equal to its holdings if and only if the supply has room or one account holds all of it |
| `TokenSupply.TransferKeepsLedgerIff` | src/programs/token_program.rs:217-223 | a funded transfer keeps them equal unless its source is its destination, and otherwise never saturates |
| `TokenSupply.SelfTransferMints` | src/programs/token_program.rs:190-224 | the instruction loop accepts a transfer that names one account twice, not both times writable, and the mint's supply is then less than what is held |
| `TokenSupply.CreateKeepsLedgerIff` | src/programs/system_program.rs:133-159 | creating an account over an old one keeps every supply exact if and only if it held no tokens, nobody holds tokens of it, and it becomes no mint at the zero key |
| `TokenSupply.KeepsEveryLedgerIff` | src/programs/token_program.rs:148-334 | a native instruction keeps every ledger whenever accepted and sound, if and only if it is not such a transfer |
| `TokenSupply.KeepsLedgersIff` | src/bank.rs:166-173 | a key list keeps every ledger over all sound instruction lists without such transfers, if and only if no key repeats or every key does |
| `TokenSupply.InitializeMintKeepsLedger` | src/programs/token_program.rs:250-285 | nobody holds tokens of an uninitialized mint, so starting it at zero is right |
| `TokenSupply.RunKeepsLedger` | src/bank.rs:148-176 | any run of system and token transactions with unrepeated keys and without such transfers keeps every supply exact, failures included |
| `TokenSupply.SupplyOverRuns` | src/bank.rs:148-176 | from zeroed token data every mint's supply is the sum of its accounts' amounts in every reachable store |
| `WholeRuns.BatchKeepsSupply` | src/banking_stage.rs:146-194 | so it is after a completed batch whose groups are free of interference and whose metas mark what changes |
| `WholeRuns.InterleavingKeepsSupply` | src/banking_stage.rs:119-197 | and after every finished interleaving of concurrent callers |
| `Poh.PohRecorder.ComputeHashes` | src/poh.rs:71-77 | the loop applies exactly that many plain hashes and counts them; one of them is the digest of the current hash |
| `Poh.PohRecorder.Tick` | src/poh.rs:79-97 | the recorder becomes the ticked one: missing hashes first, then the tick and perhaps the slot |
| `Poh.PohRecorder.Record` | src/poh.rs:104-122 | below the height limit, and only there, an entry with the digest of the current hash followed by the recorded one, which becomes the current hash |
| `Poh.EveryRunClocked` | src/poh.rs:57-122 | in every reachable state slot = ticks / ticks per slot, the height limit is (slot+1) slots and lies ahead, and every tick cost its hashes |
| `Poh.HashesAccountedFor` | src/poh.rs:71-97 | the hash count is exactly the ticks' cost, the surplus hashed before late ticks, and the open tick's hashes |
| `Poh.EveryRecordIsEmitted` | src/poh.rs:104-122 | no request is refused: entries carry exactly the requested hashes in order |
| `Poh.EveryRunReplays` | src/poh.rs:71-122 | for every interleaving of hash, tick and record the entries replay from the initial hash alone, and the current hash continues them |
| `Poh.EntriesAreBinding` | src/poh.rs:104-122 | two verifying entry lists with one last hash and count are equal, or two different inputs hashed on the way collide |
| `Parameters.SerializeParameters` | src/runtime.rs:350-423 | the buffer is the specified concatenation, laid out as `ParameterLayout.BufferLayout` says, and the precomputed size is its length |
| `ParameterLayout.BufferLayout` | src/runtime.rs:379-422 | what a reader finds: the account count; at each first occurrence 255, the signer flag, the writable flag, key, owner, lamports, length, data and zeros up to a multiple of 8; at each repetition the low byte of the first position; then the instruction data's length and the data |
| `Parameters.DeserializeParameters` | src/runtime.rs:425-513 | the loop reads records as specified, including its errors, out-of-range indexing and overflow |
| `ParameterLayout.ReadStarts` | src/runtime.rs:425-447 | when a record is skipped, refused, or read past the buffer's end before its length is known |
| `ParameterLayout.ReadExactly` | src/runtime.rs:430-510 | whatever a program left in the buffer: exactly when an account is overwritten, kept, refused or read past 64 bits, and with which bytes |
| `Parameters.TracksIff` | src/runtime.rs:357-360 | reading meets every record where it was written if and only if no truncated duplicate index is 255 |
| `Parameters.NoClashUpTo256` | src/runtime.rs:343-348 | up to 256 accounts no such index exists |
| `Parameters.RoundTrip` | src/runtime.rs:425-513 | reading a buffer into same-keyed accounts gives writable first occurrences the owner, lamports and data in the buffer and nothing else, changes no other account, and ends at the instruction data's length |
| `Parameters.ReadingOwnBuffer` | src/runtime.rs:350-513 | reading one's own buffer changes nothing |
| `Loader.StateRoundTrip` | src/programs/bpf_loader_program.rs:399-414 | a packed state is read back whatever follows it |
| `Loader.StateCanonical` | src/programs/bpf_loader_program.rs:399-414 | repacking a state just read rewrites the same bytes |
| `Loader.StateBytes` | src/programs/bpf_loader_program.rs:54-67 | what any bytes mean as a state: the index, the option byte, the key, the slot |
| `Loader.PackIntoAccount` | src/programs/bpf_loader_program.rs:399-414 | in place: the state's bytes in front, the rest kept, or the error and no change |
| `Loader.WriteInPlace` | src/programs/bpf_loader_program.rs:190-229 | in place: the specified bytes, or the specified error and no change |
| `Loader.WriteBehindHeader` | src/programs/bpf_loader_program.rs:212-227 | an accepted write changes the payload only, no byte of the 37 in front |
| `Loader.WriteRefused` | src/programs/bpf_loader_program.rs:190-229 | when exactly a write request is accepted, and each refusal in order |
| `Loader.InitializeExact` | src/programs/bpf_loader_program.rs:167-189 | for the authority it is given, succeeds exactly on data that holds no state yet and has room for the new one, and changes the state's bytes only |
| `Loader.InitializeStarts` | src/programs/bpf_loader_program.rs:167-189 | an initialization request turns a blank account with room into a buffer whose authority is the request's second account, or nobody when there is none, keeps the bytes behind, and refuses every other account with which error |
| `Loader.EveryRunRefines` | src/programs/bpf_loader_program.rs:167-229 | over every run the buffer's bytes are its authority and the in-order fold of accepted writes, at constant length |
| `Loader.FrozenForever` | src/programs/bpf_loader_program.rs:338-370 | without an authority no instruction of these three changes a byte again |
| `Loader.AuthorityExact` | src/programs/bpf_loader_program.rs:338-370 | exactly the signing authority of a buffer or of deployed code passes the authority on, to the requested key or to nobody; payload, slot and code stay; and each refusal |
| `Loader.ProgramDataAuthority` | src/programs/bpf_loader_program.rs:338-370 | on deployed code exactly its signing authority can pass the authority on; slot and code stay |
| `Loader.UploadRebuildsIff` | src/programs/bpf_loader_program.rs:190-229 | once an authority that keeps its buffer has written parts of a program in any order and overlap, whatever others request in between, the buffer holds exactly the program if and only if every byte not already right is covered |
| `Loader.UploadFromBlankIff` | src/programs/bpf_loader_program.rs:167-229 | the same for a whole run from a blank account: the second account of the first initialization becomes the authority, and its writes leave exactly the program if and only if they cover what was not already there |

## Left out

- Hypotheses the code does not enforce, each with its exact form: key lists without repeats (lamports and token supply; exact), programs that change only accounts marked writable (exact for the native ones), loaded keys named by metas (interleavings; exact per transaction), scheduled groups free of interference (serial batches; exact per batch), no token transfer from an account to itself (exact per instruction).
- Protocol.Apply: a group's lock attempt is one step, as the code takes it under one write lock; loads and flushes are one key per step, execution between them is one step; recording a group and deciding its outcomes is one step.
- Interference.InvisibleIffNonInterfering: quantifies over all executors, so it says nothing about one particular program set that happens not to notice.
- BankingStage.BankingStage.ProcessBatch: the parallel iterators are lists in group order, and between execution and commit overlays are carried as their dirty maps and stacked again for the flush.
- BankingStage.BankingStage.LockAndExecute: the rollback after a failed group lock is not modelled, because for a single caller it is proved unreachable; with several callers a denied attempt is the protocol's TryLock without effect.
- BankingStage.BankingStage.VerifyAll: whether the signatures of a sliceable transaction verify, and whether a record is received, are parameters; the record's hash is not computed. Panics while programs execute are not modelled for a single caller; in the protocol they are callers that give up.
- BankingStage.BankingStage.RefundFailed: cost tracking under several concurrent callers is not modelled, because the code's check and charge are separate steps there.
- Banks.Bank.Freeze: the freeze-lock counter and metrics counters are not modelled; freezing is sequential.
- Banks.Bank.ExecuteAll: accounts shared through reference-counted cells are positions in a list of cells; run-time borrow errors cannot occur and are not modelled. Executors must be deterministic, so the program cache is outside.
- SystemProgram.Entrypoint and TokenProgram.Entrypoint: updates through shared cells are functions from cells to cells; order of the two writes of one instruction is kept.
- Native.NativeExecutor: instructions of other programs, the upgradeable loader's and on-chain ones, are refused.
- TokenSupply.RunKeepsLedger: assumes that each mint performed is roomy and that no account with tokens and no mint at the all-zero key is created along the run; the ledger itself assumes no mint at that key.
- TokenProgram.TokenExecutor: the rent sysvar's decoding and exemption rule are a parameter.
- CostModel.CostTracker.AddCost: additions and subtractions on the tracker's plain per-account totals wrap, as in a release build; in a build with overflow checks they would panic. With costs that were admitted neither happens (CostModel.ChargeBalances, CostModel.RefundBalances).
- CostModel.CalculateCost: the partial costs are unbounded numbers; the saturating sum and the tracker's 64-bit wrap-around are modelled.
- Poh.PohRecorder.Tick: counters are unbounded numbers, and a positive number of ticks per slot is required, since the code divides by it.
- Parameters.DeserializeParameters: accounts partly overwritten before an error are not described, because the transaction's cells are then discarded; adding beyond 64 bits stops the model, as it stops a build with overflow checks, where a release build would wrap. Buffers shorter than 2^64 bytes never get there (Parameters.RoundTrip).
- Parameters.RoundTrip: assumes the whole buffer is shorter than 2^64 bytes.
- Loader.ServeAll: the three instructions arrive decoded; their own byte format is not modelled.
- Loader Deploy, Close and Upgrade: Deploy rests on a nested call, Close is one straight-line branch, Upgrade is unimplemented.
- Nested program calls in general: only the one inside the token program's SetAuthority is modelled.
- Merkle.AccountBytes: account serialization is the explicit fixed-width layout; bincode itself is not part of this model.
- SHA-256, ed25519 and signature checking: parameters; nothing is assumed of them.
- RocksDB, RPC handlers other than the advertised height, the main loop, tracing, metrics and the virtual machine: not part of this model.
- Arrival order across groups and retry of every retryable error: the code provides neither.
