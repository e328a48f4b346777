# A verified model of go-evm's state machine and its drivers

go-evm wraps an Ethereum state in a consensus system. `State` keeps three copies of the world (the
committed one, the write-ahead one that blocks change, and the transaction pool's), next to one flat
key/value database. A block is stored under two keys, its transactions are folded over the write-ahead
state, and a commit flushes trie, root, head, transactions and receipts in that order before all three
copies are brought to the new root. After a crash everything is rebuilt from the stored root. Raft,
solo and the in-process Lachesis proxy drive the same state with different commit points and different
treatment of errors.

This project models that machine in Dafny and proves what it keeps over whole runs. Two layers are
connected throughout: classes with the source's own fields and methods (`EvmState`, `Raft.FSM`,
`SoloDriver.Solo`, `Lachesis.InmemProxy`, `Rpc.RpcServer`, `Paging`), and pure functions that say what each method computes. The methods are
proved equal to the functions; the theorems are about the functions.

| file | what it holds |
|---|---|
| `Types.dfy` | worlds, accounts, transactions, receipts, hashes |
| `Evm.dfy`, `Transfers.dfy` | what is assumed of `core.ApplyMessage`, and plain value transfers as an instance |
| `Ledger.dfy` | the write-ahead state as a value: gas, nonces, block boundaries |
| `Storage.dfy`, `Keys.dfy` | the database, its writes and crash points; the bytes of its keys |
| `Machine.dfy` | the node as a state machine: operations, crashes, restarts |
| `State.dfy` | `Database`, `StateDB`, `WriteAheadState`, `TxPool`, `State` as classes |
| `Genesis.dfy`, `DryRun.dfy`, `Lookup.dfy` | `CreateAccounts`, `CheckTx`, the HTTP lookups |
| `Receipts.dfy` | what stored receipts can be trusted to say |
| `Sessions.dfy` | which calls bring the process down, for want of a signer or a gas pool |
| `Raft.dfy`, `Solo.dfy`, `Lachesis.dfy` | the three drivers |
| `RpcServer.dfy`, `AddrLock.dfy`, `Paging.dfy` | the RPC lifecycle, the address locks, storage paging |

## What is assumed of the libraries

go-ethereum is not part of the repository, so its contract is stated in one place and kept small.

- `Evm.Law` is all that is used of `core.ApplyMessage`: it is a function of world, message and gas pool;
  a wrong nonce, where it is checked, is refused and changes nothing; what is refused before the pool is looked
  at is refused alike with any pool and changes nothing; a success needs `gas <= pool`, uses at most the
  message's gas, takes exactly what it used from the pool and raises the sender's nonce by one; an error never
  raises the pool and takes at most the message's gas; no call lowers the nonce of an address that can sign;
  once the pool covers the message's gas, having more of it makes no difference; empty accounts are dropped.
  `Transfers.TransfersAreLawful` shows that section 6 of the Ethereum Yellow Paper, for plain transfers, meets
  every one of these.
- That the block hash and the position in the block never reach the execution, and end up in the logs only, is part
  of this: the context's block number is always 0, so BLOCKHASH has no earlier block to ask `GetHash` for.
- Without a gas pool `ApplyMessage` crashes if it gets as far as the pool, and otherwise refuses as it would with one.
- Hashing is injective (a hash is a term that contains what was hashed; `Keys` weakens this to no
  collision among the keys in use). RLP round trips. Decoding ignores trailing bytes.
- A put and a batch write are atomic. The trie flush is not: any part of its leaves may be on disk after a
  crash, but a root node is written after all of them. Nodes are never deleted.

## What turned out to be false, and exactly when it holds

- A transaction that is refused is not always without effect: there is no snapshot around
  `ApplyMessage`. For transfers `DryRun.RefusalIsCleanIff` says exactly when a refusal leaves a trace. The dry run
  agrees with the write-ahead state exactly if the pool refused nothing after gas had been bought for it
  (`DryRun.DryRunIsFaithfulIff`), and in world and verdicts alone exactly if what it so refused had too little gas
  and a price of zero (`DryRun.OutcomesAgreeIff`); a sequence that the pool accepts in full is always applied in full
  (`DryRun.AcceptedSequenceIsFaithful`). `DryRun.LateRefusalDiverges` is an example of the contrary.
- A crash between the root write and the last batch loses index entries for good
  (`Machine.LostEntriesStayLost`). `Lookup.LookupAfterCrash`
  gives the report for every crash point, and `Lookup.LostReceiptBecomesFailure` shows that delivering
  such a transaction again makes the lookup report as failed what did take effect.
- The head key does not always name a transaction that can be looked up: a commit without a success sets it
  to the hash of the empty transaction (`Machine.HeadCanBeLookedUpIff`).
- The start that every engine uses, `NewState`, ends with a write-ahead state that has no signer, and no call ever
  gives it one: from then on `ApplyTransaction` crashes on every transaction that decodes, and with it each driver
  as soon as it reaches one, while no other call that writes ever crashes (`Sessions.NewStateCrashesIff`, `Raft.NewStateRaftCrashesIff`,
  `SoloDriver.UnsignedSoloCrashesIff`, `Lachesis.UnsignedLachesisCrashesIff`). `ProcessBlock` uses the state's own
  signer. `InitState` alone leaves a signer but no gas pool, and what needs one crashes until the first commit
  (`Sessions.InitStateCrashesIff`).
- Replaying a Raft log over the state `InitState` opens changes nothing at all if every entry had succeeded
  (`Raft.RestartAndReplay`). For any log, it changes nothing exactly if no entry gets as far as the gas pool, and
  crashes otherwise (`Raft.RestartAndReplayIff`). With a commit after `InitState`, which makes a pool, a log of successes
  still changes nothing, but that commit has overwritten the head (`Raft.RestartCommitAndReplay`); and for plain
  transfers the replay changes nothing exactly if no entry of the log could buy gas in the world recovered
  (`Raft.RestartCommitAndReplayIff`). An entry refused the first time may (`Raft.ReplayCanApplyARefusedEntry`).
- A block rejected by the Lachesis proxy is not undone: what was applied before the failing transaction
  is committed by the next block (`Lachesis.RejectedBlockLeaks`). For plain transfers a rejection leaves no trace
  exactly if already the block's first transaction could not buy gas (`Lachesis.RejectedBlockLeavesNoTraceIff`).
- Where a sequence is cut into blocks makes no difference while every gas limit is covered by what its block's
  pool has left (`Ledger.CutIndependence`), in particular while each block's limits add up to at most 10^18
  (`Ledger.SmallBlocksFit`). For transactions that all succeed given a pool each, that condition is exact
  (`Ledger.CutsMatterIff`, `SoloDriver.SoloAndBlockAgreeIff`).
- `RpcServer.Start` can return nil without having started; `Rpc.NilErrorButNotStartedIff` says exactly when.
  `Stop` leaves the in-process handler in place (`Rpc.StopFreesSocketsIff`). When closes fail, sockets leak:
  `Rpc.OpenAreHeldOrLost` says exactly which.
- A call that asks for no gas is given more than the pool holds, and is always refused (`EvmState.ZeroGasCallIsRefused`).
- Entering genesis accounts is free of the map's order when its keys denote distinct addresses. Two spellings of one
  address are two entries, and `Genesis.RepeatedAddressCommutesIff` says exactly when their order does not matter.
- Block keys sort by index below 10^9 and not always above; `Keys.BlockKeyOrderIff` gives the exact order.

## Model

| member | source | states |
|---|---|---|
| Transfers.TransfersAreLawful | src/state/was.go:111-118 | plain transfers meet every law assumed of ApplyMessage, for every world, message and pool |
| Transfers.SettleWorlds | src/state/state.go:301-314 | whether a transfer is paid or refused, and wherever it stops, no nonce falls and no empty account stays |
| Gas.SaturationIsNearest | src/common/math.go:9-25 | saturation gives the nearest 64-bit number, and it is the only nearest one |
| Gas.ConversionsAgree | src/common/math.go:9-25 | the saturating conversion of one path and the truncating one of the other agree exactly on totals below 2^64 (or that truncate to the maximum) |
| Ledger.BlockKeepsAccounts | src/state/state.go:316-336 | at every point of a block: gas used plus pool at most 10^18, the total is the sum of the receipts' gas, each cumulative figure is its prefix sum |
| Ledger.PathsAgree | src/state/state.go:262-341 | from a sound write-ahead state State.applyTransaction and WriteAheadState.ApplyTransaction give the same state and verdict |
| Ledger.FoldsAgree | src/state/was.go:87-145 | the same over every sequence of transactions, verdict by verdict |
| Ledger.ApplyKeepsWas | src/state/was.go:114-145 | one delivery keeps nonces strictly increasing per sender, receipts paired with transactions, and the gas accounts, refused or not |
| Ledger.BlockKeepsWas | src/state/state.go:178-183 | the same over a block, whatever bytes consensus delivers and however often |
| Ledger.BlockIsIdeal | src/state/state.go:178-185 | while every gas limit is covered by the pool left, a block's world and verdicts are those of its transactions run without any pool |
| Ledger.SmallBlockFits | src/state/was.go:76-77 | limits that add up to at most the pool are always covered |
| Ledger.BlockIsIdealIff | src/state/state.go:178-185 | for transactions that would all succeed, the verdicts are those without a pool exactly if every limit is covered |
| Ledger.BlocksAreIdeal | src/state/was.go:64-77 | any sequence of committed blocks that fit equals the uncut sequence |
| Ledger.SmallBlocksFit | src/state/was.go:64-77 | blocks whose limits add up to at most 10^18 each fit |
| Ledger.CutsMatterIff | src/state/was.go:64-77 | for transactions that all succeed given a pool each, a cut changes no verdict exactly if its blocks fit |
| Ledger.CutIndependence | src/consensus/solo/solo.go:49-73 | any two ways to cut one sequence into blocks that fit, on either apply path, give the same world and the same verdict and gas for each transaction |
| Storage.TrieRoundTrip | src/state/was.go:147-160 | a complete trie reads back as exactly the world it was written from |
| Storage.InitStateSucceeds | src/state/state.go:403-457 | InitState opens every sound store, at exactly the world of its root key |
| Storage.CommitStages | src/state/was.go:147-178 | after each of a commit's six writes: the invariants hold, the world recovered is the old one up to the root write and the new one from then on |
| Storage.CommitCrashPoints | src/state/was.go:147-178 | every crash point of a commit is one of its stages, or lies inside the trie flush |
| Storage.CommitCrash | src/state/was.go:147-178 | at every such point, with any part of the flush on disk, the store is sound and recovers the old or the new world |
| Storage.OperationCrash | src/state/state.go:171-185 | the same for a whole operation: block puts and error records first, then the commit |
| Storage.TxBatchHolds | src/state/was.go:192-207 | the batch holds exactly the successful transactions, each under its own hash |
| Storage.ReceiptBatchHolds | src/state/was.go:209-224 | the batch has a key exactly for each transaction with a receipt |
| Storage.BatchKeepsEveryReceipt | src/state/was.go:209-224 | with distinct transactions, under each hash lies that receipt itself, in every field modelled (not the status), and nothing else |
| Machine.RunKeepsNode | src/state/state.go:150-186 | every operation keeps the node's invariants and extends the history by what succeeded |
| Machine.CrashIsAtomic | src/state/state.go:171-185 | cut off anywhere, an operation leaves a store that InitState opens at exactly the world before it or exactly the one after, decided by the root write alone |
| Machine.RootsStayReadable | src/state/was.go:157-163 | a root ever written stays readable as the same world through any further sequence of operations and crashes |
| Machine.EveryLifeIsSound | src/state/state.go:403-457 | over every life of a node from an empty database, crashes included, each restart succeeds and all invariants hold |
| Machine.StoredMeansExecutedOnce | src/state/was.go:157-177 | at every point of every life: a receipt has its transaction beside it, a stored transaction took effect in the committed world, and no sender's nonce took effect twice |
| Machine.HistorySpared | src/state/was.go:192-224 | no later operation writes the key of a transaction in the history, or of its receipt |
| Machine.ReceiptsAreFinal | src/state/was.go:209-224 | a stored receipt and its transaction are unchanged after any further sequence of operations, replays and crashes |
| Machine.LostEntriesStayLost | src/state/was.go:161-177 | a transaction that took effect but was not indexed is never indexed, through any further sequence of operations, replays and crashes |
| Machine.HeadCanBeLookedUpIff | src/state/was.go:184-190 | after a commit the head is the block's last success and can be looked up exactly if there was one |
| Receipts.ReceiptTellsItsStep | src/state/state.go:316-336 | a receipt records the root its step left, the gas that left the pool, the running total of the block, and logs under the block and position they were emitted in |
| Receipts.CommitLosesNoReceipt | src/state/was.go:209-224 | the batch of a sound write-ahead state stores every receipt, in every field modelled (not the status) |
| Receipts.StoredReceiptsWereMade | src/state/was.go:137-140 | in every life, crashes included: every stored receipt is one that was appended when its transaction was applied, and names its own contract, gas within its limit and logs of its own |
| Receipts.StoredReceiptIsTheOneMade | src/state/was.go:209-224 | the receipt stored under a hash is the one appended by the only success of that transaction |
| Receipts.ContractAddressesNeverRepeat | src/state/state.go:325-327 | in every life no two stored receipts claim the same contract address |
| EvmState.WriteAheadState.Reset | src/state/was.go:64-85 | success empties the object at the root's world, failure leaves it alone |
| EvmState.WriteAheadState.ApplyTransaction | src/state/was.go:87-145 | crashes exactly without a signer, or when a pool is needed and there is none; otherwise new state and verdict are those of the pure step with the truncating conversion |
| EvmState.WriteAheadState.Commit | src/state/was.go:147-178 | makes exactly the six writes of a commit, in order |
| EvmState.WriteAheadState.WriteTransactions | src/state/was.go:192-207 | one atomic batch with every transaction of the block |
| EvmState.WriteAheadState.WriteReceipts | src/state/was.go:209-224 | one atomic batch with every receipt of the block |
| EvmState.TxPool.CheckTx | src/state/txpool.go:58-90 | new pool and verdict are those of the pure dry run |
| EvmState.State.InitState | src/state/state.go:403-457 | on every sound store: a valid state, all worlds at the stored root, with a signer and without a gas pool |
| EvmState.State.NewState | src/state/state.go:67-94 | on every sound store: a valid state, all worlds at the stored root, with a gas pool and without a signer |
| EvmState.State.ResetWAS | src/state/state.go:381-396 | a new, empty, unwired write-ahead state over a copy of the committed world |
| EvmState.State.Commit | src/state/state.go:345-379 | the three resets cannot fail; afterwards all three worlds are the one at the stored root and nothing is pending |
| EvmState.State.ApplyToWAS | src/state/state.go:262-341 | moves the write-ahead state by the saturating step and writes one error record exactly for a refusal |
| EvmState.State.ApplyTransaction | src/state/state.go:469-479 | crashes exactly where the call does, changing nothing; otherwise moves only the write-ahead state, by the pure step |
| EvmState.State.CheckTx | src/state/state.go:463-465 | moves only the pool: database, committed and write-ahead state stay |
| EvmState.State.Call | src/state/state.go:108-144 | runs on a copy of the write-ahead world with a full pool and moves nothing; the nonce is checked only if the message asks for it |
| EvmState.ZeroGasCallIsRefused | src/service/http_handlers.go:842-870 | a call message for zero gas asks for more than the pool holds, and is refused whatever it does |
| EvmState.State.ReadersAgree | src/state/state.go:507-518 | after a commit or a start balance, nonce and pool nonce are all read from the world at the stored root |
| EvmState.State.ApplyAll | src/state/state.go:178-183 | the loop folds over all transactions, past every failure |
| EvmState.State.ProcessBlock | src/state/state.go:150-186 | wherever it does not crash, performs the pure operation write for write and ends with the three worlds in step |
| EvmState.State.CreateAccounts | src/state/state.go:481-500 | performs the pure genesis operation, for any entries in any order, dropping empty accounts only with the commit, and ends with the three worlds in step |
| EvmState.CommitReadsBack | src/state/state.go:358-375 | the root a commit has just written reads back as the write-ahead world, so every reset succeeds |
| EvmState.CommitCompletes | src/state/state.go:171-185 | block puts, error records and commit together are the operation's writes and their outcome |
| Genesis.GenesisIsOrderFree | src/state/state.go:481-505 | every iteration order of the account map and of the storage maps gives the world written down without any order |
| Genesis.GenesisIsIdempotent | src/state/state.go:481-505 | entering the same accounts again after the commit changes nothing |
| Genesis.EnterKeepsNonces | src/state/state.go:485-497 | whatever is entered, however often, no nonce changes and no empty account outlives the commit |
| Genesis.RepeatedAddressCommutesIff | src/state/state.go:485-497 | two entries for one uncommitted address give the same world in either order exactly if codes and shared slots agree, or together they leave the account empty |
| DryRun.CheckNeverWraps | src/state/txpool.go:81-87 | one check keeps the bound on the 64-bit gas counter and adds exactly the gas reported |
| DryRun.CounterNeverWraps | src/state/txpool.go:45-87 | over any sequence of checks after a reset the counter is the plain sum of the gas reported |
| DryRun.RefusalIsCleanIff | src/state/txpool.go:80-85 | a refused transfer leaves world and pool alone exactly unless it fails after a positive gas limit was bought |
| DryRun.DryRunIsFaithfulIff | src/state/txpool.go:45-90 | what the pool accepts out of a sequence the write-ahead state accepts, with the predicted gas and the same world and pool, exactly if the pool refused nothing after buying gas |
| DryRun.PoolAddsUpIff | src/state/txpool.go:80-87 | pool and fees of the accepted add up to 10^18 exactly if no gas was bought in vain |
| Transfers.TransferTotals | src/state/txpool.go:80-85 | an applied transfer conserves the sum of all balances and adds one to the sum of all nonces; a late refusal only takes |
| DryRun.OutcomesAgreeIff | src/state/txpool.go:45-90 | leaving the gas left aside, world and verdicts agree exactly if every late refusal had too little gas and a price of zero |
| DryRun.AcceptedSequenceIsFaithful | src/state/txpool.go:58-90 | a sequence accepted in full is applied in full, with the same gas, into the same world |
| DryRun.LateRefusalDiverges | src/state/txpool.go:80-85 | an example: after a late refusal the pool accepts what the write-ahead state refuses |
| Lookup.BlockReports | src/service/http_handlers.go:70-199 | the reports of a block's transactions, in order; an answer exactly if each one has a report |
| Lookup.LookupAgreesWithHistory | src/service/http_handlers.go:587-661 | after any crash-free run: succeeded exactly if some delivery succeeded, with the very receipt and gas of that delivery; failed exactly if all were refused; unknown exactly if never delivered |
| Lookup.ReceiptIsTheOneMade | src/state/was.go:209-224 | after any crash-free run the receipt stored for a transaction is the one its latest success appended |
| Lookup.ErrorIsTheLastRefusal | src/state/state.go:302-314 | after any crash-free run the error record of a transaction is that of its latest refusal |
| Lookup.FailureNamesTheLastError | src/service/http_handlers.go:595-625 | a transaction reported as failed is reported with the error of its latest refusal |
| Lookup.BlockIsShownIff | src/service/http_handlers.go:201-337 | a processed block can be shown exactly if all its transactions decode and are validly signed |
| Lookup.BlockIsFoundUntilReplaced | src/state/state.go:520-551 | a processed block is found under index and hash until a block with the same index or hash is processed |
| Lookup.GenesisIsUnindexed | src/state/state.go:481-500 | a database that has only seen genesis indexes nothing and is sound |
| Lookup.LookupAfterCrash | src/service/http_handlers.go:592-661 | for each crash point of a block, whether the transaction took effect and which of the three reports the lookup gives |
| Lookup.LostReceiptBecomesFailure | src/state/state.go:302-314 | redelivering a transaction whose index entry was lost reports it as failed |
| Raft.RaftRefinesFold | src/consensus/raft/fsm.go:34-55 | after any log the write-ahead world is the fold of all entries, the committed world and the store are those after the last success |
| Raft.RaftRunSound | src/consensus/raft/fsm.go:34-55 | every log keeps the node's invariants, with the successes as its history |
| Raft.ReplicasAgree | src/consensus/raft/fsm.go:34-55 | replicas that agree on a key and their worlds agree after any log: on roots, transactions, receipts and everything else |
| Raft.ReplayOfSpentIsNoOp | src/consensus/raft/fsm.go:34-55 | a log whose nonces are all used up changes nothing |
| Sessions.CallKeepsSession | src/state/state.go:467-479 | every call that does not crash keeps the node's invariants, and an empty pool where there is none |
| Sessions.NewStateCrashesIff | src/state/state.go:381-396 | on a state from NewState, after any calls that write, a further one crashes exactly if it is ApplyTransaction with a transaction that decodes |
| Sessions.InitStateCrashesIff | src/state/state.go:403-457 | on a state from InitState, after any calls that write, a delivery crashes exactly if it needs the pool and nothing was committed yet |
| Sessions.FirstCommitOverwritesHead | src/state/was.go:180-190 | the first commit after InitState leaves every key but root and head, and sets the head to the empty transaction's hash |
| Raft.NewStateRaftCrashesIff | src/engine/ConsensusEngine.go:25-48 | a replica on such a state crashes at the first entry that decodes, and does nothing before |
| Raft.RestartAndReplay | src/consensus/raft/raft.go:73-79 | over a log of successes, for any EVM: on the state InitState opens the replay does not crash and changes nothing at all |
| Raft.ReplayIsNoOpIff | src/consensus/raft/fsm.go:34-55 | for transfers a log leaves no trace exactly if none of its entries could buy gas in the state it starts from |
| Raft.RestartAndReplayIff | src/consensus/raft/raft.go:73-79 | after any log, for any EVM, on the state InitState opens: the replay changes nothing exactly if no entry gets as far as the pool, and crashes otherwise |
| Raft.RestartCommitAndReplay | src/consensus/raft/raft.go:73-79 | with a commit after InitState, the replay of a log of successes changes nothing, but the commit has put the empty hash where the head was |
| Raft.RestartCommitAndReplayIff | src/consensus/raft/raft.go:73-79 | with that commit, for transfers, replaying any log changes nothing exactly if no entry could buy gas in the recovered world |
| Raft.ReplayCanApplyARefusedEntry | src/consensus/raft/fsm.go:43-46 | an example: an entry refused for coming too early is applied by the replay |
| Raft.FSM.Apply | src/consensus/raft/fsm.go:34-55 | performs the call: commit and root after a success, nothing after an error, or the crash |
| SoloDriver.SoloIsIdeal | src/consensus/solo/solo.go:49-73 | committing after every transaction gives the world and verdicts of the uncut sequence |
| SoloDriver.SoloAgreesWithBlock | src/consensus/solo/solo.go:49-73 | one commit per transaction and one ProcessBlock reach the same world and verdicts while every limit is covered |
| SoloDriver.SoloAndBlockAgreeIff | src/consensus/solo/solo.go:49-73 | of transactions that solo applies one and all, the block decides as solo does exactly if every limit is covered |
| SoloDriver.FullBlockRefusesWhatSoloAccepts | src/state/was.go:76-77 | an example: two limits of which the second is not covered, and the worlds part |
| SoloDriver.UnsignedSoloCrashesIff | src/consensus/solo/solo.go:49-73 | without a signer solo crashes exactly if something submitted decodes |
| SoloDriver.Solo.Run | src/consensus/solo/solo.go:49-73 | after any submissions, state and transaction index are those of the calls, and the three worlds are in step, or the process has crashed |
| Lachesis.FirstFailureIs | src/consensus/lachesis/inmem_proxy.go:54-58 | the stopping point: all before it applied, it did not |
| Lachesis.UnsignedLachesisCrashesIff | src/consensus/lachesis/inmem_proxy.go:49-66 | without a signer CommitBlock crashes exactly if the block's first transaction decodes |
| Lachesis.LachesisCallIsCommit | src/consensus/lachesis/inmem_proxy.go:49-66 | unless it crashes, and with signer and pool it never does, the call does to the node what CommitBlock does |
| Lachesis.InmemProxy.ApplyEach | src/consensus/lachesis/inmem_proxy.go:54-58 | applies up to and including the first failure, and says whether there was one, or crashes |
| Lachesis.InmemProxy.CommitBlock | src/consensus/lachesis/inmem_proxy.go:49-66 | performs the call: commits exactly if every transaction applied, otherwise the partial work stays pending, or the crash |
| Lachesis.HashOnlyMarksLogs | src/consensus/lachesis/inmem_proxy.go:52-55 | the block hash a driver passes on shows in the logs and nowhere else |
| Lachesis.BlockDriversAgree | src/consensus/lachesis/inmem_proxy.go:49-66 | for a block in which all apply, CommitBlock and ProcessBlock give the same world, root and transactions, receipts equal up to log marks, and databases equal but for the block's own keys exactly if the block carries its own hash or emits no logs |
| Lachesis.RejectedBlockLeaks | src/consensus/lachesis/inmem_proxy.go:55-57 | transactions of a rejected block before the failure are committed by the next good block |
| Lachesis.RejectedBlockLeavesNoTraceIff | src/consensus/lachesis/inmem_proxy.go:55-57 | for transfers a rejected block leaves no trace exactly if already its first transaction could not buy gas |
| Keys.DecimalReadsBack | src/state/state.go:48-50 | the nine-column decimal of every index, of either sign, reads back |
| Keys.BlockKeyIsInjective | src/state/state.go:48-50 | two indices never share a block key |
| Keys.BlockKeysAreOrdered | src/state/state.go:48-50 | below 10^9 the byte order of block keys is the order of the indices |
| Keys.BlockKeyOrderIff | src/state/state.go:48-50 | of two indices the smaller's key comes first exactly if it is no larger when zeros at its end make it as wide as the other |
| Keys.FamilyLengths | src/state/state.go:28-50 | the length of a key tells its family |
| Keys.KeysNeverInterfere | src/state/state.go:28-50 | keys are spelled alike exactly if they are the same key, across root, head, block, hash, error and receipt keys |
| Keys.ReplaysAgree | src/state/was.go:180-224 | under any writes the byte-level database stays a faithful copy of the keyed one |
| Rpc.NilErrorButNotStartedIff | src/service/rpc_server.go:138-146 | Start returns nil without starting exactly if an endpoint failed, there was a service and all of them stopped |
| Rpc.EveryRunKeepsLifecycle | src/service/rpc_server.go:104-186 | over any operations and failures: every stop channel made was closed once, in order, but for the current one while started; all three endpoints are held while started and configured, HTTP and WebSocket only then |
| Rpc.OpenExactlyWhileStarted | src/service/rpc_server.go:203-351 | closes succeeding, over any operations: not started means no open socket, started means exactly the configured endpoints' sockets |
| Rpc.OpenAreHeldOrLost | src/service/rpc_server.go:211-314 | over any operations and failures: the open sockets are those held and those lost one by one to failed closes |
| Rpc.StopFreesSocketsIff | src/service/rpc_server.go:318-351 | Stop frees every socket exactly if every configured endpoint closes, keeps a stuck IPC listener, and keeps the in-process handler |
| Rpc.NoChannelIsClosedTwice | src/service/rpc_server.go:343-344 | closing the stop channel never panics |
| Rpc.WaitEndsWithTheNextStop | src/service/rpc_server.go:353-365 | a waiter is released exactly once some Stop has followed |
| Rpc.RpcServer.Construct | src/service/rpc_server.go:114-136 | builds the services in order and stops at the first failure or duplicate |
| Rpc.RpcServer.StopEach | src/service/rpc_server.go:139-145 | what the rollback returns, in any order of the services |
| Rpc.RpcServer.OpenEndpoints | src/service/rpc_server.go:158-186 | opens the endpoints in order, or takes down what it opened |
| Rpc.RpcServer.Start | src/service/rpc_server.go:104-153 | new state and error are those of the machine |
| Rpc.RpcServer.Stop | src/service/rpc_server.go:318-351 | new state is that of the machine; the error lists exactly the services that did not stop |
| Rpc.RpcServer.Restart | src/service/rpc_server.go:369-377 | Stop, then Start unless a service did not stop |
| Rpc.RpcServer.Wait | src/service/rpc_server.go:355-365 | the channel to wait on is that of the latest start, or there is none |
| Rpc.RpcServer.RPCHandler | src/service/rpc_server.go:391-399 | answers exactly while there is an in-process handler, which Stop leaves |
| AddrLock.AddrLocker.Lock | src/service/addrlock.go:31-41 | an address keeps its mutex, a new one gets an unlocked mutex of its own; the table changes as in the protocol's binding step |
| AddrLock.EveryRunKeepsInv | src/service/addrlock.go:31-53 | in every interleaving: at most one thread in the table, every thread works with the mutex of its address, holders and held mutexes correspond |
| AddrLock.CriticalSectionsNeverOverlap | src/service/web3_account_api.go:364-376 | two calls hold locks for one address only if they are the same call |
| AddrLock.UnlockIsSafe | src/service/addrlock.go:51-53 | whoever unlocks holds that mutex, so unlocking cannot crash |
| AddrLock.BindingsAreForever | src/service/addrlock.go:37-40 | once bound, an address keeps its mutex through any further interleaving, and no two share one |
| AddrLock.SomeoneCanMove | src/service/addrlock.go:31-48 | while a call is under way some thread can move: the table is never held while waiting for an address |
| AddrLock.EveryScheduleFinishes | src/service/web3_account_api.go:1261-1281 | without new calls, every schedule makes exactly the moves left, is not blocked before, and ends with all mutexes free |
| Paging.BytesToHash | src/service/web3_chain_api.go:313-318 | cut from the left or padded on the left to 32 bytes |
| Paging.StorageRangeAt | src/service/web3_chain_api.go:305-326 | the loop over the iterator returns the page its arguments name, or an error if an entry in it is unreadable |
| Paging.RemainingIs | src/service/web3_chain_api.go:305-308 | what there is to read from a start is exactly the entries with key at or after it |
| Paging.PagingIsComplete | src/service/web3_chain_api.go:305-326 | following nextKey ends; pages are disjoint, none too long, and together are all remaining entries exactly if all of those are readable |
| Paging.NextKeyMovesOnIff | src/service/web3_chain_api.go:308-324 | nextKey is further on exactly if the page size is at least one; otherwise the same empty page comes back for ever |

## Left out

- EVM execution, tries, RLP, signatures, LevelDB: only the contract stated above.
- The consensus systems themselves: only the ordered entries, submissions or blocks they deliver.
- Errors returned by database writes: a write that fails is covered as a crash before it; a caller that carries on after a failed write is not modelled.
- Storage tries and code: part of the account's own node here, so the flush has two levels rather than three.
- Preimages that the trie database also stores, and `MIPMapLevels`, `txMetaSuffix` and the other unused prefixes.
- Nonces above 2^64 - 1: the library's counter would wrap, the model's does not.
- Contract addresses are taken never to equal an address that can sign.
- `commitMutex`: the state's operations are taken one at a time, as the mutex has them; the methods that do not take it are not interleaved.
- The current time: the creation time given to a block that has none is a parameter.
- The order in which Go iterates a map: a parameter (`Genesis`), or any order (`Rpc`).
- Receipt status and log bloom: decided by the library's encoding, and not part of the receipts here. The root in a receipt is the world after the transaction.
- `totalUsedGas` and the gas pool are unbounded numbers; `Ledger.BlockKeepsAccounts` bounds them.
- DryRunIsFaithfulIff: for plain transfers only, because the pool does not finalise its world between transactions as the write-ahead state does.
- RestartCommitAndReplayIff: for plain transfers, as are ReplayIsNoOpIff and RejectedBlockLeavesNoTraceIff, because the assumed law does not say what a refused message of another kind leaves behind; RestartAndReplay and RestartAndReplayIff hold for any EVM.
- BlockIsIdealIff: for transactions that would all succeed, as are CutsMatterIff and SoloAndBlockAgreeIff: one that is refused anyway may be refused alike with too small a pool. That covered limits suffice needs no such premise (BlockIsIdeal, CutIndependence).
- GenesisIsOrderFree: for keys that denote distinct addresses and slots; of two spellings of one slot within an entry the later one counts.
- Rpc.RpcServer.Wait: the blocking is not in the method; WaitEndsWithTheNextStop says when the channel it names is closed.
- LookupAgreesWithHistory: for runs without a crash, from a database that indexes nothing yet; LookupAfterCrash says what a crash changes.
- Solo.Run: the loop over what has been submitted so far, since the source's loop never ends.
- `CheckTx` with a nil gas pool, `Call` without a recipient and `ProcessBlock` where it needs a pool and has none crash in the source; here that they do not is a precondition. What `ProcessBlock` has written by then is a crash of the operation like any other (CrashIsAtomic).
- Machine.Next: a life delivers transactions to states as if they had a signer, whichever way they were opened; Sessions says when they have.
- Snapshot and restore of the FSM and of the proxy: stubs in the source.
- JSON, HTTP status codes, templates, logging, configuration, command line.
- The API lists kept by the RPC server (`rpcAPIs`) and `Attach`, `Service` and the endpoint getters.
- `Register`, `Start`, `Stop`: one at a time, as the server's lock has them; Restart takes the lock twice, and a run of events may hold anything between its two halves.
- What SendTransaction does inside the lock: defaulting arguments, signing and submitting.
- Fairness: a thread may wait for as long as the scheduler never picks it; only deadlock and endless schedules are excluded.
- Start keys shorter than 32 bytes are the number of the first key they admit; keys are numbers in the trie's order.
- `isProtectedV`, `deriveChainId`, `deriveSigner`: unused.
- The Ethereum JSON-RPC methods that only return an error.
