# polygon-edge in Dafny

A model of the parts of polygon-edge that decide what the chain's state is, with proofs of what
they keep over whole runs. Every file is a module or two; `dafny verify dfyconfig.toml` checks all
of them. Nothing here executes the original program.

**World state and executor.** `WorldState` is the copy-on-write overlay over a committed base,
with snapshots; `PlainState` proves that its accounts read like one plain map, `Logs` when its logs
read like one plain list, `Commit` that folding the committed objects into the base gives that map,
`Refund` that the net-metered refund counter is what the cleared slots are owed. `Executor` runs
arbitrary finite trees of call and create frames; `Conservation`, `Rollback` and `BlockLaws` prove
that balances and gas are conserved, and failures undone, for every message and block. `Payments`
and `Messages` say address by address what transfers, frames and messages pay, install and write,
`Metering` what storage writes cost once their refunds are taken off. `Txn` and `Transition` are the
objects that do this in place, proved to compute the same. State objects of a snapshot stay intact
because every write copies the object it edits; logs are appended in place, to arrays that snapshots
share, and stay intact only while reverts are nested. `GasLimit` closes the loop from gas spent to an
acceptable header.

**Transaction pool.** `TxAccount` is one account's two queues, `TxPool` the whole pool with its
index, gauge and pending counter, `PoolRuns` every interleaving of its handlers, `BlockBuilder` the
loop that drains it into a block, `PoolAnswers` what each operation and each turn of the loop changes
and what not, `TxPoolHeap` the objects. `Heap` is Go's container/heap.

**Fork choice.** `ForkChoice` is the header tree with total difficulties and reorganisations;
module `BlockchainHeap` the object with its database and caches.

**Codecs, archive, consensus, filters, trie keys.** `Rlp` and `RlpTypes` are the wire and store
formats, `Archive` (with module `ArchiveHeap`) export and restore, `Quorum` (modules
`ValidatorSet` and `Quorum`) validator sets and quorum sizes, `Filters` and `FiltersHeap` the
JSON-RPC filters, `HexPrefix` the compact key encoding.

## What is taken as given

- Keccak hashes do not collide: a storage root stands for the storage, a code hash for the code, a
  transaction hash for the transaction. Senders are given; signatures are not modelled.
- The EVM is any finite tree of host operations, each of which may fail. The runtime returns no more
  gas than it was given.
- Pool handlers are atomic steps taken in any order, with any arguments, while the chain's nonces go
  up and down. For the index, hashes do not collide and a mined transaction's nonce is below the
  chain's nonce when its block is processed.
- An array of logs that is full is replaced by one of the capacity Go's runtime chooses for
  pointers: doubled, and from 256 on a quarter and 192 more.
- A header's number is its parent's plus one. Positive difficulties turned out not to be needed.
- The number of a validator set's members is small enough for the floating-point ceiling of
  two thirds to be exact.

## Where the code differs from what it promises

Each with the inputs on which it does, and exactly when.

- `Logs.OutOfOrderIff`: a snapshot's logs are overwritten when the run goes back below it, emits, and
  returns to it, exactly if the array had room. The executor never does.
- `Rollback.UnpaidCreateLeaks`: a creation whose value cannot be paid returns without reverting; from
  EIP-158 on the new account stays behind.
- `Conservation.SelfBurnLoses`: self-destructing to oneself burns the balance. `BlockLaws.LostNothingIff`:
  a payment to an account after its suicide is deleted with it.
- `Refund.NeverBelowZeroIff`: the original value of a slot is read from the base of the block, so a
  transaction can take the refund counter below zero exactly when it begins with a slot cleared.
- `TxAccount.PromoteKeepsOkIff`: promotion breaks an account exactly when it offers every nonce up to
  2^64 - 1.
- `TxPool.PopCountsIff`: popping trusts its argument; the gauge stays right exactly when the head takes
  as many slots as the transaction that was named.
- `TxPool.DropKeepsIndexIff`: dropping an account for a stale transaction reverts its next nonce, and lets
  in a request whose transaction the index has lost, exactly when one that late is in flight.
- `BlockBuilder.PickIsBestPriceIff`: prices are compared by their low 64 bits.
- `ForkChoice.ReorgLinkedIff`: after a reorganisation the number index is right exactly when the branches
  part right below the old head and the new head is not lower: entries in between are not renumbered,
  entries above are not removed.
- `GasLimit.VerifyMeaningIff`: the difference of gas limits is taken on signed 64-bit numbers.
- `RlpTypes.ReceiptRoundTripIff`, `RlpTypes.TransactionRoundTripIff`: a status of more than one byte turns
  into failure, and the sign of integers is dropped.
- `Archive.LoadDeliversIff`: a payload that is cut short is reported as loaded.
- `Quorum.LegacyIsSafeIff`: the legacy quorum overlaps enough only when N = 3F + 1. `Quorum.OptimalIsLeastIff`:
  three validators could do with two votes.

## Model

| member | source | states |
|---|---|---|
| `WorldState.StepKeepsSnapshots` | state/txn.go:60-78 | Every operation leaves the snapshots taken so far in place, and the base as it was |
| `WorldState.RunKeepsSnapshots` | state/txn.go:60-78 | Over every run the snapshots taken earlier stay: the same objects, the same refund, the same slice of logs |
| `WorldState.RevertRestores` | state/txn.go:71-78 | After any run in between, in any order, reverting to a snapshot restores balances, nonces, storage, suicide marks and refund as they were when it was taken, and the slice of logs |
| `Logs.AppendKeepsIff` | state/txn.go:192-210 | Appending a log leaves what another slice reads if and only if it is past it in the array, or the cell holds the same log |
| `Logs.RunKeepsLogsOk` | state/txn.go:192-210 | Every slice of logs a run holds lies within its array |
| `Logs.RevertRestoresLogs` | state/txn.go:71-78 | Reverting to a snapshot restores its logs, after any run that in between reverted to later snapshots only |
| `Logs.OutOfOrderIff` | state/txn.go:192-210 | Back to an earlier snapshot, another log, and on to the later one: it reads its own log if and only if the array was full or the logs are equal |
| `Logs.ThreeHaveRoom` | state/txn.go:192-210 | After three logs the array is not full |
| `Logs.NestedRunRefines` | state/txn.go:192-210 | In every run with nested reverts the logs are those of a plain list with whole copies as snapshots |
| `PlainState.EditRefines` | state/txn.go:118-136 | One edit of a state object, seen through the overlay, is the same edit of an entry of a plain map |
| `PlainState.AccountStepView` | state/txn.go:118-136 | Every account operation on the overlay changes the plain view at its address only, and as the plain operation does |
| `PlainState.CleanView` | state/txn.go:536-570 | Deleting suicided and empty objects removes exactly those accounts from the plain view |
| `PlainState.StepRefines` | state/txn.go:90-136 | Every step on the overlay with snapshots is the corresponding step on plain maps with plain snapshots, for accounts and refund |
| `PlainState.RunRefines` | state/txn.go:90-136 | Every run of writes, touches, suicides, cleanings, snapshots and reverts on the overlay is the same run on plain maps, for accounts and refund |
| `PlainState.ReadsAgree` | state/txn.go:183-190 | Hence balance, nonce, code, storage and suicide reads equal the reads on the plain map |
| `Commit.FoldSlotsFolds` | state/immutable-trie/trie.go:145-171 | Folding a list of storage writes, each once, into a storage trie gives the storage the overlay reports; zero deletes |
| `Commit.FoldAt` | state/immutable-trie/trie.go:121-197 | Folding the committed objects changes the base at their addresses only |
| `Commit.CommitFolds` | state/txn.go:572-620 | Folding the objects Commit returns into the base gives exactly the map the overlay reports after cleaning |
| `Refund.HappenKeepsInv` | state/txn.go:231-301 | Each storage write, self-destruct, snapshot, revert or plain operation keeps the refund counter at what is owed, in the current overlay and in every snapshot |
| `Refund.RunKeepsInv` | state/txn.go:231-301 | So does every run of them |
| `Refund.RefundIsOwed` | state/txn.go:231-301 | In every run of a transaction the counter is 15000 for each slot cleared since it began, less that for each filled again, plus the return-to-original bonuses; for the first on a base, 15000 for each slot with non-zero original and zero current value |
| `Metering.NetMetering` | state/txn.go:231-301 | Any run of writes, to any slots in any order: charges less refunds come to a read price for each write and the change of the slots' premiums, whatever lies between |
| `Metering.TransactionNets` | state/runtime/evm/instructions.go:485-540 | The writes of a transaction cost what writing each slot's last value once would, and a read price for every write |
| `Metering.OneSlotNets` | state/txn.go:258-300 | Writes of one slot that end at its original value cost a read price each; ending elsewhere, a single write (20000, 5000, or 5000 less 15000) and a read price for each further one |
| `Metering.ChargeIs` | state/runtime/evm/instructions.go:504-534 | A first change of a slot is charged 20000 or 5000 by its original value, everything else the read price |
| `Metering.LegacyCosts` | state/txn.go:248-260 | Before net metering: 20000 for filling an empty slot, 5000 otherwise, and 15000 back for clearing a full one |
| `Refund.NeverBelowZeroIff` | state/txn.go:445-453 | No run of a transaction takes the counter below zero if and only if it begins with no slot cleared |
| `Refund.RefillOwes` | state/txn.go:231-301 | The first refill of a slot cleared before the transaction began wraps the counter |
| `Refund.SubRefundNeverWraps` | state/txn.go:445-453 | In a transaction that begins with no slot cleared, taking back the refund for a slot that is filled again never takes the counter below zero |
| `Refund.LaterTransactionWraps` | state/txn.go:477-484 | A block whose first transaction clears a slot, and whose second wraps the counter by filling it |
| `TxnHeap.StateObject.Copy` | state/state.go:122-138 | A copy is a new object with the same contents |
| `TxnHeap.Txn.TakeSnapshot` | state/txn.go:61-68 | Returns the next identifier; the snapshot is the current overlay |
| `TxnHeap.Txn.RevertToSnapshot` | state/txn.go:71-78 | The overlay is the snapshot again, its slice of logs over the shared array; snapshots stay |
| `TxnHeap.Txn.GetStateObject` | state/txn.go:90-116 | A private copy of what the overlay holds, else what the base holds, and nothing for a deleted object |
| `TxnHeap.Txn.InsertObject` | state/txn.go:118-136 | Inserting the edited copy is the model step; no snapshot sees it |
| `TxnHeap.Txn.AddSealingReward` | state/txn.go:138-147 | The model step: a suicided account is revived with the reward alone |
| `TxnHeap.Txn.AddBalance` | state/txn.go:150-154 | The model step, on a private copy |
| `TxnHeap.Txn.SubBalance` | state/txn.go:157-173 | Fails, changing nothing, exactly when the balance is smaller than the amount |
| `TxnHeap.Txn.SetBalance` | state/txn.go:176-180 | The model step, on a private copy |
| `TxnHeap.Txn.EmitLog` | state/txn.go:192-210 | Appends to the slice: in place, into the array snapshots may share, while it has room, else to a larger copy |
| `TxnHeap.Txn.SetStorage` | state/txn.go:231-301 | State, refund counter and status are those of the metering specification, whose costs `Metering.NetMetering` sums up |
| `TxnHeap.Txn.SetState` | state/txn.go:304-320 | The model step; zero marks a deleted slot |
| `TxnHeap.Txn.GetState` | state/txn.go:323-343 | Reads the overlay value, else the value of the storage root |
| `TxnHeap.Txn.IncrNonce` | state/txn.go:348-352 | The model step, with 64-bit wrap-around |
| `TxnHeap.Txn.SetNonce` | state/txn.go:355-359 | The model step, on a private copy |
| `TxnHeap.Txn.SetCode` | state/txn.go:374-380 | The model step; the code is marked dirty |
| `TxnHeap.Txn.Suicide` | state/txn.go:419-435 | Marks the account and clears its balance, reporting whether it was there to mark |
| `TxnHeap.Txn.HasSuicided` | state/txn.go:438-442 | Reads the mark |
| `TxnHeap.Txn.AddRefund` | state/txn.go:445-448 | Adds to the counter modulo 2^64 |
| `TxnHeap.Txn.SubRefund` | state/txn.go:450-453 | Subtracts from the counter modulo 2^64 |
| `TxnHeap.Txn.Logs` | state/txn.go:455-464 | Hands out what the slice reads and forgets it |
| `TxnHeap.Txn.GetCommittedState` | state/txn.go:477-484 | Reads the storage root, not the overlay |
| `TxnHeap.Txn.TouchAccount` | state/txn.go:486-490 | Makes sure the account exists in the overlay |
| `TxnHeap.Txn.CreateAccount` | state/txn.go:519-534 | A fresh account that keeps the balance of the old one |
| `TxnHeap.Txn.CleanDeleteObjects` | state/txn.go:536-570 | Marks exactly the suicided and, if asked, the empty objects as deleted and resets the refund; snapshots keep their marks |
| `TxnHeap.Txn.CommitObjects` | state/txn.go:572-620 | Cleans, then lists every object of the overlay once with every storage write once |
| `Conservation.TransferConserves` | state/executor.go:538-554 | A transfer leaves the sum of all balances as it was, also to oneself |
| `Conservation.HostStepConserves` | state/executor.go:751-766 | Every host operation, nested frames included, changes the sum by exactly what it burned |
| `Conservation.CallConserves` | state/executor.go:556-593 | A call frame with any tree of operations under it and any failures changes the sum of balances by exactly what self-destructs burned |
| `Conservation.CreateConserves` | state/executor.go:612-696 | So does a create frame, on every one of its exits |
| `Conservation.NothingBurnedAll` | state/executor.go:751-758 | Nothing is burned when no contract names itself as beneficiary |
| `Conservation.SelfBurnLoses` | state/executor.go:751-758 | A contract that does loses its balance |
| `Rollback.FailedCallRestores` | state/executor.go:556-593 | A failed call at any depth leaves every read, logs included, as at entry; the overlay itself too, unless the value could not be paid, which leaves a touched account |
| `Rollback.FailedCreateRestores` | state/executor.go:612-696 | What a failed creation leaves, on every exit: the entry with the caller's nonce, but for the two exits that do not revert |
| `Rollback.FailedCreateRestoresLogs` | state/executor.go:612-696 | And the logs of the entry, unless before Homestead the code could not be paid |
| `Rollback.HostProtects` | state/executor.go:556-593 | No host operation, nested frames included, overwrites logs that a snapshot below it holds: frames revert in nested order |
| `Rollback.UnpaidCreateLeaks` | state/executor.go:643-648 | The exit for an unpaid value is rolled back if and only if EIP-158 is not active |
| `Payments.TransferMoves` | state/executor.go:538-554 | For every address: the payer has the value less, the payee the value more, also when they are the same; nonces, code, storage and suicide marks are untouched |
| `Payments.StoreWrites` | state/txn.go:304-317 | A storage write changes its slot, and nothing else of any account |
| `Payments.DestroyPays` | state/executor.go:751-758 | A self-destruct sends everything to the beneficiary, or burns it when that is itself, marks the account if it exists and grants 24000 gas the first time |
| `Payments.QuietRunWrites` | state/executor.go:698-705 | Code that writes storage and emits logs leaves all accounts as they were, but for the last value written to each slot |
| `Payments.CallResult` | state/executor.go:556-593 | A call starts exactly when it is not too deep and its value can be paid, and then returns what the code did; else it returns all its gas |
| `Payments.CallMoves` | state/executor.go:556-593 | A successful call moves exactly its value from caller to callee, other kinds of call move nothing, and the slots written stay |
| `Payments.CallTouches` | state/executor.go:566-573 | And it has touched the callee |
| `Payments.CreateResult` | state/executor.go:612-696 | Which of its seven ends a creation comes to, and the gas and code each returns |
| `Payments.CreateInstalls` | state/executor.go:676-695 | A creation that succeeds, whatever its init code did, leaves the code it returned and takes 200 gas for each byte of it |
| `Payments.CreateMoves` | state/executor.go:612-696 | The value has moved, the caller's nonce is one higher, from EIP-158 on the new account has nonce 1 and exactly the storage the init code wrote; no other account changed |
| `Payments.HostFrames` | state/executor.go:760-768 | A frame that code starts is a creation or a call by its kind |
| `BlockExec.TransactionGasCost` | state/executor.go:813-854 | The intrinsic cost, or an error exactly when it does not fit 64 bits |
| `BlockExec.TopGas` | state/executor.go:556-593 | The top frame returns no more gas than it was given |
| `BlockExec.SettleSplits` | state/runtime/runtime.go:114-124 | Gas used and gas left add up to the gas bought, and the refund comes back, or half of what was used if that is less |
| `BlockLaws.ApplyConserves` | state/executor.go:414-497 | An applied message changes the sum of balances by exactly what was burned: gas purchase, refund and coinbase fee cancel |
| `BlockLaws.ApplyConservesExactly` | state/executor.go:414-497 | Without self-burns the sum does not change at all |
| `BlockLaws.RejectedChangesNothing` | state/executor.go:329-342 | A rejected message leaves state, logs, total gas and receipts as they were |
| `Messages.AcceptedIff` | state/executor.go:414-461 | A message is accepted if and only if the nonce is the sender's next, price times limit and value are covered, the pool has the gas, and the limit covers 21000 or 53000 and each byte's price |
| `Messages.RejectedFor` | state/executor.go:414-461 | The reason of a rejection is the first that applies |
| `Messages.RejectedPool` | state/executor.go:426-460 | A rejection costs the pool the gas limit if it comes after the gas was taken |
| `Messages.TopPays` | state/executor.go:470-477 | The top frame moves the value to the recipient, if what it did stays, and else nothing |
| `Messages.ApplySettles` | state/executor.go:414-497 | Around the frame of any message: the sender buys the gas limit before it and gets back what is left, the beneficiary earns the gas used |
| `Messages.ApplyPays` | state/executor.go:414-497 | For every address, whichever of sender, recipient and beneficiary coincide: the sender pays for the limit but what was left, the beneficiary earns the gas used, the recipient gets the value if what the frame did stays |
| `Messages.ApplyPaysForGas` | state/executor.go:485-493 | So the sender pays for exactly the gas used |
| `Messages.ApplyTouches` | state/executor.go:414-497 | The sender's nonce is one higher, failed or not; no other nonce or code changes outside a new contract, and the slots hold what was written if that stays |
| `Messages.ApplyInstalls` | state/executor.go:470-477 | A creation that succeeded has left its code |
| `Messages.ApplyFails` | state/executor.go:470-477 | A message failed exactly when what its frame did does not stay, or the code was not paid for |
| `Messages.ApplyEmits` | state/executor.go:715-717 | Its logs are what the code emitted, in order, if that stays |
| `Messages.ReceiptTells` | state/executor.go:248-300 | The receipt tells hash, gas, cumulative gas, failure, logs and contract; logs and refund counter are empty for the next transaction |
| `Messages.WriteCleans` | state/executor.go:278-282 | No account that a written message touched is left empty or destroyed |
| `Messages.OversizedIsReceipted` | state/executor.go:217-245 | A transaction above the limit gets a failed receipt, and no account and no gas changes |
| `Messages.ReceiptsFollow` | state/executor.go:87-112 | A block processed to its end has one receipt for each transaction, in order |
| `BlockLaws.LostNothingIff` | state/txn.go:536-570 | Cleaning after a transaction loses no balance if and only if no suicided account holds any |
| `BlockLaws.WriteConserves` | state/executor.go:248-300 | The balance sheet of one transaction: burned, lost with deleted accounts, or conserved |
| `BlockLaws.ProcessConserves` | state/executor.go:87-112 | The balance sheet of a whole block up to where its processing ends |
| `BlockLaws.ApplyGas` | state/executor.go:414-497 | An applied message moves exactly the gas it used out of the pool; a rejected one never adds to the pool |
| `BlockLaws.RunKeepsGasInv` | state/executor.go:217-322 | In every run of Write, WriteFailedReceipt and Apply, failed attempts included, gas spent and gas on offer stay within the block limit and every cumulative gas is the prefix sum |
| `BlockLaws.ProcessedWithinLimit` | state/executor.go:87-112 | The same of the loop over a block's transactions |
| `BlockLaws.BlockStaysWithinLimit` | state/executor.go:217-322 | Starting from an empty block |
| `TransitionHeap.Transition.DoTransfer` | state/executor.go:538-554 | The state is that of the model, which `Payments.TransferMoves` gives address by address; fails exactly when the balance is too small |
| `TransitionHeap.Transition.DoSelfdestruct` | state/executor.go:751-758 | The state is that of the model |
| `TransitionHeap.Transition.DoApplyCall` | state/executor.go:556-593 | State and result of a call frame, recursively, are those of the model |
| `TransitionHeap.Transition.DoApplyCreate` | state/executor.go:612-696 | State and result of a create frame, recursively, are those of the model, which `Payments.CreateInstalls` and `Payments.CreateMoves` describe |
| `TransitionHeap.Transition.SubGasPool` | state/executor.go:310-318 | Takes gas from the pool, or fails and leaves it, exactly when there is too little |
| `TransitionHeap.Transition.AddGasPool` | state/executor.go:320-322 | Gives gas back modulo 2^64 |
| `TransitionHeap.Transition.ApplyMessage` | state/executor.go:414-497 | Rejects for the first rule the message breaks, else executes it, with the payments of `Messages.ApplyPays` |
| `TransitionHeap.Transition.UpdateGasUsed` | state/runtime/runtime.go:114-124 | Used and left gas after the capped refund |
| `TransitionHeap.Transition.DoApply` | state/executor.go:329-342 | State, pool and outcome of a message; a rejected one is rolled back |
| `TransitionHeap.Transition.DoWrite` | state/executor.go:248-300 | State, total gas and receipts of a written transaction |
| `TransitionHeap.Transition.DoWriteFailedReceipt` | state/executor.go:217-245 | A failed receipt with the gas so far |
| `TransitionHeap.Transition.ProcessBlock` | state/executor.go:87-112 | All transactions in order; the first rejected one ends the block |
| `GasLimit.VerifyMeaningIff` | blockchain/blockchain.go:1057-1088 | The check means at most 1/1024 away from the parent's limit exactly unless the distance measured the other way round 64 bits is within the bound |
| `GasLimit.VerifyFarApart` | blockchain/blockchain.go:1057-1088 | A pair of limits far apart that passes |
| `GasLimit.CalculateMoves` | blockchain/blockchain.go:385-413 | The calculated limit stays within the bound and moves towards the target, never past it, exactly unless raising the parent's limit overflows |
| `GasLimit.CalculatedPasses` | blockchain/blockchain.go:385-413 | Whatever the parent's limit and the target, the calculated limit passes the check |
| `GasLimit.BuiltHeaderPasses` | consensus/dev/dev.go:154-198 | Every locally built header, from any transactions with any outcomes, passes the check against its parent |
| `ForkChoice.RecordedIsPathSum` | blockchain/blockchain.go:593-616 | A recorded total difficulty is the sum of difficulties along the parent path |
| `ForkChoice.HeadIsLeaf` | blockchain/blockchain.go:1134-1193 | No recorded header descends from the head |
| `ForkChoice.WriteKeepsInv` | blockchain/blockchain.go:1134-1193 | Every header write keeps the tree well formed, the head the heaviest recorded header and its difficulty from going down |
| `ForkChoice.RunKeepsInv` | blockchain/blockchain.go:1134-1193 | Over every run of extensions, forks and reorganisations |
| `ForkChoice.HeadChangesIff` | blockchain/blockchain.go:1134-1193 | The head changes if and only if the header extends it or makes another branch strictly heavier |
| `ForkChoice.AddForkMembers` | blockchain/blockchain.go:1196-1220 | A fork takes its parent's place in the list |
| `ForkChoice.RunListsTips` | blockchain/blockchain.go:1134-1302 | In every run of header writes each branch tip is the head or listed as a fork |
| `ForkChoice.ExtendKeepsLinked` | blockchain/blockchain.go:470-488 | Extending the head, or adding a fork, keeps the number index exactly the path from genesis to the head |
| `ForkChoice.RunKeepsLinked` | blockchain/blockchain.go:470-529 | Over every run of extensions, forks and such reorganisations the index stays exactly that path |
| `ForkChoice.ReorgLinkedIff` | blockchain/blockchain.go:1256-1302 | After a reorganisation the index is exactly that path if and only if the branches part right below the old head and the new head is not lower |
| `ForkChoice.LowerHeadLeavesEntry` | blockchain/blockchain.go:1285-1291 | A heavier rival of the first of two headers becomes the head, and the index keeps the number above it |
| `ForkChoice.ReorgLeavesHead` | blockchain/blockchain.go:1223-1302 | A header that triggers a reorganisation does not descend from the head |
| `ForkChoice.MeetBelowHead` | blockchain/blockchain.go:1223-1302 | So the branches meet strictly below the old head, and cutting the shared header off the old branch is in range |
| `BlockchainHeap.Blockchain.ReadHeader` | blockchain/blockchain.go:547-571 | The cached read agrees with the store |
| `BlockchainHeap.Blockchain.ReadTotalDifficulty` | blockchain/blockchain.go:593-616 | The cached read agrees with the store |
| `BlockchainHeap.Blockchain.Evict` | blockchain/blockchain.go:240-259 | Forgetting a cached entry changes nothing |
| `BlockchainHeap.Blockchain.WriteCanonicalHeader` | blockchain/blockchain.go:470-488 | Extends the head: store, caches and head are those of the model |
| `BlockchainHeap.Blockchain.AdvanceHead` | blockchain/blockchain.go:491-529 | Head, index and total difficulty move to the header |
| `BlockchainHeap.Blockchain.WriteFork` | blockchain/blockchain.go:1196-1220 | The fork list drops the parent and gains the header |
| `BlockchainHeap.Blockchain.FindMeet` | blockchain/blockchain.go:1223-1278 | The walk down both branches terminates at the header they share, having visited exactly the old branch |
| `BlockchainHeap.Blockchain.HandleReorg` | blockchain/blockchain.go:1223-1302 | The switch to the heavier branch, and the event that lists the old branch without the shared header |
| `BlockchainHeap.Blockchain.WriteHeaderImpl` | blockchain/blockchain.go:1134-1193 | Extends, forks, reorganises or refuses as the model does, with the event of each, and keeps the invariant and the caches true |
| `Heap.RootIsFirst` | txpool/queue.go:81-87 | The root of a heap comes before every element |
| `Heap.PushKeepsHeap` | txpool/queue.go:76-78 | Pushing keeps the heap and adds exactly the element |
| `Heap.PopKeepsHeap` | txpool/queue.go:90-101 | Popping keeps the heap and removes exactly the root |
| `Heap.RemoveKeepsHeap` | jsonrpc/filter_manager.go:752-760 | Removing at a position keeps the heap and removes exactly that element |
| `TxAccount.PruneSplits` | txpool/queue.go:50-62 | Pruning splits a queue by nonce, losing nothing |
| `TxAccount.PromoteMovesBestRun` | txpool/account.go:256-305 | Promotion moves exactly the longest gap-free run from the next nonce, a highest-priced transaction for each nonce; moved, pruned and remaining are the old queue |
| `TxAccount.PromoteKeepsOk` | txpool/account.go:256-305 | Promotion keeps promoted nonces a gap-free run with one transaction each ending at the next nonce, for every account that misses some nonce up to the last one |
| `TxAccount.PromoteKeepsOkIff` | txpool/account.go:256-305 | Promotion keeps the account well formed if and only if it misses some nonce from the next one to 2^64 - 1 |
| `TxAccount.LastNonceBreaks` | txpool/account.go:256-305 | An account at the last nonce that offers it breaks |
| `TxAccount.EnqueueKeepsOk` | txpool/account.go:232-249 | Enqueueing keeps the account well formed and adds exactly the transaction |
| `TxAccount.ResetKeepsOk` | txpool/account.go:196-229 | Resetting keeps the account well formed |
| `TxAccount.ResetSplits` | txpool/account.go:196-229 | Resetting leaves exactly the transactions the new state can still execute |
| `TxPool.SlotsRequired` | txpool/slot_gauge.go:41-48 | The slots of a list, modulo 2^64, in any order |
| `TxPool.DecreaseSubtracts` | txpool/slot_gauge.go:30-32 | Adding the complement of slots - 1 is subtraction modulo 2^64 |
| `TxPool.AddTxKeepsInv` | txpool/txpool.go:724-765 | Adding a transaction keeps accounts, gauge and counter right, whichever check refuses it, and the index unless hashes collide |
| `TxPool.EnqueueKeepsInv` | txpool/txpool.go:771-800 | So does handling an enqueue request, the index included |
| `TxPool.PromoteKeepsInv` | txpool/txpool.go:805-820 | So does handling a promote request, the index included |
| `TxPool.PromoteKeepsAccountsIff` | txpool/txpool.go:805-820 | It keeps the accounts well formed if and only if the account misses some nonce |
| `TxPool.PopKeepsInv` | txpool/txpool.go:411-434 | Popping for any transaction keeps accounts and index right |
| `TxPool.PopCountsIff` | txpool/txpool.go:411-434 | Popped for any transaction, the books stay right if and only if there is a head of as many slots |
| `TxPool.DropKeepsInv` | txpool/txpool.go:438-483 | Dropping an account for any transaction keeps accounts, gauge and counter right |
| `TxPool.DropKeepsIndexIff` | txpool/txpool.go:438-483 | It keeps the index right if and only if no doubtful request of the sender, one the index has lost or that is there twice, has that nonce or a later one |
| `TxPool.LowestIsSafe` | txpool/account.go:319-335 | The account's lowest transaction always is safe to drop for |
| `TxPool.DemoteKeepsInv` | txpool/txpool.go:488-507 | Demoting for any transaction does the same, dropping at the limit |
| `TxPool.PruneHoleKeepsInv` | txpool/txpool.go:692-718 | Pruning an account with a nonce hole keeps everything right |
| `TxPool.SkipsKeepInv` | txpool/txpool.go:924-957 | So does counting skips, with the drop at the limit |
| `TxPool.ProcessEventKeepsInv` | txpool/txpool.go:523-602 | So does a new block: its transactions leave the index, those of the branch it replaces are added again, its senders are reset in any order |
| `TxPool.CleanUpLater` | txpool/txpool.go:865-920 | Cleaning up once after all resets equals cleaning up after each |
| `PoolAnswers.SlotsCover` | txpool/slot_gauge.go:41-48 | A transaction takes the fewest slots of 32 kB that hold it |
| `PoolAnswers.AddTxIff` | txpool/txpool.go:724-765 | A transaction is accepted if and only if it is valid, not passed by the state, unknown, fits the gauge and, above four fifths, is not ahead of its sender's next nonce; a refused one changes nothing |
| `PoolAnswers.AddTxAnnounces` | txpool/txpool.go:750-765 | An accepted one is indexed and requested, a new sender gets an empty account at the state's nonce, and nothing else changes |
| `PoolAnswers.EnqueueIff` | txpool/txpool.go:771-800 | A request is granted if and only if there is room and the nonce is not below the next one; a refused transaction leaves the index, a granted one is enqueued and takes its slots |
| `PoolAnswers.PruneHoleIff` | txpool/txpool.go:692-718 | Enqueued transactions are cleared if and only if none has the next nonce |
| `PoolAnswers.PruneHolesAt` | txpool/txpool.go:692-718 | For every account that is visited, and no other |
| `PoolAnswers.SkipsCount` | txpool/txpool.go:924-957 | An account in the block starts its count again, another that holds any counts one more, and at the tenth is emptied down to its lowest nonce |
| `PoolAnswers.AllSkipsAt` | txpool/txpool.go:924-957 | For every account that is visited, and no other |
| `PoolAnswers.ResetKeepsExactly` | txpool/account.go:196-228 | Aligning an account keeps of each queue exactly what the state has not passed, forgets the rest, and moves the next nonce up to the state's |
| `PoolAnswers.ResetAllAt` | txpool/txpool.go:865-920 | For every account that is visited, and no other |
| `PoolAnswers.ReturnedIsKnown` | txpool/txpool.go:588-593 | Transactions of the replaced branch that the pool takes are known again |
| `PoolAnswers.MinedIsForgotten` | txpool/txpool.go:523-602 | None of a block's transactions is in the index once it is processed |
| `PoolRuns.StepKeepsAccounts` | txpool/txpool.go:411-507 | Every step of the pool, with any arguments, keeps every account well formed |
| `PoolRuns.StepKeepsCounted` | txpool/txpool.go:411-507 | Every step keeps gauge and counter right, a pop if and only if it books a head of as many slots |
| `PoolRuns.StepKeepsIndex` | txpool/txpool.go:411-507 | Every step keeps the index right, a drop if and only if it lets no doubtful request in |
| `PoolRuns.RunKeepsCounted` | txpool/txpool.go:724-820 | Gauge and counter over every interleaving |
| `PoolRuns.RunKeepsIndex` | txpool/txpool.go:724-820 | The index over every interleaving |
| `PoolRuns.ReachableAccounts` | txpool/account.go:196-305 | In every reachable pool, whatever the arguments of the steps and however the chain's nonces move, each account's promoted nonces are a gap-free run ending below the next nonce, enqueued nonces start at it and the enqueued limit holds |
| `PoolRuns.ReachableCounts` | txpool/txpool.go:411-483 | In every reachable pool whose pops booked their heads the gauge is the sum of slots of all queued transactions and pending the number of promoted ones |
| `PoolRuns.ReachableIndex` | txpool/txpool.go:523-602 | In every reachable pool whose drops let no doubtful request in every queued transaction is in the index and queued once |
| `PoolRuns.StaleDropBreaksIndex` | txpool/txpool.go:438-483 | A run from the empty pool that ends with a transaction queued and not in the index, for every transaction and every stale one |
| `TxPoolHeap.PoolAccount.Enqueue` | txpool/account.go:232-249 | Queues and error are those of the model |
| `TxPoolHeap.PoolAccount.Promote` | txpool/account.go:256-305 | Queues, next nonce, moved and pruned transactions are those of the model |
| `TxPoolHeap.PoolAccount.Reset` | txpool/account.go:196-229 | Queues, next nonce and pruned transactions are those of the model |
| `TxPoolHeap.PoolAccount.GetLowestTx` | txpool/account.go:319-335 | The head of the promoted queue, else of the enqueued one |
| `TxPoolHeap.RemoveAll` | txpool/lookup_map.go:31-38 | The index without the hashes of the list |
| `TxPoolHeap.TransactionPool.AddTx` | txpool/txpool.go:724-765 | Pool and error are those of the model |
| `TxPoolHeap.TransactionPool.HandleEnqueueRequest` | txpool/txpool.go:771-800 | The pool is that of the model |
| `TxPoolHeap.TransactionPool.HandlePromoteRequest` | txpool/txpool.go:805-820 | The pool is that of the model |
| `TxPoolHeap.TransactionPool.Pop` | txpool/txpool.go:411-434 | The pool is that of the model, and the next head is offered |
| `TxPoolHeap.TransactionPool.Drop` | txpool/txpool.go:438-483 | The pool is that of the model |
| `TxPoolHeap.TransactionPool.Demote` | txpool/txpool.go:488-507 | The pool is that of the model |
| `TxPoolHeap.TransactionPool.PruneAccountsWithNonceHoles` | txpool/txpool.go:692-718 | Every account visited is pruned as in the model |
| `TxPoolHeap.TransactionPool.UpdateAccountSkipsCounts` | txpool/txpool.go:924-957 | Every account visited is counted as in the model |
| `TxPoolHeap.TransactionPool.ResetAccounts` | txpool/txpool.go:865-920 | Collecting what all accounts pruned and cleaning up once gives the pool of resetting them one by one |
| `TxPoolHeap.TransactionPool.ProcessEvent` | txpool/txpool.go:523-602 | The pool after a new block, with returned transactions, resets and skips, is that of the model |
| `TxPoolHeap.TransactionPool.AddReturned` | txpool/txpool.go:588-593 | The transactions of an abandoned branch are added one by one |
| `TxPoolHeap.TransactionPool.Prepare` | txpool/txpool.go:380-393 | The executables are the heads of all promoted queues in a price heap; the pool is unchanged |
| `TxPoolHeap.TransactionPool.Peek` | txpool/txpool.go:397-405 | Takes the best executable, if any; the pool is unchanged |
| `TxPoolHeap.TransactionPool.WriteTransactions` | consensus/dev/dev.go:112-150 | The loop ends and leaves the pool, the executables and the block of the model, each turn as `PoolAnswers.TurnWrites`, `PoolAnswers.TurnDemotes`, `PoolAnswers.TurnDrops` and `PoolAnswers.TurnStops` describe |
| `BlockBuilder.PrepareReady` | txpool/txpool.go:380-393 | Preparing gathers each account's promoted head, once |
| `BlockBuilder.PickKeepsInv` | consensus/dev/dev.go:112-150 | Each turn, whatever the write answers, keeps the executables the promoted heads, one for each account, and the executed nonces in sequence |
| `BlockBuilder.PickMakesProgress` | consensus/dev/dev.go:112-150 | Each turn uses up a promoted transaction or an executable, so the loop ends |
| `PoolAnswers.TurnWrites` | consensus/dev/dev.go:141-145 | Written: exactly the head has left its sender's queue, with its slots; the next head is offered, the transaction is in the block |
| `PoolAnswers.TurnDemotes` | consensus/ibft/consensus_backend.go:378-388 | Recoverable, below the limit: the sender's queues, next nonce, index and counters stay, and its demotions are counted |
| `PoolAnswers.TurnDrops` | consensus/ibft/consensus_backend.go:355-398 | Unrecoverable, above the gas limit, or demoted ten times before: both queues of the sender are empty, its next nonce is the transaction's, nothing it held is indexed or counted, and no other account changed |
| `PoolAnswers.TurnStops` | consensus/dev/dev.go:129-131 | The block is full: the pool stays as it is and the loop ends |
| `BlockBuilder.PickIsBest` | txpool/queue.go:221-223 | Each pick has the highest price, by its low 64 bits, among all available heads |
| `BlockBuilder.PickIsBestPriceIff` | txpool/queue.go:221-223 | An available head offers no more than the pick if and only if it does so in units of 2^64 |
| `BlockBuilder.HugePriceLoses` | txpool/queue.go:221-223 | With two senders, the pick of the block is the cheaper transaction whenever the dearer one has the lower low 64 bits |
| `BlockBuilder.BuiltBlockInSequence` | consensus/ibft/consensus_backend.go:288-398 | For any pool, answers and deadline the built block has each sender's nonces in sequence and the pool stays well formed |
| `BlockBuilder.PickKeepsCore` | consensus/dev/dev.go:112-150 | Each turn keeps the executables promoted heads, one for each account, and executed nonces in sequence, on any pool with well-formed accounts |
| `BlockBuilder.InterleavedInSequence` | consensus/ibft/consensus_backend.go:288-398 | The same with additions, enqueue and promote requests, hole pruning and movements of the chain before, between and after the turns |
| `Rlp.ParseEncode` | types/rlp_unmarshal.go:16-35 | Appendix B of the Yellow Paper: every value is read back from its encoding, whatever follows it |
| `Rlp.EncodePrefixFree` | types/rlp_marshal.go:13-19 | No encoding is a prefix of another value's |
| `RlpTypes.UnmarshalAll` | types/rlp_unmarshal.go:58-65 | The loop decodes element by element; the first failure is the result |
| `RlpTypes.HeaderLayout` | types/rlp_marshal.go:65-87 | The fifteen fields of a header in the order of section 4.3 of the Yellow Paper, numbers as shortest big-endian strings |
| `RlpTypes.TransactionLayout` | types/rlp_marshal.go:167-190 | The nine fields of a transaction in the order of section 4.2 |
| `RlpTypes.ReceiptLayout` | types/rlp_marshal.go:111-156 | A receipt and its logs in the order of section 4.3.1 |
| `RlpTypes.HeaderRoundTrip` | types/rlp_unmarshal.go:94-172 | Decoding undoes encoding for every header |
| `RlpTypes.TransactionRoundTripIff` | types/rlp_unmarshal.go:296-358 | All but the sender comes back exactly when no integer is negative |
| `RlpTypes.StoreTransactionRoundTripIff` | types/rlp_unmarshal_storage.go:64-84 | In the store the sender comes back too |
| `RlpTypes.LogRoundTrip` | types/rlp_unmarshal.go:255-289 | Decoding undoes encoding for every log |
| `RlpTypes.UnmarshalReceipt` | types/rlp_unmarshal.go:201-253 | The loop computes the decoder |
| `RlpTypes.ReceiptRoundTripIff` | types/rlp_unmarshal.go:201-253 | The consensus fields come back exactly when the status, if there is one, is a single byte; a root is carried only without a status |
| `RlpTypes.StoreReceiptRoundTripIff` | types/rlp_unmarshal_storage.go:112-154 | In the store gas, contract address and transaction hash come back too |
| `RlpTypes.OldStoreReceiptRoundTrip` | types/rlp_unmarshal_storage.go:140-151 | Receipts of the older store format come back without a transaction hash |
| `RlpTypes.StoreReceiptsRoundTripIff` | types/rlp_unmarshal_storage.go:90-106 | The same for lists of receipts |
| `RlpTypes.UnmarshalBlock` | types/rlp_unmarshal.go:41-88 | The loops compute the decoder |
| `RlpTypes.BlockRoundTripIff` | types/rlp_unmarshal.go:41-88 | A block comes back exactly when its transactions hold nothing the wire drops |
| `RlpTypes.UnmarshalBody` | types/rlp_unmarshal_storage.go:17-58 | The loops compute the decoder |
| `RlpTypes.BodyRoundTripIff` | types/rlp_unmarshal_storage.go:17-58 | A stored body comes back, senders and all, exactly when no integer is negative |
| `RlpTypes.MetadataRoundTrip` | archive/types.go:27-60 | Decoding undoes encoding for archive metadata |
| `RlpTypes.RecordBytesRoundTrip` | types/rlp_marshal.go:65-190 | Headers, transactions and receipts come back from their bytes under the same conditions |
| `RlpTypes.BlockBytesRoundTrip` | types/rlp_marshal.go:29-54 | So do blocks |
| `RlpTypes.StoreBytesRoundTrip` | types/rlp_marshal_storage.go:15-89 | So do stored bodies and receipts |
| `Archive.ExportCutsIntoChunks` | server/system_service.go:254-306 | The events cut the blocks into chunks, every block once and in order, and a chunk ends only where the next block does not fit; each names its first and last block, and chunks of more than one block stay under the payload limit |
| `ArchiveHeap.VisitedAre` | server/system_service.go:174-237 | An export visits consecutive heights and stops where a block is missing or not wanted |
| `Archive.ExportIsLossless` | server/system_service.go:254-306 | The chunks put together are the encodings of all blocks put together |
| `Archive.LoadArrayOfEncoding` | archive/restore.go:198-306 | Loading takes exactly one list off a stream that starts with its encoding, whatever the buffer held |
| `Archive.LoadDeliversIff` | archive/restore.go:264-273 | The load succeeds as soon as a byte of the payload is there, but delivers the stream exactly when all of it is |
| `Archive.ReadBlocksOfBytes` | archive/restore.go:179-195 | Repeated loads over concatenated encodings return exactly those blocks and then the end of the stream |
| `Archive.RestoreUndoesExport` | archive/restore.go:42-108 | Export, then restore: the metadata, every block in order, then the end, for every payload limit |
| `ArchiveHeap.BlockStreamWriter.AppendBlock` | server/system_service.go:254-273 | Buffer, range and stream are those of the model |
| `ArchiveHeap.BlockStreamWriter.FlushBuffer` | server/system_service.go:275-300 | Sends the buffer with its range, and nothing when it is empty |
| `ArchiveHeap.ExportBlocks` | server/system_service.go:174-223 | Refuses an empty range; else exports exactly the blocks from the first height on, to the last, the head being asked for again each time, or to the first gap |
| `ArchiveHeap.BlockStream.ReserveCap` | archive/restore.go:300-306 | The buffer has the size and keeps its contents |
| `ArchiveHeap.BlockStream.LoadPrefixSize` | archive/restore.go:232-261 | Header and payload size as the first byte announces them, or the error |
| `ArchiveHeap.BlockStream.LoadPayload` | archive/restore.go:264-273 | The buffer after a read that may fall short |
| `ArchiveHeap.BlockStream.LoadRLPArray` | archive/restore.go:198-217 | Stream, buffer and result are those of the model |
| `ArchiveHeap.BlockStream.NextBlock` | archive/restore.go:179-195 | The next block, the end of the stream, or the error |
| `ArchiveHeap.BlockStream.Restore` | archive/restore.go:42-108 | The loop takes off the stream the blocks the model reads |
| `ValidatorSet.AddKeepsDistinct` | validators/set.go:84-96 | Adding keeps addresses distinct and adds exactly the address |
| `ValidatorSet.RemoveKeepsDistinct` | validators/set.go:99-113 | Removing keeps addresses distinct and removes exactly the address |
| `ValidatorSet.MergeIsUnion` | validators/set.go:116-134 | Merging keeps addresses distinct, keeps the members in place and adds exactly the missing addresses |
| `ValidatorSet.RemoveUndoesAdd` | validators/set.go:84-113 | Removing a validator that was just added restores the set |
| `ValidatorSet.BuiltSetIsDistinct` | validators/set.go:84-134 | Every set built by additions, removals and merges has as many addresses as members |
| `ValidatorSet.Validators.Index` | validators/set.go:67-75 | The first position of the address, or -1 exactly when it is not there |
| `ValidatorSet.Validators.Includes` | validators/set.go:79-81 | Membership of the address |
| `ValidatorSet.Validators.AddValidator` | validators/set.go:84-96 | New members and error, for each of the three cases |
| `ValidatorSet.Validators.DelValidator` | validators/set.go:99-113 | New members and error, for each of the three cases |
| `ValidatorSet.Validators.MergeWith` | validators/set.go:116-134 | New members and error; no addition on the way fails |
| `Quorum.IntersectsIff` | consensus/ibft/validators.go:10-49 | Any two quorums of a size share more than F members if and only if twice the size exceeds N + F, or nobody can reach it |
| `Quorum.MaxFaultyIff` | consensus/ibft/validators.go:10-26 | F is the largest number of faults below a third of the validators |
| `Quorum.OptimalIsTwoThirds` | consensus/ibft/validators.go:36-49 | From four validators on the optimal size is two thirds rounded up |
| `Quorum.OptimalIsSafeAndLive` | consensus/ibft/validators.go:36-49 | For every set built and not empty: optimal quorums share more than F members, and N - F members reach one |
| `Quorum.LegacyIsSafeIff` | consensus/ibft/validators.go:29-33 | The legacy size guarantees that overlap exactly when N = 3F + 1, or there is nobody |
| `Quorum.OptimalIsLeastIff` | consensus/ibft/validators.go:36-49 | No smaller size does, exactly unless N = 3 |
| `Quorum.OneBlockPerHeight` | consensus/ibft/ibft.go:447-453 | With at most F faulty validators two blocks of one height cannot both be finalised, at heights with the optimal size or when N = 3F + 1 |
| `Quorum.EveryoneProposesOnce` | consensus/ibft/validators.go:51-73 | In any N rounds in a row whose seeds do not overflow, every validator proposes exactly once |
| `Filters.RootExpiresFirst` | jsonrpc/filter_manager.go:605-617 | The root of the timeout heap is the filter that expires first |
| `Filters.NewKeepsInv` | jsonrpc/filter_manager.go:579-593 | A new filter is listed in the heap exactly when it has no web socket |
| `Filters.UninstallKeepsInv` | jsonrpc/filter_manager.go:541-555 | Removing a filter keeps the heap the list of filters without a web socket |
| `Filters.PollKeepsInv` | jsonrpc/filter_manager.go:495-506 | So does a poll, which starts the timeout afresh |
| `Filters.PollAnswers` | jsonrpc/filter_manager.go:495-530 | A poll hands out the blocks since the last, moves the filter to the head of the stream and gives it the new time, in table and heap; no other filter changes |
| `Filters.NewAnswers` | jsonrpc/filter_manager.go:334-345 | A new filter starts at the head of the stream with its time, in table and heap |
| `Filters.UninstallAnswers` | jsonrpc/filter_manager.go:533-555 | An uninstalled filter is gone from table and heap, and nothing else is |
| `Filters.RunKeepsInv` | jsonrpc/filter_manager.go:533-617 | So does every sequence of operations, and every block filter was handed exactly the blocks from its creation to its cursor |
| `Filters.PollsDeliverEverything` | jsonrpc/filter_manager.go:117-130 | After any run a poll leaves a block filter with every block pushed since its creation, once each and in order |
| `FiltersHeap.BlockStream.Push` | jsonrpc/filter_manager.go:812-824 | The linked list gains the block; the elements before it stay in place |
| `FiltersHeap.GetUpdates` | jsonrpc/filter_manager.go:831-851 | Following the list from a cursor yields the blocks behind it, and the head |
| `FiltersHeap.TimeHeap.Swap` | jsonrpc/filter_manager.go:768-772 | Swaps, and every filter in the heap still knows its position |
| `FiltersHeap.TimeHeap.AddFilter` | jsonrpc/filter_manager.go:748-750 | The heap after a push; every filter knows its position |
| `FiltersHeap.TimeHeap.RemoveFilter` | jsonrpc/filter_manager.go:752-760 | The heap after removing at the remembered position, which is the filter's; it then remembers none |
| `FiltersHeap.TimeHeap.PopLast` | jsonrpc/filter_manager.go:781-790 | The last element leaves and forgets its position |
| `FiltersHeap.FilterManager.Install` | jsonrpc/filter_manager.go:579-593 | Filters and heap are those of the model; members of the heap are exactly the filters without a web socket |
| `FiltersHeap.FilterManager.RemoveFilterByID` | jsonrpc/filter_manager.go:541-555 | Filters and heap are those of the model |
| `FiltersHeap.FilterManager.TakeBlockUpdates` | jsonrpc/filter_manager.go:117-122 | Hands out the new blocks and moves the cursor to the head |
| `FiltersHeap.FilterManager.GetFilterChanges` | jsonrpc/filter_manager.go:495-530 | Changes or error, and filters and heap, are those of the model |
| `FiltersHeap.FilterManager.RefreshFilterTimeout` | jsonrpc/filter_manager.go:566-569 | Takes the filter out of the heap and puts it back with the new time |
| `FiltersHeap.FilterManager.PushBlock` | jsonrpc/filter_manager.go:633-648 | The stream gains the block; no cursor moves |
| `FiltersHeap.FilterManager.NextTimeoutFilter` | jsonrpc/filter_manager.go:605-617 | The filter that expires first, or none exactly when all have web sockets |
| `HexPrefix.DecodeEncodeIff` | state/immutable-trie/encoding.go:15-80 | A nibble sequence comes back from its encoding, of any length, with or without terminator, and nothing else does |
| `HexPrefix.EncodeDecodeIff` | state/immutable-trie/encoding.go:15-80 | An encoding comes back from its key exactly when it is well formed |
| `HexPrefix.EncodeInjective` | state/immutable-trie/encoding.go:15-45 | Different keys have different encodings |
| `HexPrefix.EncodeIsHP` | state/immutable-trie/encoding.go:15-45 | The code computes HP of Appendix C of the Yellow Paper |
| `HexPrefix.EncodeCompact` | state/immutable-trie/encoding.go:15-45 | The loop fills the array with the encoding |
| `HexPrefix.BytesToHexNibbles` | state/immutable-trie/encoding.go:49-59 | The loop fills the array with two nibbles for each byte and a terminator |

## Left out

- EVM interpreter, precompiles, tracers, contract allow-lists and the post hook: the executor runs any tree of host operations instead.
- Reading code through the code cache, which is keyed by address: code is read from the account.
- Keccak, ECDSA, BLS and the signer: hashes are injective and senders given.
- The IBFT message protocol, networking, gRPC, JSON-RPC dispatch, command line and secrets.
- Pool validation of a transaction (size, signature, price, funds, deployment allow-list): one boolean, since none of it touches the pool.
- TxPoolHeap.TransactionPool.AddTx: the pruning signal sent under high pressure is left out, because pruning is a step that may come at any time.
- Drops, demotions and resets by other threads between the turns of the block-building loop: the interleaved steps are the others.
- The pending counter is an unbounded integer, not an int64.
- Gossip of transactions, and the pool's events and metrics.
- Bodies, receipts and transaction lookups of blocks, the rolling gas price average and block verification against the consensus engine.
- The order in which the LRU caches evict: a cache may forget any entry at any time.
- Receipts and transactions of the IBFT builder when a transaction exceeds the block limit: the receipt is appended, the transaction is not.
- Blooms: their bytes are carried, their membership test is not modelled.
- Nil big integers, the arena and the parser's treatment of inputs that no encoder produces: the parser is Appendix B read backwards.
- TxPoolHeap.TransactionPool: queues, index and executables are sequences and maps that methods reassign; locks and slice aliasing are not captured.
- ArchiveHeap.BlockStream: the reader fills every read as far as it has bytes; allocation failure below 2^63 bytes is not captured.
- ArchiveHeap.BlockStream.Restore: skipping blocks the chain already has, verification and writing are left out; the sequence of blocks read is the result.
- Refund.RefundIsOwed: runs that create contracts, and blocks that have deleted an account, are left out, because such accounts no longer stand on their base storage.
- TxnHeap.Txn.Logs: the logs handed out are a copy; a receipt's slice of the shared array is not modelled, because no transaction reverts below its own start.
- Messages.ApplyPays: the closed formula is for code that writes storage and emits logs; of code that calls or self-destructs too, `Messages.ApplySettles` gives the payments around the frame, and `Payments.CallMoves`, `Payments.CreateMoves` and `Payments.DestroyPays` those of each frame within.
- Metering.NetMetering: runs with reverts in between are left out, because a revert takes the refunds back and not the charges.
- Quorum.EveryoneProposesOnce: says nothing of rounds whose seeds overflow 64 bits.
- Log filters: their logs are not modelled, their timeouts are.
- Writing updates to web sockets: taking them is modelled, failures of the connection are removals.
- The window between the two locks of a poll: a poll is one step.
- JSON and RLP forms of validator sets, and validator stores.
