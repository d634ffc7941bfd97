# Verified models of the xupercore ledger, state machine, schedulers and sandbox

This project models the parts of xupercore where correctness is hardest to see from the code, and proves what they are for.

* **Ledger** (`Types`, `Chain`, `Tables`, `Branches`, `Forks`, `Orphans`, `Search`, `Ledger`): `ConfirmBlock` and `handleFork` grow a tree of blocks and re-mark the trunk step by step; `FindUndoAndTodoBlocks` and `GetCommonParentBlockid` search it; `Truncate` cuts it back. The persisted tables are maps, a batch is a local copy of them, and writing the batch is one assignment. The incremental code is proved to refine a definition that sets all marks from scratch, and the trunk, index and branch-table invariants are proved for every run of confirmations and truncations. Which blocks such a ledger accepts is stated on the chains and their transactions alone.
* **State machine** (`Utxo`, `Value`, `Replays`, `Unconfirmed`, `Steps`, `Walks`, `Reposts`, `State`, `Caches`, `Failures`, `Recovery`): `Walk` undoes and redoes whole blocks, `PlayForMiner` and `PlayAndRepost` play a block on top of unconfirmed transactions, `doTxSync` takes new ones. The specification is a replay: the UTXO table is what the transactions on the chain from the root to `latestBlockid`, and then the unconfirmed ones, leave behind. `Tracks` says that this replay is clean and that the table has its outputs and amounts, `Exact` that it has the frozen heights too; `Drift` and `Gap` say how far the in-memory and the recorded total are off. Every step of the class `State` is proved equal to a function in `Steps`, `Walks` or `Reposts`, from any state, failing or not, and the lemmas there say exactly when the step keeps the table in step and how it moves the totals. The input check reads the UTXO cache, the batch cache and then the table as it was before the batch, as the code does, so that a block may spend an output twice; `Fits` is the condition under which entries can be done on a table.
* **What the table means and what is accepted** (`Meaning`): the UTXO table is stated from the transactions on the chain and the unconfirmed ones, without the replay, and so are the exact conditions under which a submission gets in and a block is played.
* **Runs of a node** (`Node`, `Finality`, `Frozen`): confirmations, truncations, walks, submissions, mined and received blocks in any order keep the ledger's invariants and the table together. Blocks buried by the slide window are final, and frozen outputs of final blocks are not spent, over every run.
* **Topological sort** (`Graph`, `TopSort`), **TDPoS schedule** (`Tdpos`), **contract sandbox** (`Bytes`, `MemModel`, `WriteSets`, `Sandbox`, `Effects`, `Iterators`), **Merkle tree** (`Merkle`), **XPoA authorization** (`Xpoa`), **PoW targets** (`Pow`): one module or group of modules each.

Objects whose methods update their fields are classes, loops are loops, and each method is proved against a function of its inputs or of the old state; the laws are lemmas about those functions.

## Assumptions

* Block ids are fresh hashes, a transaction id determines its transaction, and a block arrives with an empty `NextHash`, as `Tables.Incoming` says. A block that is confirmed again after a truncation has the transactions it had (`Tables.Identified`), where results need it.
* No block holds a transaction twice, and a block that does not extend the tip repeats no transaction of its ancestors: `ConfirmBlock` does not test the first, and the second only against trunk blocks below the split. The events of `Node.Step` spell out this and what else the run theorem takes for granted.
* What the UTXO cache holds is a parameter of every check (`Env.caches`, `Intake.cached`), since entries may be evicted at any time. Results that need it to agree with the table say so (`Sound`, `SoundCaches`, `CachedHere`); `Caches.CacheKept` and `Caches.FailedStepCache` say when it does.
* Timestamps are Unix times, so not negative. TDPoS intervals obey `termInterval >= alternateInterval >= period > 0`, as the comment on `minerScheduling` demands.
* Weights and thresholds of XPoA are real numbers.
* Failures of the key-value store, of signature checks, of the mempool and of locks are parameters of the methods concerned (`unverified`, `unwritable`, `written`, `locked`, `full`, `putOk`, `genesisParses`).

## Findings

* `CheckInputEqualOutput` compares the amount of an input with the table but not its frozen height, and undoing writes the input's own frozen height back. Outputs and amounts always survive an undo; frozen heights do exactly if they were declared as found: `Utxo.RevertApplyIff` for one transaction, `Utxo.BranchSwitchExact` for leaving one branch for another, `Walks.WalkKeeps` for `Walk`, where only outputs from below the fork that the new chain leaves unspent matter. `Replays.UndoCanMisrestore` is an input that passes the check and is not restored.
* The input check falls back to the table as it was before the batch, and `procTodoBlkForWalk` does not look for outputs that are spent twice in a block, as `PlayAndRepost` does. So a walk over such a block succeeds and leaves both spends' outputs in the table. Exactly: a block that is done keeps the table in step if and only if it fits, and with a sound cache if and only if no two of its transactions spend one output (`Steps.TodoKeeps`); a walk is in step wherever it stops if and only if no block on that chain does so (`Walks.WalkKeeps`). `Failures.DoubleSpendInBlock` is a block with two transfers of one genesis output: the table is then worth 14 where 7 have been minted.
* A block step that fails leaves the outputs of the transactions before the refused one in the UTXO cache, where later checks find them, although they were never written. The cache agrees with the table afterwards if and only if it holds none of them (`Caches.FailedStepCache`); `Failures.StaleCacheSpent` is a block that spends such an output and is done.
* `PlayAndRepost` checks the block against the table with the conflicting unconfirmed transactions still in it. With a sound cache, what it plays fits if and only if no transaction still to be done spends an output of a conflicting one (`Reposts.RepostKeeps`).
* The sum of the UTXO table is the total minted less the unpaid fees plus a leak that only coinbase transactions cause (`Value.Conservation`); `Value.CoinbaseFeeLeaks` is a coinbase transaction with a fee output for which the plain law fails.
* A step that fails leaves the tables alone but not the in-memory total: this stays as it was if and only if the transactions before the first refused one mint nothing (`Steps.TodoFailure`, `Steps.MineFailure`), or all of them for an undo or a roll back that is not written (`Steps.UndoFailure`, `Steps.RollBackFailure`). The next step that mints then writes the wrong total down: the recorded total is right after a step exactly if the step mints and the in-memory total was right, or mints nothing and the recorded total was right (`Steps.TodoKeeps` and its companions). `Failures.FailedStepDrifts` are two walks from the genesis block: the first fails at a block with a reward of 5 and a refused transaction, the second arrives at a block with a reward of 3 and records 15 instead of 10.
* `doTxSync` puts a transaction into the mempool before it writes the batch, and leaves it there when writing fails. The table then lags behind the unconfirmed set unless the transaction changes nothing in it; `Steps.SubmitKeeps` is the exact condition, which also shows that only a transaction without inputs can be submitted again once it is on the chain, and `Failures.UnwrittenSubmission` is a transfer that is pending, not done, and cannot be submitted again. It lasts until the next roll back: undoing what was never done leads to the same state as undoing what was, table and totals (`Recovery.UnwrittenRolledBack`), so the next walk that writes its roll back ends as if the batch had been written (`Recovery.WalkRecovers`).
* A genesis block whose configuration does not parse is stored although `ConfirmBlock` reports failure (`Ledger.Ledger.ConfirmBlock`).
* `Truncate` restores the trunk invariant exactly if the target lies in the trunk and every stored block above it is reachable from a recorded branch tip (`Branches.TruncateTrunkInv`), and the branch table afterwards lists exactly the childless blocks under the condition of `Branches.TruncateLeaves`; where that fails, a second truncation leaves an orphan (`Branches.TruncateTwiceLeavesOrphan`). `Orphans.TwiceTruncatedKeepsOrphan` is such a run, with five blocks.
* An execution can be replayed from its read set exactly if the backend never misses a key and then has data under another bucket and key with the same raw key (`Sandbox.ReplaySoundIff`). Bucket names without `/` are always safe (`Sandbox.ReplaySoundPlain`), and so is a backend that always answers, as the ledger's own model does. `Sandbox.SlashBackendFails` is a backend with data in bucket `a/b` for which it fails. For the same reason write sets are compared by raw key only (`WriteSets.Equal`, `Sandbox.ShownDetermines`), and `Select` shows the part of its bucket exactly if nothing selected belongs to another one (`Iterators.SelectedPart`, `Iterators.ForeignWriteSelected`).
* In `SetCompact` the variable `u` aliases `nWord`, so the overflow flag looks at the shifted word: every number from 2 to the 255th on is flagged, although numbers below 2 to the 256th would fit (`Pow.CompactTargetFlagged`). So a retargeted target is acceptable exactly if the scaled value stays below 2 to the 255th (`Pow.AdjustedAcceptable`).
* `refreshDifficulty` computes the expected span and its fourfold in 32 bits. With a gap of one block every adjustment divides by zero (`Pow.SpanIsZeroIff`, `Pow.RefreshDifficulty`). The span used stays between a quarter and four times the expected one exactly if the fourfold, as 32 bits hold it, is not below the quarter (`Pow.SpanInRange`); with 2016 blocks and a period of 300000 it is always negative (`Pow.SpanCanLeaveRange`).
* The look-ahead of TDPoS always names the right term and proposer, but from the first millisecond of a proposer's last slot it lands in the pause before the next slot (`Tdpos.LookAhead`).
* Two blocks with different numbers of transactions can have the same Merkle root (`Merkle.RepeatedLastKeepsRoot`). If no two pairs that are hashed collide, lists of the same leaf size have equal roots if and only if they are equal once their odd tails are doubled level by level (`Merkle.RootsEqualIff`). The root does not tell leaves from inner nodes: lists of different leaf sizes have equal roots if and only if the shorter list is a level of the longer one, both completed (`Merkle.RootsEqualAcrossSizes`, `Merkle.PairAndNode`).

## Model

| member | source | states |
|---|---|---|
| `Chain.PathsAgree` | bcs/ledger/xledger/ledger/ledger.go:944-1011 | two chains that share a block at some height share everything below it |
| `Chain.LowestCommonAncestorUnique` | bcs/ledger/xledger/ledger/branch_manage.go:109-146 | two blocks have one lowest common ancestor |
| `Chain.SplitIsLowest` | bcs/ledger/xledger/ledger/branch_manage.go:109-146 | a common ancestor above which the chains differ is the lowest one |
| `Tables.MeetIsLowest` | bcs/ledger/xledger/ledger/ledger.go:434-477 | the lockstep walk of `handleFork` from two blocks of equal height ends, and ends at their lowest common ancestor |
| `Tables.SwitchAtTrunkHeight` | bcs/ledger/xledger/ledger/ledger.go:665-683 | a trunk switch happens only from a block as high as the old tip, so the lockstep walk starts level |
| `Tables.AfterBlockTrunk` | bcs/ledger/xledger/ledger/ledger.go:640-691 | confirming a block, on the tip, by a switch or on the side, keeps the trunk invariant: marks, `NextHash` and height table are those of the root-to-tip chain and no block is higher |
| `Tables.AfterConfirmTxs` | bcs/ledger/xledger/ledger/ledger.go:708-777 | every transaction of a stored block stays in the confirmed table under its own id |
| `Tables.AfterConfirmValid` | bcs/ledger/xledger/ledger/ledger.go:594-801 | an accepted block leads from valid tables to valid tables |
| `Tables.AfterConfirmBodies` | bcs/ledger/xledger/ledger/ledger.go:825-857 | confirming a block changes the body of no stored block |
| `Tables.ConfirmedReadsBack` | bcs/ledger/xledger/ledger/ledger.go:825-857 | a confirmed block is read back with the transactions it was submitted with |
| `Tables.TrunkTransactionsDistinct` | bcs/ledger/xledger/ledger/ledger.go:765-771 | under the index invariant no transaction lies in two trunk blocks |
| `Tables.TipBlockDoesNotRepeat` | bcs/ledger/xledger/ledger/ledger.go:765-771 | the duplicate check makes a block on the tip repeat no transaction of its ancestors |
| `Tables.AfterBlockNoRepeat` | bcs/ledger/xledger/ledger/ledger.go:708-777 | if side blocks do not repeat transactions of their ancestors, no chain ever holds a transaction twice |
| `Tables.SwitchAttribution` | bcs/ledger/xledger/ledger/ledger.go:407-427 | a trunk switch attributes the transactions of the entering blocks to them and leaves those of the remaining trunk alone |
| `Tables.AfterBlockIndex` | bcs/ledger/xledger/ledger/ledger.go:708-777 | after every confirmation, switches included, the confirmed table maps each trunk transaction to the trunk block holding it |
| `Tables.AcceptsIff` | bcs/ledger/xledger/ledger/ledger.go:708-777 | a block on a stored one is accepted if and only if it has at most one coinbase transaction and, if it becomes the tip, repeats no transaction of the trunk up to where its chain leaves it; it may repeat those of the branch it replaces |
| `Tables.TipAcceptsIff` | bcs/ledger/xledger/ledger/ledger.go:765-771 | a block on the tip with at most one coinbase transaction is accepted if and only if it repeats no ancestor's transaction |
| `Tables.AfterBlockAttributed` | bcs/ledger/xledger/ledger/ledger.go:708-777 | confirming a block keeps every attribution to a stored block naming a block that holds the transaction |
| `Branches.RunAccepts` | bcs/ledger/xledger/ledger/ledger.go:594-817 | the same exact condition for the next block at every point of every run of confirmations and truncations |
| `Forks.ReplacedBranchRepeats` | bcs/ledger/xledger/ledger/ledger.go:765-774 | a run in which a block that switches the trunk carries a transaction of the branch it replaces, is accepted, and gets the transaction attributed |
| `Branches.AfterBlockLeaves` | bcs/ledger/xledger/ledger/branch_manage.go:11-24 | confirmations keep the branch table equal to the childless blocks with their heights |
| `Branches.LeafAbove` | bcs/ledger/xledger/ledger/branch_manage.go:26-60 | every block has a childless descendant in the branch table |
| `Branches.LeavesCover` | bcs/ledger/xledger/ledger/ledger.go:1148-1237 | with the leaf invariant every block above a target is reached from a recorded tip |
| `Branches.TruncateComplete` | bcs/ledger/xledger/ledger/ledger.go:1179-1237 | truncation to a trunk block at height h leaves exactly the blocks up to h, heights 0 to h, and meta pointing at the target, when all blocks above are reached from recorded tips |
| `Branches.TruncateTrunkInv` | bcs/ledger/xledger/ledger/ledger.go:1179-1237 | the trunk invariant holds after truncation if and only if the target was in the trunk and everything above was reached |
| `Branches.TruncateLeaves` | bcs/ledger/xledger/ledger/ledger.go:1179-1237 | the exact condition under which the branch table lists the childless blocks after truncation |
| `Branches.TruncateTwiceLeavesOrphan` | bcs/ledger/xledger/ledger/ledger.go:1179-1237 | a side block at the first target's height that has lost its children survives a second, lower truncation, which is not covered |
| `Orphans.TwiceTruncatedKeepsOrphan` | bcs/ledger/xledger/ledger/ledger.go:1179-1237 | a run of five confirmations and a truncation after which truncating to the root leaves a higher block |
| `Branches.RunKeepsTrunk` | bcs/ledger/xledger/ledger/ledger.go:594-817 | the trunk invariant, stored transactions and sound branch table hold at every point of every run of confirmations and truncations to trunk blocks |
| `Branches.RunKeepsIndex` | bcs/ledger/xledger/ledger/ledger.go:594-817 | over every such run without repeats on side branches the transaction index follows the trunk |
| `Branches.TruncateKeepsIndex` | bcs/ledger/xledger/ledger/ledger.go:1179-1237 | truncation keeps the transaction index in step with the remaining trunk |
| `Ledger.Ledger.ConfirmBlock` | bcs/ledger/xledger/ledger/ledger.go:594-817 | the new tables are the from-scratch ones exactly for accepted blocks whose batch is written and unchanged otherwise; success, orphan, split and switch flags; all ledger invariants kept |
| `Ledger.Ledger.Attach` | bcs/ledger/xledger/ledger/ledger.go:640-699 | a block on the tip, by a switch of the trunk or on the side prepares exactly the from-scratch marks, height index and split height; split, switch and orphan flags |
| `Ledger.Ledger.ConfirmRoot` | bcs/ledger/xledger/ledger/ledger.go:623-639 | a genesis block is stored once, into an empty ledger |
| `Ledger.Ledger.HandleFork` | bcs/ledger/xledger/ledger/ledger.go:434-477 | the in-place re-marking of two branches equals marking the new chain from scratch, with transactions of the entering branch re-attributed |
| `Ledger.Ledger.CorrectTxs` | bcs/ledger/xledger/ledger/ledger.go:407-427 | exactly the block's transactions attributed elsewhere are re-attributed to it |
| `Ledger.Ledger.RecordTxs` | bcs/ledger/xledger/ledger/ledger.go:708-777 | refused exactly for two coinbase transactions or one held by a trunk block up to the split height; otherwise the recorded table |
| `Ledger.Ledger.QueryBlock` | bcs/ledger/xledger/ledger/ledger.go:825-857 | the stored header with the transactions of its ids, in order |
| `Ledger.Ledger.FindUndoAndTodoBlocks` | bcs/ledger/xledger/ledger/ledger.go:944-1011 | terminates with the two branches below the lowest common ancestor, tip first and without it, for every pair of stored blocks |
| `Ledger.Ledger.GetCommonParentBlockid` | bcs/ledger/xledger/ledger/branch_manage.go:109-146 | the lowest common ancestor, for every pair of stored blocks |
| `Ledger.SearchesAgree` | bcs/ledger/xledger/ledger/ledger.go:944-1011 | the block below which the undo and todo branches hang is the one `GetCommonParentBlockid` returns |
| `Ledger.Ledger.GetBranchInfo` | bcs/ledger/xledger/ledger/branch_manage.go:26-60 | exactly the recorded tips above the target height other than the target |
| `Ledger.Ledger.RemoveBlocks` | bcs/ledger/xledger/ledger/ledger.go:1148-1176 | deletes exactly the chain from a block down to a height, with the height entries of its trunk blocks |
| `Ledger.Ledger.RemoveTips` | bcs/ledger/xledger/ledger/ledger.go:1179-1237 | removing the chains of all higher tips one after the other deletes exactly the blocks above the target on any of them |
| `Ledger.Ledger.Truncate` | bcs/ledger/xledger/ledger/ledger.go:1179-1237 | the new tables are those without everything below the higher tips, and the ledger invariants are kept for covered trunk targets |
| `Utxo.RevertApplyIff` | bcs/ledger/xledger/state/state.go:991-1044 | for an entry that finds its inputs with their amounts and makes new outputs, undoing gives the table back if and only if the spent items were as declared |
| `Utxo.RevertMatches` | bcs/ledger/xledger/state/state.go:991-1044 | undoing such an entry restores outputs and amounts, whatever it declared |
| `Utxo.RevertAllTracks` | bcs/ledger/xledger/state/state.go:1046-1118 | undoing a run of entries restores outputs and amounts, and each output comes back as its spender declared it |
| `Utxo.ApplyAllTracks` | bcs/ledger/xledger/state/state.go:1156-1234 | doing a run of entries keeps the table in step with the replay, and leaves other outputs as they are |
| `Utxo.BranchSwitchExact` | bcs/ledger/xledger/state/state.go:667-727 | leaving one branch for another restores the replay if and only if every output from below the fork that the old branch spent and the new one leaves was declared as it was |
| `Utxo.FitsIff` | bcs/ledger/xledger/state/state.go:832-891 | entries continue a clean replay cleanly if and only if they spend nothing twice, and only what is in the table or made before |
| `Utxo.ReplayClosed` | bcs/ledger/xledger/state/state.go:832-891 | a clean replay holds exactly the outputs made and never spent |
| `Utxo.CleanAllIff` | bcs/ledger/xledger/state/state.go:832-891 | every step of a replay is clean if and only if spends follow their outputs and nothing is spent twice |
| `Utxo.ReplayRearranged` | bcs/ledger/xledger/state/state.go:629-664 | all dependency-respecting orders of the same entries replay to the same table |
| `Value.Conservation` | bcs/ledger/xledger/state/state.go:847-889 | the sum of the table is the total minted, less the fees not paid yet, plus the leak of coinbase transactions |
| `Value.NoLeak` | bcs/ledger/xledger/state/state.go:847-889 | coinbase transactions without inputs and fee outputs leak nothing |
| `Value.CoinbaseFeeLeaks` | bcs/ledger/xledger/state/state.go:1236-1257 | a coinbase transaction with a fee output breaks plain conservation |
| `Value.MadeSum` | bcs/ledger/xledger/state/state.go:857-889 | what a transaction puts into the table is worth its outputs less its fees |
| `Value.FeesSum` | bcs/ledger/xledger/state/state.go:1236-1257 | what paying the fee puts into the table is worth the fee outputs |
| `Replays.ChainDistinct` | bcs/ledger/xledger/ledger/ledger.go:708-777 | on any chain of the ledger every transaction is done once and its fee paid once |
| `Replays.ChainEntriesStable` | bcs/ledger/xledger/ledger/ledger.go:594-817 | confirming further blocks does not change what a chain replays to |
| `Replays.ChainEntriesPrefix` | bcs/ledger/xledger/state/state.go:1156-1234 | an ancestor's history is a prefix of its descendant's |
| `Replays.ChecksClean` | bcs/ledger/xledger/state/utxo/utxo.go:131-222 | a transaction that passes the input check on a table in step with a clean replay extends it cleanly |
| `Replays.UndoCanMisrestore` | bcs/ledger/xledger/state/utxo/utxo.go:131-222 | a transaction passes the check, yet undoing it does not restore the table |
| `Replays.UndoTxAndFee` | bcs/ledger/xledger/state/state.go:1074-1087 | undoing a transaction first and its fee after it, the opposite of their order, comes to the same |
| `Replays.TotalRearranged` | bcs/ledger/xledger/state/utxo/utxo.go:330-337 | the total does not depend on the order |
| `Unconfirmed.AnyOrder` | bcs/ledger/xledger/state/state.go:629-664 | with any dependency order of the unconfirmed transactions the table and the total are those of the replay |
| `Unconfirmed.PlayedReplay` | bcs/ledger/xledger/state/state.go:425-444 | doing what remains of a block on top of the unconfirmed transactions comes to the replay of the longer chain with the others on top, if and only if it is clean and the block spends only from its chain |
| `Steps.FirstRefusedIs` | bcs/ledger/xledger/state/state.go:1172-1206 | the first transaction of a block that fails verification or the check against the caches and the table before the batch |
| `Steps.AcceptedFits` | bcs/ledger/xledger/state/utxo/utxo.go:158-197 | with a sound cache an accepted block fits if and only if it spends nothing twice |
| `Steps.PlayTracks` | bcs/ledger/xledger/state/state.go:401-554 | playing what remains of a block stays in step if and only if it fits and the block spends only from its chain |
| `Steps.TodoMoves` | bcs/ledger/xledger/state/state.go:1156-1234 | what doing a block does to table and totals, with and without failure |
| `Steps.TodoKeeps` | bcs/ledger/xledger/state/state.go:1156-1234 | a block that is done keeps the table in step if and only if it fits, and with a sound cache if and only if it spends no output twice |
| `Steps.UndoKeeps` | bcs/ledger/xledger/state/state.go:1046-1118 | undoing the latest block leads from the replay to the replay, or changes no table; how both totals move |
| `Steps.RollBackKeeps` | bcs/ledger/xledger/state/state.go:629-664 | the same for rolling back the unconfirmed transactions, in the reverse of any dependency order |
| `Steps.SubmitKeeps` | bcs/ledger/xledger/state/state.go:762-830 | a submission that gets in keeps the table in step if and only if the table holds what it spends, it is written or changes nothing, and, without inputs, it is not on the chain; how both totals move |
| `Steps.SubmittedTwice` | bcs/ledger/xledger/state/state.go:762-830 | a transaction on the chain has spent its inputs, so the table does not hold them |
| `Steps.MineKeeps` | bcs/ledger/xledger/state/state.go:401-467 | a mined block keeps the table in step if and only if its special transactions fit and it is closed under dependencies; how both totals move |
| `Steps.TodoFailure` | bcs/ledger/xledger/state/state.go:1156-1234 | a failed step keeps the in-memory total if and only if the transactions before the first refused one mint nothing |
| `Steps.UndoFailure` | bcs/ledger/xledger/state/state.go:1046-1118 | a failed undo keeps it if and only if it is refused at once or the block mints nothing |
| `Steps.MineFailure` | bcs/ledger/xledger/state/state.go:401-467 | the same as `TodoFailure` for a mined block |
| `Steps.RollBackFailure` | bcs/ledger/xledger/state/state.go:629-664 | a roll back that is not written keeps it if and only if the transactions mint nothing |
| `Steps.UnappliedMatches` | bcs/ledger/xledger/state/state.go:804-825 | a table in which a transaction was not done looks as if it were done only if it neither spends nor makes anything |
| `Walks.UndoRunKeeps` | bcs/ledger/xledger/state/state.go:1046-1118 | undoing a branch stays in step after every block, wherever it stops |
| `Walks.TodoRunMoves` | bcs/ledger/xledger/state/state.go:1156-1234 | doing a branch has done whole blocks wherever it stops; how table and totals move |
| `Walks.ChainCleanIff` | bcs/ledger/xledger/state/state.go:1156-1234 | a chain replays cleanly if and only if each of its blocks fits on the ones below |
| `Walks.RodeTracks` | bcs/ledger/xledger/state/state.go:1156-1234 | doing a branch stays in step if and only if the chain fits |
| `Walks.TodoRunSound` | bcs/ledger/xledger/state/state.go:1156-1234 | with sound caches, if and only if no block done spends an output twice |
| `Walks.BranchesKeep` | bcs/ledger/xledger/state/state.go:696-724 | the two branches together: when the table is in step where it stops, what it is on arrival, and how the totals have moved |
| `Walks.WalkKeeps` | bcs/ledger/xledger/state/state.go:667-727 | a walk is in step with where it stopped if and only if that chain fits, with sound caches if and only if no block of it spends an output twice; on arrival nothing is unconfirmed, the totals are as the formula says, and a table in step is exact if and only if what was undone had declared what it took |
| `Walks.WalkArrives` | bcs/ledger/xledger/state/state.go:667-727 | a walk from an exact table that nothing else stands in the way of arrives if and only if there is nothing to undo, the ledger is pruned, or the fork is not below the irreversible height |
| `Walks.UndoRunHeights` | bcs/ledger/xledger/state/state.go:1058-1065 | wherever it stops, only blocks above the irreversible height have been undone, unless the ledger is pruned |
| `Finality.WalkRespects` | bcs/ledger/xledger/state/state.go:667-727 | a walk that does not prune arrives only over an ancestor at or above the irreversible height; wherever it stops, every block of the old chain up to this height is still on the chain, and the height has not fallen |
| `Finality.WalkHeights` | bcs/ledger/xledger/state/meta/meta.go:369-420 | the irreversible height after a walk, from the heights of ancestor and destination and the window |
| `Finality.PlayedRaises` | bcs/ledger/xledger/state/meta/meta.go:369-398 | once a block has been played, the irreversible height is at most the window below it |
| `Finality.RunKeepsFinal` | bcs/ledger/xledger/state/state.go:401-830 | in every run without pruning walks a block at or below the irreversible height stays on the chain, and the height never falls |
| `Finality.BuriedIsFinal` | bcs/ledger/xledger/state/state.go:401-830 | in every run the ancestors of a block that was played, a window below it or more, stay on the chain to the latest block until a walk prunes the ledger |
| `Frozen.FrozenSubmitted` | bcs/ledger/xledger/state/utxo/utxo.go:207-210 | a submission leaves a frozen output of another transaction in the table as it is |
| `Frozen.FrozenDone` | bcs/ledger/xledger/state/utxo/utxo.go:207-210 | so does a block step of a walk, done or not |
| `Frozen.FrozenMined` | bcs/ledger/xledger/state/utxo/utxo.go:207-210 | so does a mined block, also for outputs of the transactions it confirms |
| `Frozen.FrozenReposted` | bcs/ledger/xledger/state/utxo/utxo.go:207-210 | so does a received block, for outputs that no conflicting transaction made |
| `Frozen.FrozenWalked` | bcs/ledger/xledger/state/state.go:667-727 | a walk leaves the frozen outputs of every block that is on the chain before and after it |
| `Frozen.RunLeavesFrozen` | bcs/ledger/xledger/state/state.go:401-830 | over every run without pruning walks an unspent output of a final block stays in the table as long as it is frozen and the cache does not free it |
| `Meaning.TableMeans` | bcs/ledger/xledger/state/state.go:832-891 | a table in step holds exactly the outputs of transactions on the chain and unconfirmed, and fees of proposers, that none of these transactions spends; an exact one with their frozen heights |
| `Meaning.EntersIff` | bcs/ledger/xledger/state/state.go:762-830 | with an exact table and an agreeing cache a submission gets in if and only if the mempool takes it, its id is new there, and it spends unspent and unfrozen outputs, each once, for outputs of the same value |
| `Meaning.MadeInMeans` | bcs/ledger/xledger/state/utxo/utxo.go:155-197 | the batch cache holds exactly what the transactions done so far have made and none has spent since |
| `Meaning.RefusedIff` | bcs/ledger/xledger/state/state.go:1172-1206 | exactly which transactions of a block are refused, said of the chain and the block |
| `Meaning.TodoOkIff` | bcs/ledger/xledger/state/state.go:1156-1234 | exactly which blocks a walk does |
| `Meaning.MineOkIff` | bcs/ledger/xledger/state/state.go:401-467 | exactly which own blocks are played: only coinbase and generated transactions are checked, and nothing is verified |
| `Meaning.RepostOkIff` | bcs/ledger/xledger/state/state.go:472-554 | exactly which received blocks are played |
| `Meaning.AllInputsIff` | bcs/ledger/xledger/state/state.go:1371-1381 | the guard passes exactly lists of transactions in which no output is referred to twice |
| `Meaning.MinerContinues` | bcs/ledger/xledger/state/state.go:425-444 | a block of new coinbase and generated transactions and otherwise unconfirmed ones is one whose rest can be played |
| `Walks.WalkOneUp` | bcs/ledger/xledger/state/state.go:667-727 | a walk to the next block is a roll back and that block |
| `Reposts.ClearedTracks` | bcs/ledger/xledger/state/state.go:1357-1425 | undoing conflicting transactions on which no other depends leaves the others in step |
| `Reposts.RepostKeeps` | bcs/ledger/xledger/state/state.go:472-554 | a received block keeps the table in step, with exactly the unconfirmed transactions neither in it nor in conflict with it, if and only if what remains fits and it spends only from its chain; with a sound cache it fits if and only if it spends nothing a conflicting transaction made; how both totals move |
| `Reposts.RepostFailure` | bcs/ledger/xledger/state/state.go:472-554 | what a received block that is not played leaves in the in-memory total; everything else is as before |
| `Reposts.PlayedOnce` | bcs/ledger/xledger/state/state.go:1371-1381 | a block without a repeated input spends nothing twice |
| `Caches.CacheKept` | bcs/ledger/xledger/state/utxo/utxo_cache.go:49-97 | a cache that agrees with the table is sound for every block, and agrees with the table that playing the block leaves |
| `Caches.FailedStepCache` | bcs/ledger/xledger/state/state.go:1192-1199 | after a failed step the cache agrees with the table if and only if it holds nothing the transactions done have made |
| `Failures.FailedStepDrifts` | bcs/ledger/xledger/state/state.go:1156-1234 | a walk that fails after a reward leaves the in-memory total wrong, and the next walk records it |
| `Failures.DoubleSpendInBlock` | bcs/ledger/xledger/state/state.go:1156-1234 | a walk over a block that spends a genesis output twice arrives, with both outputs in the table and twice the value |
| `Failures.StaleCacheSpent` | bcs/ledger/xledger/state/state.go:1192-1199 | after a failed walk a block spends an output that only the cache holds, and is done |
| `Failures.GenesisPlayed` | bcs/ledger/xledger/state/state.go:472-554 | playing a genesis block as a received block is in step with both totals right |
| `Failures.UnwrittenSubmission` | bcs/ledger/xledger/state/state.go:804-825 | a transfer whose batch is not written stays pending, breaks the invariant and cannot be submitted again |
| `Recovery.RevertAllForgets` | bcs/ledger/xledger/state/state.go:629-664 | undoing a run of entries forgets whether one of them had been done |
| `Recovery.UnwrittenRolledBack` | bcs/ledger/xledger/state/state.go:629-664 | rolling back leads to the same state whether the batch of a submission was written or not |
| `Recovery.WalkRecovers` | bcs/ledger/xledger/state/state.go:667-727 | a walk after an unwritten submission ends as if it had been written |
| `Node.ConfirmKeepsLedger` | bcs/ledger/xledger/ledger/ledger.go:594-817 | confirming a block without repeated transactions keeps everything the state machine needs of the ledger |
| `Node.ConfirmKeepsState` | bcs/ledger/xledger/ledger/ledger.go:594-817 | confirming a block leaves the state machine in step |
| `Node.TruncateKeepsLedger` | bcs/ledger/xledger/ledger/ledger.go:1179-1237 | truncating to a covered trunk block does, too |
| `Node.TruncateKeepsState` | bcs/ledger/xledger/ledger/ledger.go:1179-1237 | truncating to or above the latest block leaves the state machine in step |
| `Node.StepKeeps` | bcs/ledger/xledger/state/state.go:401-830 | every event of a node keeps the invariant; a successful one moves no error into the totals that was not there |
| `Node.RunKeeps` | bcs/ledger/xledger/state/state.go:401-830 | at every point of every run the ledger has its invariants and the table follows it; without failed walks and blocks both totals stay right |
| `Node.GenesisNode` | bcs/ledger/xledger/ledger/ledger.go:594-817 | a node with a genesis block that has played nothing is a start of such runs |
| `State.StateConserves` | bcs/ledger/xledger/state/state.go:847-889 | the sum of the live table is the total minted less the fees of the unconfirmed transactions, and so the recorded total less its error and these fees |
| `State.State.Lookup` | bcs/ledger/xledger/state/utxo/utxo.go:155-197 | an input is looked up in the UTXO cache, the batch cache and then the table before the batch |
| `State.State.CheckInputEqualOutput` | bcs/ledger/xledger/state/utxo/utxo.go:131-222 | accepts exactly transactions with distinct inputs that the lookup finds unfrozen with the right and minimally encoded amounts, and equal sums, or no input value for a coinbase |
| `State.State.CheckInputs` | bcs/ledger/xledger/state/utxo/utxo.go:143-210 | accepts exactly distinct inputs that the lookup finds, of the right amount in the table's own encoding, and not frozen |
| `State.State.DoTxInternal` | bcs/ledger/xledger/state/state.go:832-891 | applies the transaction exactly if it passes the check; totals and batch cache |
| `State.State.AddOutputs` | bcs/ledger/xledger/state/state.go:857-889 | adds the outputs that are neither fees nor empty; a coinbase raises the totals by their value |
| `State.State.UndoTxInternal` | bcs/ledger/xledger/state/state.go:991-1044 | reverts the transaction; totals |
| `State.State.RemoveOutputs` | bcs/ledger/xledger/state/state.go:1020-1041 | removes the outputs again; a coinbase lowers the totals by their value |
| `State.State.PayFee` | bcs/ledger/xledger/state/state.go:1236-1257 | adds the proposer's fee outputs |
| `State.State.UndoPayFee` | bcs/ledger/xledger/state/state.go:1138-1153 | removes the proposer's fee outputs |
| `State.State.UndoTxs` | bcs/ledger/xledger/state/state.go:1068-1088 | undoes a block's transactions and fees last first, from any table and totals |
| `State.State.PlayTxs` | bcs/ledger/xledger/state/state.go:1172-1206 | does the transactions of a block that are not done yet and pays all fees, in order, up to the first that is refused, from any table and totals; the loops of `PlayForMiner` (lines 425-444) and `PlayAndRepost` (lines 504-523) are the same |
| `State.State.UndoBlock` | bcs/ledger/xledger/state/state.go:1046-1118 | one persisted undo step: the new tables and both totals, when it is refused, and that the table stays in step |
| `State.State.TodoBlock` | bcs/ledger/xledger/state/state.go:1156-1234 | one persisted step from any state: the new tables and both totals, exactly when it succeeds, and what a failure leaves |
| `State.State.ProcUndoBlkForWalk` | bcs/ledger/xledger/state/state.go:1046-1118 | undoes a branch up to the first block that cannot be undone |
| `State.State.ProcTodoBlkForWalk` | bcs/ledger/xledger/state/state.go:1156-1234 | does a branch up to the first block that cannot be done |
| `State.State.Walk` | bcs/ledger/xledger/state/state.go:667-727 | a walk refines roll back, undo run and todo run between the two blocks; exactly when it leaves the table in step; nothing is unconfirmed on arrival |
| `State.State.DoTxSync` | bcs/ledger/xledger/state/state.go:762-830 | exactly when a submission succeeds, and what table, totals and unconfirmed set are then, also when the batch is not written |
| `State.State.RollBackUnconfirmedTx` | bcs/ledger/xledger/state/state.go:629-664 | undoes all unconfirmed transactions in the reverse of their order; when the batch is not written, only the in-memory total moves |
| `State.State.UndoPending` | bcs/ledger/xledger/state/state.go:962-985 | undoes unconfirmed transactions last first, each once |
| `State.State.PlayForMiner` | bcs/ledger/xledger/state/state.go:401-467 | a mined block from any state: exactly when it succeeds, the new tables and both totals, and what a failure leaves |
| `State.State.CheckBlockInputs` | bcs/ledger/xledger/state/state.go:1371-1381 | accepts exactly blocks without a repeated input |
| `State.State.PlayAndRepost` | bcs/ledger/xledger/state/state.go:472-554 | a received block from any state: exactly when it succeeds, the new tables, unconfirmed set and both totals, and what a failure leaves |
| `Graph.OrderedIsAcyclic` | bcs/ledger/xledger/tx/topsort.go:36-56 | a graph with a sorted list of all nodes has no cycle |
| `Graph.BackEdge` | bcs/ledger/xledger/tx/topsort.go:37-40 | reaching a temporarily marked node closes a cycle |
| `Graph.ComponentIsAll` | bcs/ledger/xledger/tx/topsort.go:60-73 | a component holds everything connected to its nodes |
| `TopSort.Prepare` | bcs/ledger/xledger/tx/topsort.go:18-29 | missing targets are filled in and the reversed graph has exactly the reversed edges |
| `TopSort.FilledKeeps` | bcs/ledger/xledger/tx/topsort.go:18-29 | filling in targets adds exactly them, and no cycle, order or connection |
| `TopSort.Sorter.Visit` | bcs/ledger/xledger/tx/topsort.go:36-56 | reports a cycle only if there is one, otherwise lists n and what it reaches, sorted, in front of the list |
| `TopSort.Sorter.Dfs` | bcs/ledger/xledger/tx/topsort.go:61-73 | marks and lists once everything connected to n that was not marked |
| `TopSort.SplitGroups` | bcs/ledger/xledger/tx/topsort.go:75-82 | the groups are the weakly connected components, disjoint and covering |
| `TopSort.SortGroups` | bcs/ledger/xledger/tx/topsort.go:84-97 | visits group after group; the list holds the groups one after the other and the sizes match |
| `TopSort.TopSortDFS` | bcs/ledger/xledger/tx/topsort.go:17-99 | cyclic exactly if the graph has a cycle; otherwise a permutation of the nodes with every source before its targets, whose consecutive runs of the returned sizes are the components |
| `Tdpos.SlotsPartition` | bcs/consensus/tdpos/schedule.go:94-119 | an instant gets a slot if and only if the slot's stretch of time covers it; positions stay in range |
| `Tdpos.SlotsMonotone` | bcs/consensus/tdpos/schedule.go:94-119 | term, proposer and block position never go back lexicographically |
| `Tdpos.SlotLength` | bcs/consensus/tdpos/schedule.go:94-119 | a slot is one stretch of a period, a millisecond less for a proposer's first |
| `Tdpos.SlotIntervals` | bcs/consensus/tdpos/schedule.go:94-119 | consecutive block slots are a period apart within a turn, the alternate interval between proposers, the term interval between terms |
| `Tdpos.ScheduleOpens` | bcs/consensus/tdpos/schedule.go:94-119 | when the first block slot begins |
| `Tdpos.SlotsOrdered` | bcs/consensus/tdpos/schedule.go:94-119 | an earlier slot ends before a later one begins |
| `Tdpos.SlotInRange` | bcs/consensus/tdpos/schedule.go:151-166 | the proposer index is below `proposerNum`, so the leader's range check never fires after the start |
| `Tdpos.LookAhead` | bcs/consensus/tdpos/schedule.go:168-180 | the look-ahead gives the term and proposer of the next block slot, and exactly when it gives that slot itself |
| `Tdpos.PastRound` | bcs/consensus/tdpos/schedule.go:168-172 | there is no look-ahead for a round that has passed |
| `Tdpos.BinarySearch` | bcs/consensus/tdpos/schedule.go:372-393 | equals a linear scan down the window for the last block of an earlier term, whatever the term stored at its lower end |
| `Tdpos.LastEarlierMeans` | bcs/consensus/tdpos/schedule.go:372-393 | the scan's result is the lower end or the last block of an earlier term |
| `Tdpos.FarBlockEarlier` | bcs/consensus/tdpos/schedule.go:353-359 | a block further back than the slot number belongs to an earlier term |
| `Tdpos.FindTargetHeight` | bcs/consensus/tdpos/schedule.go:345-369 | on a chain mined on schedule the narrowed window misses nothing: the result is that of a scan from the start height |
| `Bytes.PrefixEnd` | kernel/contract/sandbox/mem_xmodel.go:168-180 | the range from a prefix to its end holds exactly the strings with that prefix, also when there is no end |
| `MemModel.MemXModel.Get` | kernel/contract/sandbox/mem_xmodel.go:33-40 | the entry under the raw key |
| `MemModel.MemXModel.Put` | kernel/contract/sandbox/mem_xmodel.go:42-46 | the tree stays ordered and changes at the raw key only |
| `MemModel.MemXModel.Select` | kernel/contract/sandbox/mem_xmodel.go:50-65 | an error exactly for an empty bucket or a reversed range, otherwise an ordered iterator over exactly the bucket's entries in the range |
| `MemModel.TreeIterator.Next` | kernel/contract/sandbox/mem_xmodel.go:110-135 | yields what is left of the range, one entry at a time |
| `MemModel.SortedDetermined` | kernel/contract/sandbox/mem_xmodel.go:161-165 | an ordered list of entries is determined by its contents |
| `Sandbox.XMCache.Get` | kernel/contract/sandbox/xmcache.go:68-90 | writes, then the read cache, then the backend, which fills the read cache |
| `Sandbox.XMCache.GetAndSetFromInputsCache` | kernel/contract/sandbox/xmcache.go:107-124 | reads through the input cache |
| `Sandbox.XMCache.Put` | kernel/contract/sandbox/xmcache.go:127-145 | records a read first, except in the transient bucket, and then the write |
| `Sandbox.XMCache.Del` | kernel/contract/sandbox/xmcache.go:148-150 | a put of the delete mark |
| `Sandbox.XMCache.RWSet` | kernel/contract/sandbox/xmcache.go:183-213 | the two caches as lists in key order |
| `Sandbox.XMCache.Execute` | bcs/ledger/xledger/state/tx_verification.go:610-650 | an adaptive contract's operations, run on the sandbox, follow the model execution |
| `Effects.GetAfterPut` | kernel/contract/sandbox/xmcache.go:68-150 | a get after a put gives what was put, and after a delete reports the deletion |
| `Effects.GetAfterOther` | kernel/contract/sandbox/xmcache.go:68-150 | an operation on another raw key, or the same read, changes no outcome |
| `Effects.RunWrites` | kernel/contract/sandbox/xmcache.go:127-150 | an execution holds as written exactly the last write to each raw key among the operations issued |
| `Effects.WriteSetIs` | kernel/contract/sandbox/xmcache.go:183-213 | the write set lists exactly these |
| `Effects.RunReads` | kernel/contract/sandbox/xmcache.go:107-145 | it holds as read exactly the first answer of the backend to an operation on a raw key not written before, writes to the transient bucket apart |
| `Effects.OutcomeIs` | kernel/contract/sandbox/xmcache.go:68-90 | every read reports the last write to its raw key or else the backend's answer, if no other name with this raw key was used before |
| `Sandbox.ReplaySound` | bcs/ledger/xledger/state/tx_verification.go:569-669 | executing an adaptive contract again over its read set gives the same outcomes, read set and write set |
| `Sandbox.ReplaySoundIff` | kernel/contract/sandbox/mem_xmodel.go:17-46 | every execution can be replayed if and only if the backend is consistent on raw keys |
| `Sandbox.SlashBackendFails` | kernel/contract/sandbox/mem_xmodel.go:17-46 | a backend with data in bucket `a/b` only, and a contract over it that cannot be replayed |
| `Sandbox.ReplaySoundPlain` | kernel/contract/sandbox/utils.go:16-19 | without separators in bucket names every execution over every backend can be replayed |
| `Sandbox.RawKeyInjective` | kernel/contract/sandbox/utils.go:16-19 | without separators in bucket names raw keys do not collide |
| `Sandbox.XMReaderFromRWSet` | kernel/contract/sandbox/mem_xmodel.go:17-23 | the reader holds each item of the read set under the key it carries |
| `Sandbox.KeyedIsMap` | kernel/contract/sandbox/mem_xmodel.go:17-23 | the reader made from a read set is the input cache it was taken from |
| `WriteSets.OrderDetermines` | bcs/ledger/xledger/state/xmodel/dbutils.go:79-90 | two lists sorted by raw key and value with the same elements are equal |
| `WriteSets.Equal` | bcs/ledger/xledger/state/xmodel/dbutils.go:91-118 | sorting and comparing accepts exactly lists that show the same raw keys and values, as often |
| `Sandbox.Verify` | bcs/ledger/xledger/state/tx_verification.go:569-669 | accepts if and only if the write set shows what executing over the read set writes |
| `Sandbox.RecordedVerifies` | bcs/ledger/xledger/state/tx_verification.go:569-669 | with the read set of an execution that can be replayed, exactly its write set passes |
| `Sandbox.ShownDetermines` | bcs/ledger/xledger/state/xmodel/dbutils.go:91-100 | without separators in bucket names comparing raw keys and values compares writes |
| `Iterators.MergeIsOverlay` | kernel/contract/sandbox/iterator.go:99-127 | merging two ordered iterators yields every key of either once, in order, with the front's value on ties |
| `Iterators.StripIsLive` | kernel/contract/sandbox/iterator.go:211-220 | stripping yields exactly the entries that are not delete marks, in order |
| `Iterators.PeekIterator.Next` | kernel/contract/sandbox/iterator.go:44-52 | yields the entry looked ahead to and looks ahead again |
| `Iterators.MultiIterator.Next` | kernel/contract/sandbox/iterator.go:99-127 | yields the next entry of the merge |
| `Iterators.StripDelIterator.Next` | kernel/contract/sandbox/iterator.go:211-220 | yields the next entry that is not a delete mark |
| `Iterators.RunKeepsOwnKeys` | kernel/contract/sandbox/xmcache.go:68-150 | everything an execution has read and written lies under its own raw key, in the buckets it uses |
| `Iterators.SelectedPart` | kernel/contract/sandbox/mem_xmodel.go:50-65 | what a cache's selection yields is its part of the bucket, in key order, if and only if all of it belongs to the bucket |
| `Iterators.ForeignWriteSelected` | kernel/contract/sandbox/mem_xmodel.go:50-65 | a write to key `c` of bucket `a/b` is selected from bucket `a` |
| `Iterators.Select` | kernel/contract/sandbox/xmcache.go:159-180 | for every bucket, the merge of the selections of writes, reads without delete marks and backend without delete marks; where what is selected belongs to the bucket, writes over reads over the backend in key order |
| `Iterators.SelectInRun` | kernel/contract/sandbox/xmcache.go:159-180 | at every point of an execution over buckets without separators it is writes so far over reads so far over the backend |
| `Merkle.GetLeafSize` | bcs/ledger/xledger/ledger/ledger_hash.go:17-23 | the least power of two that is not below the number of transactions |
| `Merkle.LayoutParents` | bcs/ledger/xledger/ledger/ledger_hash.go:69-83 | in the array of all padded levels every inner cell is the hash of the two cells it is computed from |
| `Merkle.LayoutRoot` | bcs/ledger/xledger/ledger/ledger_hash.go:57-58 | with this leaf size the last cell is the root of the level-by-level definition |
| `Merkle.MakeMerkleTree` | bcs/ledger/xledger/ledger/ledger_hash.go:51-84 | the first cells are the txids and the last one the root of the level-by-level definition |
| `Merkle.FillParents` | bcs/ledger/xledger/ledger/ledger_hash.go:68-83 | the loop fills the array with all levels |
| `Merkle.VerifyMerkle` | bcs/ledger/xledger/ledger/ledger_hash.go:205-217 | accepts exactly the right root of a block with transactions |
| `Merkle.CompletedKeepsRoot` | bcs/ledger/xledger/ledger/ledger_hash.go:69-83 | doubling odd tails level by level keeps the root |
| `Merkle.CompletedDetermines` | bcs/ledger/xledger/ledger/ledger_hash.go:69-83 | lists of the same length are equal if and only if they are equal completed |
| `Merkle.RootCommits` | bcs/ledger/xledger/ledger/ledger_hash.go:51-84 | equal roots of lists with the same leaf size and different completions exhibit two pairs of cells, hashed in the two trees, that collide |
| `Merkle.RootsEqualIff` | bcs/ledger/xledger/ledger/ledger_hash.go:51-84 | without such a collision the roots are equal if and only if the completed lists are |
| `Merkle.SizesApart` | bcs/ledger/xledger/ledger/ledger_hash.go:17-23 | any two leaf sizes are some levels apart |
| `Merkle.RootsEqualAcrossSizes` | bcs/ledger/xledger/ledger/ledger_hash.go:51-84 | lists of different leaf sizes have equal roots if and only if the shorter one completed is the level of the longer one that has its size |
| `Merkle.PairAndNode` | bcs/ledger/xledger/ledger/ledger_hash.go:51-84 | a pair and the list of its hash have the same root |
| `Merkle.RootDeterminesTxs` | bcs/ledger/xledger/ledger/ledger_hash.go:51-84 | without a collision among the pairs hashed, the root and the number of transactions determine their cells, and ids of full length |
| `Merkle.RepeatedLastKeepsRoot` | bcs/ledger/xledger/ledger/ledger_hash.go:73-76 | repeating the last of an odd number of transactions keeps the completed list and the root |
| `Xpoa.Find` | bcs/consensus/xpoa/common.go:62-70 | membership |
| `Xpoa.Needed` | bcs/consensus/xpoa/common.go:72-83 | `CalFault` is a lower bound on the count that exceeds f; the bound is the least majority, of all without BFT or up to three validators, and of those that are not faulty otherwise |
| `Xpoa.TopIsGreatest` | bcs/consensus/xpoa/common.go:100-105 | no set of signers outweighs as many from the front of the sorted list |
| `Xpoa.ItemsOf` | bcs/consensus/xpoa/kernel_contract.go:124-130 | every key once, with its weight |
| `Xpoa.SortItems` | bcs/consensus/xpoa/kernel_contract.go:124-131 | a permutation with descending weights |
| `Xpoa.GreedyCount` | bcs/consensus/xpoa/kernel_contract.go:132-140 | how many of the heaviest keys it takes to reach the threshold |
| `Xpoa.IsAuthAddress` | bcs/consensus/xpoa/kernel_contract.go:108-145 | accepts if and only if all keys belong to validators, there are enough of them, and every set of signers that reaches the threshold is large enough |
| `Xpoa.AuthorizedAlone` | bcs/consensus/xpoa/kernel_contract.go:109-116 | a single validator is authorized if and only if its own weight reaches the threshold |
| `Xpoa.AuthorizedIntersect` | bcs/consensus/xpoa/kernel_contract.go:141-143 | any two sets of signers that reach an accepted threshold intersect |
| `Xpoa.AuthorizedOutnumberFaulty` | bcs/consensus/xpoa/kernel_contract.go:144 | with BFT, such a set has a member that is not faulty |
| `Pow.TruncDropsLowBytes` | bcs/consensus/pow/common.go:31-59 | what a target keeps differs from the number in low bytes only, and keeps at least 15 bits |
| `Pow.TruncMonotone` | bcs/consensus/pow/common.go:31-59 | a greater number keeps no less |
| `Pow.TruncIdempotent` | bcs/consensus/pow/common.go:31-59 | what is kept is kept entirely the next time |
| `Pow.GetCompact` | bcs/consensus/pow/common.go:31-59 | fails exactly for numbers of more than 256 bytes, otherwise the encoding of the number |
| `Pow.SetCompact` | bcs/consensus/pow/common.go:62-82 | the decoded value; negative by the sign bit, overflow exactly for a size above 32 |
| `Pow.DecodeEncode` | bcs/consensus/pow/common.go:31-82 | decoding an encoding gives what a target keeps of the number, without sign |
| `Pow.CompactTarget` | bcs/consensus/pow/common.go:31-82 | below 2 to the 255th the round trip raises no flag |
| `Pow.CompactTargetFlagged` | bcs/consensus/pow/common.go:62-82 | the overflow flag is raised if and only if the number is 2 to the 255th or more |
| `Pow.DecodeIs` | bcs/consensus/pow/common.go:62-82 | a target means its word times 256 to the power of its size less three |
| `Pow.EncodeDecode` | bcs/consensus/pow/common.go:31-82 | encoding what a target with a full word means gives the target back |
| `Pow.KnownTarget` | bcs/consensus/pow/pow_test.go:206-219 | the target 0x1903a30c, both ways |
| `Pow.ExpectedSpanIs` | bcs/consensus/pow/pow.go:352-352 | the expected span is the period times the gap less one, if that fits in 32 bits |
| `Pow.ActualSpanIs` | bcs/consensus/pow/pow.go:354-354 | the actual span is the number of whole seconds from the earlier block to the later one |
| `Pow.LaterIsEasier` | bcs/consensus/pow/pow.go:352-379 | a later previous block never gives a smaller target while the scaled value stays below 2 to the 255th |
| `Pow.OnTimeKeeps` | bcs/consensus/pow/pow.go:352-379 | blocks that took the expected time, to the second, keep the target |
| `Pow.OnTimeChainKeeps` | bcs/consensus/pow/pow.go:313-379 | on a chain of blocks a period apart the adjustment compares the right two blocks and keeps the target |
| `Pow.SpanInRange` | bcs/consensus/pow/pow.go:352-362 | the span used lies between a quarter and four times the expected one if and only if the fourfold, as 32 bits hold it, is not below the quarter |
| `Pow.SpanIsNearest` | bcs/consensus/pow/pow.go:352-362 | if the fourfold fits in 32 bits, the span used is the actual one or the end of the range it lies beyond |
| `Pow.SpanCanLeaveRange` | bcs/consensus/pow/pow.go:352-362 | with 2016 blocks and a period of 300000 the span used is negative |
| `Pow.SpanIsZeroIff` | bcs/consensus/pow/pow.go:352-352 | when the expected span is zero |
| `Pow.Retarget` | bcs/consensus/pow/pow.go:364-379 | the adjusted target, for spans of either sign |
| `Pow.RefreshDifficulty` | bcs/consensus/pow/pow.go:313-379 | default, unchanged or adjusted target, error or division by zero, by height and by which ancestors are stored, for every configuration |
| `Pow.IsProofed` | bcs/consensus/pow/pow.go:396-408 | accepts exactly hashes up to an acceptable target |
| `Pow.AdjustedAcceptable` | bcs/consensus/pow/pow.go:352-408 | after a target without overflow the adjusted one passes the bound of `IsProofed` if and only if the scaled value stays below 2 to the 255th |

## Left out

* In-memory caches of the ledger: `saveBlock` fills the header cache before the batch is written, so their agreement with the tables does not survive failed confirmations.
* `DisableTxDedup`, pending blocks, metrics, and `parallelCheckTx`, which only computes in parallel what `RecordTxs` reads.
* The exported `HandleFork` of branch_manage.go, `UpdateBlockChainData` and block pruning by `ModifyBlock`.
* The key-value side of transactions (`xmodel.DoTx` and `UndoTx`), balances and locks; `recoverUnconfirmedTx` and the undoing of delayed transactions, which run later and asynchronously.
* The mempool: the order in which it returns transactions, and the conflicts it finds, are parameters that must respect dependencies; what it keeps of confirmed and orphaned transactions.
* `SplitToDags`.
* Candidates and votes of TDPoS (`calTopKNominator`), and everything that calls the chained BFT.
* 64-bit wrap-around of times and amounts, which are unbounded integers here, except in the spans of PoW.
* Recording keys into the read set while iterating, and closing iterators: iterators are snapshots. A nested iterator is replaced by the list of what it yields.
* Replays that use `Select`: the reader made from a read set enumerates recorded keys only.
* The arena that Merkle cells are allocated from, and SHA-256 itself: the pair hash is a parameter.
* The original target rule of PoW (targets up to 256) and mining itself.
- Tdpos.LookAhead: stated from the start of the schedule on; before it, all positions are zero.
* What undoing and rolling back put into the UTXO cache: `Caches` follows the playing of blocks. The checks themselves are stated for every content of it.
* The irreversible height kept in memory apart from the table: a failed step may leave it ahead, as it does the total.
* Submissions and mined blocks between a submission that was not written and the next roll back: the table is not in step then.
- Steps.MineKeeps: stated for blocks whose user transactions are unconfirmed, which is what the miner packs; `State.State.PlayForMiner` itself is stated for all blocks.
- Node.RunKeeps: has only events that meet the exact conditions of the single steps: truncations to covered trunk blocks at or above the latest block, caches that agree with the table, no walks to chains with a block that spends an output twice, and no unwritten submissions of transactions that are not inert.
- Branches.RunKeepsTrunk: runs truncate only to covered trunk blocks, because other truncations break the invariant; Branches.TruncateTrunkInv is the exact condition.
- Iterators.Select: does not model changes of the caches while the iterator is in use.
- Pow.LaterIsEasier: stated for rising timestamps and an expected span whose fourfold fits in 32 bits; `Pow.SpanInRange` says what happens beyond.
- Frozen.RunLeavesFrozen: stated for outputs of final blocks, since undoing a block takes its outputs away, and for caches that do not free the output.
- Merkle.GetLeafSize: finds the power of two by doubling instead of by a floating-point logarithm.
- Xpoa.IsAuthAddress: does not model the rounding of floating-point weights.
