# Verified models of GraftNetwork internals

A Dafny model of four parts of GraftNetwork and proofs about them.

**Ancestry tool** (`src/blockchain_utilities/blockchain_ancestry.cpp`). Two algorithms answer which
outputs a transaction descends from through its rings. `Chain.dfy` holds the chain database the tool
reads; `AncestrySpec.dfy` says what ancestry is, without either algorithm: the spending graph is unfolded
into a multiset, whose support is the least solution of the ancestry equations and whose multiplicities
count spending paths. `ForwardPass.dfy` is the block-by-block walk with its three caches and its saved
state, `BackwardPass.dfy` the worklist without a visited set and the two numbers it prints,
`PassesAgree.dfy` puts the two together, and `DoublingChain.dfy` is a chain on which counters wrap. Both
passes are modelled with their error exits: what makes them fail is stated exactly. The only thing asked
of the chain is `Ordered`: miner transactions spend nothing, and other transactions spend outputs of
lower blocks. Hashes and relative offsets are given as data; a stop request is a predicate on heights.

**Chain store** (`src/blockchain_db/blockchain_db.cpp`, over the tables of
`src/blockchain_db/lmdb/db_lmdb.cpp`). `StoreTables.dfy` defines what adding and removing outputs,
transactions and blocks does to the tables; `StoreSound.dfy` says when inputs are accepted and what each
addition keeps; `StoreSlots.dfy` treats outputs as filled places and says when emptying places restores
them; `StoreUndo.dfy` proves exactly when removal undoes addition, and that the state depends only on the
surviving blocks; `StoreIndex.dfy` that recorded indices and stored outputs match one to one;
`StoreLinks.dfy` that the blocks form a chain; `StoreAccepts.dfy` says exactly what can be added and what
is recorded of it; `StoreRct.dfy` when the recorded number of amount-0 outputs is right;
`StoreWitnesses.dfy` holds concrete blocks on which these conditions fail. `ChainStore.dfy` is the store
as an object with its loops: it carries the list of its blocks, and its operations keep the tables what
those blocks alone would produce. An exception is a failed operation, which the block-level database
transaction rolls back.

**Log filter** (`external/easylogging++/easylogging++.cc`). `Wildcard.dfy` is the matcher,
`CategoryRules.dfy` the scanner for rule texts, `LogFilter.dfy` the registry with its memo, and
`DecimalPrinter.dfy` the bounded number printer. `Decimals.dfy` says what a digit string denotes.

**Embedded files** (`translations/generate_translations_header.c`). `EmbeddedFile.dfy` is the printing
loop and a reader following sections 2.14.3 and 2.14.5 of ISO/IEC 14882:2011.

## Where the code does not do what one would expect

Each of these is a member that says exactly when the expected property holds; the lemma named in
parentheses gives a concrete input on which it does not.

- `StoreUndo.AddTxUndone`, `StoreUndo.PopUndoesAdd`, `StoreUndo.MinerAgrees`: outputs are stored under
  amount 0 if the transaction has a generation input and version 2, but looked up there on removal if it
  has version 2 *or above* and a single generation input. A version 3 miner transaction that carries an
  amount is therefore not restored by popping its block (`StoreWitnesses.Version3Stays`), and the pop can
  succeed with the output of another transaction removed (`StoreWitnesses.PopTakesAnother`).
- `StoreIndex.PopIndexed`, `StoreIndex.ReachableIndexed`: recorded indices and stored outputs stop matching
  at such a pop, as they do when any block that is not restorable is popped.
- `StoreSound.UnsupportedLeavesNoTrace`: a transaction with an unsupported input is dropped silently, and
  any of its key images that were spent before become unspent (`StoreWitnesses.UnsupportedCanUnspend`).
- `StoreUndo.PopNeedsSupported`: a block with such a transaction cannot be popped back to where it was;
  `StoreWitnesses.DroppedStays` is one that cannot be popped at all.
- `StoreRct.RctCountExact`: the recorded number of amount-0 outputs misses some outputs and counts others
  in vain (`StoreWitnesses.Version3NotCounted`).
- `StoreRct.RctTrackedStep`: a block below version 4 does not carry the running number over
  (`StoreWitnesses.CountRestarts`). `StoreRct.RctTrackedPop` says the same of popping.
- `CategoryRules.JoinNeedsComplete`: a rule text ending in half a rule is completed by the next text, so
  that the accumulated text no longer means the rules in force (`LogFilter.IncompleteTextDrifts`).
- `LogFilter.Registry.ClearCategories`: clearing the rules keeps the text.
- `BackwardPass.FullAncestryExact`: the printed total is the number of spending paths only while nothing
  wraps (`DoublingChain.CounterWraps`).
- `EmbeddedFile.RoundTrip`: an empty file is printed as text that is not a literal.

## Model

| member | source | states |
|---|---|---|
| `Chain.ScanOutputs` | src/blockchain_utilities/blockchain_ancestry.cpp:508-527 | the scan of outputs for a key finds it, misses it, or stops at an output of another type, whichever comes first |
| `Chain.TxDataMeaning` | src/blockchain_utilities/blockchain_ancestry.cpp:88-121 | what a transaction is kept as, without the conversion: it can be kept if and only if all outputs go to keys and it has a single generation input or only rings; it counts as a reward if and only if it has that single input; otherwise its rings and keys are those of its inputs and outputs, in order |
| `Chain.SpendsMeaning` | src/blockchain_utilities/blockchain_ancestry.cpp:662-677 | a reward spends nothing; any other transaction spends, in order, every member of every ring, each as often as it is named |
| `Chain.SpentByRing` | src/blockchain_utilities/blockchain_ancestry.cpp:662-677 | an output is spent if and only if some ring names it |
| `Chain.FindTxMeaning` | src/blockchain_utilities/blockchain_ancestry.cpp:528-569 | the transaction found is the first listed one that creates an output to the key, with every one before it stored, readable to the end and without the key |
| `Chain.OriginMeaning` | src/blockchain_utilities/blockchain_ancestry.cpp:680-749 | the origin of an output is its block's miner transaction if that creates an output to its key, and otherwise the first listed transaction that does; and there is none in all other cases |
| `Chain.OriginStrictIsLazy` | src/blockchain_utilities/blockchain_ancestry.cpp:528-569 | whenever the forward search, which converts whole transactions, finds an origin, the backward search finds the same one |
| `Chain.NextIsLower` | src/blockchain_utilities/blockchain_ancestry.cpp:474-497 | the transaction that created an output spends only outputs below that output's block |
| `AncestrySpec.AncestorsFixedPoint` | src/blockchain_utilities/blockchain_ancestry.cpp:466-577 | an output is an ancestor if and only if it is a ring member or an ancestor of a ring member's origin |
| `AncestrySpec.AncestorsLeast` | src/blockchain_utilities/blockchain_ancestry.cpp:466-577 | every assignment closed under those two rules contains the ancestors |
| `AncestrySpec.MultiplicityIsPathCount` | src/blockchain_utilities/blockchain_ancestry.cpp:172-187 | the multiplicity of an output is the number of distinct spending paths that end in it |
| `AncestrySpec.ResolvableMeaning` | src/blockchain_utilities/blockchain_ancestry.cpp:430-574 | a transaction can be processed if and only if it is stored, can be kept, and every ring member it names has an origin |
| `AncestrySpec.UnfoldExtends` | src/blockchain_utilities/blockchain_ancestry.cpp:404-407 | growing the chain does not change what is reached from blocks already resolved |
| `ForwardPass.OriginAnswered` | src/blockchain_utilities/blockchain_ancestry.cpp:502-516 | when a transaction is processed, the set recorded for the origin of each ring member is already exact; an absent set counts as empty |
| `ForwardPass.WalkedInBlock` | src/blockchain_utilities/blockchain_ancestry.cpp:424-429 | in a block its listed transactions are walked, and its miner transaction exactly if asked for |
| `ForwardPass.MakeTxData` | src/blockchain_utilities/blockchain_ancestry.cpp:88-121 | a transaction converts to rings and output keys, or fails at an unsupported input of a non-coinbase or an unsupported output |
| `ForwardPass.AncestryState.LoadTx` | src/blockchain_utilities/blockchain_ancestry.cpp:435-459 | through the cache or not, a transaction reads as the database has it, and the cache stays in agreement |
| `ForwardPass.AncestryState.LoadBlock` | src/blockchain_utilities/blockchain_ancestry.cpp:476-497 | through the cache or not, a block reads as the database has it, also when the resize shrinks the cache |
| `ForwardPass.AncestryState.SearchTxs` | src/blockchain_utilities/blockchain_ancestry.cpp:528-569 | the search of a block's transactions gives the first one holding the key, independent of the transaction cache |
| `ForwardPass.AncestryState.FindOrigin` | src/blockchain_utilities/blockchain_ancestry.cpp:474-574 | for every setting of the cache flags and every agreeing cache, the origin found is the one the database defines, failures included |
| `ForwardPass.AncestryState.AddMember` | src/blockchain_utilities/blockchain_ancestry.cpp:472-575 | one ring member adds itself and its origin's ancestors to the transaction's set |
| `ForwardPass.AncestryState.AddRing` | src/blockchain_utilities/blockchain_ancestry.cpp:470-575 | one ring adds what unfolding its members adds, and fails exactly if a member has no origin |
| `ForwardPass.AncestryState.AddRings` | src/blockchain_utilities/blockchain_ancestry.cpp:466-577 | all rings together add exactly the ancestors, and fail exactly if some ring member has no origin |
| `ForwardPass.AncestryState.ProcessTx` | src/blockchain_utilities/blockchain_ancestry.cpp:430-582 | the set recorded for a transaction is its ancestors; it fails exactly if the transaction is not resolvable |
| `ForwardPass.AncestryState.ProcessBlock` | src/blockchain_utilities/blockchain_ancestry.cpp:407-582 | walking a block, again or for the first time, leaves every recorded set exact and answers its transactions |
| `ForwardPass.AncestryState.Walk` | src/blockchain_utilities/blockchain_ancestry.cpp:407-595 | the loop ends at the tip or the first stop, with everything up to there answered exactly |
| `ForwardPass.StopsWhenAsked` | src/blockchain_utilities/blockchain_ancestry.cpp:407-595 | a session ends after the first block at which it is asked to stop, or at the tip |
| `ForwardPass.ProgressBounded` | src/blockchain_utilities/blockchain_ancestry.cpp:407-595 | after any sessions the height saved is that of the last block walked |
| `ForwardPass.AncestryState.Run` | src/blockchain_utilities/blockchain_ancestry.cpp:404-595 | a session completes exactly if all it walks is resolvable, and then leaves a consistent state at the height it reached |
| `ForwardPass.RunSession` | src/blockchain_utilities/blockchain_ancestry.cpp:379-614 | from any consistent state file to the next; a failed run leaves the file as it was |
| `ForwardPass.RunSessions` | src/blockchain_utilities/blockchain_ancestry.cpp:379-614 | any sequence of interrupted, failed or differently configured sessions over a growing chain answers every transaction of the blocks walked, miner transactions included, with its ancestors in the last chain |
| `ForwardPass.AnswersIndependentOfHistory` | src/blockchain_utilities/blockchain_ancestry.cpp:404-429 | two sequences of sessions that end with the same chain give the same answer for every transaction, miner transactions included, of the blocks both have walked, whatever their caches, flags and stops |
| `ForwardPass.LastSessionFinishes` | src/blockchain_utilities/blockchain_ancestry.cpp:404-407 | after any earlier sessions, one that is not stopped has walked the whole chain |
| `ForwardPass.ConsistentExtends` | src/blockchain_utilities/blockchain_ancestry.cpp:404-407 | results and caches saved for a chain stay right for every longer chain |
| `BackwardPass.TalliesOneMore` | src/blockchain_utilities/blockchain_ancestry.cpp:172-179 | adding an ancestor advances its 32-bit counter and no other |
| `BackwardPass.FindOrigin` | src/blockchain_utilities/blockchain_ancestry.cpp:680-749 | the search of a block for the transaction holding a key |
| `BackwardPass.VisitMember` | src/blockchain_utilities/blockchain_ancestry.cpp:677-750 | one ring member moves from what is owed to what is counted, and its origin joins the queue |
| `BackwardPass.VisitRing` | src/blockchain_utilities/blockchain_ancestry.cpp:674-750 | the same for a whole ring, or the transaction cannot be traced |
| `BackwardPass.VisitRings` | src/blockchain_utilities/blockchain_ancestry.cpp:670-757 | the same for all inputs, or one of them is of another type or has a member that cannot be traced |
| `BackwardPass.ReadableMeaning` | src/blockchain_utilities/blockchain_ancestry.cpp:651-668 | which transactions the pass can read: stored, with a single generation input or only rings |
| `BackwardPass.VisitTx` | src/blockchain_utilities/blockchain_ancestry.cpp:651-757 | what a transaction owed is exactly what was counted plus what its origins owe |
| `BackwardPass.BalancedQueue` | src/blockchain_utilities/blockchain_ancestry.cpp:647-758 | working off a transaction keeps counted plus owed constant and shrinks owed plus queue length by one, so the worklist ends without a visited set |
| `BackwardPass.Trace` | src/blockchain_utilities/blockchain_ancestry.cpp:645-758 | the pass ends for every start, fails exactly if the start cannot be traced, and otherwise counts every output once per spending path, modulo 2^32 |
| `BackwardPass.FullAncestry` | src/blockchain_utilities/blockchain_ancestry.cpp:181-187 | the counters add up modulo 2^64, in any order |
| `BackwardPass.FullAncestryExact` | src/blockchain_utilities/blockchain_ancestry.cpp:172-187 | the sum of the counters of a trace is the size of the unfolded tree if and only if no counter and not the total wrapped |
| `BackwardPass.DeduplicatedAncestry` | src/blockchain_utilities/blockchain_ancestry.cpp:189-192 | the number of counters is the number of distinct ancestors |
| `BackwardPass.Report` | src/blockchain_utilities/blockchain_ancestry.cpp:641-760 | for every start that can be traced, the first number printed is the number of ancestors, and the second is the number of spending paths if and only if nothing wraps |
| `DoublingChain.DoublingPaths` | src/blockchain_utilities/blockchain_ancestry.cpp:172-187 | where every transaction has the previous output in two rings, transaction k reaches the first output on 2^k paths |
| `DoublingChain.CounterWraps` | src/blockchain_utilities/blockchain_ancestry.cpp:172-187 | on such a chain of 32 blocks the counter of the first output is 0 after a successful trace, and the total is wrong |
| `PassesAgree.SameAncestors` | src/blockchain_utilities/blockchain_ancestry.cpp:579-760 | the outputs counted backward are the set kept forward, for miner transactions too, so the printed sizes agree |
| `PassesAgree.WalkedIsTraceable` | src/blockchain_utilities/blockchain_ancestry.cpp:641-758 | whatever the forward pass walked the backward pass can trace, if the miner transactions are stored |
| `StoreSound.InputsOutcome` | src/blockchain_db/blockchain_db.cpp:146-169 | marking the inputs throws if and only if, before the first unsupported one, an image is repeated or was spent; otherwise it is accepted or aborted according to whether there is an unsupported one |
| `StoreSound.AcceptedInputs` | src/blockchain_db/blockchain_db.cpp:146-169 | accepted inputs were all unspent, and exactly their images are spent afterwards |
| `StoreSound.UnsupportedLeavesNoTrace` | src/blockchain_db/blockchain_db.cpp:157-168 | adding a transaction with an unsupported input throws, or drops it and un-spends its images; when each happens, and that nothing changed if and only if no image was spent before and none before that input is repeated |
| `StoreSound.AddBlockSound` | src/blockchain_db/blockchain_db.cpp:198-255 | adding a block leaves no holes in ids and indices, which is what makes a count the next free number |
| `StoreSlots.AddOutputsAppended` | src/blockchain_db/lmdb/db_lmdb.cpp:926-990 | the outputs of a transaction go to places that can be told from the lengths of the lists before, with fresh ids, and nothing else changes |
| `StoreSlots.RemoveOutputsSlots` | src/blockchain_db/lmdb/db_lmdb.cpp:1015-1035 | removing the outputs of a transaction last to first is emptying the places its removal test and recorded indices name |
| `StoreSlots.RestoredIff` | src/blockchain_db/lmdb/db_lmdb.cpp:1037-1073 | emptying as many places as were filled restores both output tables if and only if they are the same places, in any order |
| `StoreUndo.RemoveAfterAdd` | src/blockchain_db/blockchain_db.cpp:281-295 | whatever happened to the outputs since, removing the newest transaction restores every other table |
| `StoreUndo.AddTxUndone` | src/blockchain_db/blockchain_db.cpp:281-295 | removing a transaction right after adding it restores every table if and only if both tests agree on amounts |
| `StoreUndo.LastOfItsAmount` | src/blockchain_db/lmdb/db_lmdb.cpp:1015-1035 | where they agree, after the outputs from k on are removed the tables are those with the first k outputs, and the output removed next is the last of its amount list |
| `StoreUndo.RemoveTxsAfterAdd` | src/blockchain_db/blockchain_db.cpp:268-272 | removing a block's transactions in reverse lists them in reverse and restores every table but for the outputs, where exactly the places looked up are emptied |
| `StoreUndo.ReversedAt` | src/blockchain_db/blockchain_db.cpp:268-272 | the transaction listed k-th is the k-th from the end |
| `StoreUndo.PopNeedsSupported` | src/blockchain_db/blockchain_db.cpp:262-274 | a pop that restores the tables shows that no transaction was dropped on addition |
| `StoreUndo.DroppedFound` | src/blockchain_db/blockchain_db.cpp:262-274 | a block with a dropped transaction can be popped at all only if the hash of a dropped one names an older transaction |
| `StoreUndo.PopUndoesAdd` | src/blockchain_db/blockchain_db.cpp:198-274 | for every block: pop undoes add if and only if every input is supported and the places its outputs are looked up in are the places they were put in; it then lists the transactions in reverse |
| `StoreUndo.MinerDecides` | src/blockchain_db/blockchain_db.cpp:198-274 | where only the miner transaction has generation inputs, that condition is the agreement of both tests on its outputs, whatever the state |
| `StoreUndo.WhenTestsAgree` | src/blockchain_db/lmdb/db_lmdb.cpp:1029-1034 | the two tests agree if and only if all amounts are zero, or a generation input with version 2 comes together with a single generation input and version 2 or above |
| `StoreUndo.MinerAgrees` | src/blockchain_db/lmdb/db_lmdb.cpp:1029-1034 | with a single generation input they agree if and only if the version is at most 2 or all amounts are zero |
| `StoreUndo.PopReplay` | src/blockchain_db/blockchain_db.cpp:262-274 | popping the newest of any replayable blocks gives what the others alone give if and only if it is restorable |
| `StoreUndo.HistoryIndependence` | src/blockchain_db/blockchain_db.cpp:198-295 | for every history of additions and removals, failed ones included: every state along it is what adding the surviving blocks in order gives if and only if every block popped was restorable |
| `StoreUndo.WellFormedHistory` | src/blockchain_db/blockchain_db.cpp:198-295 | histories of blocks with supported inputs and agreeing amounts meet that condition |
| `StoreUndo.SameSurvivors` | src/blockchain_db/blockchain_db.cpp:198-295 | two such histories that leave the same blocks leave the same tables |
| `StoreIndex.AddBlockIndexed` | src/blockchain_db/blockchain_db.cpp:171-195 | adding a block keeps recorded indices and stored outputs in one-to-one correspondence |
| `StoreIndex.PopIndexed` | src/blockchain_db/blockchain_db.cpp:262-274 | a pop that succeeds leaves that correspondence if and only if the block was restorable, unless a dropped transaction shares the hash of an older one |
| `StoreIndex.ReachableIndexed` | src/blockchain_db/blockchain_db.cpp:171-274 | over every history, failed operations included: at every point each recorded index locates its output, under amount 0 for version 2 miner transactions, with its key, unlock time, height and commitment, and each stored output is recorded by its transaction, if and only if every block popped was restorable |
| `StoreLinks.AddRowLinked` | src/blockchain_db/lmdb/db_lmdb.cpp:690-747 | appending a block keeps the chain of parent hashes and the agreement of the tables by height and by hash |
| `StoreLinks.RemoveRowLinked` | src/blockchain_db/lmdb/db_lmdb.cpp:755-787 | removing the top block keeps them too |
| `StoreLinks.ReachableLinked` | src/blockchain_db/blockchain_db.cpp:198-274 | after every history, whatever was added and popped, each block names the hash of the one below, and lookups by hash and by height agree |
| `StoreAccepts.AddTxSucceeds` | src/blockchain_db/blockchain_db.cpp:124-196 | adding a transaction succeeds if and only if before its first unsupported input no image is repeated or spent and, unless there is such an input, its hash is new, its outputs go to keys and below version 2 none has amount 0 |
| `StoreAccepts.AddTxLeaves` | src/blockchain_db/blockchain_db.cpp:146-169 | which images are spent and which hashes stored afterwards |
| `StoreAccepts.AddTxsSucceeds` | src/blockchain_db/blockchain_db.cpp:228-238 | the same for transactions added one after the other |
| `StoreAccepts.AddRowSucceeds` | src/blockchain_db/lmdb/db_lmdb.cpp:680-743 | a block can be appended if and only if its hash is new, its parent is the newest block, and from version 4 on there is one |
| `StoreAccepts.AddBlockSucceeds` | src/blockchain_db/blockchain_db.cpp:198-255 | adding a block succeeds if and only if the numbers of hashes and transactions match, its transactions can be added one after the other and it can be appended |
| `StoreAccepts.AddBlockRecords` | src/blockchain_db/lmdb/db_lmdb.cpp:720-743 | the new row holds the weight, difficulty, coins and hash given for the block, and earlier rows stay |
| `StoreAccepts.AddBlockReadBack` | src/blockchain_db/lmdb/db_lmdb.cpp:792-861 | every transaction of the block that was not dropped can be read back under its hash, with its height and unlock time |
| `StoreAccepts.ReplayRecords` | src/blockchain_db/blockchain_db.cpp:198-255 | after any number of blocks this holds of each of them |
| `StoreAccepts.ReachableRecords` | src/blockchain_db/blockchain_db.cpp:198-274 | in every state reached by popping only restorable blocks it holds of every surviving block |
| `StoreRct.AddBlockGrowth` | src/blockchain_db/blockchain_db.cpp:177-194 | how much a block lengthens the amount-0 list, in whatever state the tables are |
| `StoreRct.RctBalance` | src/blockchain_db/blockchain_db.cpp:222-238 | for every block: that growth is the recorded count, plus the outputs stored under 0 without being counted, less those counted without being stored there |
| `StoreRct.RctCountExact` | src/blockchain_db/blockchain_db.cpp:222-238 | the recorded count is the growth if and only if as many outputs are missed as are counted in vain |
| `StoreRct.ValidatedBalance` | src/blockchain_db/blockchain_db.cpp:222-238 | with supported inputs and generation inputs in the miner transaction only, just zero-amount outputs of a miner transaction of another version than 2 are missed |
| `StoreRct.RctTrackedStep` | src/blockchain_db/lmdb/db_lmdb.cpp:722-743 | a running count that was the length of the amount-0 list stays so if and only if the block misses as many as it counts in vain, where a block below version 4 also misses the whole list |
| `StoreRct.SurvivorsTracked` | src/blockchain_db/lmdb/db_lmdb.cpp:722-743 | over every history popping only restorable blocks: the running count was right at every surviving block if and only if each survivor meets that condition on the blocks below it, and then the newest one is the length of the list |
| `StoreRct.PopShorter` | src/blockchain_db/lmdb/db_lmdb.cpp:1015-1073 | how much popping shortens the amount-0 list, in whatever state the tables are, told from the stored transactions before the pop |
| `StoreRct.RctTrackedPop` | src/blockchain_db/lmdb/db_lmdb.cpp:755-787 | popping keeps the running count right if and only if as many outputs are looked up under 0 as the newest running count is above the one before |
| `StoreRct.RctTrackedAddPop` | src/blockchain_db/lmdb/db_lmdb.cpp:755-787 | for a block just added, that is if and only if as many of its outputs are looked up under 0 as were stored there |
| `StoreRct.ReachableTracked` | src/blockchain_db/lmdb/db_lmdb.cpp:680-787 | over every history, whatever was added and popped and whatever failed: the newest running count is the length of the amount-0 list at every point if and only if every operation meets its condition in the state it finds |
| `StoreRct.ForkedChainCountsRight` | src/blockchain_db/lmdb/db_lmdb.cpp:722-743 | a chain of plain-amount blocks followed by version 4 and later blocks meets it throughout |
| `StoreWitnesses.Version3Stays` | src/blockchain_db/lmdb/db_lmdb.cpp:1029-1034 | a block with a version 3 miner transaction is added to the empty store and not popped back |
| `StoreWitnesses.PopTakesAnother` | src/blockchain_db/lmdb/db_lmdb.cpp:1029-1034 | popping such a block takes the output of another transaction, whose recorded index then locates nothing |
| `StoreWitnesses.OldHashPopped` | src/blockchain_db/blockchain_db.cpp:262-274 | a block that is not restorable, with a dropped transaction under an old hash, is popped and the store stays indexed |
| `StoreWitnesses.UnsupportedCanUnspend` | src/blockchain_db/blockchain_db.cpp:157-168 | an image spent by a stored transaction becomes unspent when a block with an unsupported transaction is added |
| `StoreWitnesses.DroppedStays` | src/blockchain_db/blockchain_db.cpp:157-168 | a block with a dropped transaction that cannot be popped |
| `StoreWitnesses.Version3NotCounted` | src/blockchain_db/blockchain_db.cpp:222-226 | a block whose recorded count is 0 and whose growth is 1 |
| `StoreWitnesses.CountRestarts` | src/blockchain_db/lmdb/db_lmdb.cpp:722-743 | a block below version 4 after which the running count is no longer the length of the list |
| `ChainStore.Store.RemoveSpentKeys` | src/blockchain_db/lmdb/db_lmdb.cpp:1092-1110 | the images of the inputs are removed; absent ones are no error |
| `ChainStore.Store.RemoveTransactionData` | src/blockchain_db/lmdb/db_lmdb.cpp:865-924 | rows, outputs (last to first) and index entry of a transaction go |
| `ChainStore.Store.PutOutputs` | src/blockchain_db/blockchain_db.cpp:173-195 | the loop over outputs stores each and collects its index |
| `ChainStore.Store.AddTransaction` | src/blockchain_db/blockchain_db.cpp:124-196 | inputs, rows, outputs and indices as specified, or the exceptional exits |
| `ChainStore.Store.RemoveTransaction` | src/blockchain_db/blockchain_db.cpp:281-295 | images, outputs and rows of a stored transaction go |
| `ChainStore.Store.PutTxs` | src/blockchain_db/blockchain_db.cpp:228-238 | the loop adds the transactions and counts zero amounts |
| `ChainStore.Store.Add` | src/blockchain_db/blockchain_db.cpp:198-255 | the block joins the chain, or nothing changes; on a store that matches its chain it joins if and only if it fits, told from the block and what is stored; the store then still matches, its row records what was given, its transactions can be read back, indices and links are right, and the height returned is the length of the chain before |
| `ChainStore.Store.TakeTxs` | src/blockchain_db/blockchain_db.cpp:268-272 | the reverse loop removes and lists the transactions |
| `ChainStore.Store.TakeAll` | src/blockchain_db/blockchain_db.cpp:262-274 | the top block goes, then its transactions in reverse, then its miner transaction |
| `ChainStore.Store.Pop` | src/blockchain_db/lmdb/db_lmdb.cpp:3135-3152 | the newest block leaves the chain, or nothing changes; a store that matched its chain still does if and only if the pop failed or the block was restorable, its recorded indices are right after a pop if and only if the block was restorable, and a restorable block is popped and returned with its transactions in reverse |
| `ChainStore.Store.PopBlocks` | src/blockchain_utilities/blockchain_import.cpp:134-167 | popping any number of restorable blocks leaves exactly the blocks below and lists all their transactions, last to first; it throws if and only if more are asked for than there are, with none left |
| `Wildcard.WildCardMatch` | external/easylogging++/easylogging++.cc:810-832 | the matcher ends on all inputs and accepts exactly the strings that can be cut into one fitting piece per pattern character |
| `Wildcard.Star` | external/easylogging++/easylogging++.cc:819-824 | a star matches nothing, or one character and a star again |
| `CategoryRules.LevelNamesRead` | external/easylogging++/easylogging++.cc:94-112 | for every text: a level is read if and only if the text starts with one of its two spellings, given as sixteen literals |
| `CategoryRules.ParseSpelled` | external/easylogging++/easylogging++.cc:1984-2016 | a pattern with any of the sixteen spellings is that one rule |
| `CategoryRules.UnfinishedLevel` | external/easylogging++/easylogging++.cc:2004-2008 | a rule whose level text does not end in a spelling is dropped, whatever levels stand earlier in it |
| `CategoryRules.ScanComma` | external/easylogging++/easylogging++.cc:1984-2013 | scanning across a comma is scanning the two sides one after the other; the level look-ahead never crosses it |
| `CategoryRules.ParseJoined` | external/easylogging++/easylogging++.cc:1980-2017 | a complete text joined with any other by a comma means the rules of both |
| `CategoryRules.JoinNeedsComplete` | external/easylogging++/easylogging++.cc:1994-2002 | only complete texts have that property |
| `CategoryRules.ParsePrinted` | external/easylogging++/easylogging++.cc:1984-2016 | printing any list of writable rules and scanning it gives the list |
| `LogFilter.Priority` | external/easylogging++/easylogging++.cc:2025-2034 | the priority of a level is its place in the order of severity, and levels outside it come last |
| `LogFilter.VerdictDecides` | external/easylogging++/easylogging++.cc:2042-2054 | a level is shown if and only if the last matching rule lets it through |
| `LogFilter.LastRuleDecides` | external/easylogging++/easylogging++.cc:2042-2054 | a rule given last decides about the categories it matches, by the order of severity, and leaves all others alone |
| `LogFilter.CallInStep` | external/easylogging++/easylogging++.cc:1973-1982 | one call keeps text and rules in step |
| `LogFilter.TextParsesToRules` | external/easylogging++/easylogging++.cc:1966-2017 | after any calls with complete texts, the accumulated text parses to exactly the rules in force |
| `LogFilter.TextIsJoined` | external/easylogging++/easylogging++.cc:1980-1982 | texts given one after the other are kept with commas between them |
| `LogFilter.ClearForgets` | external/easylogging++/easylogging++.cc:1973-1977 | a call that clears makes every earlier call irrelevant to rules and text |
| `LogFilter.IncompleteTextDrifts` | external/easylogging++/easylogging++.cc:1994-2002 | two calls after which it does not |
| `LogFilter.Registry.ScanChar` | external/easylogging++/easylogging++.cc:1988-2013 | one turn of the loop does one step of the scanner |
| `LogFilter.Registry.ScanText` | external/easylogging++/easylogging++.cc:1984-2016 | the loop appends the parsed rules and leaves no stale decision in the memo |
| `LogFilter.Registry.SetCategories` | external/easylogging++/easylogging++.cc:1966-2017 | rules and text after a call; the memo stays in agreement; text and rules stay in step |
| `LogFilter.Registry.Allowed` | external/easylogging++/easylogging++.cc:2036-2056 | with or without a remembered decision, the answer is that of the last matching rule, and no match means no; the decision is remembered unless there are no rules |
| `LogFilter.Registry.ClearCategories` | external/easylogging++/easylogging++.h:2490-2494 | rules and memo are cleared; text and rules stay in step only if there were no rules |
| `DecimalPrinter.TextDenotes` | external/easylogging++/easylogging++.cc:934-947 | for a length of at least 1 the text is a numeral for n modulo 10^min(len,8), of exactly min(len,8) digits when padded |
| `DecimalPrinter.UnpaddedLength` | external/easylogging++/easylogging++.cc:934-947 | without padding and for a length of at least 1 there are at most min(len,8) characters, no leading zero, and no digit missing unless that length is reached |
| `DecimalPrinter.NoLength` | external/easylogging++/easylogging++.cc:934-947 | for a length below 1 nothing is printed but the number zero |
| `DecimalPrinter.FillDigits` | external/easylogging++/easylogging++.cc:936-943 | the scratch buffer ends in the digits, as many as there are, fit and were asked for |
| `DecimalPrinter.PadZeros` | external/easylogging++/easylogging++.cc:944-945 | zeros fill it up to the length asked for |
| `DecimalPrinter.AddToBuff` | external/easylogging++/easylogging++.cc:949-953 | the text is copied up to the limit, terminated if there is room, and nothing else is touched |
| `DecimalPrinter.ConvertAndAddToBuff` | external/easylogging++/easylogging++.cc:934-947 | the buffer holds the text, cut at the limit and terminated if there is room |
| `EmbeddedFile.Emit` | translations/generate_translations_header.c:55-64 | the loop prints the literals and the count |
| `EmbeddedFile.PrintedInLines` | translations/generate_translations_header.c:54-64 | the bytes of a non-empty file stand sixteen to a line, each line a literal, followed by the count |
| `EmbeddedFile.HexDigits` | translations/generate_translations_header.c:62-62 | an escape uses lower-case hex digits |
| `EmbeddedFile.EscapeRead` | translations/generate_translations_header.c:62-62 | an escape is read as its byte and takes exactly two digits, since no hex digit follows |
| `EmbeddedFile.RoundTrip` | translations/generate_translations_header.c:54-64 | the printed text reads back as the bytes and their number, for every non-empty file and no empty one |

## Left out

- Command line, state-file serialization and its old versions, progress printing and signals of the ancestry tool; the uninitialised height of a first run, which is taken to be 0.
- Parsing of blobs, hashing, commitments and the conversion of relative to absolute offsets: given as data.
- The batch mode of popping blocks, in which all pops are one database transaction.
- Chains whose blocks are replaced between two sessions of the ancestry tool: only growth is modelled.
- LMDB itself: a table is a map or a sequence, putting a numbered row anywhere but behind all others fails, and a failed block operation is rolled back as a whole. Prunable hashes, block weights as statistics, and hard-fork state are not modelled.
- The mask of a version 2 or later output is a field of the output, so a missing mask is not modelled.
- Locks: each registry operation is one atomic step. Null categories, modules and verbosity levels, and the rest of the logging library are not modelled.
- The file-name line and the lookup function of the generated header, and files of more than 2^31 - 1 bytes.
- StoreIndex.ReachableIndexed: is stated for histories in which no dropped transaction has the hash of a stored one, which is so wherever a hash belongs to one transaction; `StoreWitnesses.OldHashPopped` shows that this cannot be left out.
