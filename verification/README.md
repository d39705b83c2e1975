# Chain-state engine: a verified model

This project models the chain-state engine of a full node and the protocols around it,
and proves what they are for: the stored utxo set is always the replay of the main chain,
however blocks are connected, disconnected and reorganised.

The modules follow the program:

- `Ledger` is the reference meaning: a map of unspent coins, changed by replaying
  transactions forwards and undoing them backwards. `UtxoView` is the overlay of cached,
  missing and spent entries over the store, `Validate` the checks that accept a block on
  it, `ChainState` the database (utxo set, spend journal, both indexes) and its runs, and
  `Supply` the value in it. `ForwardReferences` and `LegacySpends` are two corners of them:
  references to later transactions, and spent coins of the old journal format.
- `Reorganize` is the acceptance of a new block and the two-phase branch switch, on top of
  `NodeBlocks` (nodes and their blocks), `Flags` (the validation flags), `ViewHistory`
  (what a view has ever held) and `Switch` (how each block of a switch comes out).
  `OtherSet` and `SideBranch` are about blocks checked on another set than their own.
  `ChainRules` states the rules of acceptance, and the contents of the stored set, as facts
  about a whole chain.
- `BlockTree`, `ChainView`, `ForkNodes` and `Locator` are the block tree, the flat array
  that caches one branch of it, fork finding and block locators. `Median` and `Threshold`
  are the past median time and the memoised BIP 9 deployment states.
- `Vlq`, `Amount`, `Compress`, `Journal` and `UtxoStore` are the storage formats, down to
  the byte bucket that stands for the utxo map; `Formats` spells them out field by field
  and on the documented examples, and `ChainJournal` ties them to the chain. `ScriptPops`
  is the parsing of output scripts.
- `ScriptPool` and `PeerPipeline` are the script-validation worker pool and the peer's
  send pipeline as step systems; a theorem about a run holds for every interleaving.
- `FeeEstimate` is the fee estimator with its undo log, `Orphans` the orphan pool,
  `Merkle` the merkle array and `Compact` the compact form of targets.

A *well-ordered* block has its coinbase first and only there, distinct transaction ids, no
repeated input in a transaction, references only to earlier transactions of the block and
a height above 0. The sanity checks establish this except for the references; what a block
is accepted for is stated for every order of references, and what acceptance means for the
well-ordered ones. A valid flag is *honest* when its node ends a valid chain.

Where the code differs from what is said about it, the model follows the code:

- connectBestChain checks a new block on the stored set of the tip, whatever its parent,
  and flags it by the outcome. On the tip the flag is honest (`SideBranch.TipFlagHonest`);
  elsewhere exactly under the condition of `SideBranch.SideFlagHonest`. Flags need not be
  honest, then, and reorganizeChain is stated for all of them: a flagged block can pass the
  dry run on an entry the detached blocks left spent, and stop the commit with main-chain
  blocks already disconnected (`SideBranch.SideBlockRun`).
- A block that is already flagged, or comes with BFFastAdd, is connected twice in one view.
  connectBlock refuses it for the number of spent coins unless it spends none, and it is
  reported as on the main chain all the same (`Reorganize.BlockChain.AcceptBlock`).
- No check asks for the order of references inside a block. One that spends an output of a
  later transaction is accepted when a third transaction makes the loader add that output
  early, and its value then exists twice (`ForwardReferences.ForwardAccepted`); the
  condition that keeps acceptance sound is `Ledger.RefersBackwards`
  (`ForwardReferences.AcceptedInOrder`).
- Height and coinbase flag of a spent coin in the old journal format are said to be looked
  for among the outputs of its transaction. The search is for the transaction that spent
  it, so the coin comes back with the height of the block being undone, and right only if
  it was created there (`LegacySpends.LegacyUndoExact`).
- The description of the amount encoding gives 47 for half a coin; the code gives 48
  (`Formats.HalfCoin`).
- The orphan pool's limit is given as 100, but the block remembered as the oldest may have
  left the pool, so that evicting it frees nothing: the pool can reach 101 and no more
  (`Orphans.OverflowReached`; `Orphans.OrphanPool.AddOrphanBlock` has the exact condition).
- `commit` toggles the modified bit instead of clearing it, so an entry that was not
  modified comes out flagged (`UtxoView.CommitClears`). No lookup changes
  (`UtxoView.CommitKeepsMeaning`).
- The fee estimator guards its bin number against being too large, not against being
  negative. A transaction observed after a block that is then rolled back has bin number
  -1 at that height (`FeeEstimate.ObservedBeforeRollback`). Registration succeeds exactly
  when the height follows and every observed transaction of the block is unmined and was
  observed below the block's height (`FeeEstimate.FeeEstimator.RegisterBlock`).

## Model

| member | source | states |
|---|---|---|
| `Ledger.DisconnectInvertsConnect` | pkg/chain/utxoviewpoint.go:205-407 | undoing a well-ordered block with the coins its replay spent gives back exactly the set before it, outputs created and spent inside the block included |
| `Ledger.UndoInvertsApplyTxs` | pkg/chain/utxoviewpoint.go:291-407 | the same for every prefix of the block's transactions |
| `Ledger.UndoInvertsApplyTx` | pkg/chain/utxoviewpoint.go:302-402 | one transaction: removing its outputs and restoring its inputs inverts spending and adding |
| `Ledger.SpendsCount` | pkg/chain/chain.go:738-745 | a connectable block spends exactly as many coins as its non-coinbase transactions have inputs |
| `Ledger.NextCreatesFresh` | pkg/chain/validate.go:429-456 | in a well-ordered block that overwrites nothing, the next transaction creates no output that is already unspent |
| `UtxoView.UtxoViewpoint.AddTxOut` | pkg/chain/utxoviewpoint.go:166-180 | the spendable output of that index gets a fresh, modified, unspent entry; an index out of range or an unspendable script adds nothing, and no other entry changes |
| `UtxoView.UtxoViewpoint.PutTxOut` | pkg/chain/utxoviewpoint.go:139-160 | a fresh entry replaces whatever the view held for the outpoint, and an unspendable script changes nothing |
| `UtxoView.UtxoViewpoint.AddTxOuts` | pkg/chain/utxoviewpoint.go:184-198 | the view becomes the old one overridden by exactly the transaction's spendable outputs |
| `UtxoView.UtxoViewpoint.ConnectTransaction` | pkg/chain/utxoviewpoint.go:205-244 | succeeds iff the transaction is a coinbase or every input has an entry; then marks the inputs spent, adds the outputs and appends the spent coins in input order |
| `UtxoView.UtxoViewpoint.ConnectTransactions` | pkg/chain/utxoviewpoint.go:249-260 | for every block: succeeds iff every input has an entry at its transaction's turn, and then entries and recorded coins are the closed form of the whole block; a refusal leaves the best hash |
| `UtxoView.ConnectAllMeans` | pkg/chain/utxoviewpoint.go:249-260 | on a prepared view a well-ordered block that can be replayed always connects; the view over the store then means the set with the block replayed, and the coins are the block's spends in order |
| `UtxoView.UtxoViewpoint.RemoveTxOuts` | pkg/chain/utxoviewpoint.go:321-339 | every output of the transaction is marked spent in the view, with a new entry where there was none |
| `UtxoView.UtxoViewpoint.RestoreTxIns` | pkg/chain/utxoviewpoint.go:347-401 | the inputs are restored last first; a coin of height 0 first gets height and coinbase flag from the search by hash, and without a result the loop stops there |
| `UtxoView.UtxoViewpoint.DisconnectTransaction` | pkg/chain/utxoviewpoint.go:302-402 | one transaction of the backwards walk: outputs marked spent, inputs restored |
| `UtxoView.UtxoViewpoint.DisconnectTransactions` | pkg/chain/utxoviewpoint.go:291-407 | a wrong number of coins is refused and changes nothing; otherwise the view ends as the closed-form undo says, half way where a coin of the old format cannot be completed, and the best hash becomes the parent only after all of it |
| `UtxoView.UtxoViewpoint.FetchEntryByHash` | pkg/chain/utxoviewpoint.go:265-285 | the first entry of the view under any output index of the hash, else what the store is found to hold |
| `UtxoView.ResurrectRecent` | pkg/chain/utxoviewpoint.go:343-401 | with coins of the present format nothing is searched for and the undo is the plain one, over a whole block |
| `LegacySpends.LegacyUndoExact` | pkg/chain/utxoviewpoint.go:360-391 | for a spender with a spendable output: undoing with coins whose height and flag the old format dropped gives the same entries as with the full coins iff every such coin was created in the block being undone, off the coinbase |
| `LegacySpends.ResurrectFails` | pkg/chain/utxoviewpoint.go:379-388 | for a spender without one, and nothing else of its hash in view or store: the undo fails iff some coin is of the old format |
| `UtxoView.UtxoViewpoint.Commit` | pkg/chain/utxoviewpoint.go:423-431 | nil and spent entries go, every other entry has its modified bit toggled |
| `UtxoView.CommitClears` | pkg/chain/utxoviewpoint.go:423-431 | all entries that stay come out unmodified iff all of them were modified before |
| `UtxoView.UtxoViewpoint.FetchUtxosMain` | pkg/chain/utxoviewpoint.go:439-461 | each requested outpoint is bound to the stored coin or to nil |
| `UtxoView.UtxoViewpoint.FetchUtxos` | pkg/chain/utxoviewpoint.go:466-484 | only outpoints the view does not hold yet are fetched |
| `UtxoView.UtxoViewpoint.FetchTxInputs` | pkg/chain/utxoviewpoint.go:502-529 | for every transaction: each input from an earlier place in the block adds that transaction's outputs, each unknown one from elsewhere joins the set to fetch |
| `UtxoView.UtxoViewpoint.FetchInputUtxos` | pkg/chain/utxoviewpoint.go:489-532 | for every block the view becomes the closed form of that walk over all inputs, with the unknown ones looked up in the store |
| `UtxoView.FetchedViewOk` | pkg/chain/utxoviewpoint.go:489-532 | then every input from outside the block has a key, no lookup outside the block's own outputs has changed, and the view is still coherent with the store |
| `UtxoView.ConnectEntriesMeans` | pkg/chain/utxoviewpoint.go:205-244 | if the view over the store means u, the view after connecting a transaction means u with the transaction replayed |
| `UtxoView.UndoEntriesMeans` | pkg/chain/utxoviewpoint.go:291-407 | if the view means u off the block's outputs, the undone view means the undo of u everywhere |
| `UtxoView.MidBlockStep` | pkg/chain/utxoviewpoint.go:249-260 | the invariant of the loop over a block: outputs added early stay invisible until their own transaction, inputs are present and carry the right coins |
| `UtxoView.CountSpentOutputs` | pkg/chain/chain.go:738-745 | the count is the number of inputs outside the coinbase |
| `ScriptPops.UnspendableExactly` | pkg/chain/tx/script/script.go:795-801 | an output is kept out of the set iff its script is not a list of opcodes with their data written out, or begins with the return opcode |
| `UtxoView.PutUtxoView` | pkg/chain/chainio.go:687-732 | after writing back, a store lookup is what the lookup through view over store was, for every outpoint |
| `UtxoView.CommitKeepsMeaning` | pkg/chain/utxoviewpoint.go:423-431 | writing back and committing changes no lookup through view over store although the modified flag is toggled, and the view stays coherent with the new store |
| `Validate.CheckOutputs` | pkg/chain/validate.go:830-861 | true iff every value and every running sum is within 0..MaxSatoshi, computed with wrapping int64 additions |
| `Validate.CheckDistinct` | pkg/chain/validate.go:863-870 | true iff no input repeats |
| `Validate.CheckTransactionSanity` | pkg/chain/validate.go:805-895 | true iff the lists are not empty, values and their unbounded sum are in range, no input repeats, none is null outside a coinbase, the stripped size is at most a million bytes and a coinbase script has 2 to 100 bytes |
| `Validate.CheckTransactionInputs` | pkg/chain/validate.go:715-801 | a fee is returned iff every input is unspent and in range, every coinbase input at least as deep as the maturity, and the inputs cover the outputs in unbounded arithmetic, none of it above MaxSatoshi; the fee is then their exact difference |
| `Validate.CheckTransactions` | pkg/chain/validate.go:170-196 | for every block: the loop returns the fee total iff each transaction obeys the rules on what the view shows at its turn and the unbounded fee sums fit an int64; the view is then the connected one and the coins are the spent ones |
| `Validate.CheckCoinbaseValue` | pkg/chain/validate.go:199-210 | true iff the coinbase pays at most subsidy plus fees as unbounded numbers: no accepted block relies on a wrapped sum |
| `Validate.CheckBIP0030` | pkg/chain/validate.go:429-456 | true iff no output of the block is unspent in the view after all of them were looked up |
| `Validate.CheckConnectBlock` | pkg/chain/validate.go:79-380 | for every block of sane transactions, whatever its references: accepted iff the best hash is its parent, it is not the genesis, the duplicate check passes where it is in force, every transaction passes at its turn, the coinbase pays at most subsidy and fees and the remaining rules pass; every coin it then spends is in range and mature, and it pays out no more than these coins and the subsidy |
| `Validate.VerdictMeans` | pkg/chain/validate.go:79-380 | on a view that means u, a well-ordered block gets that verdict iff it is valid on u; the view then means u with the block replayed and the coins are the block's spends |
| `Validate.CheckTxsCoins` | pkg/chain/validate.go:170-196 | of every accepted list of transactions: each spent coin is in range and, off a coinbase, of the required depth; the fees are the spent coins less the outputs |
| `ChainRules.JournalMature` | pkg/chain/validate.go:733-745 | every coin in the journal of a valid chain is in range and, if a coinbase made it, at least as deep below its spender as the maturity |
| `ChainRules.JournalCovers` | pkg/chain/validate.go:170-210 | no block of a valid chain pays out more than its journal entry and its subsidy bring in, no output is out of range, and each block has passed the remaining rules |
| `ForwardReferences.AcceptedInOrder` | pkg/chain/validate.go:106-196 | of the blocks this accepts without looking at the order of references, exactly those can be replayed in order, and exactly those are valid, whose references all run backwards |
| `ForwardReferences.ForwardAccepted` | pkg/chain/utxoviewpoint.go:489-532 | an accepted block with a forward reference: the output spent ahead of its creation is unspent at the end and the set is worth 16 instead of 10, with a subsidy of 0 |
| `ChainState.ConnectMirrors` | pkg/chain/chain.go:520-630 | connecting a valid block keeps the stored state the mirror of the chain: utxo set = replay, one journal entry per block, both indexes, transaction total |
| `ChainState.ConnectRecorded` | pkg/chain/chain.go:520-630 | and any block written from a view that means its replay keeps the record of the chain, valid or not |
| `ChainState.DisconnectMirrors` | pkg/chain/chain.go:635-735 | disconnecting the tip with its journal entry gives the mirror of the shorter chain |
| `ChainState.RunInvariant` | pkg/chain/chain.go:520-735 | after every run of connects and disconnects from genesis the stored state mirrors the main chain, and a chain longer than genesis can always be disconnected |
| `ChainState.MirrorUnique` | pkg/chain/chain.go:520-735 | the chain determines the whole stored state |
| `ChainRules.StoredExactly` | pkg/chain/chain.go:520-630 | a coin is in the stored set iff some transaction of the main chain made it, with its output's value and script, its block's height and the flag of a coinbase, and no later one has spent it or made it again |
| `ChainRules.StoredTotal` | pkg/chain/chain.go:560-577 | the stored total counts the transactions of the whole main chain |
| `ChainState.ConnectThenDisconnect` | pkg/chain/chain.go:520-735 | disconnecting a block just connected gives back the whole stored state: utxo set, journal, both indexes and the total |
| `ChainState.CoinbaseOnlyConnects` | pkg/chain/validate.go:79-380 | a block of nothing but a coinbase within the subsidy connects to any chain, if its id is new among the unspent outputs |
| `ChainState.MirrorIndexes` | pkg/chain/chainio.go:737-767 | hash-to-height and height-to-hash are mutual inverses |
| `ChainState.MirrorJournal` | pkg/chain/chainio.go:428-439 | the journal has exactly one entry per non-genesis block, listing that block's spends on the replay below it, in order |
| `ChainState.JournalUndo` | pkg/chain/chainio.go:401-422 | the journal entry of any main-chain block undoes the replay up to it into the replay below it, and holds no coin of height 0 |
| `ChainState.TipJournalAboveGenesis` | pkg/chain/utxoviewpoint.go:379-391 | the height-0 lookup is never needed on a valid chain: every spent coin has height above 0 |
| `Supply.BlockConservesValue` | pkg/chain/validate.go:170-210 | value after a valid block = value before + coinbase outputs - fees - unspendable outputs, hence at most the subsidy more |
| `Supply.ChainSupply` | pkg/chain/validate.go:199-210 | the utxo set of a valid chain is worth at most the sum of its subsidies |
| `Supply.RunSupply` | pkg/chain/validate.go:170-210 | the same in every state reached by any run of connects and disconnects |
| `Reorganize.BlockChain.ConnectBlock` | pkg/chain/chain.go:520-630 | succeeds iff the block extends the tip and the number of spent coins matches; then chain and database are those with the block and the view agrees with the store, holding no spent entry; otherwise nothing changes |
| `Reorganize.BlockChain.DisconnectBlock` | pkg/chain/chain.go:635-735 | succeeds iff the node is the tip; then chain and stored state are those of the parent, and the view agrees with the store |
| `Reorganize.BlockChain.DryDetach` | pkg/chain/chain.go:799-842 | one view walks the whole detach list and means the replay at the fork; the journal entries read on the way are returned |
| `Reorganize.BlockChain.DryAttach` | pkg/chain/chain.go:860-908 | for any flags: passes iff every attach block passes at its turn, a flagged one when the view has ever held all its outside inputs, any other one when it is valid; else stops at the first that does not, and marks it and its successors if it was not flagged |
| `Reorganize.BlockChain.SetFailed` | pkg/chain/chain.go:896-905 | every node's flags after: the failing node gains the failed flag, the later ones the invalid-ancestor flag, all others keep theirs |
| `Reorganize.BlockChain.CommitDetach` | pkg/chain/chain.go:914-938 | disconnecting the detach list with database writes between blocks cannot fail and reaches the fork point |
| `Reorganize.BlockChain.CommitAttach` | pkg/chain/chain.go:940-962 | connects with database writes between blocks up to the first block whose inputs are not all unspent at its turn, and stops there |
| `Reorganize.BlockChain.DryRun` | pkg/chain/chain.go:785-908 | passes iff every attach block passes at its turn after the detached ones are undone, without touching stored state or chain |
| `Reorganize.BlockChain.CommitRun` | pkg/chain/chain.go:914-962 | the chain becomes the fork with the attach blocks before the first one that cannot be connected, and the stored state is the replay of that |
| `Reorganize.BlockChain.ReorganizeChain` | pkg/chain/chain.go:758-962 | for any flags: out-of-order lists are an assertion error that changes nothing; a rule failure or a missing input at the first attach block that does not pass the dry run changes no stored state or chain, and the flags are given node by node; after a passing dry run the commit stops exactly at the first block that cannot be connected, with the chain at the fork and the blocks before it, else it is done; the stored utxo set is always the replay of the chain; with honest flags on a valid main chain it is done iff the switched chain is valid, else the first invalid block is the rule failure, and both stay so |
| `Reorganize.BlockChain.RunSwitch` | pkg/chain/chain.go:785-962 | the same for lists in order, with the exact flags after each outcome |
| `Reorganize.HonestDecided` | pkg/chain/chain.go:860-962 | with honest flags on a valid main chain the commit never stops and no input is missing |
| `Switch.AttachInView` | pkg/chain/chain.go:876-895 | one attach block in the view: a flagged one passes iff the view has ever held its outside inputs, any other iff it is valid on the set the view means |
| `Switch.HonestRun` | pkg/chain/chain.go:860-962 | when every flagged block is valid at its turn, the dry run passes iff the switched chain is valid, a passing one can be committed, and a failing one stops at the first invalid block, which has no flag |
| `Switch.InvalidNotChain` | pkg/chain/chain.go:895-905 | a chain with a first invalid block on top of a fork is not a valid chain |
| `ViewHistory.ConnectAllPresent` | pkg/chain/utxoviewpoint.go:205-260 | a block whose own references replay somewhere connects in a view iff the view has an entry, spent or not, for every outpoint it needs from outside |
| `Flags.MarkFailureFlags` | pkg/chain/chain.go:896-906 | node by node, what a rule failure does to the flags |
| `Flags.KnownValidBlock` | pkg/chain/chain.go:876-887 | under honest flags, a flagged block on its own branch is valid at its turn, so skipping its check is sound |
| `Flags.HonestAfter` | pkg/chain/chain.go:895-907 | flagging the nodes of a valid continuation keeps honest flags honest |
| `Reorganize.BlockChain.FlagNew` | pkg/chain/chain.go:1014-1031 | a new block, whatever its parent, is flagged valid iff it is valid on the stored set of the tip, else failed; honest flags stay honest iff it was refused or is valid on its own branch |
| `Reorganize.BlockChain.AcceptBlock` | pkg/chain/chain.go:1006-1065 | such a block becomes the tip iff it is valid on the stored set, its parent is the tip, and, where it came fast or was flagged before, it spends nothing; in that case it is reported as on the main chain even when it was not connected |
| `Reorganize.DoubleConnect` | pkg/chain/chain.go:1038-1046 | connecting an accepted block a second time in its view succeeds and records every spent coin twice |
| `SideBranch.TipFlagHonest` | pkg/chain/chain.go:1014-1023 | on the tip of a valid main chain the new flag is honest |
| `SideBranch.SideFlagHonest` | pkg/chain/chain.go:1014-1023 | on another valid branch the flag of an accepted block is honest iff the set of that branch has the block's outside inputs, mature, and no unspent output of its transactions |
| `OtherSet.ConnectableElsewhere` | pkg/chain/chain.go:1014-1023 | a block that replays on one set replays on another iff that has its outside inputs |
| `OtherSet.ValidElsewhere` | pkg/chain/chain.go:1014-1023 | a block valid on one set is valid on another with the same amounts iff that has the outside inputs, mature, and no unspent output of its transactions |
| `OtherSet.SameSurroundings` | pkg/chain/chain.go:1014-1023 | in particular when the two sets agree on its inputs and transaction ids |
| `SideBranch.SideBlockRun` | pkg/chain/chain.go:876-962 | a run from genesis: a side block spends a main-chain coinbase, is flagged, passes the dry run of the switch, and stops its commit with the main block disconnected |
| `Reorganize.BlockChain.StoreBlock` | pkg/chain/accept.go:92-112 | a new block and its node enter with no flag, and chain, database and honest flags are kept |
| `Reorganize.WriteBack` | pkg/chain/chain.go:578-614 | dbPutUtxoView then commit makes the store equal to what the view meant, and the view still agrees with it |
| `BlockTree.Ancestor` | pkg/chain/blockindex.go:116-124 | the node of that height on the path from genesis; nil iff the height is outside 0..the node's own |
| `BlockTree.RelativeAncestor` | pkg/chain/blockindex.go:129-131 | the node that many steps back on the path, nil when there is none |
| `ChainView.ChainView.Resize` | pkg/chain/chainview.go:87-98 | old slots are kept, and every slot beyond the old length reads nil even when it held a stale node of an earlier, longer chain |
| `ChainView.ChainView.Fill` | pkg/chain/chainview.go:99-102 | stopping at the first slot that already holds the right node is enough: afterwards the slots are the whole path |
| `ChainView.ChainView.SetTip` | pkg/chain/chainview.go:80-103 | after any sequence of calls the slots are exactly the genesis-to-tip path |
| `ChainView.ChainView.NodeByHeight` | pkg/chain/chainview.go:126-131 | the path's node of that height, nil outside it |
| `ChainView.ChainView.Contains` | pkg/chain/chainview.go:152-154 | true iff the node is an ancestor of the tip or the tip |
| `ChainView.ChainView.Next` | pkg/chain/chainview.go:165-170 | the child on the path; nil iff the node is not on it or is the tip |
| `ChainView.ChainView.FindFork` | pkg/chain/chainview.go:188-210 | the highest common ancestor of the node and the tip |
| `ForkNodes.CollectAttach` | pkg/chain/chain.go:482-489 | collects the branch above the fork in order, or stops at the first node going down that has failed or has an invalid ancestor |
| `ForkNodes.CollectDetach` | pkg/chain/chain.go:504-506 | collects the main chain above the fork, tip first |
| `ForkNodes.GetReorganizeNodes` | pkg/chain/chain.go:466-508 | if the parent, or a node of the branch that the main chain does not have, has failed or has an invalid ancestor, both lists are empty and exactly the nodes above the invalid one gain the invalid-ancestor flag; otherwise the lists turn the old path into the new one, share no node and hold no such node |
| `ForkNodes.FailedBranchRefused` | pkg/chain/chain.go:472-500 | after a rule failure has set its flags, no branch over the failing node or one behind it gives anything to attach or detach |
| `ForkNodes.SwitchLists` | pkg/chain/chain.go:466-508 | removing the detach list and appending the attach list turns one path into the other |
| `ForkNodes.SwitchesPrepared` | pkg/chain/chain.go:764-783 | such lists are in the order the reorganisation expects |
| `Locator.FastLog2Floor` | pkg/chain/chainview.go:11-25 | the floor of the binary logarithm for every non-zero uint32, 0 for 0 |
| `Locator.LocatorShape` | pkg/chain/chainview.go:221-263 | a locator lists strictly descending ancestors from the node to genesis |
| `Locator.LocatorGaps` | pkg/chain/chainview.go:234-261 | eleven single steps, then each gap twice the one before, up to the genesis |
| `Locator.BlockLocator` | pkg/chain/chainview.go:221-263 | has exactly the precomputed number of entries, each the ancestor at its height, whether looked up in the view or walked to |
| `Locator.LowerNode` | pkg/chain/chainview.go:247-256 | the constant-time view lookup and the ancestor walk give the same node |
| `Locator.FindStart` | pkg/chain/chain.go:1367-1374 | the block of the first locator entry that is known and on the view, else genesis |
| `Locator.LocateInventory` | pkg/chain/chain.go:1351-1392 | the run starts right after the start node and goes to the stop block if that lies ahead on the main chain, else to the tip, or is cut at the maximum; without a locator it is the stop block alone |
| `Locator.LocateBlocks` | pkg/chain/chain.go:1400-1416 | the answer is a run of the view's path right after the start, never longer than the maximum; with a stop block ahead it never passes it, and ends with it unless cut at the maximum; otherwise it ends at the tip unless cut |
| `Locator.AnswerContinuesRequester` | pkg/chain/chain.go:1351-1416 | for a requester with the same genesis the start node is on both chains, so the first block answered has its parent on the requester's chain |
| `Median.CalcPastMedianTime` | pkg/chain/blockindex.go:134-151 | the middle of the sorted last eleven timestamps, fewer near genesis |
| `Median.MedianRank` | pkg/chain/blockindex.go:134-151 | the median reaches x iff at least half of the last eleven timestamps do, or of all of them near genesis, counted by height; of an even number the upper middle one |
| `Median.MedianStep` | pkg/chain/blockindex.go:134-151 | a block later than its parent's median has a median not below its parent's, short windows included |
| `Median.MedianMonotone` | pkg/chain/blockindex.go:134-151 | along a chain of such blocks the median never decreases |
| `Median.CheckTimestamp` | pkg/chain/validate.go:596-602 | true iff the timestamp is after the parent's median |
| `Threshold.ThresholdStateCache.FindNeeded` | pkg/chain/thresholdstate.go:98-115 | walks back to a cached, absent or not yet started window, caching only correct states |
| `Threshold.ThresholdStateCache.CountVotes` | pkg/chain/thresholdstate.go:149-161 | the walk over a window never meets a missing node and adds up the window's votes |
| `Threshold.ThresholdStateCache.AdvanceState` | pkg/chain/thresholdstate.go:128-172 | one forward transition, with the error of the vote condition passed on |
| `Threshold.ThresholdStateCache.ComputeNeeded` | pkg/chain/thresholdstate.go:117-176 | from coherent entries the pending windows get the recursively defined states |
| `Threshold.ThresholdStateCache.StateFor` | pkg/chain/thresholdstate.go:88-177 | from any coherent cache the answer is the recursively defined state of the enclosing window and the cache stays coherent, so the order of queries does not matter |
| `Threshold.VotesCounted` | pkg/chain/thresholdstate.go:149-164 | the sum is the number of heights in the window whose block votes, and there is one iff every vote can be evaluated (`Threshold.VotesEvaluated`) |
| `Threshold.WindowDecides` | pkg/chain/thresholdstate.go:105-172 | what the block after a window sees, from what the window's own blocks saw: a started deployment before its expiry locks in iff at least the threshold of the window's blocks vote for it, an undecided one fails from the expiry on, and a locked-in one becomes active |
| `Threshold.ShortcutSound` | pkg/chain/thresholdstate.go:105-110 | with advancing times and start not after expiry, stopping at a window before the start time agrees with the full state machine |
| `Threshold.WindowTransition` | pkg/chain/thresholdstate.go:128-172 | states move only along Defined, Started, LockedIn, Active or to Failed, and LockedIn lasts exactly one window |
| `Threshold.FinalStatesPermanent` | pkg/chain/thresholdstate.go:166-172 | Active and Failed are permanent over any number of windows |
| `Threshold.ConstantWithinWindow` | pkg/chain/thresholdstate.go:90-96 | the state is the same for every block of a window |
| `Threshold.SameWindow` | pkg/chain/thresholdstate.go:90-96 | two blocks of a branch in the same window see the same state |
| `ScriptPool.InvStep` | pkg/chain/scriptval.go:41-160 | every step of dispatcher and workers keeps the invariant |
| `ScriptPool.ValidateCorrect` | pkg/chain/scriptval.go:112-160 | in every interleaving a returned Validate reports an error iff some item's scripts fail, and no item is with two workers or with a worker after its result |
| `ScriptPool.InFlightCount` | pkg/chain/scriptval.go:135-157 | items in flight = sent - processed |
| `ScriptPool.Progress` | pkg/chain/scriptval.go:51-160 | no reachable state before the return is deadlocked; a stuck state has returned and all workers left |
| `ScriptPool.EveryRunEnds` | pkg/chain/scriptval.go:51-160 | no run has more than three steps per item and one per worker |
| `ScriptPool.CompleteRun` | pkg/chain/scriptval.go:112-160 | a run that cannot go on has returned the right answer and left no worker behind |
| `ScriptPool.FailedWorkerLeaves` | pkg/chain/scriptval.go:41-110 | a worker whose scripts failed never takes another item |
| `PeerPipeline.InvStep` | pkg/peer/peer.go:1332-1541 | every step of the two handlers and their environment keeps the pipeline invariant |
| `PeerPipeline.NeverBlocks` | pkg/peer/peer.go:1345-1371 | at most one message is queued, written or awaiting its token, so both capacity-one sends can always go |
| `PeerPipeline.WrittenInOrder` | pkg/peer/peer.go:1479-1541 | what was written is a prefix of what was accepted, in order |
| `PeerPipeline.SignalledOnce` | pkg/peer/peer.go:1432-1541 | each accepted message is signalled at most once, and exactly once when both handlers are done |
| `PeerPipeline.FailedWriteDisconnects` | pkg/peer/peer.go:1496-1507 | in every reachable state a failed write has disconnected the peer |
| `PeerPipeline.NeverStuck` | pkg/peer/peer.go:1332-1541 | in every reachable state after a disconnect, until both handlers have finished one of them can take a step |
| `PeerPipeline.ShutdownEnds` | pkg/peer/peer.go:1427-1541 | after a disconnect or a failed write the handlers take a bounded number of steps, and where they can take none both have finished and every waiting sender was signalled exactly once |
| `PeerPipeline.ServesUntilQuit` | pkg/peer/peer.go:1332-1530 | before a disconnect neither handler leaves its loop, and every received message that is not being written has been written |
| `PeerPipeline.NothingLost` | pkg/peer/peer.go:1332-1456 | when both handlers have finished, the accepted messages and those still queued are exactly the ones offered |
| `FeeEstimate.FeeEstimator.ObserveTransaction` | cmd/node/mempool/estimatefee.go:158-178 | a new hash is recorded unmined, unless no block is known yet; every undo record stays usable |
| `FeeEstimate.FeeEstimator.RegisterBlock` | cmd/node/mempool/estimatefee.go:181-269 | for every transaction order and every random drop: a registered block leaves the estimator undoable to its old state; each observed transaction of the block ends in the bin of its age, mined at this height, unless it is too old or that bin has had its share of this block; exactly the old unmined records go, and no other record changes; for distinct transactions it registers iff the height follows and every observed transaction of the block is unmined and older than it; each refusal has its exact cause, and the state it leaves is described |
| `FeeEstimate.FillBins` | cmd/node/mempool/estimatefee.go:209-252 | the loop over the block: bins lose only dropped transactions of earlier blocks, gain only this block's, and never exceed their size; a refusal names the first transaction that was mined before or observed no lower than the block |
| `FeeEstimate.PutInBin` | cmd/node/mempool/estimatefee.go:239-251 | a full bin drops one transaction of an earlier block and no transaction of this one, a bin with room drops none |
| `FeeEstimate.Sweep` | cmd/node/mempool/estimatefee.go:254-258 | exactly the unmined transactions of age 25 or more go |
| `FeeEstimate.FilledUndoable` | cmd/node/mempool/estimatefee.go:193-268 | a filled and swept estimator can be undone to the state before the block |
| `FeeEstimate.ReplaceNext` | cmd/node/mempool/estimatefee.go:432-449 | while a dropped transaction is left there is a transaction of this block to put it over: the illegal-state panic is not reached |
| `FeeEstimate.RemoveRest` | cmd/node/mempool/estimatefee.go:453-471 | what remains of this block in a bin is taken out, and the bin is the old one as a multiset |
| `FeeEstimate.UndoneRestores` | cmd/node/mempool/estimatefee.go:413-476 | after the rollback every bin, every surviving mark, the height and the block count are those before the block |
| `FeeEstimate.RestoredUndoable` | cmd/node/mempool/estimatefee.go:278-295 | a restored state can be rolled back further, although its bins are only permutations of the old ones |
| `FeeEstimate.FeeEstimator.RollbackLast` | cmd/node/mempool/estimatefee.go:413-476 | the newest record is undone; no observed transaction is forgotten and only mined marks change |
| `FeeEstimate.FeeEstimator.Rollback` | cmd/node/mempool/estimatefee.go:278-295 | succeeds iff the hash is in the log; then the state before that block is restored through all later ones |
| `FeeEstimate.RegisterThenRollback` | cmd/node/mempool/estimatefee.go:181-295 | rolling back the block just registered restores the estimator |
| `FeeEstimate.ObservedBeforeRollback` | cmd/node/mempool/estimatefee.go:217-234 | a concrete run in which the bin number is -1, outside the source's array: a transaction observed after a block that is rolled back, then mined at that height |
| `Vlq.EncodeValue` | pkg/chain/compress.go:360-380 | every number's encoding is terminated and has that number as its value |
| `Vlq.ValueEncode` | pkg/chain/compress.go:253-265 | every terminated byte string is the encoding of its value: with the former, a bijection |
| `Vlq.EncodePrefixFree` | pkg/chain/compress.go:360-380 | no encoding is a proper prefix of another |
| `Vlq.ReadEncode` | pkg/chain/compress.go:253-265 | whatever follows an encoding, it reads back with its own length |
| `Vlq.DeserializeVLQ` | pkg/chain/compress.go:253-265 | on any bytes the uint64 reader returns the unbounded value modulo 2^64 and the number of bytes up to the first without the high bit |
| `Vlq.SerializeSizeVLQ` | pkg/chain/compress.go:403-409 | the predicted size is the length of the encoding |
| `Vlq.PutVLQ` | pkg/chain/compress.go:360-380 | the bytes from the offset on become the encoding, no others change |
| `Amount.DecompressCompress` | pkg/chain/compress.go:62-83 | decompressing a compressed amount gives it back, for every natural number |
| `Amount.CompressDecompress` | pkg/chain/compress.go:220-250 | compressing a decompressed code gives it back, for every natural number: a bijection |
| `Amount.CompressBound` | pkg/chain/compress.go:62-83 | a compressed amount is at most nine times the amount, so none up to MaxSatoshi overflows a uint64 |
| `Amount.CompressDigits` | pkg/chain/compress.go:37-46 | below exponent nine the code is 1 + 10*(9n + d - 1) + e for the digits n above the last one d |
| `Amount.CompressWhole` | pkg/chain/compress.go:47-49 | at exponent nine it is 10 + 10*(n - 1) |
| `Amount.CompressTxOutAmount` | pkg/chain/compress.go:62-83 | the uint64 result is the unbounded one modulo 2^64, and exact up to MaxSatoshi |
| `Amount.DecompressTxOutAmount` | pkg/chain/compress.go:220-250 | the uint64 result is the unbounded one modulo 2^64 |
| `Compress.ScriptRoundTrip` | pkg/chain/compress.go:158-217 | every script decompresses to itself, given that a public key is recovered from its x coordinate and parity |
| `Compress.ScriptSizeOf` | pkg/chain/compress.go:118-135 | the size read from a compressed script is its length, whatever follows |
| `Compress.TxOutRoundTrip` | pkg/chain/compress.go:138-155 | a compressed output decodes to its amount and script and reads exactly the bytes written, whatever follows |
| `Compress.CompressedScriptSize` | pkg/chain/compress.go:86-102 | the predicted size is the number of bytes written |
| `Compress.CompressedTxOutSize` | pkg/chain/compress.go:112-115 | the predicted size is the number of bytes written |
| `Compress.PutCompressedScript` | pkg/chain/compress.go:316-350 | the bytes from the offset on become the compressed script, no others change |
| `Compress.PutCompressedTxOut` | pkg/chain/compress.go:353-357 | the bytes from the offset on become the compressed output, no others change |
| `Formats.ScriptForms` | pkg/chain/compress.go:10-23 | byte by byte: type 0 and the hash, 1 and the hash, 2 to 5 and the x coordinate for the standard scripts, the length plus six and the script for any other |
| `Formats.EncodeSmall` | pkg/chain/compress.go:386-397 | the bytes of numbers of one, two and three groups |
| `Formats.VlqExamples` | pkg/chain/compress.go:386-394 | the documented examples |
| `Formats.HalfCoin` | pkg/chain/compress.go:56 | half a coin is encoded as 48, not 47 |
| `Journal.StxoRoundTrip` | pkg/chain/chainio.go:281-322 | a spent output decodes to itself and reads exactly its bytes, whatever follows |
| `Formats.StxoLayout` | pkg/chain/chainio.go:145-158 | header code of height and coinbase flag, a reserved zero byte above height 0, compressed amount, script |
| `Formats.JournalReversed` | pkg/chain/chainio.go:136-145 | later spends come first in an entry |
| `Formats.SpentExample` | pkg/chain/chainio.go:159-171 | the documented spent output of block 170 |
| `Journal.SpentTxOutSerializeSize` | pkg/chain/chainio.go:250-259 | the predicted size is the number of bytes written |
| `Journal.PutSpentTxOut` | pkg/chain/chainio.go:265-276 | the bytes from the offset on become the spent output, no others change |
| `Journal.SerializeSpendJournalEntry` | pkg/chain/chainio.go:376-393 | the buffer of the computed size is filled exactly, last output first |
| `Journal.DeserializeSpendJournalEntry` | pkg/chain/chainio.go:329-372 | the result depends only on the bytes and the total number of inputs, not on how they are grouped into transactions; missing bytes are reported |
| `Journal.JournalRoundTrip` | pkg/chain/chainio.go:329-393 | any list of spent outputs reads back from its entry, and every byte is read |
| `Journal.StoreAndFetchSpends` | pkg/chain/chainio.go:401-432 | the entry stored when a block is connected is, fetched with the block's transactions, the block's spends |
| `ChainJournal.StoredJournalReadsBack` | pkg/chain/chainio.go:401-432 | for every block above genesis of any reachable chain, the stored bytes of its journal entry read back to exactly the coins it spent |
| `ChainJournal.BlockSpendsFit` | pkg/chain/chainio.go:237-276 | every coin a valid chain spends has an amount, a height and a script the format can hold |
| `ChainJournal.StoredUtxosFit` | pkg/chain/chainio.go:543-579 | and so has every coin of the stored utxo set |
| `UtxoStore.KeysPrefixFree` | pkg/chain/chainio.go:521-532 | an outpoint key determines its outpoint and no key is a proper prefix of another |
| `UtxoStore.FillOutpointKey` | pkg/chain/chainio.go:521-532 | a recycled buffer ends up holding exactly the key, whatever it held before |
| `UtxoStore.UtxoRoundTrip` | pkg/chain/chainio.go:584-612 | a utxo entry decodes to the coin it was made from |
| `Formats.UtxoLayout` | pkg/chain/chainio.go:450-459 | header code of height and coinbase flag, compressed amount, script |
| `Formats.UnspentExample` | pkg/chain/chainio.go:472-483 | the documented unspent output of block 113931 |
| `UtxoStore.SerializeUtxoEntry` | pkg/chain/chainio.go:559-579 | the serialised entry, none for a spent one |
| `UtxoStore.FetchFinds` | pkg/chain/chainio.go:645-680 | a fetch from the bucket finds an entry iff the set has the outpoint, and decodes it to that coin |
| `UtxoStore.PutUtxoViewBytes` | pkg/chain/chainio.go:687-732 | writing a view back to the byte bucket leaves it holding exactly what the view over it meant |
| `UtxoStore.SeekFindsHash` | pkg/chain/chainio.go:618-641 | a seek for (hash, 0) stops on an entry of that hash iff the set has one |
| `UtxoStore.SeekReadsEntry` | pkg/chain/chainio.go:618-641 | the entry it stops on decodes to a coin of that hash |
| `Orphans.OrphanPool.RemoveOrphanBlock` | pkg/chain/chain.go:231-259 | the orphan leaves pool and parent index, an empty list goes with it, and a block not in the pool changes nothing |
| `Orphans.OrphanPool.DropExpired` | pkg/chain/chain.go:269-280 | exactly the expired orphans go; the one remembered as oldest stays, even when it has left the pool, unless a live one expires earlier, which then takes its place |
| `Orphans.OrphanPool.AddOrphanBlock` | pkg/chain/chain.go:267-304 | the pool is the unexpired orphans, less the one remembered as oldest when full, plus the new block; it never holds more than 101, and more than 100 iff 100 were live and the one remembered as oldest was not among them, or 101 were live |
| `Orphans.OverflowReached` | pkg/chain/chain.go:267-304 | a run from the empty pool that ends with 101 orphans |
| `Orphans.OrphanPool.ProcessOrphans` | pkg/chain/process.go:228-270 | terminates; hands on exactly the pool's descendants of the block, once each and after their parents, and leaves none waiting; a refusal stops it at the refused block |
| `Orphans.ExactlyDescendants` | pkg/chain/process.go:228-270 | handing on parents first until none waits is the same as handing on exactly the descendants |
| `Merkle.NextPowerOfTwo` | pkg/chain/merkle.go:33-41 | the least power of two not below n |
| `Merkle.BuildMerkleTreeStore` | pkg/chain/merkle.go:65-103 | the first slots are the ids asked for, with the witness flag the witness ids and the zero hash for the coinbase; every parent slot is nil, the join of its left child with itself, or the join of both, as the slots below say; the last slot is the level-by-level root of these ids |
| `Merkle.TreeJoins` | pkg/chain/merkle.go:82-101 | every parent slot is the join of its two child slots |
| `Merkle.TreeRoot` | pkg/chain/merkle.go:65-103 | the last slot is the root that pairs a lone last child with itself |
| `Merkle.RootOfThree` | pkg/chain/merkle.go:91-98 | one, two and three leaves: the lone last one is joined with itself |
| `Merkle.TreeLevel` | pkg/chain/merkle.go:65-103 | slot i of level k holds that level's node i and is nil exactly past the level's last node |
| `Compact.ClosedForm` | pkg/chain/difficulty.go:114-147 | for every positive number the code is the byte length of 2n, cut to 8 bits, and n cut to 23 bits at that length |
| `Compact.RelativePrecision` | pkg/chain/difficulty.go:203-227 | the decoded value is positive, not above the original and less than one part in 2^15 below it |
| `Compact.PrecisionIff` | pkg/chain/difficulty.go:114-147 | that precision holds iff the exponent fits its 8 bits |
| `Compact.TargetsInRange` | pkg/chain/difficulty.go:114-147 | for numbers below 2^256 the exponent is at most 33 |
| `Compact.NegativeRoundTrip` | pkg/chain/difficulty.go:130-146 | a negative number decodes to itself iff its magnitude does, although the shift rounds negative numbers the other way |
| `Compact.LargestBelow` | pkg/chain/difficulty.go:203-227 | no compact number lies between the decoded value and the original |
| `Compact.EncodeMonotone` | pkg/chain/difficulty.go:114-147 | a greater number never gets a smaller code |
| `Compact.EncodeIdempotent` | pkg/chain/difficulty.go:114-147 | encoding the decoded value gives the same code |
| `Compact.EncodeFits` | pkg/chain/difficulty.go:114-147 | the code fits 32 bits and its sign bit is clear |

## Left out

- Script execution, signatures, hashing and elliptic-curve parsing are parameters: a verdict per item, a hash as an identity, key recovery as a law.
- Script, signature-operation, sequence-lock and hard-fork payout rules of a block are one predicate (`otherRules`); the subsidy curve is an arbitrary function of the height that is not negative.
- The comparison of work in connectBestChain (pkg/chain/chain.go:1069-1092) and per-algorithm retargeting: what comes before it (`Reorganize.BlockChain.AcceptBlock`) and after it (`ForkNodes.GetReorganizeNodes`, `Reorganize.BlockChain.ReorganizeChain`) is modelled.
- Database errors, locks, notifications, logging and the index manager: store operations succeed and calls are atomic.
- Entries and block nodes are values; sharing of one entry pointer between views is not modelled.
- Heights are unbounded integers except where a conversion matters (storage headers, locator lengths); so are the fee estimator's block count and the peer's queue lengths.
- `Reorganize.BlockChain` keeps the main chain as a sequence; that the array of `ChainView.ChainView` is that sequence is `ChainView.ChainView.SetTip`.
- Threshold caches are keyed by node instead of hash, hashes being identities.
- LegacySpends.LegacyUndoExact: the seek by hash in the store is a parameter of the undo (`UtxoStore.SeekFindsHash` and `UtxoStore.SeekReadsEntry` say what it finds); `ChainState.TipJournalAboveGenesis` proves that a chain stored in the present format never needs it.
- Validate.CheckTransactionSanity: the size without witness data and the script length are given as numbers, because the wire encoding is not part of this model.
- Validate.VerdictMeans: where the duplicate-transaction check is switched off by height or by the two exempt blocks, that the block overwrites nothing is assumed of the caller, as the source does; hashes identify transactions.
- Reorganize.BlockChain.ReorganizeChain: the main chain it starts from is one that can be replayed, and the attach blocks have sane transactions whose references run backwards; the source checks neither there.
- Reorganize.BlockChain.AcceptBlock: what a connected block does to the chain is stated for blocks whose references run backwards; for the others the verdict alone is (`Validate.CheckConnectBlock`), since they cannot be replayed (`ForwardReferences.AcceptedInOrder`).
- Compress.TxOutRoundTrip: scripts of 2^62 bytes or more are excluded, since no slice is that long; a stored script length above 2^63-1, which the encoder never writes, is a decoding result of its own.
- FeeEstimate.FeeEstimator.RegisterBlock: after a refused transaction the source leaves the estimator half updated, with no undo record of the block; the contract describes that state, and later calls on it are not covered. The replacement limit is below the bin size and a block's height below the unmined marker, as in the source's constants.
- Orphans.OrphanPool.AddOrphanBlock: the clock is read once per call and not once per orphan.
- Merkle.NextPowerOfTwo: states the result of the floating-point logarithm, which is not modelled.
- Compact.LargestBelow: like the other precision results, states the numbers whose exponent fits 8 bits; `Compact.PrecisionIff` proves that the rest have no such precision.
- PeerPipeline.SignalledOnce: delivery on the done channels does not block; the stall handler and liveness across all peer goroutines are not modelled.
- Fee estimates themselves (estimateFee, newEstimateFeeSet), saving and restoring the estimator: sums and sorting over the bins.
- Headers and wire formats, configuration, RPC, mining, wallets and addresses.
