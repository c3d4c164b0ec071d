# BlockchainCoin in Dafny

A model of a UTXO proof-of-work node, and proofs about it. `dafny verify dfyconfig.toml`
checks everything.

- **Ledger** (`Ledger`, `Utxo`, `Replay`, `Consensus`, `Blocks`, `History`, `Authority`):
  transactions on a map of spendable outputs, lists of transactions, blocks and chains, and
  who may spend. `CanApply`, `Fee` and `After` describe one transaction without loops; the
  objects with their loops are proved against them. The centre is a diamond lemma: two
  applicable spends that share no input and no txid commute.
- **Mempool and assembly** (`Policy`, `Mempool`, `Admission`, `Pruning`, `Assembly`,
  `Mining`): admission, replacement, eviction, pruning, greedy block assembly and the blocks
  it leads to.
- **Store and node** (`ForkStore`, `BlockStore`, `Convergence`, `Weight`, `Node`, `FullNode`,
  `Reachable`, `Outcomes`, `Repetition`): the tree of blocks, the best tip and what makes it
  best, the index tables, the node as a state machine over submissions, imports, pruning and
  clearing, the object that takes its steps, and concrete blocks on which it goes wrong.
- **Encodings** (`Codec`, `Unicode`, `Wire`, `Reader`, `Merkle`, `Genuine`): the canonical
  binary formats, the cursor that decodes them, the transaction root, and the rules instantiated
  with digests of these encodings.
- **Peers** (`Framing`, `Scheduler`, `Selection`, `Tally`, `Downloads`): frames on a byte
  stream, and the block-download scheduler with whom it asks and what it counts.

`Bytes` and `Lists` hold the shared vocabulary: bytes, hashes and their order, and sublists
given by a mask (what a filtering list comprehension builds).

## Hypotheses

SHA-256, address validity, key-to-address and Ed25519 verification are function-valued
fields of `Rules`; every statement holds for whatever they compute. Where a statement needs
that hashes do not collide, it says so on a finite set of values: `CollisionFree` on the
transactions that occur, `Injective` and `LeavesApart` on the nodes of two Merkle trees,
distinct block hashes for convergence. `Genuine` derives the first from the digest and the
encodings.

`create_coinbase` writes the index -(height + 1) into a coinbase (`Tagged`), but block
validation does not check it (`blockchaincoin/consensus.py:620` and `:624-646`), so a
coinbase, and then its descendants, can repeat on a valid chain. `History.ChainAccounts`
says what that costs: txids are distinct, no outpoint is spent twice and the books balance
if and only if no coinbase repeats. When a repetition makes a branch spend an outpoint twice,
an import on a node with an index fails on the spend table's primary key after the block has
been stored and before the pool is pruned; `Repetition.ImportLeavesBrokenPool` is such an
import. `Node.StepKeeps` and `Node.RunKeeps` give the exact condition for the full
invariant: every import fits the index (`Fits`, `AllFit`), which for a new block means that
its branch spends no outpoint twice (`Node.IndexableIff`). Every run fits if blocks are tagged
or the node has no index; and whatever the index refused, pruning puts the pool in order again
(`Reachable.EveryRunRecovers`).

`Independent` (no coinbase, no shared input, no shared txid) is what submission guarantees
of every pool. The assembly theorems take it as a hypothesis because a list that merely
replays may spend, recreate and spend one outpoint: `Repetition.ReplayingIsNotEnough` is a
list that replays on a valid chain and cannot be mined in greedy order.
`Reachable.ReplayableIsIndependent` shows that on a chain that repeats no coinbase replaying
alone implies independence.

A node caches a block as refused when its parent is unknown, so the order of arrival matters.
`Convergence.StoreIsDetermined` gives the exact condition: the store depends on the set of
blocks alone if and only if every block that has a valid chain comes after its parent. Blocks
that have none may come in any order.

`docs/architecture.md` says that transaction and block application either completes or
leaves the live state unchanged. The code applies a block in two passes, the second one to
the live state step by step; `Blocks.BlockProcessor.ApplyBlock` proves that the second pass
cannot fail.

## Model

| member | source | states |
|---|---|---|
| Assembly.GreedyTakesAll | blockchaincoin/utxo_node.py:681-715 | If the pool replays in list order (and its entries share no input and no txid, as every reachable pool's do), greedy assembly never gets stuck, takes every entry exactly once, and ends with the same fees and the same spendable outputs as in-order replay |
| Assembly.GreedyIsGreatest | blockchaincoin/utxo_node.py:681-715 | Among all orderings of the whole pool that replay, the assembled order has the lexicographically greatest sequence of (fee rate, fee, txid) scores |
| Assembly.NextPaysBest | blockchaincoin/utxo_node.py:689-709 | At every step of assembly, no entry that is still pending and applies then has a higher fee rate than the one taken, or the same rate and a higher fee, or both the same and a greater txid |
| Reachable.ReplayableIsIndependent | blockchaincoin/utxo_node.py:681-715 | On a replayed chain that repeats no coinbase and has no txid collision, any list of spends that replays shares no input and no txid, so replayability alone suffices for assembly |
| Reachable.ReplayablePoolIsMined | blockchaincoin/utxo_node.py:681-715 | The assembly theorem for every list that replays on a chain that repeats no coinbase |
| Repetition.ReplayingIsNotEnough | blockchaincoin/utxo_node.py:681-715 | On two valid blocks that pay out with one coinbase there is a list of three spends that replays in order and on which greedy assembly gets stuck |
| Reachable.EveryRun | blockchaincoin/utxo_node.py:310-334 | After every sequence of submissions, imports, prunings and clearings from genesis, with or without an index: active state equal to the replay to the best tip, supply within the cap, pool collision free and bounded, and a pool that replays passes policy entry by entry, is mined whole and has fees between zero and the supply; the pool replays and every index table is right as long as every import fits the index, and the full invariant holds only so long |
| Reachable.EveryRunRecovers | blockchaincoin/utxo_node.py:370-377 | After any run at all, whatever the index refused, pruning puts the pool in order |
| Reachable.EveryRunFits | blockchaincoin/utxo_node.py:536-572 | Every import of a run fits the index if there is none, or if every coinbase carries the index -(height+1) |
| Reachable.TipAccounts | blockchaincoin/storage.py:373-381 | For every stored tip of an indexed node whose branch repeats no coinbase, the outpoints created on the branch split exactly into the tip snapshot and the tip spend table |
| Outcomes.SpendTableNames | blockchaincoin/storage.py:429-468 | For every spend on a stored branch the tip's spend table names the spending txid and the input index |
| Reachable.SoundIsSafe | blockchaincoin/utxo_node.py:310-334 | What every state of a run has: supply, bound, collision freedom, and full assembly if the pool replays |
| Node.RunKeeps | blockchaincoin/utxo_node.py:536-572 | A run ends in a state with the full invariant (pool in order, every index table right) exactly when every import on the way fitted the index |
| Node.RunSound | blockchaincoin/utxo_node.py:536-572 | Every run, whatever the index refuses, keeps store, active state, and a pool that pruning can put in order |
| Node.StepKeeps | blockchaincoin/utxo_node.py:310-384 | Every single submission, import, pruning or clearing keeps the full invariant exactly when it fits the index |
| Node.StepSound | blockchaincoin/utxo_node.py:310-384 | Every single event keeps everything but, at an import the index refuses, the order of the pool |
| Node.ArrivalKeeps | blockchaincoin/utxo_node.py:536-572 | Importing any block keeps the full invariant exactly when the index takes it; otherwise some stored branch spends an outpoint twice |
| Node.ArrivalSound | blockchaincoin/utxo_node.py:536-572 | Importing any block keeps store and active state; the pool is in order again unless the index refused the block, and then it is left as it was |
| Node.IndexableIff | blockchaincoin/storage.py:429-468 | An accepted new block fits the index exactly when its parent's branch with the block on it spends no outpoint twice |
| Node.RefusedByIndex | blockchaincoin/utxo_node.py:558-569 | A block the index refuses is stored all the same, the pool is not pruned, and the spend table of the new tip stays empty although its branch spends |
| Repetition.ImportLeavesBrokenPool | blockchaincoin/utxo_node.py:536-572 | A node imports two valid blocks, accepts a spend, and imports a third valid block that repeats the coinbase: it becomes the best tip, the index refuses it, and the pool left behind does not replay |
| Repetition.ChainSpendsTwice | blockchaincoin/consensus.py:624-646 | Three valid blocks without txid collision that repeat one coinbase: the branch spends an outpoint twice |
| Node.SubmissionSound | blockchaincoin/utxo_node.py:310-334 | A submission is refused and changes nothing, or leaves a pool in order, even if the pool had been left unpruned |
| Node.LocalKeeps | blockchaincoin/utxo_node.py:310-384 | Submitting, pruning and clearing keep the full invariant in any case |
| Node.PruningKeeps | blockchaincoin/utxo_node.py:643-661 | Pruning a pool that is in order drops nothing |
| Node.CreatedOk | blockchaincoin/utxo_node.py:186-233 | A node created on a validated genesis block, with or without an index, satisfies the invariant |
| Node.BlockOnTip | blockchaincoin/utxo_node.py:536-557 | A valid new block on the best tip becomes the best tip and the active state is the one it leaves |
| Reachable.EveryRunFollowsTip | blockchaincoin/utxo_node.py:536-563 | After creation and any sequence of events, with blocks and transactions of any content, every stored branch replays from genesis and the active state equals the replay to the best tip |
| Node.RunFollowsTip | blockchaincoin/utxo_node.py:536-563 | The same from any state that has it |
| Node.StepKeepsStore | blockchaincoin/utxo_node.py:536-563 | No event, with blocks of any content, can make a stored branch unreplayable |
| Node.NoKeyConflict | blockchaincoin/storage.py:429-468 | On a branch that repeats no coinbase the spend table's primary key never repeats |
| Node.IndexStep | blockchaincoin/utxo_node.py:558-564 | After an import that fits, every per-tip snapshot and spend table in the index equals what replaying its branch gives |
| History.ChainAccounts | blockchaincoin/consensus.py:784-797 | On every replayed chain without txid collision: all txids are distinct, no outpoint is spent twice, and the outpoints ever created are exactly the unspent and the spent ones, if and only if no coinbase repeats |
| History.TagsAreDistinct | blockchaincoin/consensus.py:620 | Coinbases that carry the index -(height+1) never repeat on a chain |
| History.AccountsBlock | blockchaincoin/consensus.py:724-764 | One valid block keeps those accounts exactly when its coinbase is new to the chain |
| History.SpendIsNew | blockchaincoin/consensus.py:587-600 | A spend that applies is not one the chain already contains |
| Reachable.NodesConverge | blockchaincoin/utxo_node.py:536-557 | Two nodes with one genesis whose runs import the same blocks with distinct hashes, in any two orders in which a block with a valid chain comes after its parent, and do anything else in between under any policies, have the same accepted blocks, works, best tip, active chain and spendable outputs |
| Reachable.ParentFirstNodesConverge | blockchaincoin/utxo_node.py:536-557 | The same for any two parent-first orders |
| Convergence.StoresConverge | blockchaincoin/utxo_node.py:547-553 | The store part: imports in any two such orders end in equal stores |
| Convergence.AcceptsIffPath | blockchaincoin/utxo_node.py:786-802 | A block that, if it has a valid chain, arrives after its parent is accepted exactly when the set of blocks contains a valid chain ending in it |
| Convergence.StoreIsDetermined | blockchaincoin/storage.py:166-203 | After a delivery of distinct blocks the store holds exactly the blocks with a valid chain, each on that chain, if and only if every block with a valid chain came after its parent |
| Convergence.OrphanIsRefusedForGood | blockchaincoin/utxo_node.py:550-553 | A block that arrives before its parent is never stored, whatever arrives later |
| Convergence.ReorgIffNotPrefix | blockchaincoin/utxo_node.py:663-679 | After an accepted import the best tip is the old one or the imported block, and a reorganisation is reported exactly when the old active chain is not a prefix of the new one |
| Convergence.ReorgRecord | blockchaincoin/utxo_node.py:663-679 | The record names the old tip and height and the new tip and height, exactly when the old active chain is not a prefix of the new one |
| Convergence.WorkOfBranch | blockchaincoin/storage.py:170-178 | A stored cumulative work is the sum of the works along its branch |
| Weight.StoredWeight | blockchaincoin/storage.py:170-178 | A stored cumulative work is the sum of 2^difficulty along its branch, a non-positive difficulty weighing one |
| Weight.TipIsHeaviest | blockchaincoin/storage.py:262-273 | The best tip has the heaviest branch by these weights, of equally heavy ones the longest, and of those the smallest hash |
| Weight.HeavyBlockWins | blockchaincoin/storage.py:307-308 | One block of difficulty d + k outweighs every branch that leaves its parent with fewer than 2^k blocks of difficulty at most d, so the best tip is on it however long the others are |
| Weight.ZerosAreATarget | blockchaincoin/consensus.py:740-741 | A hash starts with n zero hexadecimal digits exactly when the number it spells is below 16^(64-n) |
| Weight.LessIsNumeric | blockchaincoin/storage.py:262-273 | The order of hashes in tie-breaks is the order of the numbers they spell |
| ForkStore.ImportKeepsStore | blockchaincoin/utxo_node.py:547-553 | Importing any block keeps every stored branch rooted at genesis, falling by one height per step, and replayable; old entries stay as they were |
| ForkStore.NewBranch | blockchaincoin/storage.py:282-291 | The branch of an imported block is its parent's branch and the block |
| ForkStore.BestIn | blockchaincoin/storage.py:262-273 | Every nonempty set of stored hashes has a best one by work, height and hash |
| ForkStore.TipIsUnique | blockchaincoin/storage.py:262-273 | The best tip is unique |
| Blocks.SupplyOfChain | blockchaincoin/consensus.py:784-797 | Along every replayed chain the supply equals all coinbase outputs less all fees, stays within max_money, and is at most the genesis allocation plus the subsidy per later block |
| Blocks.BlockSupply | blockchaincoin/consensus.py:724-764 | A valid block changes the supply by its coinbase outputs less its fees, and after height zero pays at most subsidy plus fees |
| Authority.SpendAppliesIff | blockchaincoin/consensus.py:562-600 | In full, when a spend applies: version, outputs, distinct present inputs each signed for by an owner key, enough value, no clash of outpoints; the cap on the supply follows |
| Authority.ChainIsSigned | blockchaincoin/consensus.py:695-715 | On every replayed chain each input of each spend names an output spendable at that point, with a key whose address owns it and a signature that verifies under that key over the transaction |
| Authority.ListIsSigned | blockchaincoin/consensus.py:695-715 | The same for every list that replays, such as a pool |
| Authority.MessageCommits | blockchaincoin/consensus.py:263-273 | Two signing messages are equal exactly when input index, version, outputs and all outpoints are |
| Authority.OwnerDecides | blockchaincoin/consensus.py:695-715 | However a chain goes on, an output stays spendable and unchanged unless a transaction in between carries its owner's signature over spending it |
| Authority.LostCoinsStay | blockchaincoin/consensus.py:695-715 | An output whose address owns no key with a verifying signature stays spendable in every extension of the chain |
| Authority.BlockOfChain | blockchaincoin/consensus.py:724-764 | Every block of a replayed chain names its height and predecessor, commits to its transactions, meets its difficulty, mints first and only first, and holds transactions of version one with positive outputs to valid addresses, distinct inputs and witnesses where they belong |
| Mining.BuiltBlockIsValid | blockchaincoin/utxo_node.py:505-534 | On a non-empty chain with a replayable pool, a positive reward and a fresh coinbase txid, the built block at any nonce that meets the difficulty passes block validation exactly when active supply plus subsidy is within max_money |
| Mining.BuiltBlockPays | blockchaincoin/utxo_node.py:505-527 | A built block holds every pooled transaction once, its coinbase carries the height and pays subsidy and all fees to the miner, and where it is valid the supply grows by exactly the subsidy |
| Mining.RewardFits | blockchaincoin/consensus.py:602-646 | The coinbase a node writes is accepted exactly when the supply before fees plus the subsidy is within the cap, although it was created under a check of the supply after fees |
| Mining.FeesWithinSupply | blockchaincoin/utxo_node.py:310-334 | The fees of a replayable pool are never negative and never exceed the active supply |
| Mining.PositiveChain | blockchaincoin/consensus.py:671-680 | Every spendable output of a replayed chain has a positive amount |
| Mempool.SubmitKeepsPool | blockchaincoin/utxo_node.py:310-334 | However a transaction is admitted (appended, replacing, evicting) the pool stays replayable, collision free and within policy at every index; an accepted replacement raises the pool's fees by at least the bump |
| Mempool.ReplacingKeepsPool | blockchaincoin/utxo_node.py:321-331 | The replacement path alone, with the fee gain |
| Mempool.PlainKeepsPool | blockchaincoin/utxo_node.py:324-331 | The append and eviction path alone |
| Mempool.ReplacedFeeIsExact | blockchaincoin/utxo_node.py:604-631 | If the non-conflicting remainder replays, the loop that prices the replaced entries cannot fail, and it finds exactly the fees those entries pay in the pool |
| Mempool.StayingIsNotConflicting | blockchaincoin/utxo_node.py:605-622 | Leaving entries out by txid leaves out exactly the entries that share an input |
| Mempool.WorstOfIsWorst | blockchaincoin/utxo_node.py:729-744 | The entry chosen for eviction can be evicted and none that can be evicted scores lower; nothing is chosen only if nothing can be evicted |
| Admission.AppendedIff | blockchaincoin/utxo_node.py:310-334 | Below capacity and without a conflict a transaction is appended exactly when it spends, is new, applies after a pool that replays, and policy admits it there; otherwise it is refused |
| Admission.EvictsIff | blockchaincoin/utxo_node.py:717-750 | At capacity and without a conflict it is taken exactly when eviction is allowed, some entry pays worst (fee rate, fee, txid) of those without which the rest replays and it applies, its fee rate is at least that entry's plus the bump, and policy admits it in that place; and that entry goes |
| Admission.OnlyOutbidEntriesGo | blockchaincoin/utxo_node.py:746-750 | If an accepted submission without a conflict lost an old entry, the pool was at capacity, exactly that entry was lost, it pays worst of those that may go, and the new fee rate is at least its fee rate plus the bump |
| Admission.ReplacesIff | blockchaincoin/utxo_node.py:318-331 | With a conflict it is taken, in place of exactly the entries it shares an input with, exactly when replacement is allowed, it spends and is new, the others replay and it applies after them, it pays the fees those entries paid in the pool plus the bump, and policy admits it |
| Admission.AdmitsIff | blockchaincoin/utxo_node.py:100-137 | Policy admits exactly within the limits on count, inputs, outputs and bytes, at the minimum relay fee and at the byte rate raised by each pooled transaction |
| Mempool.SublistOk | blockchaincoin/utxo_node.py:619-631 | Entries that still replay after others left keep their fees and still pass policy at their new index |
| Mempool.PoolIsBounded | blockchaincoin/utxo_node.py:109-110 | A pool in order has at most max_transactions entries |
| Node.SubmitFrom | blockchaincoin/utxo_node.py:331 | An accepted pool holds old entries and the new one, nothing else |
| Pruning.PruneIgnoresPolicy | blockchaincoin/utxo_node.py:643-661 | Under one fixed policy pruning never drops an entry for policy reasons, so the effect it would keep in the candidate state never arises |
| Pruning.PruneKeepsPool | blockchaincoin/utxo_node.py:565-569 | A pool that was in order on some earlier state, less the included transactions, is in order on the new active state once pruned |
| Outcomes.PoolAfterImport | blockchaincoin/utxo_node.py:565-569 | After an import that fits, the pool is, in order, exactly the old entries that the block does not contain and that apply on the new state after those kept before them |
| Outcomes.PoolAfterPruning | blockchaincoin/utxo_node.py:643-661 | Pruning keeps exactly the entries that apply after those kept before them |
| Outcomes.ReportAfterImport | blockchaincoin/utxo_node.py:554-557 | An accepted import reports nothing if the old active chain is a prefix of the new one, else the old and new tip with their heights; a refused one leaves the report alone |
| Pruning.WaitingInOrder | blockchaincoin/utxo_node.py:643-661 | On a state of the chain such a pool is in order exactly when it replays |
| Pruning.SubmitPutsInOrder | blockchaincoin/utxo_node.py:310-334 | An accepted submission leaves a pool in order even if the pool had not been pruned before |
| Pruning.FeeIsFixed | blockchaincoin/consensus.py:562-585 | A spend pays the same fee in every state in which it applies |
| Pruning.CoherentChain | blockchaincoin/consensus.py:784-797 | Every spendable output of a replayed chain is the one its creating transaction defines |
| Policy.AdmitsEarlier | blockchaincoin/utxo_node.py:100-137 | What policy admits at some occupancy it admits at any lower one |
| Policy.FloorIsExact | blockchaincoin/utxo_node.py:132-137 | A fee meets the floor exactly when it meets the minimum relay fee and pays for its bytes at the occupancy-adjusted rate |
| Policy.FeeRateIsExact | blockchaincoin/utxo_node.py:139-144 | The fee rate is the largest whole rate that the fee pays for |
| Assembly.BestOfIsBest | blockchaincoin/utxo_node.py:689-709 | The inner loop finds an applicable entry that no applicable entry outscores, or none if none applies |
| Replay.Diamond | blockchaincoin/consensus.py:587-600 | Two applicable spends with different txids and no shared input apply in either order with the same fees and the same result, without any assumption about hashing |
| Replay.MoveToFront | blockchaincoin/utxo_node.py:712-714 | Any applicable entry of a replayable list can go first: the others keep order, fees and final state |
| Replay.MarkedFirst | blockchaincoin/utxo_node.py:620-626 | If some entries of a replayable list replay alone, the others replay after them with the fees they paid in the list |
| Replay.ReplayConserves | blockchaincoin/consensus.py:587-600 | Replaying spends reduces the supply by exactly their fees, and no fee is negative |
| Utxo.SpendConserves | blockchaincoin/consensus.py:587-600 | Applying a spend reduces the supply by exactly its fee |
| Utxo.CoinbaseAdds | blockchaincoin/consensus.py:641-646 | Applying a coinbase adds exactly its outputs |
| Utxo.FundedFrame | blockchaincoin/consensus.py:569-585 | Validity of the inputs and the fee depend only on the outputs that are spent |
| Consensus.UtxoSet.Add | blockchaincoin/consensus.py:497-502 | Adds an output, or refuses a duplicate outpoint and changes nothing |
| Consensus.UtxoSet.Spend | blockchaincoin/consensus.py:504-510 | Removes an outpoint and returns its output, or reports that it is missing |
| Consensus.UtxoSet.Sum | blockchaincoin/consensus.py:521-522 | The loop over the entries computes the order-independent total |
| Consensus.ConsensusState.CheckOutputs | blockchaincoin/consensus.py:671-680 | Accepts exactly non-empty lists of positive, capped outputs to valid addresses |
| Consensus.ConsensusState.CheckInputs | blockchaincoin/consensus.py:572-585 | Accepts exactly distinct, present, authorised inputs that pay for the outputs, and returns the difference |
| Consensus.ConsensusState.ValidateTransaction | blockchaincoin/consensus.py:562-585 | Accepts exactly the valid transactions, coinbase or not, and returns the fee |
| Consensus.ConsensusState.ApplyTransaction | blockchaincoin/consensus.py:587-600 | Succeeds exactly when the transaction can be applied, then spends, creates and returns the fee; otherwise nothing changes |
| Consensus.ConsensusState.ApplyBlockCoinbase | blockchaincoin/consensus.py:624-646 | Accepts exactly unsigned coinbases within subsidy plus fees and the cap; otherwise nothing changes |
| Consensus.ConsensusState.ApplyGenesisCoinbase | blockchaincoin/consensus.py:648-665 | The same for genesis, without the subsidy limit |
| Consensus.ConsensusState.CreateCoinbase | blockchaincoin/consensus.py:602-622 | Builds the tagged reward exactly when address, fees, height and the cap check allow it |
| Blocks.BlockProcessor.ValidateBlock | blockchaincoin/consensus.py:724-764 | Accepts exactly the valid blocks and leaves the live state alone |
| Blocks.BlockProcessor.ApplyBlock | blockchaincoin/consensus.py:766-781 | Atomic: either validation fails and the live state is unchanged, or the second pass cannot fail and ends in the validated state with the same fees |
| Blocks.RebuildStateFromBlocks | blockchaincoin/consensus.py:784-797 | Succeeds exactly on chains valid block by block from nothing, and yields their final state |
| BlockStore.SQLiteForkStore.GetBlock | blockchaincoin/storage.py:250-260 | Returns the row of a known hash, and fails on an unknown one |
| BlockStore.SQLiteForkStore.PutBlock | blockchaincoin/storage.py:166-203 | Stores a new block under its hash with its parent's work plus its own, answers a known hash from the table, refuses a bad height or parent, and changes nothing in the last two cases |
| BlockStore.SQLiteForkStore.BestTip | blockchaincoin/storage.py:262-273 | Returns the unique best tip |
| BlockStore.SQLiteForkStore.ChainToTip | blockchaincoin/storage.py:282-291 | Terminates and returns the branch from genesis to the tip, exactly for known tips |
| BlockStore.SQLiteUTXOIndex.ListSpends | blockchaincoin/storage.py:432-444 | Lists every non-coinbase spend of a chain in block order |
| BlockStore.SQLiteUTXOIndex.SaveTipSpends | blockchaincoin/storage.py:429-468 | Writes the spends of a tip exactly when no outpoint repeats, and rolls back otherwise |
| FullNode.ConsensusNode.SubmitTransaction | blockchaincoin/utxo_node.py:310-334 | Takes the submission step of the state machine, or refuses and changes nothing |
| FullNode.ConsensusNode.ReplacementContext | blockchaincoin/utxo_node.py:604-631 | Finds the conflicting and the remaining entries and prices the former |
| FullNode.ConsensusNode.CandidateAfter | blockchaincoin/utxo_node.py:633-641 | Replays a list on a copy of the active state |
| FullNode.ConsensusNode.EvictForPolicy | blockchaincoin/utxo_node.py:717-750 | Makes room at capacity as the eviction rule says, or refuses; fails at capacity on a list that does not replay |
| FullNode.ConsensusNode.TransactionFees | blockchaincoin/utxo_node.py:752-764 | Succeeds exactly on lists that replay, and gives by txid the fee of the last entry with that txid |
| FullNode.ConsensusNode.PruneInvalidMempool | blockchaincoin/utxo_node.py:643-661 | The pruning loop, including the candidate state it carries |
| FullNode.ConsensusNode.PruneMempool | blockchaincoin/utxo_node.py:370-377 | Takes the pruning step and counts what it removed |
| FullNode.ConsensusNode.ClearMempool | blockchaincoin/utxo_node.py:379-384 | Takes the clearing step |
| FullNode.ConsensusNode.ReplayBranch | blockchaincoin/fork_choice.py:74-98 | Replaying a stored branch cannot fail |
| FullNode.ConsensusNode.ValidateImportCandidate | blockchaincoin/utxo_node.py:786-802 | Accepts exactly blocks that are valid on their stored parent's branch |
| FullNode.ConsensusNode.Activate | blockchaincoin/utxo_node.py:554-571 | Switches to the best branch, updates the index, drops included transactions and prunes |
| FullNode.ConsensusNode.ImportBlock | blockchaincoin/utxo_node.py:536-572 | Takes the arrival step; succeeds exactly when the block is accepted and, with an index, no spend key repeats |
| FullNode.ConsensusNode.BestPending | blockchaincoin/utxo_node.py:689-709 | The inner assembly loop |
| FullNode.ConsensusNode.PrioritizedMempoolTransactions | blockchaincoin/utxo_node.py:681-715 | The outer assembly loop, failing exactly where the greedy order gets stuck |
| FullNode.ConsensusNode.BuildCandidateBlock | blockchaincoin/utxo_node.py:505-527 | Builds the assembled block exactly when assembly completes and the coinbase check passes |
| Merkle.CalculateRoot | blockchaincoin/consensus.py:343-356 | The layer loop computes the Merkle root with odd-layer duplication |
| Merkle.RootCommits | blockchaincoin/consensus.py:343-356 | Two non-empty lists of distinct txids with the same root are equal, whatever their lengths, unless pair hashing collides on the nodes of the two trees |
| Merkle.RootOfHalves | blockchaincoin/consensus.py:348-356 | The root over two full halves pairs the root of the first with that of the second, in this order |
| Merkle.RootOfOdd | blockchaincoin/consensus.py:349-351 | A layer of odd length counts as if its last hash stood there twice |
| Genuine.SmallRoots | blockchaincoin/consensus.py:343-356 | The roots of no, one and two transactions, as digests of their encodings |
| Genuine.BlockHashCommits | blockchaincoin/consensus.py:401-419 | Two blocks with the same hash whose roots are those of their transactions are the same block, unless the digest collides |
| Genuine.RootCommitsToTransactions | blockchaincoin/consensus.py:343-356 | The same for lists of transactions |
| Genuine.TxidsDoNotCollide | blockchaincoin/consensus.py:259-261 | Txids of encodable transactions collide only if the digest collides on their encodings |
| Genuine.EveryGenuineRun | blockchaincoin/utxo_node.py:310-334 | The theorem about every run for the rules as the program instantiates them, assuming only that the digest does not collide on the encodings of the transactions that occur |
| Genuine.RulesAre | blockchaincoin/consensus.py:259-261 | Txids are digests of the whole encoded transaction, block hashes digests of the encoded header, and policy counts the bytes of the whole encoded transaction |
| Codec.UintInverse | blockchaincoin/consensus.py:59-80 | Unsigned 64-bit fields: encoder and decoder are mutually inverse |
| Weight.FieldsSortLikeNumbers | blockchaincoin/consensus.py:55-64 | Encoded whole numbers sort like the numbers: the most significant byte comes first |
| Codec.IntInverse | blockchaincoin/consensus.py:55-76 | Signed 64-bit fields: encoder and decoder are mutually inverse |
| Codec.BytesInverse | blockchaincoin/consensus.py:69-89 | Length-prefixed fields: encoder and decoder are mutually inverse |
| Codec.TextInverse | blockchaincoin/consensus.py:92-100 | Text fields: mutually inverse on valid UTF-8, anything else is refused |
| Unicode.TextIff | blockchaincoin/consensus.py:92-100 | The byte strings taken as text are exactly the encodings of sequences of Unicode scalar values |
| Codec.OutPointInverse | blockchaincoin/consensus.py:128-137 | Outpoints: encoder and decoder are mutually inverse |
| Codec.InputBack | blockchaincoin/consensus.py:163-178 | An encoded input decodes to itself, with or without witness |
| Codec.InputOnly | blockchaincoin/consensus.py:191-213 | An input that decodes was spelled canonically |
| Codec.OutputInverse | blockchaincoin/consensus.py:226-235 | Outputs: encoder and decoder are mutually inverse |
| Wire.TxRoundTrip | blockchaincoin/consensus.py:300-340 | Decoding the encoding of any in-range transaction returns it |
| Wire.TxIsCanonical | blockchaincoin/consensus.py:320-340 | A byte string that decodes to a transaction re-encodes to itself |
| Wire.StrippedRoundTrip | blockchaincoin/consensus.py:300-308 | The witness-free encoding decodes to the transaction without its witness |
| Wire.BlockRoundTrip | blockchaincoin/consensus.py:414-473 | Decoding the encoding of any in-range block returns it |
| Wire.BlockIsCanonical | blockchaincoin/consensus.py:444-473 | A byte string that decodes to a block re-encodes to itself |
| Wire.HeaderLayout | blockchaincoin/consensus.py:402-413 | Where each field of the 112-byte block header stands |
| Wire.DeclaredCountsAreHarmless | blockchaincoin/consensus.py:333-338 | Whatever count a payload declares, a decoding loop stops after at most as many elements as the payload can hold and one more |
| Reader.ByteReader.Read | blockchaincoin/consensus.py:42-48 | Reads exactly the requested bytes and advances, or fails and stays where it was |
| Reader.ByteReader.DecodeInput | blockchaincoin/consensus.py:191-213 | Agrees with the input decoder on the unread bytes |
| Reader.ByteReader.DecodeInputs | blockchaincoin/consensus.py:333-336 | Agrees with the counted input decoder on the unread bytes |
| Reader.ByteReader.DecodeOutputs | blockchaincoin/consensus.py:337-338 | Agrees with the counted output decoder on the unread bytes |
| Reader.ByteReader.DecodeBlockTxs | blockchaincoin/consensus.py:459-462 | Agrees with the counted transaction decoder on the unread bytes |
| Reader.DecodeTransaction | blockchaincoin/consensus.py:320-340 | The cursor-based decoder computes the transaction decoder, with its failures |
| Reader.DecodeBlock | blockchaincoin/consensus.py:444-473 | The cursor-based decoder computes the block decoder, with its failures |
| Framing.ConnectionBuffer.Feed | blockchaincoin/transport.py:43-63 | Returns every message that is complete after the chunk and keeps the unread rest; on a bad frame it fails and keeps the bytes from that frame on |
| Framing.ChunkingDoesNotMatter | blockchaincoin/transport.py:43-53 | For every stream and every way of cutting it, successive feeds return what the whole stream returns and break exactly when it does |
| Framing.PrefixYields | blockchaincoin/transport.py:43-63 | After any prefix of a stream of frames exactly the messages of its complete frames are out and the buffer holds the unfinished beginning of the next frame |
| Framing.StreamYieldsMessages | blockchaincoin/transport.py:43-53 | Every cut of a stream of valid messages yields exactly those messages in order with nothing left |
| Framing.FrameReadsBack | blockchaincoin/network.py:207-249 | A frame followed by anything is read back as its message and the rest |
| Framing.ExtractAppend | blockchaincoin/network.py:438-451 | Bytes that arrive later never change how earlier frames are read |
| Framing.FrameIsAuthentic | blockchaincoin/network.py:229-249 | A frame is read as a message exactly when magic, length, payload and the tag over all of them stand at the front and the payload decodes to it |
| Framing.OnlyFramesComeOut | blockchaincoin/transport.py:43-63 | Whatever comes out of a stream was in it: the stream is a sequence of authenticated frames whose payloads decode to the messages in order, and the unread rest |
| Scheduler.RunOk | blockchaincoin/service.py:307-389 | After every run of events each download belongs to a connected peer, none is requested twice, no peer is over its cap, and requested less completed, timed out, failed and in flight is what it was, for every peer |
| Scheduler.StepOk | blockchaincoin/service.py:125-194 | Every single event keeps that |
| Scheduler.NewPeersBalanceToZero | blockchaincoin/service.py:444-478 | For a peer without stored history the open requests are exactly the downloads in flight |
| Scheduler.SelectIsSafe | blockchaincoin/service.py:398-430 | With a connected source the unchecked fallback is not reached, and the chosen peer is connected and below its cap |
| Scheduler.SelectBalancesLoad | blockchaincoin/service.py:414-430 | No candidate below its cap has a smaller load than the chosen one |
| Selection.ChoiceIs | blockchaincoin/service.py:398-430 | The peer asked is connected, sent or announced the header, is not the one to avoid unless nobody else knows the block, is below its cap, and comes before every other such peer by load, faults, misbehaviour, being the source, and address; nobody is asked only if all of them are at their cap |
| Selection.RetryAsksElsewhere | blockchaincoin/service.py:363-389 | A retry of an overdue missing block asks another connected peer that announced it, unless all of those are at their cap; the peer that let it expire is asked again only if nobody else announced it |
| Selection.HeadersAreFollowed | blockchaincoin/service.py:307-342 | After headers that connect, every announced block is stored, known or in flight, unless every connected peer that knows it is at its cap; and only missing announced blocks are newly in flight, from peers that know them |
| Selection.HeadersAreHeard | blockchaincoin/service.py:156-194 | The same for the whole message: the sender is from then on known to have the announced blocks, and each is stored, known, in flight, or every connected peer that announced it is at its cap |
| Selection.WishesAreSettled | blockchaincoin/service.py:321-335 | Scheduling a list settles every entry, and every new download was missing and is asked of a peer that may be asked |
| Selection.ExpiryIsExact | blockchaincoin/service.py:352-361 | Expiry takes out exactly the downloads that are overdue |
| Tally.RequestsCount | blockchaincoin/service.py:331-334 | Every new download counts as one request of its peer; nothing else is counted |
| Tally.ExpiryCounts | blockchaincoin/service.py:358-360 | Every overdue download counts as one timeout of its peer; nothing else is counted |
| Tally.DismissedHasLeft | blockchaincoin/service.py:493-500 | A peer that leaves loses its session and its downloads, each counted as its failure; everybody else keeps theirs |
| Tally.PenaltyMeans | blockchaincoin/service.py:344-350 | A penalty is ten marks, and the peer is made to leave exactly when that reaches the threshold |
| Tally.ArrivalCounts | blockchaincoin/service.py:256-264 | An imported block is stored, no longer in flight, and counted once for the peer it was asked of |
| Tally.MessageMarks | blockchaincoin/service.py:156-194 | A message costs its sender ten marks exactly when it is rejected, malformed, a refused block or headers that do not connect; it costs nobody else anything |
| Tally.SessionsMean | blockchaincoin/service.py:125-154 | Connecting opens an empty session and forgives nothing, disconnecting makes a known peer leave with its marks kept, and who is not admitted changes nothing |
| Tally.UnconnectedHeaders | blockchaincoin/service.py:307-320 | Headers that do not connect still let overdue downloads expire, cost ten marks, and at the threshold the peer its session and downloads |
| Tally.RunPersists | blockchaincoin/service.py:465-478 | With a store attached, after any run the stored counters are the counted ones |
| Scheduler.DismissOk | blockchaincoin/service.py:138-143 | A peer that leaves takes its downloads with it and each is counted as failed |
| Scheduler.ExpireOk | blockchaincoin/service.py:352-361 | Expiry moves downloads from in flight to timed out, one for one |
| Scheduler.ArrivedOk | blockchaincoin/service.py:260-264 | An imported block completes its download, if there was one |
| Scheduler.RetryOk | blockchaincoin/service.py:363-389 | Retrying expired downloads keeps cap and balance |
| Scheduler.HeadersOk | blockchaincoin/service.py:307-342 | Scheduling from headers keeps cap and balance |
| Scheduler.PenalizeOk | blockchaincoin/service.py:344-350 | A penalty, with or without a ban, keeps cap and balance |
| Downloads.AskedExactlyOnce | blockchaincoin/service.py:328-342 | Every newly in-flight hash stands in exactly one place of one getdata batch, which goes to the peer the download is recorded with, and nothing else is asked for |
| Downloads.ChunkInventory | blockchaincoin/service.py:435-439 | Batches concatenate to the items, none is empty or too large, and all but the last are full |
| Downloads.NodeService.SelectBlockDownloadPeer | blockchaincoin/service.py:398-430 | Computes the selection rule with its tie-breaks |
| Downloads.NodeService.RequestBlocks | blockchaincoin/service.py:321-335 | Requests every missing block and groups the requests by the recorded peer |
| Downloads.NodeService.HandleHeadersMessage | blockchaincoin/service.py:307-342 | Expires, then schedules and returns getdata batches for exactly the new downloads, or penalises headers whose first parent is not stored |
| Downloads.NodeService.RetryExpiredBlockDownloads | blockchaincoin/service.py:363-389 | Takes the retry step and returns getdata batches for exactly the new downloads |
| Downloads.NodeService.ExpireBlockDownloads | blockchaincoin/service.py:352-361 | Takes the expiry step and returns the expired downloads in order |
| Downloads.NodeService.ClearPeerDownloads | blockchaincoin/service.py:493-500 | Drops a peer's downloads and counts them as failed |
| Downloads.NodeService.PenalizePeer | blockchaincoin/service.py:344-350 | Adds ten points and dismisses the peer at the threshold |
| Downloads.NodeService.DisconnectPeer | blockchaincoin/service.py:138-143 | Takes the disconnect step, refusing unknown peers |
| Downloads.NodeService.ConnectPeer | blockchaincoin/service.py:125-154 | Takes the connect step |
| Downloads.NodeService.HandleBlockMessage | blockchaincoin/service.py:256-264 | Takes the block step for every import outcome |
| Downloads.NodeService.ReceiveMessage | blockchaincoin/service.py:156-194 | Takes the receive step for every kind of message and returns getdata batches for exactly the new downloads |
| Downloads.NodeService.RecordProgress | blockchaincoin/service.py:465-478 | Adds to one peer's counters, in memory and in the store |
| Downloads.NodeService.GetdataBatches | blockchaincoin/service.py:336-342 | The getdata batches carry exactly the requests, in batches of bounded size |

## Left out

- SQLite connections, WAL mode, schema migration, chain-parameter rows and file paths: tables are maps in object fields, with their keys and orderings.
- `ConsensusNode.open`, mempool reload and the persisted mempool: the reload replays in txid order, so the pool does not survive a restart in general.
- Ed25519, SHA-256, HMAC, AES-GCM, wallets and `create_transaction`: library calls and user-side construction; they are parameters where they matter.
- JSON inside frames and payload validation: an encode and decode pair in `Framing.Link`; the guarantees ask that a message survives its own text.
- Proof-of-work search: `_mine` may not terminate; `Mining.BuiltBlockIsValid` holds for every nonce whose hash meets the difficulty.
- Struct range errors: encoders are total and keep the low bytes of an out-of-range field, where the program raises; the round-trip lemmas ask for in-range fields, and decoders only produce such values.
- Timestamps are eight opaque bytes: how a decoder treats the bit patterns of floating-point NaNs is not modelled.
- Public keys are pairs of algorithm and key: a dictionary with missing or additional entries is not modelled.
- 64-bit overflow of cumulative work in the database: work is unbounded.
- Error texts: methods return an error exactly when the program raises, and contracts do not say which message.
- Loading counters into memory on a mere read in `_progress_for`: the counters a peer has are the same before and after.
- Peer manager and peer sessions beyond a stub: whether a connection is admitted, which headers a peer announced, its misbehaviour score; the limits are inputs of the events.
- Transaction relay, `getdata` and `getheaders` answers, TCP server, runtime, CLI and release tooling: plumbing around the modelled core.
- An absent cache of refused blocks: the node always has one, as `create` and `open` build it.
- FullNode.ConsensusNode.EvictForPolicy: stated for lists with distinct txids, the only ones that `submit_transaction` passes; on others the program would score an entry with the fee of a later one.
- Downloads.NodeService.ConnectPeer: whether the peer manager admits the peer is an input, and the handshake message is not modelled.
- Downloads.NodeService.HandleBlockMessage: what the node's import did (imported, refused or raised) is an input; `FullNode.ConsensusNode.ImportBlock` models the import itself.
- `SQLiteUTXOIndex.save_snapshot` and `save_tip_snapshot`: deleting and inserting rows is one map assignment.
- Weight.StoredWeight: a negative difficulty, which block validation refuses before anything is stored, weighs one here and a fraction in the program.
