/**
 The node as a state machine: submissions, imports, pruning and clearing, in any order.

 In every state that a run can reach the store is a tree of valid branches and the active
 state is the replay to the best tip. The pool is in order on it, and every table of the
 index says what a replay of its branch would say, exactly as long as no import is refused
 by the index; an import that is refused leaves the pool unpruned.
 */
module Node {
  import opened Bytes
  import opened Ledger
  import opened Lists
  import opened Utxo
  import opened Replay
  import opened Blocks
  import opened History
  import opened Policy
  import opened Mempool
  import opened Pruning
  import opened ForkStore
  import opened Convergence

  type SpendTable = map<OutPoint, (Hash, nat)>

  function TableOf(rows: seq<Spend>): SpendTable
  {
    if rows == [] then map[] else
    var last := rows[|rows| - 1];
    TableOf(rows[..|rows| - 1])[last.outpoint := (last.spender, last.input)]
  }

  /** Snapshots and spends by tip, and the snapshot of the active tip. */
  datatype Index = Index(snapshots: map<Hash, UtxoMap>, spends: map<Hash, SpendTable>, activeTip: Hash, active: UtxoMap)

  datatype State = State(forks: Forks, utxos: UtxoMap, pool: seq<Tx>, reorg: Option<Reorg>, index: Option<Index>)

  datatype Event = Submission(tx: Tx) | Arrival(block: Block) | Pruning | Clearing

  ghost function TipRows(r: Rules, s: Store, h: Hash): seq<Spend>
    requires Linked(r, s) && h in s
  {
    Rows(r, AllTxs(Branch(r, s, h)))
  }

  function SpendsAt(ix: Index, h: Hash): SpendTable
  {
    if h in ix.spends then ix.spends[h] else map[]
  }

  // ---- one import -----------------------------------------------------------------------

  datatype Indexing = Indexing(index: Index, complete: bool)

  /** Records the spends of one tip; the primary key refuses a repeated outpoint. */
  ghost function SaveSpends(r: Rules, s: Store, ix: Index, h: Hash): Indexing
    requires Linked(r, s) && h in s
  {
    var rows := TipRows(r, s, h);
    if DistinctKeys(rows) then Indexing(ix.(spends := ix.spends[h := TableOf(rows)]), true)
    else Indexing(ix, false)
  }

  /** What an import writes to the index: the imported tip first, then the active tip. */
  ghost function Reindex(r: Rules, s: Store, ix: Index, h: Hash, tip: Hash): Indexing
    requires Linked(r, s) && h in s && tip in s
  {
    var first := SaveSpends(r, s, ix.(snapshots := ix.snapshots[h := StateAt(r, s, h)]), h);
    if !first.complete then first else
    SaveSpends(r, s,
               Index(first.index.snapshots[tip := StateAt(r, s, tip)], first.index.spends, tip, StateAt(r, s, tip)), tip)
  }

  /** The imported tip and the active tip can both be written to the index. */
  ghost predicate CanIndex(r: Rules, s: Store, ix: Index, h: Hash)
  {
    Linked(r, s) && h in s && Reindex(r, s, ix, h, Tip(s)).complete
  }

  /** The pool after a block: without the transactions it contains, pruned on the new state. */
  ghost function PoolAfter(r: Rules, p: Policy, u: UtxoMap, pool: seq<Tx>, b: Block): seq<Tx>
  {
    Prune(r, p, u, Pick(pool, Staying(r, pool, b.transactions)), 0)
  }

  /** What follows once the block is stored: new active state, index, reorganisation, pool. */
  ghost function Activated(r: Rules, p: Policy, genesis: Block, st: State, b: Block, oldTip: Block): State
    requires StoreOk(r, st.forks.store, genesis) && r.blockHash(b) in st.forks.store
  {
    var s := st.forks.store;
    var u := StateAt(r, s, Tip(s));
    var reorg := DetectReorg(r, oldTip, s[Tip(s)].block);
    match st.index
    case None => State(st.forks, u, PoolAfter(r, p, u, st.pool, b), reorg, None)
    case Some(ix) =>
      var done := Reindex(r, s, ix, r.blockHash(b), Tip(s));
      State(st.forks, u, if done.complete then PoolAfter(r, p, u, st.pool, b) else st.pool, reorg, Some(done.index))
  }

  ghost function Arrive(r: Rules, p: Policy, genesis: Block, st: State, b: Block): State
    requires StoreOk(r, st.forks.store, genesis)
  {
    ImportKeepsStore(r, st.forks, b, genesis);
    var next := st.(forks := Import(r, st.forks, b));
    if !Takes(r, st.forks, b) then next
    else Activated(r, p, genesis, next, b, st.forks.store[Tip(st.forks.store)].block)
  }

  // ---- the invariant ----------------------------------------------------------------------

  /** All transactions of the block are among those known not to collide. */
  predicate Within(b: Block, universe: set<Tx>)
  {
    forall i | 0 <= i < |b.transactions| :: b.transactions[i] in universe
  }

  ghost predicate StoreWithin(s: Store, universe: set<Tx>)
  {
    forall h | h in s :: Within(s[h].block, universe)
  }

  /** Every tip has its snapshot, and its spend table has one row for each spend. */
  ghost predicate IndexOk(r: Rules, s: Store, ix: Index)
    requires Linked(r, s)
  {
    ix.spends.Keys <= s.Keys &&
    (forall h | h in s :: h in ix.snapshots && ix.snapshots[h] == StateAt(r, s, h)) &&
    (forall h | h in s :: DistinctKeys(TipRows(r, s, h)) && SpendsAt(ix, h) == TableOf(TipRows(r, s, h)))
  }

  /** What holds in every state of every run: only the pool may wait to be pruned. */
  ghost predicate SoundOk(r: Rules, p: Policy, genesis: Block, st: State, universe: set<Tx>)
  {
    FollowsTip(r, genesis, st) && StoreWithin(st.forks.store, universe) && Waiting(r, p, st.pool, universe)
  }

  ghost predicate NodeOk(r: Rules, p: Policy, genesis: Block, st: State, universe: set<Tx>)
  {
    var s := st.forks.store;
    SoundOk(r, p, genesis, st, universe) && PoolOk(r, p, st.utxos, st.pool) &&
    (st.index.Some? ==>
       IndexOk(r, s, st.index.value) && st.index.value.activeTip == Tip(s) && st.index.value.active == st.utxos)
  }

  /** The store is a tree of valid branches and the active state is the replay to its best tip. */
  ghost predicate FollowsTip(r: Rules, genesis: Block, st: State)
  {
    StoreOk(r, st.forks.store, genesis) && st.utxos == StateAt(r, st.forks.store, Tip(st.forks.store))
  }

  // ---- branches of the store ----------------------------------------------------------------

  lemma {:induction false} BranchWithin(r: Rules, s: Store, h: Hash, universe: set<Tx>)
    requires Linked(r, s) && h in s && StoreWithin(s, universe)
    ensures forall x | x in AllTxs(Branch(r, s, h)) :: x in universe
    decreases s[h].block.height
  {
    assert LinkedAt(r, s, h);
    var b, blocks := s[h].block, Branch(r, s, h);
    assert Within(b, universe);
    if b.height == 0 {
      assert blocks[..0] == [];
      assert AllTxs(blocks) == b.transactions;
    } else {
      BranchWithin(r, s, b.previousHash, universe);
      assert blocks[..|blocks| - 1] == Branch(r, s, b.previousHash);
      assert AllTxs(blocks) == AllTxs(Branch(r, s, b.previousHash)) + b.transactions;
    }
  }

  lemma {:induction false} BranchTagged(r: Rules, s: Store, h: Hash)
    requires Linked(r, s) && h in s && forall k | k in s :: Tagged(s[k].block)
    ensures forall i | 0 <= i < |Branch(r, s, h)| :: Tagged(Branch(r, s, h)[i])
    decreases s[h].block.height
  {
    hide Tagged;
    assert LinkedAt(r, s, h);
    if s[h].block.height > 0 {
      BranchTagged(r, s, s[h].block.previousHash);
    }
  }

  lemma StatesCohere(r: Rules, s: Store, h: Hash, genesis: Block, universe: set<Tx>)
    requires StoreOk(r, s, genesis) && h in s && StoreWithin(s, universe) && CollisionFree(r, universe)
    ensures Coherent(StateAt(r, s, h), Book(r, universe))
  {
    hide ChainOk, Book, Coherent, Branch, AllTxs, CollisionFree, ChainUtxos;
    BranchWithin(r, s, h, universe);
    CoherentChain(r, Branch(r, s, h), universe);
  }

  /** On a branch that repeats no coinbase the spend table's key never repeats. */
  lemma NoKeyConflict(r: Rules, s: Store, h: Hash, genesis: Block, universe: set<Tx>)
    requires StoreOk(r, s, genesis) && h in s && StoreWithin(s, universe) && CollisionFree(r, universe)
    requires DistinctCoinbases(Branch(r, s, h))
    ensures DistinctKeys(TipRows(r, s, h))
  {
    hide ChainOk, Branch, AllTxs, CollisionFree, ChainUtxos, DistinctCoinbases;
    BranchWithin(r, s, h, universe);
    ChainAccounts(r, Branch(r, s, h), universe);
  }

  // ---- one import and the index -------------------------------------------------------------

  ghost predicate EventOk(e: Event, universe: set<Tx>)
  {
    match e
    case Submission(tx) => tx in universe
    case Arrival(b) => Within(b, universe)
    case Pruning => true
    case Clearing => true
  }

  ghost function Step(r: Rules, p: Policy, genesis: Block, st: State, e: Event): State
    requires StoreOk(r, st.forks.store, genesis)
  {
    match e
    case Submission(tx) =>
      (match Submit(r, p, st.utxos, st.pool, tx)
       case None => st
       case Some(pool) => st.(pool := pool))
    case Arrival(b) => Arrive(r, p, genesis, st, b)
    case Pruning => st.(pool := Prune(r, p, st.utxos, st.pool, 0))
    case Clearing => st.(pool := [])
  }

  lemma StoreStep(r: Rules, f: Forks, b: Block, genesis: Block, universe: set<Tx>)
    requires StoreOk(r, f.store, genesis) && StoreWithin(f.store, universe) && Within(b, universe)
    ensures StoreOk(r, Import(r, f, b).store, genesis) && Extends(f.store, Import(r, f, b).store)
    ensures StoreWithin(Import(r, f, b).store, universe)
    ensures Takes(r, f, b) ==> r.blockHash(b) in Import(r, f, b).store && Import(r, f, b).store.Keys == f.store.Keys + {r.blockHash(b)}
  {
    hide StoreOk, Accepts, Within, Work;
    LinkedOf(r, f.store, genesis);
    ImportKeepsStore(r, f, b, genesis);
  }

  /** The import writes all it wants to the index, if there is one. */
  ghost predicate Indexable(r: Rules, st: State, b: Block)
    requires Linked(r, st.forks.store)
  {
    st.index.Some? && Takes(r, st.forks, b) ==> CanIndex(r, Import(r, st.forks, b).store, st.index.value, r.blockHash(b))
  }

  /** Old tips can be written again, so what counts is whether the new branch repeats a spend. */
  lemma CanIndexIff(r: Rules, s: Store, t: Store, ix: Index, h: Hash, genesis: Block)
    requires StoreOk(r, s, genesis) && StoreOk(r, t, genesis) && Extends(s, t) && IndexOk(r, s, ix)
    requires h in t && t.Keys == s.Keys + {h}
    ensures CanIndex(r, t, ix, h) <==> DistinctKeys(TipRows(r, t, h))
    ensures h in s ==> CanIndex(r, t, ix, h)
  {
    hide ChainOk, Branch, TableOf, TipRows, StateAt, Linked, DistinctKeys, IsTip;
    LinkedOf(r, s, genesis);
    LinkedOf(r, t, genesis);
    TipIsIn(t);
    var tip := Tip(t);
    forall k | k in s
      ensures DistinctKeys(TipRows(r, t, k))
    {
      SameBranch(r, s, t, k);
    }
  }

  /**
   In terms of the block and its parent's branch: the import is written to the index exactly
   when the branch with the block on it spends no outpoint twice.
   */
  lemma IndexableIff(r: Rules, p: Policy, genesis: Block, st: State, b: Block, universe: set<Tx>)
    requires NodeOk(r, p, genesis, st, universe) && Within(b, universe)
    requires st.index.Some? && Takes(r, st.forks, b)
    ensures r.blockHash(b) in st.forks.store ==> Indexable(r, st, b)
    ensures r.blockHash(b) !in st.forks.store ==>
              (Indexable(r, st, b) <==> DistinctKeys(Rows(r, AllTxs(Branch(r, st.forks.store, b.previousHash) + [b]))))
  {
    hide ChainOk, Branch, IndexOk, PoolOk, Waiting, StoreWithin, CanIndex, DistinctKeys, Rows, AllTxs, Work, BlockOk, StateAt, StoreOk;
    var s := st.forks.store;
    LinkedOf(r, s, genesis);
    StoreStep(r, st.forks, b, genesis, universe);
    LinkedOf(r, Import(r, st.forks, b).store, genesis);
    CanIndexIff(r, s, Import(r, st.forks, b).store, st.index.value, r.blockHash(b), genesis);
    if r.blockHash(b) !in s {
      NewBranch(r, s, b);
    }
  }

  /** The old entries of the index stay right, and the written ones are right. */
  lemma IndexStep(r: Rules, s: Store, t: Store, ix: Index, h: Hash, genesis: Block)
    requires StoreOk(r, s, genesis) && StoreOk(r, t, genesis) && Extends(s, t) && IndexOk(r, s, ix)
    requires h in t && t.Keys == s.Keys + {h} && CanIndex(r, t, ix, h)
    ensures IndexOk(r, t, Reindex(r, t, ix, h, Tip(t)).index)
    ensures Reindex(r, t, ix, h, Tip(t)).index.activeTip == Tip(t)
    ensures Reindex(r, t, ix, h, Tip(t)).index.active == StateAt(r, t, Tip(t))
  {
    hide ChainOk, Branch, TableOf, TipRows, StateAt, Linked, DistinctKeys, IsTip, IndexOk;
    var tip := Tip(t);
    TipIsIn(t);
    assert DistinctKeys(TipRows(r, t, h)) && DistinctKeys(TipRows(r, t, tip));
    ReindexIs(r, t, ix, h, tip);
    IndexCarries(r, s, t, ix, Reindex(r, t, ix, h, tip).index, h, tip);
  }

  /** Rows for the two written tips are new, those of other tips are untouched. */
  lemma IndexCarries(r: Rules, s: Store, t: Store, ix: Index, done: Index, h: Hash, tip: Hash)
    requires Linked(r, s) && Linked(r, t) && Extends(s, t) && IndexOk(r, s, ix)
    requires h in t && tip in t && t.Keys == s.Keys + {h}
    requires DistinctKeys(TipRows(r, t, h)) && DistinctKeys(TipRows(r, t, tip))
    requires done.snapshots == ix.snapshots[h := StateAt(r, t, h)][tip := StateAt(r, t, tip)]
    requires done.spends == ix.spends[h := TableOf(TipRows(r, t, h))][tip := TableOf(TipRows(r, t, tip))]
    ensures IndexOk(r, t, done)
  {
    hide Branch, TableOf, TipRows, StateAt, Linked, DistinctKeys;
    forall k | k in t
      ensures k in done.snapshots && done.snapshots[k] == StateAt(r, t, k)
      ensures DistinctKeys(TipRows(r, t, k)) && SpendsAt(done, k) == TableOf(TipRows(r, t, k))
    {
      if k != h && k != tip {
        assert k in s;
        SameBranch(r, s, t, k);
      }
    }
  }

  lemma TipIsIn(s: Store)
    requires s.Keys != {}
    ensures Tip(s) in s
  {
  }

  lemma ReindexIs(r: Rules, s: Store, ix: Index, h: Hash, tip: Hash)
    requires Linked(r, s) && h in s && tip in s
    requires DistinctKeys(TipRows(r, s, h)) && DistinctKeys(TipRows(r, s, tip))
    ensures var done := Reindex(r, s, ix, h, tip);
            done.complete && done.index.activeTip == tip && done.index.active == StateAt(r, s, tip) &&
            done.index.snapshots == ix.snapshots[h := StateAt(r, s, h)][tip := StateAt(r, s, tip)] &&
            done.index.spends == ix.spends[h := TableOf(TipRows(r, s, h))][tip := TableOf(TipRows(r, s, tip))]
  {
    hide TipRows, TableOf, StateAt, Linked, DistinctKeys;
  }

  lemma SameBranch(r: Rules, s: Store, t: Store, k: Hash)
    requires Linked(r, s) && Linked(r, t) && Extends(s, t) && k in s
    ensures StateAt(r, s, k) == StateAt(r, t, k) && TipRows(r, s, k) == TipRows(r, t, k)
  {
    BranchFrame(r, s, t, k);
  }

  lemma RefusedChangesNothing(r: Rules, f: Forks, b: Block)
    requires Linked(r, f.store) && !Takes(r, f, b)
    ensures Import(r, f, b).store == f.store
  {
  }

  // ---- every step, whatever it carries --------------------------------------------------------

  /** No event can break the store, whatever the blocks contain. */
  lemma StepKeepsStore(r: Rules, p: Policy, genesis: Block, st: State, e: Event)
    requires StoreOk(r, st.forks.store, genesis)
    ensures StoreOk(r, Step(r, p, genesis, st, e).forks.store, genesis)
    ensures Extends(st.forks.store, Step(r, p, genesis, st, e).forks.store)
  {
    hide StoreOk, Import, Takes, Submit, Prune;
    if e.Arrival? {
      ImportKeepsStore(r, st.forks, e.block, genesis);
    }
  }

  lemma StepFollowsTip(r: Rules, p: Policy, genesis: Block, st: State, e: Event)
    requires FollowsTip(r, genesis, st)
    ensures FollowsTip(r, genesis, Step(r, p, genesis, st, e))
  {
    hide StoreOk, Import, Takes, Submit, Prune, Reindex, StateAt;
    StepKeepsStore(r, p, genesis, st, e);
    LinkedOf(r, st.forks.store, genesis);
    if e.Arrival? && !Takes(r, st.forks, e.block) {
      RefusedChangesNothing(r, st.forks, e.block);
    }
  }

  lemma TipCoheres(r: Rules, p: Policy, genesis: Block, st: State, universe: set<Tx>)
    requires SoundOk(r, p, genesis, st, universe) && CollisionFree(r, universe)
    ensures Coherent(st.utxos, Book(r, universe))
    ensures PoolOk(r, p, st.utxos, st.pool) <==> Replays(r, st.utxos, st.pool)
  {
    hide Coherent, Book, Waiting, CollisionFree, PoolOk, Replays, Linked, ChainOk;
    StatesCohere(r, st.forks.store, Tip(st.forks.store), genesis, universe);
    WaitingKnown(r, p, st.pool, universe);
    WaitingInOrder(r, p, st.utxos, st.pool, universe);
  }

  /**
   Importing any block, accepted or refused, leaves at worst a pool that waits to be pruned;
   the pool is in order again unless the index refused the block.
   */
  lemma ArrivalSound(r: Rules, p: Policy, genesis: Block, st: State, b: Block, universe: set<Tx>)
    requires SoundOk(r, p, genesis, st, universe) && CollisionFree(r, universe) && Within(b, universe)
    ensures var to := Step(r, p, genesis, st, Arrival(b));
            SoundOk(r, p, genesis, to, universe) && to.index.Some? == st.index.Some? &&
            (Takes(r, st.forks, b) && Indexable(r, st, b) ==> PoolOk(r, p, to.utxos, to.pool)) &&
            (Takes(r, st.forks, b) && !Indexable(r, st, b) ==> to.pool == st.pool) &&
            (!Takes(r, st.forks, b) ==> to.utxos == st.utxos && to.pool == st.pool && to.index == st.index &&
                                        to.forks.store == st.forks.store)
  {
    hide ChainOk, Branch, StateAt, Linked, Import, Takes, Book, Coherent, PoolOk, Waiting, StoreWithin, Reindex, PoolAfter, CollisionFree, StoreOk, IsTip;
    LinkedOf(r, st.forks.store, genesis);
    StoreStep(r, st.forks, b, genesis, universe);
    StepFollowsTip(r, p, genesis, st, Arrival(b));
    if Takes(r, st.forks, b) {
      var t := Import(r, st.forks, b).store;
      LinkedOf(r, t, genesis);
      TipIsIn(t);
      StatesCohere(r, t, Tip(t), genesis, universe);
      PoolArrival(r, p, StateAt(r, t, Tip(t)), st.pool, b, universe);
    } else {
      RefusedChangesNothing(r, st.forks, b);
    }
  }

  lemma PoolArrival(r: Rules, p: Policy, v: UtxoMap, pool: seq<Tx>, b: Block, universe: set<Tx>)
    requires Waiting(r, p, pool, universe) && CollisionFree(r, universe) && Coherent(v, Book(r, universe))
    ensures Waiting(r, p, PoolAfter(r, p, v, pool, b), universe) && PoolOk(r, p, v, PoolAfter(r, p, v, pool, b))
  {
    hide PoolOk, Waiting, Coherent, Book, CollisionFree, Prune, Applicable, Pick;
    PruneKeepsPool(r, p, v, pool, Staying(r, pool, b.transactions), universe);
  }

  lemma PickFrom(pool: seq<Tx>, keep: seq<bool>)
    requires |pool| == |keep|
    ensures forall x | x in Pick(pool, keep) :: x in pool
  {
    PickAt(pool, keep);
  }

  /** An accepted pool holds old entries and the new one, nothing else. */
  lemma SubmitFrom(r: Rules, p: Policy, u: UtxoMap, pool: seq<Tx>, tx: Tx)
    requires Submit(r, p, u, pool, tx).Some?
    ensures forall x | x in Submit(r, p, u, pool, tx).value :: x in pool || x == tx
    ensures tx in Submit(r, p, u, pool, tx).value
  {
    hide Pick, Replays, CanApply, Final, Fee, Staying;
    PickFrom(pool, Staying(r, pool, Replaced(pool, tx)));
  }

  /** A submission is refused and changes nothing, or leaves a pool in order. */
  lemma SubmissionSound(r: Rules, p: Policy, genesis: Block, st: State, tx: Tx, universe: set<Tx>)
    requires SoundOk(r, p, genesis, st, universe) && CollisionFree(r, universe) && tx in universe
    ensures var to := Step(r, p, genesis, st, Submission(tx));
            SoundOk(r, p, genesis, to, universe) && to == st.(pool := to.pool) &&
            (to.pool == st.pool || PoolOk(r, p, to.utxos, to.pool))
  {
    hide PoolOk, Submit, StoreOk, StoreWithin, CollisionFree, Book, Coherent, Waiting, Replays;
    TipCoheres(r, p, genesis, st, universe);
    if Submit(r, p, st.utxos, st.pool, tx).Some? {
      var pool := Submit(r, p, st.utxos, st.pool, tx).value;
      SubmitPutsInOrder(r, p, st.utxos, st.pool, tx, universe);
      SubmitFrom(r, p, st.utxos, st.pool, tx);
      WaitingKnown(r, p, st.pool, universe);
      WaitingInOrder(r, p, st.utxos, pool, universe);
    }
  }

  /** Pruning puts any waiting pool in order. */
  lemma PruningSound(r: Rules, p: Policy, genesis: Block, st: State, universe: set<Tx>)
    requires SoundOk(r, p, genesis, st, universe) && CollisionFree(r, universe)
    ensures var to := Step(r, p, genesis, st, Event.Pruning);
            SoundOk(r, p, genesis, to, universe) && PoolOk(r, p, to.utxos, to.pool)
  {
    hide PoolOk, StoreOk, StoreWithin, CollisionFree, Book, Coherent, Waiting, Prune, Pick, Replays;
    TipCoheres(r, p, genesis, st, universe);
    var all := seq(|st.pool|, _ => true);
    PickAll(st.pool, all);
    PruneKeepsPool(r, p, st.utxos, st.pool, all, universe);
  }

  lemma EmptyPoolOk(r: Rules, p: Policy, u: UtxoMap, universe: set<Tx>)
    ensures PoolOk(r, p, u, []) && Waiting(r, p, [], universe)
  {
  }

  /** Every event keeps everything but, at an import that the index refuses, the order of the pool. */
  lemma StepSound(r: Rules, p: Policy, genesis: Block, st: State, e: Event, universe: set<Tx>)
    requires SoundOk(r, p, genesis, st, universe) && CollisionFree(r, universe) && EventOk(e, universe)
    ensures SoundOk(r, p, genesis, Step(r, p, genesis, st, e), universe)
    ensures Step(r, p, genesis, st, e).index.Some? == st.index.Some?
  {
    hide PoolOk, StoreOk, StoreWithin, Arrive, Prune, CollisionFree, Waiting, Takes, Indexable, Within, Submit;
    match e
    case Submission(tx) => SubmissionSound(r, p, genesis, st, tx, universe);
    case Arrival(b) => ArrivalSound(r, p, genesis, st, b, universe);
    case Pruning => PruningSound(r, p, genesis, st, universe);
    case Clearing => EmptyPoolOk(r, p, st.utxos, universe);
  }

  /** A valid new block on the best tip becomes the best tip. */
  lemma BlockOnTip(r: Rules, p: Policy, genesis: Block, st: State, b: Block)
    requires FollowsTip(r, genesis, st) && b.previousHash == Tip(st.forks.store)
    requires r.blockHash(b) !in st.forks.store && r.blockHash(b) !in st.forks.invalid
    requires b.height == st.forks.store[b.previousHash].block.height + 1
    requires BlockOk(r, st.utxos, b, b.height, b.previousHash)
    ensures Takes(r, st.forks, b)
    ensures var s, to := st.forks.store, Step(r, p, genesis, st, Arrival(b));
            FollowsTip(r, genesis, to) && to.forks == Forks(Put(r, s, b), st.forks.invalid) &&
            Tip(to.forks.store) == r.blockHash(b) &&
            Branch(r, to.forks.store, r.blockHash(b)) == Branch(r, s, b.previousHash) + [b] &&
            to.utxos == BlockAfter(r, st.utxos, b)
  {
    hide ChainOk, Branch, BlockOk, BlockAfter, Reindex, PoolAfter, Work, ChainUtxos, DetectReorg, Linked, StoreOk, Put;
    var s, h := st.forks.store, r.blockHash(b);
    LinkedOf(r, s, genesis);
    StepFollowsTip(r, p, genesis, st, Arrival(b));
    TipHasBlock(r, s, b.previousHash, genesis);
    assert Takes(r, st.forks, b);
    NewBranch(r, s, b);
    PutOnTip(r, s, b);
    BranchStep(r, Branch(r, s, b.previousHash), b);
    assert Step(r, p, genesis, st, Arrival(b)).forks == Forks(Put(r, s, b), st.forks.invalid);
  }

  lemma TipHasBlock(r: Rules, s: Store, h: Hash, genesis: Block)
    requires StoreOk(r, s, genesis) && h in s
    ensures s.Keys != {} && s[h].block.height >= 0
    ensures Linked(r, s) && ChainOk(r, Branch(r, s, h)) && TipHash(r, Branch(r, s, h)) == h
  {
    hide StoreOk, ChainOk, Branch, Work;
    BranchReplays(r, s, h, genesis);
    assert LinkedAt(r, s, h) && h in s.Keys;
  }

  // ---- the index, and when it stays complete -----------------------------------------------------

  /** Some stored branch spends an outpoint twice, which the spend table cannot hold. */
  ghost predicate Conflicted(r: Rules, s: Store)
    requires Linked(r, s)
  {
    exists h :: h in s && !DistinctKeys(TipRows(r, s, h))
  }

  lemma ConflictStays(r: Rules, s: Store, t: Store)
    requires Linked(r, s) && Linked(r, t) && Extends(s, t) && Conflicted(r, s)
    ensures Conflicted(r, t)
  {
    hide Linked, TipRows, DistinctKeys, StateAt;
    var h :| h in s && !DistinctKeys(TipRows(r, s, h));
    SameBranch(r, s, t, h);
  }

  lemma ConflictIsWrong(r: Rules, p: Policy, genesis: Block, st: State, universe: set<Tx>)
    requires StoreOk(r, st.forks.store, genesis) && st.index.Some? && Conflicted(r, st.forks.store)
    ensures !NodeOk(r, p, genesis, st, universe)
  {
    hide TipRows, DistinctKeys, StateAt, PoolOk, SoundOk, ChainOk, Branch;
  }

  /**
   What an import that the index refuses leaves behind: the block is stored and the best tip
   followed, the pool is as it was, and the spend table of the new branch is empty although
   the branch spends.
   */
  lemma RefusedByIndex(r: Rules, p: Policy, genesis: Block, st: State, b: Block, universe: set<Tx>)
    requires NodeOk(r, p, genesis, st, universe) && Within(b, universe) && !Indexable(r, st, b)
    ensures var to, h := Step(r, p, genesis, st, Arrival(b)), r.blockHash(b);
            StoreOk(r, to.forks.store, genesis) && h in to.forks.store && h !in st.forks.store &&
            to.pool == st.pool && to.index.Some? && Conflicted(r, to.forks.store) &&
            SpendsAt(to.index.value, h) == map[] && TipRows(r, to.forks.store, h) != []
  {
    hide ChainOk, Branch, StateAt, Linked, Book, Coherent, PoolOk, Waiting, StoreWithin, PoolAfter, Work, StoreOk, Import, Takes, TipRows, DistinctKeys, TableOf;
    var s, h, ix := st.forks.store, r.blockHash(b), st.index.value;
    LinkedOf(r, s, genesis);
    StoreStep(r, st.forks, b, genesis, universe);
    var t := Import(r, st.forks, b).store;
    LinkedOf(r, t, genesis);
    CanIndexIff(r, s, t, ix, h, genesis);
    OneRowIsDistinct(TipRows(r, t, h));
    assert !DistinctKeys(TipRows(r, t, h));
    TipIsIn(t);
    assert h !in ix.spends;
  }

  lemma OneRowIsDistinct(rows: seq<Spend>)
    ensures |rows| <= 1 ==> DistinctKeys(rows)
  {
  }

  /** The guard of an event: an import must fit the index. */
  ghost predicate Fits(r: Rules, st: State, e: Event)
    requires Linked(r, st.forks.store)
  {
    e.Arrival? ==> Indexable(r, st, e.block)
  }

  /** Importing any block keeps the invariant exactly when the index takes what is imported. */
  lemma ArrivalKeeps(r: Rules, p: Policy, genesis: Block, st: State, b: Block, universe: set<Tx>)
    requires NodeOk(r, p, genesis, st, universe) && CollisionFree(r, universe) && Within(b, universe)
    ensures StoreOk(r, Step(r, p, genesis, st, Arrival(b)).forks.store, genesis)
    ensures NodeOk(r, p, genesis, Step(r, p, genesis, st, Arrival(b)), universe) <==> Indexable(r, st, b)
    ensures !Indexable(r, st, b) ==> Conflicted(r, Step(r, p, genesis, st, Arrival(b)).forks.store)
  {
    hide ChainOk, Branch, StateAt, Linked, Import, Takes, PoolOk, Waiting, StoreWithin, IndexOk, CanIndex, PoolAfter, CollisionFree, StoreOk, IsTip, Conflicted, TipRows;
    var s, to := st.forks.store, Step(r, p, genesis, st, Arrival(b));
    LinkedOf(r, s, genesis);
    ArrivalSound(r, p, genesis, st, b, universe);
    StoreStep(r, st.forks, b, genesis, universe);
    if !Indexable(r, st, b) {
      RefusedByIndex(r, p, genesis, st, b, universe);
      ConflictIsWrong(r, p, genesis, to, universe);
    } else if Takes(r, st.forks, b) && st.index.Some? {
      var t := Import(r, st.forks, b).store;
      IndexStep(r, s, t, st.index.value, r.blockHash(b), genesis);
      CanIndexCompletes(r, t, st.index.value, r.blockHash(b));
    }
  }

  lemma CanIndexCompletes(r: Rules, s: Store, ix: Index, h: Hash)
    requires CanIndex(r, s, ix, h)
    ensures s.Keys != {} && Tip(s) in s && Reindex(r, s, ix, h, Tip(s)).complete
  {
  }

  /** Submitting, pruning and clearing keep the invariant in any case. */
  lemma LocalKeeps(r: Rules, p: Policy, genesis: Block, st: State, e: Event, universe: set<Tx>)
    requires NodeOk(r, p, genesis, st, universe) && CollisionFree(r, universe) && EventOk(e, universe) && !e.Arrival?
    ensures NodeOk(r, p, genesis, Step(r, p, genesis, st, e), universe)
  {
    hide PoolOk, StoreOk, StoreWithin, IndexOk, Prune, CollisionFree, Waiting, Submit;
    match e
    case Submission(tx) => SubmissionSound(r, p, genesis, st, tx, universe);
    case Pruning => PruningSound(r, p, genesis, st, universe);
    case Clearing => EmptyPoolOk(r, p, st.utxos, universe);
  }

  /** Pruning a pool that is in order drops nothing. */
  lemma {:induction false} PruneIsIdle(r: Rules, p: Policy, u: UtxoMap, pool: seq<Tx>, base: nat)
    requires Replays(r, u, pool)
    requires forall i | 0 <= i < |pool| :: p.Admits(r, pool[i], Fees(r, u, pool)[i], base + i)
    ensures Prune(r, p, u, pool, base) == pool
    decreases |pool|
  {
    hide CanApply, After, Fee;
    if pool != [] {
      var v, rest := After(r, u, pool[0]), pool[1..];
      assert p.Admits(r, pool[0], Fees(r, u, pool)[0], base + 0);
      forall i | 0 <= i < |rest|
        ensures p.Admits(r, rest[i], Fees(r, v, rest)[i], base + 1 + i)
      {
        assert p.Admits(r, pool[i + 1], Fees(r, u, pool)[i + 1], base + (i + 1));
      }
      PruneIsIdle(r, p, v, rest, base + 1);
    }
  }

  lemma PruningKeeps(r: Rules, p: Policy, u: UtxoMap, pool: seq<Tx>)
    requires PoolOk(r, p, u, pool)
    ensures Prune(r, p, u, pool, 0) == pool
  {
    hide Replays, Fees, Prune;
    forall i | 0 <= i < |pool|
      ensures p.Admits(r, pool[i], Fees(r, u, pool)[i], 0 + i)
    {
      assert p.Admits(r, pool[i], Fees(r, u, pool)[i], i);
    }
    PruneIsIdle(r, p, u, pool, 0);
  }

  /** Every event keeps the invariant exactly when it fits the index. */
  lemma StepKeeps(r: Rules, p: Policy, genesis: Block, st: State, e: Event, universe: set<Tx>)
    requires NodeOk(r, p, genesis, st, universe) && CollisionFree(r, universe) && EventOk(e, universe)
    ensures StoreOk(r, Step(r, p, genesis, st, e).forks.store, genesis)
    ensures NodeOk(r, p, genesis, Step(r, p, genesis, st, e), universe) <==> Fits(r, st, e)
    ensures !Fits(r, st, e) ==> st.index.Some? && Conflicted(r, Step(r, p, genesis, st, e).forks.store)
  {
    hide StoreOk, SoundOk, IndexOk, PoolOk, Arrive, Prune, CollisionFree, Conflicted, Within, Submit, CanIndex, Takes;
    NodeStore(r, p, genesis, st, universe);
    StepKeepsStore(r, p, genesis, st, e);
    if e.Arrival? {
      ArrivalKeeps(r, p, genesis, st, e.block, universe);
    } else {
      LocalKeeps(r, p, genesis, st, e, universe);
    }
  }

  lemma NodeStore(r: Rules, p: Policy, genesis: Block, st: State, universe: set<Tx>)
    requires NodeOk(r, p, genesis, st, universe)
    ensures StoreOk(r, st.forks.store, genesis)
  {
  }

  // ---- runs ---------------------------------------------------------------------------------

  function FreshNode(r: Rules, genesis: Block, indexed: bool): State
  {
    var u := ChainUtxos(r, [genesis]);
    var h := r.blockHash(genesis);
    State(Start(r, genesis), u, [], None, if indexed then Some(Index(map[h := u], map[], h, u)) else None)
  }

  lemma CreatedOk(r: Rules, p: Policy, genesis: Block, indexed: bool, universe: set<Tx>)
    requires ChainOk(r, [genesis]) && Within(genesis, universe)
    ensures NodeOk(r, p, genesis, FreshNode(r, genesis, indexed), universe)
  {
    hide BlockOk, ChainOk, PoolOk, Waiting, ChainUtxos, Branch, Rows, Work, StoreOk, Within;
    StartOk(r, genesis);
    var st, h := FreshNode(r, genesis, indexed), r.blockHash(genesis);
    var s := st.forks.store;
    EmptyPoolOk(r, p, st.utxos, universe);
    LinkedOf(r, s, genesis);
    assert Tip(s) == h by {
      TipIsIn(s);
    }
    GenesisMints(r, genesis);
    GenesisRows(r, genesis);
  }

  lemma GenesisRows(r: Rules, genesis: Block)
    requires |genesis.transactions| == 1 && IsCoinbase(genesis.transactions[0])
    ensures Rows(r, AllTxs([genesis])) == []
  {
    var txs := genesis.transactions;
    assert [genesis][..0] == [];
    assert AllTxs([genesis]) == txs;
    assert txs[..0] == [];
  }

  /** Nothing can be spent before anything is minted. */
  lemma GenesisMints(r: Rules, genesis: Block)
    requires ChainOk(r, [genesis])
    ensures |genesis.transactions| == 1 && IsCoinbase(genesis.transactions[0])
  {
    assert [genesis][..0] == [];
    if |genesis.transactions| > 1 {
      InputsPresent(r, map[], Spends(genesis)[0]);
    }
  }

  ghost function Run(r: Rules, p: Policy, genesis: Block, st: State, es: seq<Event>): State
    requires StoreOk(r, st.forks.store, genesis)
    decreases |es|
  {
    if es == [] then st else
    StepKeepsStore(r, p, genesis, st, es[0]);
    Run(r, p, genesis, Step(r, p, genesis, st, es[0]), es[1..])
  }

  /** Every import of the run fits the index at the time it happens. */
  ghost predicate AllFit(r: Rules, p: Policy, genesis: Block, st: State, es: seq<Event>)
    requires StoreOk(r, st.forks.store, genesis)
    decreases |es|
  {
    es == [] ||
    (StepKeepsStore(r, p, genesis, st, es[0]);
     Fits(r, st, es[0]) && AllFit(r, p, genesis, Step(r, p, genesis, st, es[0]), es[1..]))
  }

  /**
   Whatever the blocks and transactions of a run contain, with colliding txids or without,
   every stored branch replays and the active state follows the best tip.
   */
  lemma {:induction false} RunFollowsTip(r: Rules, p: Policy, genesis: Block, st: State, es: seq<Event>)
    requires FollowsTip(r, genesis, st)
    ensures FollowsTip(r, genesis, Run(r, p, genesis, st, es))
    decreases |es|
  {
    hide StoreOk, StateAt, Step, Tip;
    if es != [] {
      StepFollowsTip(r, p, genesis, st, es[0]);
      RunFollowsTip(r, p, genesis, Step(r, p, genesis, st, es[0]), es[1..]);
    }
  }

  /** Every run keeps everything but the order of the pool, whatever the index refuses. */
  lemma {:induction false} RunSound(r: Rules, p: Policy, genesis: Block, st: State, es: seq<Event>, universe: set<Tx>)
    requires SoundOk(r, p, genesis, st, universe) && CollisionFree(r, universe)
    requires forall i | 0 <= i < |es| :: EventOk(es[i], universe)
    ensures SoundOk(r, p, genesis, Run(r, p, genesis, st, es), universe)
    ensures Run(r, p, genesis, st, es).index.Some? == st.index.Some?
    decreases |es|
  {
    hide StoreOk, Waiting, StoreWithin, StateAt, CollisionFree, EventOk, Step, Tip;
    if es != [] {
      StepSound(r, p, genesis, st, es[0], universe);
      RunSound(r, p, genesis, Step(r, p, genesis, st, es[0]), es[1..], universe);
    }
  }

  lemma {:induction false} ConflictStaysInRun(r: Rules, p: Policy, genesis: Block, st: State, es: seq<Event>)
    requires StoreOk(r, st.forks.store, genesis) && Conflicted(r, st.forks.store)
    ensures StoreOk(r, Run(r, p, genesis, st, es).forks.store, genesis)
    ensures Conflicted(r, Run(r, p, genesis, st, es).forks.store)
    decreases |es|
  {
    hide StoreOk, Conflicted, Step, Linked;
    if es != [] {
      var next := Step(r, p, genesis, st, es[0]);
      StepKeepsStore(r, p, genesis, st, es[0]);
      LinkedOf(r, st.forks.store, genesis);
      LinkedOf(r, next.forks.store, genesis);
      ConflictStays(r, st.forks.store, next.forks.store);
      ConflictStaysInRun(r, p, genesis, next, es[1..]);
    }
  }

  /**
   A run under one policy ends in a state that satisfies the invariant exactly when every
   import on the way fits the index. What the index refuses once it never recovers.
   */
  lemma {:induction false} RunKeeps(r: Rules, p: Policy, genesis: Block, st: State, es: seq<Event>, universe: set<Tx>)
    requires NodeOk(r, p, genesis, st, universe) && CollisionFree(r, universe)
    requires forall i | 0 <= i < |es| :: EventOk(es[i], universe)
    ensures NodeOk(r, p, genesis, Run(r, p, genesis, st, es), universe) <==> AllFit(r, p, genesis, st, es)
    decreases |es|
  {
    hide NodeOk, SoundOk, StoreOk, CollisionFree, EventOk, Step, Fits, Conflicted;
    NodeStore(r, p, genesis, st, universe);
    if es != [] {
      var next, rest := Step(r, p, genesis, st, es[0]), es[1..];
      StepKeeps(r, p, genesis, st, es[0], universe);
      if Fits(r, st, es[0]) {
        RunKeeps(r, p, genesis, next, rest, universe);
      } else {
        NodeSound(r, p, genesis, st, universe);
        StepSound(r, p, genesis, st, es[0], universe);
        RunStaysWrong(r, p, genesis, next, rest, universe);
      }
    }
  }

  lemma RunStaysWrong(r: Rules, p: Policy, genesis: Block, st: State, es: seq<Event>, universe: set<Tx>)
    requires SoundOk(r, p, genesis, st, universe) && CollisionFree(r, universe)
    requires forall i | 0 <= i < |es| :: EventOk(es[i], universe)
    requires st.index.Some? && Conflicted(r, st.forks.store)
    ensures !NodeOk(r, p, genesis, Run(r, p, genesis, st, es), universe)
  {
    hide NodeOk, CollisionFree, EventOk, Run, Conflicted, Waiting, StoreWithin, StoreOk, StateAt, Tip;
    RunSound(r, p, genesis, st, es, universe);
    ConflictStaysInRun(r, p, genesis, st, es);
    ConflictIsWrong(r, p, genesis, Run(r, p, genesis, st, es), universe);
  }

  lemma NodeSound(r: Rules, p: Policy, genesis: Block, st: State, universe: set<Tx>)
    requires NodeOk(r, p, genesis, st, universe)
    ensures SoundOk(r, p, genesis, st, universe)
  {
  }

  // ---- runs that always fit ---------------------------------------------------------------------

  /** Without an index there is nothing to fit. */
  lemma {:induction false} PlainRunFits(r: Rules, p: Policy, genesis: Block, st: State, es: seq<Event>)
    requires StoreOk(r, st.forks.store, genesis) && st.index.None?
    ensures AllFit(r, p, genesis, st, es)
    decreases |es|
  {
    hide StoreOk, Import, Takes, Submit, Prune, PoolAfter;
    if es != [] {
      LinkedOf(r, st.forks.store, genesis);
      StepKeepsStore(r, p, genesis, st, es[0]);
      PlainRunFits(r, p, genesis, Step(r, p, genesis, st, es[0]), es[1..]);
    }
  }

  ghost predicate StoreTagged(s: Store)
  {
    forall h | h in s :: Tagged(s[h].block)
  }

  lemma TaggedFits(r: Rules, p: Policy, genesis: Block, st: State, e: Event, universe: set<Tx>)
    requires NodeOk(r, p, genesis, st, universe) && CollisionFree(r, universe) && EventOk(e, universe)
    requires StoreTagged(st.forks.store) && (e.Arrival? ==> Tagged(e.block))
    ensures Fits(r, st, e) && StoreTagged(Step(r, p, genesis, st, e).forks.store)
  {
    hide ChainOk, Branch, PoolOk, Waiting, IndexOk, CollisionFree, Work, StoreOk, Accepts, Tagged, Within, StateAt, DistinctCoinbases, PoolAfter, Submit, Prune, TipRows, CanIndex, IsTip;
    var s := st.forks.store;
    NodeStore(r, p, genesis, st, universe);
    LinkedOf(r, s, genesis);
    if e.Arrival? && Takes(r, st.forks, e.block) {
      var b, h := e.block, r.blockHash(e.block);
      StoreStep(r, st.forks, b, genesis, universe);
      var t := Import(r, st.forks, b).store;
      assert StoreTagged(t);
      LinkedOf(r, t, genesis);
      BranchTagged(r, t, h);
      assert ChainOk(r, Branch(r, t, h)) by {
        BranchReplays(r, t, h, genesis);
      }
      TagsAreDistinct(r, Branch(r, t, h));
      NoKeyConflict(r, t, h, genesis, universe);
      if st.index.Some? {
        CanIndexIff(r, s, t, st.index.value, h, genesis);
      }
    }
  }

  lemma BranchReplays(r: Rules, s: Store, h: Hash, genesis: Block)
    requires StoreOk(r, s, genesis) && h in s
    ensures Linked(r, s) && ChainOk(r, Branch(r, s, h))
  {
  }

  /** If every coinbase carries the index that a node writes, every run fits. */
  lemma {:induction false} TaggedRunFits(r: Rules, p: Policy, genesis: Block, st: State, es: seq<Event>, universe: set<Tx>)
    requires NodeOk(r, p, genesis, st, universe) && CollisionFree(r, universe)
    requires forall i | 0 <= i < |es| :: EventOk(es[i], universe) && (es[i].Arrival? ==> Tagged(es[i].block))
    requires StoreTagged(st.forks.store)
    ensures AllFit(r, p, genesis, st, es)
    decreases |es|
  {
    hide NodeOk, CollisionFree, EventOk, Step, Fits, Conflicted, StoreTagged, Tagged;
    NodeStore(r, p, genesis, st, universe);
    if es != [] {
      TaggedFits(r, p, genesis, st, es[0], universe);
      StepKeeps(r, p, genesis, st, es[0], universe);
      TaggedRunFits(r, p, genesis, Step(r, p, genesis, st, es[0]), es[1..], universe);
    }
  }
}
