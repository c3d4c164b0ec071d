/** What the invariants add up to for a node that started from genesis. */
module Reachable {
  import opened Bytes
  import opened Ledger
  import opened Utxo
  import opened Replay
  import opened Blocks
  import opened History
  import opened Policy
  import opened Mempool
  import opened Pruning
  import opened Assembly
  import opened ForkStore
  import opened Mining
  import opened Node
  import opened Convergence

  // ---- a list that replays on a chain cannot collide ------------------------------------------

  lemma {:induction false} RowsDistinctInputs(r: Rules, txs: seq<Tx>)
    requires DistinctKeys(Rows(r, txs))
    ensures forall i, j | 0 <= i < j < |txs| :: Spent(txs[i]) !! Spent(txs[j])
  {
    hide Spent;
    if txs != [] {
      var n := |txs| - 1;
      var init, last := txs[..n], txs[n];
      assert txs == init + [last];
      RowsSnoc(r, init, last);
      var a, b := Rows(r, init), RowsOf(r, last);
      assert DistinctKeys(a) by {
        assert forall i | 0 <= i < |a| :: (a + b)[i] == a[i];
      }
      RowsDistinctInputs(r, init);
      RowsApart(r, a, b);
      RowsOfKeys(r, last);
      forall i | 0 <= i < n
        ensures Spent(txs[i]) !! Spent(last)
      {
        assert txs[i] == init[i] && init[i] in init;
        SpentInRows(r, init, txs[i]);
      }
    }
  }

  lemma RowsApart(r: Rules, a: seq<Spend>, b: seq<Spend>)
    requires DistinctKeys(a + b)
    ensures Keys(a) !! Keys(b)
  {
    var rows := a + b;
    forall i, j | 0 <= i < |a| && 0 <= j < |b|
      ensures a[i].outpoint != b[j].outpoint
    {
      assert rows[i] == a[i] && rows[|a| + j] == b[j];
    }
  }

  lemma RowsOfKeys(r: Rules, t: Tx)
    ensures Keys(RowsOf(r, t)) == Spent(t)
  {
    RowsSnoc(r, [], t);
    NoRows(r);
    assert [] + [t] == [t] && [] + RowsOf(r, t) == RowsOf(r, t);
    assert Keys([]) == {};
  }

  /**
   On a chain that repeats no coinbase, spends that replay in list order share no input and
   no txid: replaying is all that block assembly needs.
   */
  lemma ReplayableIsIndependent(r: Rules, blocks: seq<Block>, pool: seq<Tx>, universe: set<Tx>)
    requires ChainOk(r, blocks) && DistinctCoinbases(blocks)
    requires CollisionFree(r, universe) && forall x | x in AllTxs(blocks) :: x in universe
    requires forall i | 0 <= i < |pool| :: !IsCoinbase(pool[i]) && pool[i] in universe
    requires Replays(r, ChainUtxos(r, blocks), pool)
    ensures Independent(r, pool)
  {
    hide ChainOk, AllTxs, ChainUtxos, Replays, Rows, Made, DistinctCoinbases, Keys;
    var log, u := AllTxs(blocks), ChainUtxos(r, blocks);
    ChainAccounts(r, blocks, universe);
    AccountsReplay(r, u, log, pool, universe);
    var all := log + pool;
    hide CollisionFree, CanApply;
    RowsDistinctInputs(r, all);
    assert forall i | 0 <= i < |pool| :: all[|log| + i] == pool[i];
    forall i, j | 0 <= i < j < |pool|
      ensures r.txid(pool[i]) != r.txid(pool[j]) && Inputs(pool[i]) !! Inputs(pool[j])
    {
      assert all[|log| + i] == pool[i] && all[|log| + j] == pool[j];
      assert Spent(pool[i]) == Inputs(pool[i]) && Spent(pool[j]) == Inputs(pool[j]);
    }
  }

  /** A pool that replays on the active chain is mined whole, with the same fees and outcome. */
  lemma ReplayablePoolIsMined(r: Rules, blocks: seq<Block>, pool: seq<Tx>, universe: set<Tx>)
    requires ChainOk(r, blocks) && DistinctCoinbases(blocks)
    requires CollisionFree(r, universe) && forall x | x in AllTxs(blocks) :: x in universe
    requires forall i | 0 <= i < |pool| :: !IsCoinbase(pool[i]) && pool[i] in universe
    requires Replays(r, ChainUtxos(r, blocks), pool)
    ensures var u := ChainUtxos(r, blocks);
            Greedy(r, u, pool).Some? &&
            var sel := Greedy(r, u, pool).value;
            multiset(sel) == multiset(pool) && Replays(r, u, sel) && Final(r, u, sel) == Final(r, u, pool) &&
            Sum(Fees(r, u, sel)) == Sum(Fees(r, u, pool))
  {
    hide ChainOk, AllTxs, ChainUtxos, Replays, DistinctCoinbases, Greedy, CollisionFree, Independent;
    ReplayableIsIndependent(r, blocks, pool, universe);
    GreedyTakesAll(r, ChainUtxos(r, blocks), pool);
  }

  // ---- every run ----------------------------------------------------------------------------------

  /**
   With no assumption on the blocks and transactions at all: after every run every stored
   branch replays from genesis, and the active state is the replay to the best tip.
   */
  lemma EveryRunFollowsTip(r: Rules, p: Policy, genesis: Block, indexed: bool, es: seq<Event>)
    requires ChainOk(r, [genesis])
    ensures FollowsTip(r, genesis, FreshNode(r, genesis, indexed))
    ensures FollowsTip(r, genesis, Run(r, p, genesis, FreshNode(r, genesis, indexed), es))
  {
    hide ChainOk, Run, StoreOk, Branch, ChainUtxos;
    StartOk(r, genesis);
    var first := FreshNode(r, genesis, indexed);
    LinkedOf(r, first.forks.store, genesis);
    TipIsIn(first.forks.store);
    RunFollowsTip(r, p, genesis, first, es);
  }

  /** What every state of every run has. */
  ghost predicate Safe(r: Rules, p: Policy, genesis: Block, st: State)
  {
    FollowsTip(r, genesis, st) && Total(st.utxos) <= r.maxMoney &&
    Independent(r, st.pool) && |st.pool| <= p.maxTransactions &&
    (Replays(r, st.utxos, st.pool) ==>
       PassesAtIndex(r, p, st.utxos, st.pool) && Greedy(r, st.utxos, st.pool).Some? &&
       0 <= Sum(Fees(r, st.utxos, st.pool)) <= Total(st.utxos))
  }

  lemma SoundIsSafe(r: Rules, p: Policy, genesis: Block, st: State, universe: set<Tx>)
    requires SoundOk(r, p, genesis, st, universe) && CollisionFree(r, universe)
    ensures Safe(r, p, genesis, st)
  {
    hide ChainOk, CollisionFree, Replays, Fees, Greedy, Independent, PassesAtIndex, StoreWithin, Waiting, Branch, ChainUtxos, Total;
    TipCoheres(r, p, genesis, st, universe);
    WaitingKnown(r, p, st.pool, universe);
    WaitingIsBounded(r, p, st.pool, universe);
    var blocks := Branch(r, st.forks.store, Tip(st.forks.store));
    PositiveChain(r, blocks);
    SupplyOfChain(r, blocks);
    if Replays(r, st.utxos, st.pool) {
      GreedyTakesAll(r, st.utxos, st.pool);
      FeesWithinSupply(r, st.utxos, st.pool);
    }
  }

  /**
   Whatever is submitted, imported, pruned and cleared, in any order and number, the node is
   safe: the active state is the replay to the best tip, the supply is within the cap, the
   pool is within its bound and free of collisions, and if it replays it passes policy entry
   by entry, is mined whole and its fees are covered. It replays, and every table of the
   index is right, as long as every import fits the index; and only so long.
   */
  lemma EveryRun(r: Rules, p: Policy, genesis: Block, indexed: bool, es: seq<Event>, universe: set<Tx>)
    requires ChainOk(r, [genesis]) && Within(genesis, universe)
    requires CollisionFree(r, universe) && forall i | 0 <= i < |es| :: EventOk(es[i], universe)
    ensures NodeOk(r, p, genesis, FreshNode(r, genesis, indexed), universe)
    ensures var first := FreshNode(r, genesis, indexed);
            var st := Run(r, p, genesis, first, es);
            Safe(r, p, genesis, st) &&
            (NodeOk(r, p, genesis, st, universe) <==> AllFit(r, p, genesis, first, es)) &&
            (AllFit(r, p, genesis, first, es) ==>
               Replays(r, st.utxos, st.pool) && (indexed ==> st.index.Some? && IndexOk(r, st.forks.store, st.index.value)))
  {
    hide ChainOk, CollisionFree, Run, AllFit, Replays, StoreWithin, Waiting, IndexOk, ChainUtxos, EventOk, Within, Safe, StateAt, Independent, PassesAtIndex, StoreOk, IsTip;
    CreatedOk(r, p, genesis, indexed, universe);
    var first := FreshNode(r, genesis, indexed);
    RunKeeps(r, p, genesis, first, es, universe);
    RunSound(r, p, genesis, first, es, universe);
    SoundIsSafe(r, p, genesis, Run(r, p, genesis, first, es), universe);
  }

  /** Whatever happened before, pruning puts the pool in order. */
  lemma EveryRunRecovers(r: Rules, p: Policy, genesis: Block, indexed: bool, es: seq<Event>, universe: set<Tx>)
    requires ChainOk(r, [genesis]) && Within(genesis, universe)
    requires CollisionFree(r, universe) && forall i | 0 <= i < |es| :: EventOk(es[i], universe)
    ensures StoreOk(r, FreshNode(r, genesis, indexed).forks.store, genesis)
    ensures StoreOk(r, Run(r, p, genesis, FreshNode(r, genesis, indexed), es).forks.store, genesis)
    ensures var st := Step(r, p, genesis, Run(r, p, genesis, FreshNode(r, genesis, indexed), es), Event.Pruning);
            PoolOk(r, p, st.utxos, st.pool)
  {
    hide ChainOk, CollisionFree, Run, PoolOk, StoreWithin, Waiting, IndexOk, Branch, ChainUtxos, EventOk, Within, Step;
    CreatedOk(r, p, genesis, indexed, universe);
    RunSound(r, p, genesis, FreshNode(r, genesis, indexed), es, universe);
    PruningSound(r, p, genesis, Run(r, p, genesis, FreshNode(r, genesis, indexed), es), universe);
  }

  /** Every run fits if there is no index, or if every coinbase carries the index that a node writes. */
  lemma EveryRunFits(r: Rules, p: Policy, genesis: Block, indexed: bool, es: seq<Event>, universe: set<Tx>)
    requires ChainOk(r, [genesis]) && Within(genesis, universe)
    requires CollisionFree(r, universe) && forall i | 0 <= i < |es| :: EventOk(es[i], universe)
    requires indexed ==> Tagged(genesis) && forall i | 0 <= i < |es| && es[i].Arrival? :: Tagged(es[i].block)
    ensures StoreOk(r, FreshNode(r, genesis, indexed).forks.store, genesis)
    ensures AllFit(r, p, genesis, FreshNode(r, genesis, indexed), es)
  {
    hide ChainOk, CollisionFree, AllFit, EventOk, Within, Tagged, ChainUtxos, StoreOk, PoolOk, IndexOk;
    var first := FreshNode(r, genesis, indexed);
    CreatedOk(r, p, genesis, indexed, universe);
    if indexed {
      TaggedRunFits(r, p, genesis, first, es, universe);
    } else {
      PlainRunFits(r, p, genesis, first, es);
    }
  }

  // ---- the tables of the index account for every outpoint ------------------------------------------

  lemma {:induction false} TableKeys(rows: seq<Spend>)
    ensures TableOf(rows).Keys == Keys(rows)
  {
    if rows != [] {
      var n := |rows| - 1;
      TableKeys(rows[..n]);
      KeysAppend(rows[..n], [rows[n]]);
      assert rows == rows[..n] + [rows[n]];
      assert Keys([rows[n]]) == {rows[n].outpoint} by {
        assert [rows[n]][0] == rows[n];
      }
    }
  }

  /**
   For every stored tip of an indexed node whose branch repeats no coinbase: the outpoints
   ever created on the branch are exactly those in the tip's snapshot and those in its spend
   table, and none is in both.
   */
  lemma TipAccounts(r: Rules, p: Policy, genesis: Block, st: State, h: Hash, universe: set<Tx>)
    requires NodeOk(r, p, genesis, st, universe) && CollisionFree(r, universe) && st.index.Some?
    requires h in st.forks.store && DistinctCoinbases(Branch(r, st.forks.store, h))
    ensures var ix, log := st.index.value, AllTxs(Branch(r, st.forks.store, h));
            h in ix.snapshots &&
            Made(r, log) == ix.snapshots[h].Keys + SpendsAt(ix, h).Keys && ix.snapshots[h].Keys !! SpendsAt(ix, h).Keys
  {
    hide ChainOk, CollisionFree, PoolOk, Waiting, Branch, AllTxs, ChainUtxos, DistinctCoinbases, Made, Rows, TableOf, Keys, DistinctTxids;
    var blocks := Branch(r, st.forks.store, h);
    BranchWithin(r, st.forks.store, h, universe);
    ChainAccounts(r, blocks, universe);
    TableKeys(Rows(r, AllTxs(blocks)));
  }

  // ---- nodes that see the same blocks agree ----------------------------------------------------------

  /** The blocks that a run imports, in order. */
  function Arrivals(es: seq<Event>): seq<Block>
  {
    if es == [] then [] else (if es[0].Arrival? then [es[0].block] else []) + Arrivals(es[1..])
  }

  lemma {:induction false} RunImports(r: Rules, p: Policy, genesis: Block, st: State, es: seq<Event>)
    requires StoreOk(r, st.forks.store, genesis)
    ensures Run(r, p, genesis, st, es).forks == ImportAll(r, st.forks, Arrivals(es), genesis)
    decreases |es|
  {
    hide StoreOk, Import, Submit, Prune, Takes, Activated;
    if es != [] {
      StepKeepsStore(r, p, genesis, st, es[0]);
      StepForks(r, p, genesis, st, es[0]);
      RunImports(r, p, genesis, Step(r, p, genesis, st, es[0]), es[1..]);
      if es[0].Arrival? {
        assert ([es[0].block] + Arrivals(es[1..]))[1..] == Arrivals(es[1..]);
      } else {
        assert [] + Arrivals(es[1..]) == Arrivals(es[1..]);
      }
    }
  }

  lemma StepForks(r: Rules, p: Policy, genesis: Block, st: State, e: Event)
    requires StoreOk(r, st.forks.store, genesis)
    ensures Linked(r, st.forks.store)
    ensures Step(r, p, genesis, st, e).forks == if e.Arrival? then Import(r, st.forks, e.block) else st.forks
  {
    hide StoreOk, Import, Submit, Prune, Takes, Reindex;
    LinkedOf(r, st.forks.store, genesis);
  }

  /**
   Two nodes with one genesis whose runs import the same blocks, with distinct hashes and in
   any two orders in which a block that has a path comes after its parent, and do whatever
   else in between, under whatever policies, with or without an index: they hold the same
   blocks with the same works and have the same best tip, active chain and spendable outputs.
   */
  lemma NodesConverge(r: Rules, genesis: Block, p: Policy, es: seq<Event>, indexed: bool, q: Policy, fs: seq<Event>, alsoIndexed: bool, all: map<Hash, Block>)
    requires ChainOk(r, [genesis])
    requires DistinctHashes(r, [genesis] + Arrivals(es)) && DistinctHashes(r, [genesis] + Arrivals(fs))
    requires Indexes(r, genesis, Arrivals(es), all) && Indexes(r, genesis, Arrivals(fs), all)
    requires PathsInOrder(r, all, genesis, Arrivals(es)) && PathsInOrder(r, all, genesis, Arrivals(fs))
    ensures FollowsTip(r, genesis, FreshNode(r, genesis, indexed)) && FollowsTip(r, genesis, FreshNode(r, genesis, alsoIndexed))
    ensures var a := Run(r, p, genesis, FreshNode(r, genesis, indexed), es);
            var b := Run(r, q, genesis, FreshNode(r, genesis, alsoIndexed), fs);
            FollowsTip(r, genesis, a) && FollowsTip(r, genesis, b) && a.forks.store == b.forks.store &&
            Tip(a.forks.store) == Tip(b.forks.store) && a.utxos == b.utxos &&
            Branch(r, a.forks.store, Tip(a.forks.store)) == Branch(r, b.forks.store, Tip(b.forks.store)) &&
            Holds(r, a.forks.store, all, genesis, all.Keys)
  {
    hide ChainOk, Run, StoreOk, Branch, ChainUtxos, Holds, PathsInOrder, ImportAll, Indexes, DistinctHashes, Arrivals, StateAt, IsTip;
    EveryRunFollowsTip(r, p, genesis, indexed, es);
    EveryRunFollowsTip(r, q, genesis, alsoIndexed, fs);
    RunImports(r, p, genesis, FreshNode(r, genesis, indexed), es);
    RunImports(r, q, genesis, FreshNode(r, genesis, alsoIndexed), fs);
    StoresConverge(r, genesis, Arrivals(es), Arrivals(fs), all);
    StoreIsDetermined(r, genesis, Arrivals(es), all);
    LinkedOf(r, Run(r, p, genesis, FreshNode(r, genesis, indexed), es).forks.store, genesis);
  }

  /** In particular when every block comes after its parent, whatever the blocks contain. */
  lemma ParentFirstNodesConverge(r: Rules, genesis: Block, p: Policy, es: seq<Event>, indexed: bool, q: Policy, fs: seq<Event>, alsoIndexed: bool)
    requires ChainOk(r, [genesis]) && forall b :: b in Arrivals(es) <==> b in Arrivals(fs)
    requires DistinctHashes(r, [genesis] + Arrivals(es)) && ParentFirst(r, Arrivals(es))
    requires DistinctHashes(r, [genesis] + Arrivals(fs)) && ParentFirst(r, Arrivals(fs))
    ensures FollowsTip(r, genesis, FreshNode(r, genesis, indexed)) && FollowsTip(r, genesis, FreshNode(r, genesis, alsoIndexed))
    ensures var a := Run(r, p, genesis, FreshNode(r, genesis, indexed), es);
            var b := Run(r, q, genesis, FreshNode(r, genesis, alsoIndexed), fs);
            a.forks.store == b.forks.store && a.utxos == b.utxos
  {
    hide ChainOk, Run, StoreOk, Branch, ChainUtxos, Holds, PathsInOrder, ParentFirst, Indexes, DistinctHashes, Arrivals, StateAt, IsTip;
    var all := IndexBlocks(r, genesis, Arrivals(es), Arrivals(fs));
    ParentFirstIsInOrder(r, all, genesis, Arrivals(es));
    ParentFirstIsInOrder(r, all, genesis, Arrivals(fs));
    NodesConverge(r, genesis, p, es, indexed, q, fs, alsoIndexed, all);
  }
}
