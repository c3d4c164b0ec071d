/**
 What an untagged coinbase can do. Block validation does not check the index that a coinbase
 carries, so one coinbase may pay out again once its output is spent. Three blocks, all
 valid, show that a branch can spend one outpoint twice; importing the third stores it, fails
 on the spend table and leaves a pool behind that does not replay. Two of them show that a
 list which merely replays may be impossible to mine.
 */
module Repetition {
  import opened Bytes
  import opened Ledger
  import opened Utxo
  import opened Replay
  import opened Consensus
  import opened Blocks
  import opened History
  import opened Policy
  import opened Mempool
  import opened Pruning
  import opened Assembly
  import opened ForkStore
  import opened Convergence
  import opened Node

  // ---- the transactions -----------------------------------------------------------------

  function Name(n: Byte): Hash
  {
    [n] + seq(31, _ => 0)
  }

  function Txid(t: Tx): Hash
  {
    if IsCoinbase(t) then Name(1)
    else if |t.outputs| == 2 then Name(2)
    else if |t.outputs| == 1 && t.outputs[0].amount == 4 then Name(3)
    else if |t.outputs| == 1 && t.outputs[0].amount == 1 then Name(4)
    else Name(5)
  }

  function BlockName(b: Block): Hash
  {
    if b.height == 0 then Name(10) else if b.height == 1 then Name(11) else Name(12)
  }

  const RULES: Rules := RawRules.Rules(
    (t: Tx) => Txid(t), (b: Block) => BlockName(b), (ts: seq<Tx>) => ZERO_HASH, (t: Tx) => 1, (a: Text) => true,
    (k: PublicKey) => Some([]), (k: PublicKey, m: SigningMessage, s: Text) => true, 4, 100)

  const POLICY: Policy := RawPolicy.Policy(10, 10, 10, 10, 0, 0, 0, true, 1, true, 1)

  function In(name: Byte, index: nat): TxInput
  {
    TxInput(OutPoint(Name(name), index), Some([1]), Some(PublicKey([], [])))
  }

  function Out(amount: int): TxOutput
  {
    TxOutput(amount, [])
  }

  /** The coinbase that pays out in every block. */
  const C := Tx(1, [TxInput(OutPoint(ZERO_HASH, -1), None, None)], [Out(4)])
  /** Splits the coinbase output in two. */
  const T := Tx(1, [In(1, 0)], [Out(2), Out(2)])
  /** Spends both halves. */
  const W := Tx(1, [In(2, 0), In(2, 1)], [Out(4)])
  /** Spends one half and pays a fee. */
  const Z := Tx(1, [In(2, 0)], [Out(1)])
  /** Spends the coinbase output again, and one half. */
  const X := Tx(1, [In(1, 0), In(2, 0)], [Out(6)])

  const UNIVERSE: set<Tx> := {C, T, W, Z, X}

  const STAMP: Stamp := [0, 0, 0, 0, 0, 0, 0, 0]

  const B0 := Block(1, 0, ZERO_HASH, ZERO_HASH, 0, STAMP, 0, [C])
  const B1 := Block(1, 1, Name(10), ZERO_HASH, 0, STAMP, 0, [C, T])
  const B2 := Block(1, 2, Name(11), ZERO_HASH, 0, STAMP, 0, [C, X])

  function At(name: Byte, index: nat): OutPoint
  {
    OutPoint(Name(name), index)
  }

  const U0: UtxoMap := map[At(1, 0) := Out(4)]
  const U1: UtxoMap := map[At(2, 0) := Out(2), At(2, 1) := Out(2), At(1, 0) := Out(4)]
  const U2: UtxoMap := map[At(2, 1) := Out(2), At(5, 0) := Out(6), At(1, 0) := Out(4)]

  lemma NamesDiffer(a: Byte, b: Byte)
    ensures Name(a) == Name(b) <==> a == b
    ensures Name(a) == ZERO_HASH <==> a == 0
  {
    assert Name(a)[0] == a && Name(b)[0] == b && ZERO_HASH[0] == 0;
    assert Name(0) == ZERO_HASH;
  }

  lemma Txids()
    ensures !IsCoinbase(T) && !IsCoinbase(W) && !IsCoinbase(Z) && !IsCoinbase(X) && IsCoinbase(C)
    ensures RULES.txid(C) == Name(1) && RULES.txid(T) == Name(2) && RULES.txid(W) == Name(3) && RULES.txid(Z) == Name(4) && RULES.txid(X) == Name(5)
  {
    NamesDiffer(1, 2);
    NamesDiffer(2, 1);
  }

  lemma UniverseIsCollisionFree()
    ensures CollisionFree(RULES, UNIVERSE)
  {
    Txids();
    forall a: Byte, b: Byte
      ensures Name(a) == Name(b) <==> a == b
    {
      NamesDiffer(a, b);
    }
  }

  // ---- one application at a time -----------------------------------------------------------

  lemma Names()
    ensures forall a: Byte, b: Byte :: Name(a) == Name(b) ==> a == b
  {
    forall a: Byte, b: Byte
      ensures Name(a) == Name(b) ==> a == b
    {
      NamesDiffer(a, b);
    }
  }

  /** Sums over one or two inputs and outputs. */
  lemma ShortSums(u: UtxoMap, t: Tx)
    ensures |t.inputs| == 1 ==> InputTotal(u, t.inputs) == Amount(u, t.inputs[0].previous)
    ensures |t.inputs| == 2 ==> InputTotal(u, t.inputs) == Amount(u, t.inputs[0].previous) + Amount(u, t.inputs[1].previous)
    ensures |t.outputs| == 1 ==> OutputTotal(t.outputs) == t.outputs[0].amount
    ensures |t.outputs| == 2 ==> OutputTotal(t.outputs) == t.outputs[0].amount + t.outputs[1].amount
  {
    if |t.inputs| >= 1 {
      assert InSum(u, t.inputs, 0) == 0;
      assert InSum(u, t.inputs, 1) == Amount(u, t.inputs[0].previous);
    }
    if |t.outputs| >= 1 {
      assert OutSum(t.outputs, 0) == 0;
      assert OutSum(t.outputs, 1) == t.outputs[0].amount;
    }
  }

  /** Signed throughout, with positive amounts within the cap. */
  ghost predicate Proper(t: Tx)
  {
    t.version == 1 && t.inputs != [] && t.outputs != [] && !IsCoinbase(t) && DistinctPrevs(t.inputs) &&
    (forall i | 0 <= i < |t.inputs| :: t.inputs[i].signature == Some([1]) && t.inputs[i].publicKey.Some?) &&
    (forall i | 0 <= i < |t.outputs| :: 0 < t.outputs[i].amount <= 100)
  }

  ghost predicate Plain(u: UtxoMap)
  {
    forall o | o in u :: u[o].address == []
  }

  lemma AllProper()
    ensures Proper(T) && Proper(W) && Proper(Z) && Proper(X)
  {
    Names();
    Txids();
  }

  /** A proper transaction applies if its inputs are there, pay, and make room. */
  lemma Applies(u: UtxoMap, t: Tx)
    requires Proper(t) && Plain(u) && Total(u) <= 100 && Inputs(t) <= u.Keys
    requires OutputTotal(t.outputs) <= InputTotal(u, t.inputs)
    requires forall o | o in Created(RULES.txid(t), t.outputs) :: o in u ==> o in Inputs(t)
    ensures CanApply(RULES, u, t)
  {
    hide Total, Created, InputTotal, OutputTotal;
    CreatedIs(RULES.txid(t), t.outputs);
    assert forall i | 0 <= i < |t.inputs| :: t.inputs[i].previous in Inputs(t);
    assert Funded(RULES, u, t);
    SpendConserves(RULES, u, t);
  }

  /** The coinbase pays out whenever its earlier output is not there. */
  lemma MintC(u: UtxoMap, allowed: Option<int>)
    requires At(1, 0) !in u && Total(u) <= 90 && (allowed.Some? ==> allowed.value >= 4)
    ensures CanMint(RULES, u, C, allowed) && After(RULES, u, C) == u[At(1, 0) := Out(4)]
    ensures Total(After(RULES, u, C)) == Total(u) + 4
  {
    Txids();
    ShortSums(u, C);
    CreatedIs(Name(1), C.outputs);
    CoinbaseAdds(RULES, u, C);
  }

  const MADE_T: UtxoMap := map[At(2, 0) := Out(2), At(2, 1) := Out(2)]

  /** What each spend takes and makes. */
  lemma EffectT()
    ensures Inputs(T) == {At(1, 0)} && Created(RULES.txid(T), T.outputs) == MADE_T
  {
    hide RULES, Name;
    Txids();
    InputsOfOne(T);
    CreatedIs(Name(2), T.outputs);
    assert Created(Name(2), T.outputs) == MADE_T;
  }

  lemma EffectW()
    ensures Inputs(W) == {At(2, 0), At(2, 1)} && Created(RULES.txid(W), W.outputs) == map[At(3, 0) := Out(4)]
  {
    hide RULES, Name, Created, Inputs;
    Txids();
    InputsOfTwo(W);
    MadeByOne(W);
  }

  lemma EffectZ()
    ensures Inputs(Z) == {At(2, 0)} && Created(RULES.txid(Z), Z.outputs) == map[At(4, 0) := Out(1)]
  {
    hide RULES, Name, Created, Inputs;
    Txids();
    InputsOfOne(Z);
    MadeByOne(Z);
  }

  lemma EffectX()
    ensures Inputs(X) == {At(1, 0), At(2, 0)} && Created(RULES.txid(X), X.outputs) == map[At(5, 0) := Out(6)]
  {
    hide RULES, Name, Created, Inputs;
    Txids();
    InputsOfTwo(X);
    MadeByOne(X);
  }

  lemma InputsOfOne(t: Tx)
    requires |t.inputs| == 1
    ensures Inputs(t) == {t.inputs[0].previous}
  {
  }

  lemma InputsOfTwo(t: Tx)
    requires |t.inputs| == 2
    ensures Inputs(t) == {t.inputs[0].previous, t.inputs[1].previous}
  {
  }

  lemma MadeByOne(t: Tx)
    requires |t.outputs| == 1
    ensures Created(RULES.txid(t), t.outputs) == map[OutPoint(RULES.txid(t), 0) := t.outputs[0]]
  {
    CreatedIs(RULES.txid(t), t.outputs);
  }

  lemma Minted()
    ensures CanMint(RULES, map[], C, None) && After(RULES, map[], C) == U0 && Total(U0) == 4
  {
    EmptyTotal();
    MintC(map[], None);
    assert map[][At(1, 0) := Out(4)] == U0;
  }

  lemma SpendT()
    ensures CanApply(RULES, U0, T) && After(RULES, U0, T) == MADE_T && Fee(U0, T) == 0
    ensures Total(MADE_T) == 4
  {
    hide CanApply, Created, RULES, Inputs;
    Minted();
    Names();
    Txids();
    AllProper();
    EffectT();
    ShortSums(U0, T);
    Applies(U0, T);
    assert U0 - {At(1, 0)} + MADE_T == MADE_T;
    TotalAfter(U0, T);
  }

  lemma TotalAfter(u: UtxoMap, t: Tx)
    requires CanApply(RULES, u, t) && !IsCoinbase(t)
    ensures Total(After(RULES, u, t)) == Total(u) - Fee(u, t)
  {
    SpendConserves(RULES, u, t);
  }

  const AFTER_X: UtxoMap := map[At(2, 1) := Out(2), At(5, 0) := Out(6)]

  lemma SpendX()
    requires Total(U1) == 8
    ensures CanApply(RULES, U1, X) && After(RULES, U1, X) == AFTER_X && Fee(U1, X) == 0
    ensures Total(AFTER_X) == 8
  {
    hide CanApply, Created, RULES, Inputs;
    Names();
    Txids();
    AllProper();
    EffectX();
    ShortSums(U1, X);
    Applies(U1, X);
    assert U1 - {At(1, 0), At(2, 0)} + map[At(5, 0) := Out(6)] == AFTER_X;
    TotalAfter(U1, X);
  }

  // ---- the blocks --------------------------------------------------------------------------

  /** A block with the coinbase and one spend that pays no fee. */
  lemma SpendBlock(u: UtxoMap, b: Block, t: Tx)
    requires b.transactions == [C, t] && !IsCoinbase(t) && CanApply(RULES, u, t) && Fee(u, t) == 0
    requires b.version == 1 && b.height > 0 && b.difficulty == 0 && b.transactionRoot == ZERO_HASH
    requires At(1, 0) !in After(RULES, u, t) && Total(u) <= 90
    ensures BlockOk(RULES, u, b, b.height, b.previousHash)
    ensures BlockAfter(RULES, u, b) == After(RULES, u, t)[At(1, 0) := Out(4)]
    ensures Total(BlockAfter(RULES, u, b)) == Total(u) + 4
  {
    hide CanApply, After, Fee, CanMint, Total;
    Txids();
    assert Spends(b) == [t];
    ReplayCons(RULES, u, t, []);
    assert [t] + [] == [t];
    var v := After(RULES, u, t);
    assert Final(RULES, v, []) == v && Fees(RULES, v, []) == [];
    SumCons(Fee(u, t), []);
    TotalAfter(u, t);
    MintC(v, Some(4));
  }

  lemma FirstBlock()
    ensures ChainOk(RULES, [B0]) && ChainUtxos(RULES, [B0]) == U0
  {
    hide CanMint, After;
    Txids();
    Minted();
    assert [B0][..0] == [] && Spends(B0) == [];
    EmptyChain(RULES);
    assert Final(RULES, map[], []) == map[];
  }

  lemma SecondBlock()
    ensures BlockOk(RULES, U0, B1, 1, Name(10)) && BlockAfter(RULES, U0, B1) == U1 && Total(U1) == 8
  {
    hide CanApply, After, Fee, BlockOk, BlockAfter, Total;
    Names();
    Txids();
    Minted();
    SpendT();
    SpendBlock(U0, B1, T);
    assert MADE_T[At(1, 0) := Out(4)] == U1;
  }

  lemma ThirdBlock()
    ensures BlockOk(RULES, U1, B2, 2, Name(11)) && BlockAfter(RULES, U1, B2) == U2
  {
    hide CanApply, After, Fee, BlockOk, BlockAfter, Total;
    Names();
    Txids();
    SecondBlock();
    SpendX();
    SpendBlock(U1, B2, X);
    assert AFTER_X[At(1, 0) := Out(4)] == U2;
  }

  lemma TwoBlocks()
    ensures ChainOk(RULES, [B0, B1]) && ChainUtxos(RULES, [B0, B1]) == U1
  {
    hide BlockOk, BlockAfter, ChainOk, ChainUtxos;
    FirstBlock();
    SecondBlock();
    BranchStep(RULES, [B0], B1);
    assert [B0] + [B1] == [B0, B1];
  }

  lemma ThreeBlocks()
    ensures ChainOk(RULES, [B0, B1, B2]) && ChainUtxos(RULES, [B0, B1, B2]) == U2
  {
    hide BlockOk, BlockAfter, ChainOk, ChainUtxos;
    TwoBlocks();
    ThirdBlock();
    BranchStep(RULES, [B0, B1], B2);
    assert [B0, B1] + [B2] == [B0, B1, B2];
  }

  lemma Log()
    ensures AllTxs([B0, B1]) == [C, C, T] && AllTxs([B0, B1, B2]) == [C, C, T, C, X]
  {
    assert [B0][..0] == [] && [B0, B1][..1] == [B0] && [B0, B1, B2][..2] == [B0, B1];
    assert AllTxs([B0]) == [C];
  }

  lemma RowsOfOne(r: Rules, t: Tx)
    ensures Rows(r, [t]) == RowsOf(r, t)
  {
    assert [t][..0] == [];
  }

  lemma RowsAfterCoinbase(r: Rules, c: Tx, txs: seq<Tx>)
    requires IsCoinbase(c)
    ensures Rows(r, [c] + txs) == Rows(r, txs)
  {
    RowsOfOne(r, c);
    assert RowsOf(r, c) == [];
    hide Rows, RowsOf;
    RowsAppend(r, [c], txs);
  }

  lemma RowsBetweenCoinbases(r: Rules, c: Tx, t: Tx, x: Tx)
    requires IsCoinbase(c)
    ensures Rows(r, [c, c, t]) == RowsOf(r, t) && Rows(r, [c, c, t, c, x]) == RowsOf(r, t) + RowsOf(r, x)
  {
    hide Rows, RowsOf, IsCoinbase;
    RowsOfOne(r, t);
    RowsOfOne(r, x);
    RowsAfterCoinbase(r, c, [t]);
    RowsAfterCoinbase(r, c, [c, t]);
    assert [c] + [t] == [c, t] && [c] + [c, t] == [c, c, t];
    RowsAfterCoinbase(r, c, [x]);
    assert [c] + [x] == [c, x];
    RowsAppend(r, [c, c, t], [c, x]);
    assert [c, c, t] + [c, x] == [c, c, t, c, x];
  }

  lemma FirstRow(r: Rules, t: Tx)
    requires !IsCoinbase(t) && t.inputs != []
    ensures |RowsOf(r, t)| == |t.inputs| && RowsOf(r, t)[0].outpoint == t.inputs[0].previous
  {
  }

  lemma LogRows()
    ensures DistinctKeys(Rows(RULES, [C, C, T])) && !DistinctKeys(Rows(RULES, [C, C, T, C, X]))
  {
    hide Rows, RULES, RowsOf;
    Txids();
    RowsBetweenCoinbases(RULES, C, T, X);
    FirstRow(RULES, T);
    FirstRow(RULES, X);
    var rows := RowsOf(RULES, T) + RowsOf(RULES, X);
    assert rows[0].outpoint == rows[1].outpoint;
  }

  /**
   Three valid blocks without any txid collision that pay out with one coinbase each time:
   the branch repeats txids and spends one outpoint twice.
   */
  lemma ChainSpendsTwice()
    ensures CollisionFree(RULES, UNIVERSE) && forall x | x in AllTxs([B0, B1, B2]) :: x in UNIVERSE
    ensures ChainOk(RULES, [B0, B1, B2]) && !DistinctCoinbases([B0, B1, B2])
    ensures !DistinctKeys(Rows(RULES, AllTxs([B0, B1, B2])))
    ensures !Accounts(RULES, ChainUtxos(RULES, [B0, B1, B2]), AllTxs([B0, B1, B2]))
  {
    hide ChainOk, ChainUtxos, Rows, AllTxs, RULES, CollisionFree, DistinctKeys;
    UniverseIsCollisionFree();
    ThreeBlocks();
    Log();
    LogRows();
    assert [B0, B1, B2][0].transactions[0] == [B0, B1, B2][1].transactions[0];
  }

  // ---- an import that leaves a broken pool behind -------------------------------------------

  lemma HashesOfBlocks()
    ensures RULES.blockHash(B0) == Name(10) && RULES.blockHash(B1) == Name(11) && RULES.blockHash(B2) == Name(12)
  {
  }

  lemma SpendZ()
    requires Total(U1) == 8
    ensures CanApply(RULES, U1, Z) && Fee(U1, Z) == 1 && After(RULES, U1, Z) == AFTER_Z && Total(AFTER_Z) == 7
  {
    hide CanApply, Created, RULES, Inputs, Total;
    Names();
    Txids();
    AllProper();
    EffectZ();
    ShortSums(U1, Z);
    Applies(U1, Z);
    assert U1 - {At(2, 0)} + map[At(4, 0) := Out(1)] == AFTER_Z;
    TotalAfter(U1, Z);
  }

  /** The third block takes away what Z would spend. */
  lemma StaleZ()
    ensures !CanApply(RULES, U2, Z)
  {
    hide CanApply, Created, RULES, Inputs;
    Names();
    Txids();
    EffectZ();
    NotThere(U2, Z, At(2, 0));
  }

  const AFTER_Z: UtxoMap := map[At(2, 1) := Out(2), At(1, 0) := Out(4), At(4, 0) := Out(1)]

  lemma NotThere(u: UtxoMap, t: Tx, o: OutPoint)
    requires o in Inputs(t) && o !in u && !IsCoinbase(t)
    ensures !CanApply(RULES, u, t)
  {
  }

  lemma FreshIs()
    ensures var st := FreshNode(RULES, B0, true);
            NodeOk(RULES, POLICY, B0, st, UNIVERSE) && st.index.Some? && st.pool == [] && st.utxos == U0 &&
            st.forks.invalid == {} && st.forks.store.Keys == {Name(10)} && st.forks.store[Name(10)].block == B0 &&
            Tip(st.forks.store) == Name(10) && Branch(RULES, st.forks.store, Name(10)) == [B0]
  {
    hide RULES, ChainOk, NodeOk, Branch, ChainUtxos, Work;
    HashesOfBlocks();
    FirstBlock();
    CreatedOk(RULES, POLICY, B0, true, UNIVERSE);
    StartOk(RULES, B0);
    TipIsIn(FreshNode(RULES, B0, true).forks.store);
  }

  /** The node after the first two blocks. */
  ghost function Synced(): State
    requires StoreOk(RULES, FreshNode(RULES, B0, true).forks.store, B0)
  {
    Step(RULES, POLICY, B0, FreshNode(RULES, B0, true), Arrival(B1))
  }

  lemma SyncedIs()
    ensures StoreOk(RULES, FreshNode(RULES, B0, true).forks.store, B0)
    ensures var st := Synced();
            NodeOk(RULES, POLICY, B0, st, UNIVERSE) && st.index.Some? && st.pool == [] && st.utxos == U1 &&
            st.forks.invalid == {} && st.forks.store.Keys == {Name(10), Name(11)} && st.forks.store[Name(11)].block == B1 &&
            Tip(st.forks.store) == Name(11) && Branch(RULES, st.forks.store, Name(11)) == [B0, B1]
  {
    hide RULES, ChainOk, BlockOk, PoolOk, Waiting, Rows, AllTxs, Branch, ChainUtxos, BlockAfter, CollisionFree, Indexable, Work, Reindex, PoolAfter, IndexOk, StoreOk, DistinctKeys, StateAt, Name;
    var st := FreshNode(RULES, B0, true);
    UniverseIsCollisionFree();
    HashesOfBlocks();
    Names();
    FreshIs();
    SecondBlock();
    BlockOnTip(RULES, POLICY, B0, st, B1);
    IndexableIff(RULES, POLICY, B0, st, B1, UNIVERSE);
    assert [B0] + [B1] == [B0, B1];
    Log();
    LogRows();
    ArrivalKeeps(RULES, POLICY, B0, st, B1, UNIVERSE);
    NothingToPrune(Synced().utxos, B1);
  }

  lemma NothingToPrune(u: UtxoMap, b: Block)
    ensures PoolAfter(RULES, POLICY, u, [], b) == []
  {
  }

  lemma SubmitZ()
    ensures Submit(RULES, POLICY, U1, [], Z) == Some([Z])
  {
    hide CanApply, Total, After;
    SecondBlock();
    SpendZ();
    Txids();
    assert Final(RULES, U1, []) == U1 && Replays(RULES, U1, []);
    assert Replaced([], Z) == [];
    assert POLICY.Admits(RULES, Z, 1, 0);
    assert [] + [Z] == [Z];
  }

  /**
   A node with an index imports two valid blocks, accepts Z, and is sent a third valid block.
   The block is stored and becomes the best tip, but the spend table refuses it; the pool is
   not pruned, and Z, which the block made impossible, stays in it.
   */
  lemma ImportLeavesBrokenPool()
    ensures StoreOk(RULES, FreshNode(RULES, B0, true).forks.store, B0)
    ensures var st := Run(RULES, POLICY, B0, FreshNode(RULES, B0, true), [Arrival(B1), Submission(Z)]);
            NodeOk(RULES, POLICY, B0, st, UNIVERSE) && st.pool == [Z] &&
            var to := Step(RULES, POLICY, B0, st, Arrival(B2));
            StoreOk(RULES, to.forks.store, B0) && Tip(to.forks.store) == RULES.blockHash(B2) &&
            !Indexable(RULES, st, B2) && to.pool == [Z] && !PoolOk(RULES, POLICY, to.utxos, to.pool)
  {
    hide RULES, POLICY, ChainOk, BlockOk, PoolOk, Waiting, Rows, AllTxs, Branch, ChainUtxos, BlockAfter, CollisionFree, Indexable, Work, IndexOk, StoreOk, DistinctKeys, StateAt, Name, Submit, Arrive, SoundOk, CanApply;
    SyncedIs();
    UniverseIsCollisionFree();
    SubmitZ();
    var first, mid := FreshNode(RULES, B0, true), Synced();
    NodeStore(RULES, POLICY, B0, mid, UNIVERSE);
    var st := Step(RULES, POLICY, B0, mid, Submission(Z));
    LocalKeeps(RULES, POLICY, B0, mid, Submission(Z), UNIVERSE);
    RunOfTwo(first, Arrival(B1), Submission(Z));
    ThirdImport(st);
  }

  lemma RunOfTwo(st: State, a: Event, b: Event)
    requires StoreOk(RULES, st.forks.store, B0)
    ensures StoreOk(RULES, Step(RULES, POLICY, B0, st, a).forks.store, B0)
    ensures Run(RULES, POLICY, B0, st, [a, b]) == Step(RULES, POLICY, B0, Step(RULES, POLICY, B0, st, a), b)
  {
    hide StoreOk, Step;
    StepKeepsStore(RULES, POLICY, B0, st, a);
    var mid := Step(RULES, POLICY, B0, st, a);
    StepKeepsStore(RULES, POLICY, B0, mid, b);
    assert [a, b][1..] == [b] && [b][1..] == [];
    assert Run(RULES, POLICY, B0, mid, [b]) == Step(RULES, POLICY, B0, mid, b);
  }

  lemma ThirdImport(st: State)
    requires NodeOk(RULES, POLICY, B0, st, UNIVERSE) && st.index.Some? && st.pool == [Z] && st.utxos == U1
    requires st.forks.invalid == {} && st.forks.store.Keys == {Name(10), Name(11)} && st.forks.store[Name(11)].block == B1
    requires Tip(st.forks.store) == Name(11) && Branch(RULES, st.forks.store, Name(11)) == [B0, B1]
    ensures var to := Step(RULES, POLICY, B0, st, Arrival(B2));
            StoreOk(RULES, to.forks.store, B0) && Tip(to.forks.store) == RULES.blockHash(B2) &&
            !Indexable(RULES, st, B2) && to.pool == [Z] && !PoolOk(RULES, POLICY, to.utxos, to.pool)
  {
    hide RULES, POLICY, ChainOk, BlockOk, PassesAtIndex, Independent, Waiting, Rows, AllTxs, Branch, ChainUtxos, BlockAfter, Indexable, Work, IndexOk, StoreOk, DistinctKeys, StateAt, Name, Arrive, CanApply, TipRows, Conflicted;
    HashesOfBlocks();
    Names();
    ThirdBlock();
    BlockOnTip(RULES, POLICY, B0, st, B2);
    IndexableIff(RULES, POLICY, B0, st, B2, UNIVERSE);
    assert [B0, B1] + [B2] == [B0, B1, B2];
    Log();
    LogRows();
    RefusedByIndex(RULES, POLICY, B0, st, B2, UNIVERSE);
    StaleZ();
    assert !Replays(RULES, U2, [Z]);
  }

  // ---- a list that replays and cannot be mined -------------------------------------------------

  lemma SpendW()
    requires Total(U1) == 8
    ensures CanApply(RULES, U1, W) && Fee(U1, W) == 0 && After(RULES, U1, W) == AFTER_W && Total(AFTER_W) == 8
  {
    hide CanApply, Created, RULES, Inputs, Total;
    Names();
    Txids();
    AllProper();
    EffectW();
    ShortSums(U1, W);
    Applies(U1, W);
    assert U1 - {At(2, 0), At(2, 1)} + map[At(3, 0) := Out(4)] == AFTER_W;
    TotalAfter(U1, W);
  }

  const AFTER_W: UtxoMap := map[At(1, 0) := Out(4), At(3, 0) := Out(4)]
  const AFTER_WT: UtxoMap := map[At(3, 0) := Out(4), At(2, 0) := Out(2), At(2, 1) := Out(2)]

  lemma SpendTAfterW()
    requires Total(AFTER_W) == 8
    ensures CanApply(RULES, AFTER_W, T) && After(RULES, AFTER_W, T) == AFTER_WT && Total(AFTER_WT) == 8
  {
    hide CanApply, Created, RULES, Inputs, Total;
    Names();
    Txids();
    AllProper();
    EffectT();
    ShortSums(AFTER_W, T);
    Applies(AFTER_W, T);
    assert AFTER_W - {At(1, 0)} + MADE_T == AFTER_WT;
    TotalAfter(AFTER_W, T);
  }

  lemma SpendZAfterT()
    requires Total(AFTER_WT) == 8
    ensures CanApply(RULES, AFTER_WT, Z)
  {
    hide CanApply, Created, RULES, Inputs, Total;
    Names();
    Txids();
    AllProper();
    EffectZ();
    ShortSums(AFTER_WT, Z);
    Applies(AFTER_WT, Z);
  }

  /** While an output of T is there, T cannot be applied again. */
  lemma TBlocked(u: UtxoMap)
    requires At(2, 1) in u
    ensures !CanApply(RULES, u, T)
  {
    hide RULES, Total;
    Names();
    Txids();
    EffectT();
    assert OutPoint(RULES.txid(T), 1) in u;
  }

  lemma WBlocked()
    ensures !CanApply(RULES, AFTER_Z, W)
  {
    hide CanApply, Created, RULES, Inputs;
    Names();
    Txids();
    EffectW();
    NotThere(AFTER_Z, W, At(2, 0));
  }

  lemma ReplaysInOrder()
    ensures Replays(RULES, U1, [W, T, Z])
  {
    hide RULES, CanApply, After, Replays, Final, Fees, Total;
    SecondBlock();
    SpendW();
    SpendTAfterW();
    SpendZAfterT();
    ReplayCons(RULES, AFTER_WT, Z, []);
    ReplayCons(RULES, AFTER_W, T, [Z]);
    ReplayCons(RULES, U1, W, [T, Z]);
    NothingReplays(After(RULES, AFTER_WT, Z));
    assert [Z] + [] == [Z] && [T] + [Z] == [T, Z] && [W] + [T, Z] == [W, T, Z];
  }

  lemma NothingReplays(u: UtxoMap)
    ensures Replays(RULES, u, [])
  {
  }

  lemma ZIsBest()
    ensures BestOf(RULES, U1, [W, T, Z], 3) == Some(2)
    ensures BestOf(RULES, AFTER_Z, [W, T], 2) == None
  {
    hide CanApply, After, Total, BlockOk, BlockAfter;
    SecondBlock();
    SpendW();
    SpendZ();
    TBlocked(U1);
    TBlocked(AFTER_Z);
    WBlocked();
    assert Higher(ScoreAt(RULES, U1, Z), ScoreAt(RULES, U1, W));
    assert BestOf(RULES, U1, [W, T, Z], 1) == Some(0);
    assert BestOf(RULES, U1, [W, T, Z], 2) == Some(0);
    assert BestOf(RULES, AFTER_Z, [W, T], 1) == None;
  }

  /**
   On two valid blocks that pay out with one coinbase: W, T, Z replay in this order, because
   W spends what T makes a second time. Assembly prefers Z to W and is then stuck: W lacks an
   input, and T may not make again what is still there.
   */
  lemma ReplayingIsNotEnough()
    ensures ChainOk(RULES, [B0, B1]) && ChainUtxos(RULES, [B0, B1]) == U1 && !DistinctCoinbases([B0, B1])
    ensures CollisionFree(RULES, UNIVERSE)
    ensures Replays(RULES, U1, [W, T, Z]) && Greedy(RULES, U1, [W, T, Z]) == None
  {
    hide RULES, ChainOk, ChainUtxos, Replays, BestOf, CanApply, CollisionFree, After, Total;
    UniverseIsCollisionFree();
    TwoBlocks();
    assert [B0, B1][0].transactions[0] == [B0, B1][1].transactions[0];
    ReplaysInOrder();
    ZIsBest();
    SecondBlock();
    SpendZ();
    var pool := [W, T, Z];
    assert Without(pool, 2) == [W, T];
    assert Greedy(RULES, AFTER_Z, [W, T]) == None;
  }
}
