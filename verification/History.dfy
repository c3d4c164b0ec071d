/**
 The whole history of a chain: which transactions it contains, what they created and
 what they spent. A chain repeats a txid exactly when it repeats a coinbase. If it does
 not, as when every coinbase carries the index that a node writes, no spend repeats either,
 so created outpoints split exactly into unspent and spent ones and the per-tip spend table
 never sees the same key twice.
 */
module History {
  import opened Bytes
  import opened Ledger
  import opened Utxo
  import opened Replay
  import opened Blocks

  /** One row of the spend table. */
  datatype Spend = Spend(outpoint: OutPoint, spender: Hash, input: nat)

  function RowsOf(r: Rules, tx: Tx): seq<Spend>
  {
    if IsCoinbase(tx) then []
    else seq(|tx.inputs|, i requires 0 <= i < |tx.inputs| => Spend(tx.inputs[i].previous, r.txid(tx), i))
  }

  /** All spends of a transaction list, in order. */
  function Rows(r: Rules, txs: seq<Tx>): seq<Spend>
  {
    if txs == [] then [] else Rows(r, txs[..|txs| - 1]) + RowsOf(r, txs[|txs| - 1])
  }

  function Keys(rows: seq<Spend>): set<OutPoint>
  {
    set i | 0 <= i < |rows| :: rows[i].outpoint
  }

  predicate DistinctKeys(rows: seq<Spend>)
  {
    forall i, j | 0 <= i < j < |rows| :: rows[i].outpoint != rows[j].outpoint
  }

  /** All outpoints that a transaction list creates. */
  function Made(r: Rules, txs: seq<Tx>): set<OutPoint>
  {
    set i, k | 0 <= i < |txs| && 0 <= k < |txs[i].outputs| :: OutPoint(r.txid(txs[i]), k)
  }

  predicate DistinctTxids(r: Rules, txs: seq<Tx>)
  {
    forall i, j | 0 <= i < j < |txs| :: r.txid(txs[i]) != r.txid(txs[j])
  }

  /** The transactions of a chain in the order in which its blocks list them. */
  function AllTxs(blocks: seq<Block>): seq<Tx>
  {
    if blocks == [] then [] else AllTxs(blocks[..|blocks| - 1]) + blocks[|blocks| - 1].transactions
  }

  /** The first input of the block's reward carries the index that `create_coinbase` writes. */
  predicate Tagged(b: Block)
  {
    b.transactions != [] && b.transactions[0].inputs != [] &&
    b.transactions[0].inputs[0].previous.index == -(b.height + 1)
  }

  /** `u` is exactly what `log` made and did not spend, and nothing in `log` repeats. */
  ghost predicate Accounts(r: Rules, u: UtxoMap, log: seq<Tx>)
  {
    DistinctTxids(r, log) && DistinctKeys(Rows(r, log)) &&
    Keys(Rows(r, log)) <= Made(r, log) &&
    u.Keys == Made(r, log) - Keys(Rows(r, log))
  }

  // ---- rows and outpoints of a longer list ------------------------------------------

  lemma KeysAppend(a: seq<Spend>, b: seq<Spend>)
    ensures Keys(a + b) == Keys(a) + Keys(b)
  {
    var rows := a + b;
    forall o | o in Keys(b)
      ensures o in Keys(rows)
    {
      var i :| 0 <= i < |b| && b[i].outpoint == o;
      assert rows[|a| + i] == b[i];
    }
    forall o | o in Keys(a)
      ensures o in Keys(rows)
    {
      var i :| 0 <= i < |a| && a[i].outpoint == o;
      assert rows[i] == a[i];
    }
  }

  lemma RowsSnoc(r: Rules, log: seq<Tx>, t: Tx)
    ensures Rows(r, log + [t]) == Rows(r, log) + RowsOf(r, t)
    ensures Keys(Rows(r, log + [t])) == Keys(Rows(r, log)) + Spent(t)
  {
    var whole := log + [t];
    assert whole[..|whole| - 1] == log;
    var a, b := Rows(r, log), RowsOf(r, t);
    KeysAppend(a, b);
    if !IsCoinbase(t) {
      assert forall i | 0 <= i < |t.inputs| :: b[i].outpoint == t.inputs[i].previous;
    }
  }

  lemma MadeSnoc(r: Rules, log: seq<Tx>, t: Tx)
    ensures Made(r, log + [t]) == Made(r, log) + Created(r.txid(t), t.outputs).Keys
  {
    var whole := log + [t];
    CreatedIs(r.txid(t), t.outputs);
    forall o | o in Created(r.txid(t), t.outputs)
      ensures o in Made(r, whole)
    {
      assert whole[|log|] == t && o == OutPoint(r.txid(t), o.index);
    }
    forall o | o in Made(r, log)
      ensures o in Made(r, whole)
    {
      var i, k :| 0 <= i < |log| && 0 <= k < |log[i].outputs| && o == OutPoint(r.txid(log[i]), k);
      assert whole[i] == log[i];
    }
    forall o | o in Made(r, whole)
      ensures o in Made(r, log) || o in Created(r.txid(t), t.outputs)
    {
      var i, k :| 0 <= i < |whole| && 0 <= k < |whole[i].outputs| && o == OutPoint(r.txid(whole[i]), k);
      if i < |log| {
        assert whole[i] == log[i];
      }
    }
  }

  /** Whatever a transaction of the list spends is among the rows. */
  lemma {:induction false} SpentInRows(r: Rules, log: seq<Tx>, t: Tx)
    requires t in log
    ensures Spent(t) <= Keys(Rows(r, log))
  {
    var n := |log| - 1;
    RowsSnoc(r, log[..n], log[n]);
    assert log == log[..n] + [log[n]];
    if t != log[n] {
      SpentInRows(r, log[..n], t);
    }
  }

  // ---- one more transaction ---------------------------------------------------------

  /** A transaction that is new to the log and spends only what is there keeps the books. */
  lemma AccountsStep(r: Rules, u: UtxoMap, log: seq<Tx>, t: Tx)
    requires Accounts(r, u, log)
    requires forall i | 0 <= i < |log| :: r.txid(log[i]) != r.txid(t)
    requires Spent(t) <= u.Keys && (IsCoinbase(t) || DistinctPrevs(t.inputs))
    ensures Accounts(r, After(r, u, t), log + [t])
  {
    hide Rows, RowsOf, Made, Keys, DistinctKeys;
    RowsSnoc(r, log, t);
    MadeSnoc(r, log, t);
    CreatedIs(r.txid(t), t.outputs);
    var made := Created(r.txid(t), t.outputs);
    assert made.Keys !! Made(r, log) by {
      MadeNames(r, log);
    }
    assert After(r, u, t).Keys == (u.Keys - Spent(t)) + made.Keys;
    RowsStayDistinct(r, Rows(r, log), t);
    var longer := log + [t];
    assert forall i | 0 <= i < |log| :: longer[i] == log[i];
  }

  lemma MadeNames(r: Rules, log: seq<Tx>)
    ensures forall o | o in Made(r, log) :: exists i | 0 <= i < |log| :: r.txid(log[i]) == o.txid
  {
  }

  lemma RowsStayDistinct(r: Rules, a: seq<Spend>, t: Tx)
    requires DistinctKeys(a) && Keys(a) !! Spent(t) && (IsCoinbase(t) || DistinctPrevs(t.inputs))
    ensures DistinctKeys(a + RowsOf(r, t))
  {
    var b := RowsOf(r, t);
    var rows := a + b;
    forall i, j | 0 <= i < j < |rows|
      ensures rows[i].outpoint != rows[j].outpoint
    {
      if j >= |a| {
        assert rows[j] == b[j - |a|] && b[j - |a|].outpoint in Spent(t);
        if i < |a| {
          assert rows[i].outpoint in Keys(a);
        }
      }
    }
  }

  /** A spend that applies cannot be one the log already has. */
  lemma SpendIsNew(r: Rules, u: UtxoMap, log: seq<Tx>, t: Tx, universe: set<Tx>)
    requires Accounts(r, u, log) && CanApply(r, u, t) && !IsCoinbase(t)
    requires CollisionFree(r, universe) && t in universe && forall x | x in log :: x in universe
    ensures forall i | 0 <= i < |log| :: r.txid(log[i]) != r.txid(t)
    ensures Spent(t) <= u.Keys && DistinctPrevs(t.inputs)
  {
    InputsPresent(r, u, t);
    if t in log {
      SpentInRows(r, log, t);
    }
    forall i | 0 <= i < |log|
      ensures r.txid(log[i]) != r.txid(t)
    {
      assert log[i] in log;
    }
  }

  lemma {:induction false} AccountsReplay(r: Rules, u: UtxoMap, log: seq<Tx>, txs: seq<Tx>, universe: set<Tx>)
    requires Accounts(r, u, log) && Replays(r, u, txs)
    requires forall i | 0 <= i < |txs| :: !IsCoinbase(txs[i]) && txs[i] in universe
    requires CollisionFree(r, universe) && forall x | x in log :: x in universe
    ensures Accounts(r, Final(r, u, txs), log + txs)
    decreases |txs|
  {
    hide Accounts, CanApply, After, CollisionFree;
    if txs == [] {
      assert log + txs == log;
    } else {
      SpendIsNew(r, u, log, txs[0], universe);
      AccountsStep(r, u, log, txs[0]);
      AccountsReplay(r, After(r, u, txs[0]), log + [txs[0]], txs[1..], universe);
      assert log + [txs[0]] + txs[1..] == log + txs;
    }
  }

  // ---- the books do not care where in its block the coinbase stands -------------------

  lemma {:induction false} RowsAppend(r: Rules, a: seq<Tx>, b: seq<Tx>)
    ensures Rows(r, a + b) == Rows(r, a) + Rows(r, b)
    decreases |b|
  {
    hide RowsOf, Keys;
    if b == [] {
      assert a + b == a;
    } else {
      var n := |b| - 1;
      RowsAppend(r, a, b[..n]);
      assert a + b == a + b[..n] + [b[n]] && b == b[..n] + [b[n]];
      RowsSnoc(r, a + b[..n], b[n]);
      RowsSnoc(r, b[..n], b[n]);
      assert Rows(r, a) + Rows(r, b[..n]) + RowsOf(r, b[n]) == Rows(r, a) + (Rows(r, b[..n]) + RowsOf(r, b[n]));
    }
  }

  lemma CoinbaseMoves(r: Rules, u: UtxoMap, log: seq<Tx>, txs: seq<Tx>, c: Tx)
    requires Accounts(r, u, log + txs + [c]) && IsCoinbase(c)
    ensures Accounts(r, u, log + ([c] + txs))
  {
    hide Made, Rows, Keys, DistinctKeys, DistinctTxids;
    var a, b := log + txs + [c], log + ([c] + txs);
    CoinbaseHasNoRows(r, log, txs, c);
    assert forall i | 0 <= i < |a| :: a[i] == b[Moved(|log|, |a|, i)];
    MadeSame(r, a, b, |log|);
    TxidsSame(r, a, b, |log|);
  }

  lemma CoinbaseHasNoRows(r: Rules, log: seq<Tx>, txs: seq<Tx>, c: Tx)
    requires IsCoinbase(c)
    ensures Rows(r, log + txs + [c]) == Rows(r, log + ([c] + txs))
  {
    hide Keys, Rows;
    RowsSnoc(r, log + txs, c);
    RowsAppend(r, log, txs);
    RowsAppend(r, log, [c] + txs);
    RowsAppend(r, [c], txs);
    RowsSnoc(r, [], c);
    NoRows(r);
    assert [] + [c] == [c];
  }

  lemma NoRows(r: Rules)
    ensures Rows(r, []) == []
  {
  }

  function Moved(start: nat, n: nat, i: nat): nat
  {
    if i < start then i else if i == n - 1 then start else i + 1
  }

  function Back(start: nat, n: nat, i: nat): nat
    requires n > 0
  {
    if i < start then i else if i == start then n - 1 else i - 1
  }

  lemma MadeSame(r: Rules, a: seq<Tx>, b: seq<Tx>, start: nat)
    requires |a| == |b| && start < |a|
    requires forall i | 0 <= i < |a| :: a[i] == b[Moved(start, |a|, i)]
    ensures Made(r, a) == Made(r, b)
  {
    forall o | o in Made(r, b)
      ensures o in Made(r, a)
    {
      var i, k :| 0 <= i < |b| && 0 <= k < |b[i].outputs| && o == OutPoint(r.txid(b[i]), k);
      assert a[Back(start, |a|, i)] == b[i];
    }
    forall o | o in Made(r, a)
      ensures o in Made(r, b)
    {
      var i, k :| 0 <= i < |a| && 0 <= k < |a[i].outputs| && o == OutPoint(r.txid(a[i]), k);
      assert b[Moved(start, |a|, i)] == a[i];
    }
  }

  lemma TxidsSame(r: Rules, a: seq<Tx>, b: seq<Tx>, start: nat)
    requires |a| == |b| && start < |a| && DistinctTxids(r, a)
    requires forall i | 0 <= i < |a| :: a[i] == b[Moved(start, |a|, i)]
    ensures DistinctTxids(r, b)
  {
    forall i, j | 0 <= i < j < |b|
      ensures r.txid(b[i]) != r.txid(b[j])
    {
      var x, y := Back(start, |a|, i), Back(start, |a|, j);
      assert b[i] == a[x] && b[j] == a[y] && x != y;
    }
  }

  // ---- whole chains -----------------------------------------------------------------

  /**
   A valid block keeps the books exactly when its coinbase is new to them; its spends are
   new in any case.
   */
  lemma AccountsBlock(r: Rules, u: UtxoMap, log: seq<Tx>, b: Block, n: nat, previous: Hash, universe: set<Tx>)
    requires Accounts(r, u, log) && BlockOk(r, u, b, n, previous)
    requires CollisionFree(r, universe) && forall x | x in log + b.transactions :: x in universe
    ensures Accounts(r, BlockAfter(r, u, b), log + b.transactions) <==> b.transactions[0] !in log
  {
    hide Accounts, CanApply, After, Made, Rows;
    if b.transactions[0] in log {
      RepeatedTxid(r, log, b.transactions);
      AccountsDistinct(r, BlockAfter(r, u, b), log + b.transactions);
    } else {
      AccountsNewBlock(r, u, log, b, n, previous, universe);
    }
  }

  lemma AccountsDistinct(r: Rules, u: UtxoMap, log: seq<Tx>)
    ensures Accounts(r, u, log) ==> DistinctTxids(r, log)
  {
  }

  lemma RepeatedTxid(r: Rules, log: seq<Tx>, txs: seq<Tx>)
    requires txs != [] && txs[0] in log
    ensures !DistinctTxids(r, log + txs)
  {
    var i :| 0 <= i < |log| && log[i] == txs[0];
    var whole := log + txs;
    assert whole[i] == log[i] && whole[|log|] == txs[0];
  }

  lemma AccountsNewBlock(r: Rules, u: UtxoMap, log: seq<Tx>, b: Block, n: nat, previous: Hash, universe: set<Tx>)
    requires Accounts(r, u, log) && BlockOk(r, u, b, n, previous) && b.transactions[0] !in log
    requires CollisionFree(r, universe) && forall x | x in log + b.transactions :: x in universe
    ensures Accounts(r, BlockAfter(r, u, b), log + b.transactions)
  {
    hide Accounts, CanApply, After, Made, Rows;
    var c, txs := b.transactions[0], Spends(b);
    assert forall i | 0 <= i < |log| :: (log + b.transactions)[i] == log[i];
    assert forall i | 0 <= i < |b.transactions| :: (log + b.transactions)[|log| + i] == b.transactions[i];
    assert forall i | 0 <= i < |txs| :: txs[i] == b.transactions[i + 1];
    AccountsReplay(r, u, log, txs, universe);
    forall i | 0 <= i < |log + txs|
      ensures r.txid((log + txs)[i]) != r.txid(c)
    {
      var x := (log + txs)[i];
      assert x in universe && c in universe;
      assert x != c;
    }
    AccountsStep(r, Final(r, u, txs), log + txs, c);
    CoinbaseMoves(r, BlockAfter(r, u, b), log, txs, c);
    assert [c] + txs == b.transactions;
  }

  /** No two blocks pay out with the same coinbase transaction. */
  ghost predicate DistinctCoinbases(blocks: seq<Block>)
  {
    forall i, j | 0 <= i < j < |blocks| && blocks[i].transactions != [] && blocks[j].transactions != [] ::
      blocks[i].transactions[0] != blocks[j].transactions[0]
  }

  /** The coinbases of a chain are the first transactions of its blocks. */
  lemma {:induction false} CoinbaseHasBlock(r: Rules, blocks: seq<Block>, c: Tx) returns (i: nat)
    requires ChainOk(r, blocks) && c in AllTxs(blocks) && IsCoinbase(c)
    ensures i < |blocks| && blocks[i].transactions != [] && blocks[i].transactions[0] == c
    ensures forall k | 0 <= k < |blocks| :: blocks[k].transactions != []
  {
    hide ChainUtxos, HeaderOk, Replays, Final;
    var n := |blocks| - 1;
    var b := blocks[n];
    AllHaveTransactions(r, blocks);
    if c in b.transactions {
      i := n;
    } else {
      i := CoinbaseHasBlock(r, blocks[..n], c);
    }
  }

  lemma {:induction false} AllHaveTransactions(r: Rules, blocks: seq<Block>)
    requires ChainOk(r, blocks)
    ensures forall k | 0 <= k < |blocks| :: blocks[k].transactions != [] && blocks[k].height == k && IsCoinbase(blocks[k].transactions[0])
  {
    hide ChainUtxos, BlockOk, IsCoinbase;
    if blocks != [] {
      var n := |blocks| - 1;
      AllHaveTransactions(r, blocks[..n]);
      BlockStarts(r, ChainUtxos(r, blocks[..n]), blocks[n], n, TipHash(r, blocks[..n]));
      assert forall k | 0 <= k < n :: blocks[k] == blocks[..n][k];
    }
  }

  lemma BlockStarts(r: Rules, u: UtxoMap, b: Block, height: int, previous: Hash)
    requires BlockOk(r, u, b, height, previous)
    ensures b.height == height && b.transactions != [] && IsCoinbase(b.transactions[0])
  {
  }

  lemma {:induction false} FirstIsLogged(blocks: seq<Block>, i: nat)
    requires i < |blocks| && blocks[i].transactions != []
    ensures blocks[i].transactions[0] in AllTxs(blocks)
  {
    var n := |blocks| - 1;
    if i < n {
      assert blocks[..n][i] == blocks[i];
      FirstIsLogged(blocks[..n], i);
    }
  }

  lemma TxidsPrefix(r: Rules, log: seq<Tx>, more: seq<Tx>)
    requires DistinctTxids(r, log + more)
    ensures DistinctTxids(r, log)
  {
    var whole := log + more;
    assert forall i | 0 <= i < |log| :: whole[i] == log[i];
  }

  /** If nothing on a list of blocks repeats, no coinbase does. */
  lemma {:induction false} DistinctTxidsAll(r: Rules, blocks: seq<Block>)
    requires DistinctTxids(r, AllTxs(blocks))
    ensures DistinctCoinbases(blocks)
  {
    if blocks != [] {
      var n := |blocks| - 1;
      var log, b := AllTxs(blocks[..n]), blocks[n];
      TxidsPrefix(r, log, b.transactions);
      DistinctTxidsAll(r, blocks[..n]);
      forall i | 0 <= i < n && blocks[i].transactions != [] && b.transactions != []
        ensures blocks[i].transactions[0] != b.transactions[0]
      {
        assert blocks[..n][i] == blocks[i];
        FirstIsLogged(blocks[..n], i);
        if b.transactions[0] in log {
          RepeatedTxid(r, log, b.transactions);
        }
      }
      assert forall i | 0 <= i < n :: blocks[..n][i] == blocks[i];
    }
  }

  /**
   On every replayed chain these three say the same: no coinbase repeats; no txid repeats;
   all txids are distinct, no outpoint is spent twice, and the outpoints ever made are
   exactly the unspent ones and the spent ones.
   */
  lemma ChainAccounts(r: Rules, blocks: seq<Block>, universe: set<Tx>)
    requires ChainOk(r, blocks)
    requires CollisionFree(r, universe) && forall x | x in AllTxs(blocks) :: x in universe
    ensures Accounts(r, ChainUtxos(r, blocks), AllTxs(blocks)) <==> DistinctCoinbases(blocks)
    ensures DistinctTxids(r, AllTxs(blocks)) <==> DistinctCoinbases(blocks)
  {
    hide ChainOk, CollisionFree, AllTxs, ChainUtxos, DistinctCoinbases, DistinctTxids, DistinctKeys;
    if DistinctCoinbases(blocks) {
      ChainOnceAccounts(r, blocks, universe);
    }
    if DistinctTxids(r, AllTxs(blocks)) {
      DistinctTxidsAll(r, blocks);
    }
  }

  lemma {:induction false} ChainOnceAccounts(r: Rules, blocks: seq<Block>, universe: set<Tx>)
    requires ChainOk(r, blocks) && DistinctCoinbases(blocks)
    requires CollisionFree(r, universe) && forall x | x in AllTxs(blocks) :: x in universe
    ensures Accounts(r, ChainUtxos(r, blocks), AllTxs(blocks))
  {
    hide BlockOk, BlockAfter, Accounts;
    if blocks == [] {
      NothingAccounts(r);
    } else {
      var n := |blocks| - 1;
      var below, b := blocks[..n], blocks[n];
      ChainOnceAccounts(r, below, universe);
      AllHaveTransactions(r, blocks);
      if b.transactions[0] in AllTxs(below) {
        var i := CoinbaseHasBlock(r, below, b.transactions[0]);
        assert false;
      }
      AccountsBlock(r, ChainUtxos(r, below), AllTxs(below), b, n, TipHash(r, below), universe);
    }
  }

  /** The index that a node writes tells the coinbases of a chain apart. */
  lemma TagsAreDistinct(r: Rules, blocks: seq<Block>)
    requires ChainOk(r, blocks) && forall i | 0 <= i < |blocks| :: Tagged(blocks[i])
    ensures DistinctCoinbases(blocks)
  {
    hide ChainOk;
    AllHaveTransactions(r, blocks);
    forall i, j | 0 <= i < j < |blocks|
      ensures blocks[i].transactions[0] != blocks[j].transactions[0]
    {
      assert Tagged(blocks[i]) && Tagged(blocks[j]);
    }
  }

  lemma NothingAccounts(r: Rules)
    ensures Accounts(r, map[], [])
  {
  }
}
