/**
 Blocks that the node builds itself: the assembled pool under a coinbase that collects the
 fees. Mining only changes the nonce, so the statements hold for every nonce whose hash
 meets the difficulty.
 */
module Mining {
  import opened Bytes
  import opened Ledger
  import opened Utxo
  import opened Replay
  import opened Consensus
  import opened Blocks
  import opened Assembly

  /** Every spendable output is worth something. */
  ghost predicate Positive(u: UtxoMap)
  {
    forall o | o in u :: u[o].amount > 0
  }

  lemma {:induction false} CoinsNonNegative(u: UtxoMap, s: set<OutPoint>)
    requires Positive(u)
    ensures SumOver(u, s) >= 0
  {
    if s != {} {
      var k :| k in s;
      SumPick(u, s, k);
      CoinsNonNegative(u, s - {k});
    }
  }

  lemma PositiveAfter(r: Rules, u: UtxoMap, t: Tx)
    requires Positive(u) && OutputsOk(r, t.outputs)
    ensures Positive(After(r, u, t))
  {
    CreatedIs(r.txid(t), t.outputs);
  }

  lemma {:induction false} PositiveFinal(r: Rules, u: UtxoMap, txs: seq<Tx>)
    requires Positive(u) && Replays(r, u, txs)
    ensures Positive(Final(r, u, txs))
    decreases |txs|
  {
    hide After, Positive;
    if txs != [] {
      PositiveAfter(r, u, txs[0]);
      PositiveFinal(r, After(r, u, txs[0]), txs[1..]);
    }
  }

  lemma {:induction false} PositiveChain(r: Rules, blocks: seq<Block>)
    requires ChainOk(r, blocks)
    ensures Positive(ChainUtxos(r, blocks))
  {
    hide After, HeaderOk;
    if blocks != [] {
      var n := |blocks| - 1;
      var u := ChainUtxos(r, blocks[..n]);
      PositiveChain(r, blocks[..n]);
      PositiveFinal(r, u, Spends(blocks[n]));
      PositiveAfter(r, Final(r, u, Spends(blocks[n])), blocks[n].transactions[0]);
    }
  }

  /** The fees of a replayable pool never exceed what is there to spend. */
  lemma FeesWithinSupply(r: Rules, u: UtxoMap, pool: seq<Tx>)
    requires Positive(u) && Independent(r, pool) && Replays(r, u, pool)
    ensures 0 <= Sum(Fees(r, u, pool)) <= Total(u)
  {
    ReplayConserves(r, u, pool);
    SumNonNegative(Fees(r, u, pool));
    PositiveFinal(r, u, pool);
    CoinsNonNegative(Final(r, u, pool), Final(r, u, pool).Keys);
  }

  /** The block that `build_candidate_block` returns, at some timestamp and nonce. */
  function Candidate(r: Rules, miner: Text, order: seq<Tx>, fees: int, height: nat, previous: Hash,
                     difficulty: int, stamp: Stamp, nonce: int): Block
  {
    var txs := [CoinbaseFor(r, miner, fees, height)] + order;
    Block(1, height, previous, r.merkleRoot(txs), difficulty, stamp, nonce, txs)
  }

  /** The reward of a built block is accepted exactly when the cap leaves room for the subsidy. */
  lemma RewardFits(r: Rules, u: UtxoMap, v: UtxoMap, miner: Text, fees: int, height: nat)
    requires Positive(v) && r.validAddress(miner) && 0 <= fees && r.subsidy + fees > 0
    requires Total(v) == Total(u) - fees
    requires OutPoint(r.txid(CoinbaseFor(r, miner, fees, height)), 0) !in v
    ensures CanMint(r, v, CoinbaseFor(r, miner, fees, height), Some(r.subsidy + fees)) <==> Total(u) + r.subsidy <= r.maxMoney
  {
    var c := CoinbaseFor(r, miner, fees, height);
    assert OutputTotal(c.outputs) == r.subsidy + fees by {
      assert OutSum(c.outputs, 0) == 0 && OutSum(c.outputs, 1) == c.outputs[0].amount;
    }
    CoinbaseAdds(r, v, c);
    CoinsNonNegative(v, v.Keys);
  }

  /**
   A block built from a replayable pool on a non-empty chain and mined passes block
   validation exactly when the active supply plus the subsidy is within the cap.
   */
  lemma BuiltBlockIsValid(r: Rules, u: UtxoMap, pool: seq<Tx>, miner: Text, height: nat, previous: Hash,
                          difficulty: nat, stamp: Stamp, nonce: int)
    requires Positive(u) && Independent(r, pool) && Replays(r, u, pool)
    requires r.validAddress(miner) && height > 0
    requires r.subsidy + Sum(Fees(r, u, pool)) > 0
    requires OutPoint(r.txid(CoinbaseFor(r, miner, Sum(Fees(r, u, pool)), height)), 0) !in Final(r, u, pool)
    ensures Greedy(r, u, pool).Some?
    ensures var b := Candidate(r, miner, Greedy(r, u, pool).value, Sum(Fees(r, u, pool)), height, previous, difficulty, stamp, nonce);
            LeadingZeros(r.blockHash(b), difficulty) ==>
              (BlockOk(r, u, b, height, previous) <==> Total(u) + r.subsidy <= r.maxMoney)
  {
    hide Replays, Greedy, Final, Fees, LeadingZeros, CanMint, Positive, Total, Sum;
    GreedyTakesAll(r, u, pool);
    FeesWithinSupply(r, u, pool);
    var order, fees := Greedy(r, u, pool).value, Sum(Fees(r, u, pool));
    var b := Candidate(r, miner, order, fees, height, previous, difficulty, stamp, nonce);
    assert Spends(b) == order;
    SpendsOnly(r, pool, order);
    ReplayConserves(r, u, pool);
    PositiveFinal(r, u, pool);
    RewardFits(r, u, Final(r, u, pool), miner, fees, height);
    assert CoinbaseFirst(b);
  }

  lemma SpendsOnly(r: Rules, pool: seq<Tx>, order: seq<Tx>)
    requires Independent(r, pool) && multiset(order) == multiset(pool)
    ensures forall i | 0 <= i < |order| :: !IsCoinbase(order[i])
  {
    forall i | 0 <= i < |order|
      ensures !IsCoinbase(order[i])
    {
      assert order[i] in multiset(order);
      var j :| 0 <= j < |pool| && pool[j] == order[i];
    }
  }

  /**
   What a built block does: it holds every pooled transaction once, its coinbase carries the
   height and pays the subsidy and all fees to the miner in one output, and where it is valid
   the supply grows by exactly the subsidy.
   */
  lemma BuiltBlockPays(r: Rules, u: UtxoMap, pool: seq<Tx>, miner: Text, height: nat, previous: Hash,
                       difficulty: nat, stamp: Stamp, nonce: int)
    requires Independent(r, pool) && Replays(r, u, pool)
    ensures Greedy(r, u, pool).Some?
    ensures var fees := Sum(Fees(r, u, pool));
            var b := Candidate(r, miner, Greedy(r, u, pool).value, fees, height, previous, difficulty, stamp, nonce);
            multiset(b.transactions[1..]) == multiset(pool) &&
            b.transactions[0].outputs == [TxOutput(r.subsidy + fees, miner)] &&
            b.transactions[0].inputs == [TxInput(OutPoint(ZERO_HASH, -(height + 1)), None, None)] &&
            (BlockOk(r, u, b, height, previous) ==>
               Total(BlockAfter(r, u, b)) == Total(u) + r.subsidy &&
               BlockAfter(r, u, b) == After(r, Final(r, u, pool), b.transactions[0]))
  {
    hide Replays, Greedy, Final, Fees, LeadingZeros, CanMint, Total, Sum, After, HeaderOk;
    GreedyTakesAll(r, u, pool);
    var order, fees := Greedy(r, u, pool).value, Sum(Fees(r, u, pool));
    var b := Candidate(r, miner, order, fees, height, previous, difficulty, stamp, nonce);
    assert Spends(b) == order;
    assert OutputTotal(b.transactions[0].outputs) == r.subsidy + fees by {
      var outs := b.transactions[0].outputs;
      assert OutSum(outs, 0) == 0 && OutSum(outs, 1) == outs[0].amount;
    }
    if BlockOk(r, u, b, height, previous) {
      BlockSupply(r, u, b, height, previous);
    }
  }
}
