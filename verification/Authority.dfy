/**
 Who may spend, said without the validation rules themselves: an output of a chain leaves the
 spendable outputs only by a transaction that carries a key of its address and a signature
 under that key over what the transaction does.
 */
module Authority {
  import opened Bytes
  import opened Ledger
  import opened Utxo
  import opened Replay
  import opened Consensus
  import opened Blocks
  import opened History

  /** Input `i` of `t` spends `o` with a key that owns `out` and a signature that verifies under it. */
  ghost predicate SignsFor(r: Rules, t: Tx, i: nat, o: OutPoint, out: TxOutput)
  {
    i < |t.inputs| && t.inputs[i].previous == o &&
    exists k: PublicKey, s: Text ::
      t.inputs[i].publicKey == Some(k) && t.inputs[i].signature == Some(s) && s != [] &&
      r.keyAddress(k) == Some(out.address) && r.verify(k, MessageFor(t, i), s)
  }

  /** What is signed is exactly which input signs, all outpoints, all outputs and the version. */
  lemma MessageCommits(a: Tx, i: nat, b: Tx, j: nat)
    ensures MessageFor(a, i) == MessageFor(b, j) <==>
            i == j && a.version == b.version && a.outputs == b.outputs && |a.inputs| == |b.inputs| &&
            forall k | 0 <= k < |a.inputs| :: a.inputs[k].previous == b.inputs[k].previous
  {
    var x, y := MessageFor(a, i).inputs, MessageFor(b, j).inputs;
    assert forall k | 0 <= k < |a.inputs| :: x[k] == a.inputs[k].previous;
    assert forall k | 0 <= k < |b.inputs| :: y[k] == b.inputs[k].previous;
  }

  // ---- one spend ------------------------------------------------------------------------

  /** In full: when a spend applies. The cap on the supply takes care of itself. */
  lemma SpendAppliesIff(r: Rules, u: UtxoMap, t: Tx)
    requires !IsCoinbase(t) && Total(u) <= r.maxMoney
    ensures CanApply(r, u, t) <==>
            t.version == 1 && t.inputs != [] && t.outputs != [] &&
            (forall i | 0 <= i < |t.outputs| :: 0 < t.outputs[i].amount <= r.maxMoney && r.validAddress(t.outputs[i].address)) &&
            (forall i, j | 0 <= i < j < |t.inputs| :: t.inputs[i].previous != t.inputs[j].previous) &&
            (forall i | 0 <= i < |t.inputs| ::
               t.inputs[i].previous in u && SignsFor(r, t, i, t.inputs[i].previous, u[t.inputs[i].previous])) &&
            OutputTotal(t.outputs) <= InputTotal(u, t.inputs) &&
            (forall i | 0 <= i < |t.outputs| :: OutPoint(r.txid(t), i) in u ==> OutPoint(r.txid(t), i) in Inputs(t))
  {
    hide OutputTotal, InputTotal, Total;
    if WellShaped(r, t) && Funded(r, u, t) && Fresh(r, u, t) {
      SpendConserves(r, u, t);
    }
  }

  /** A spend that applies carries, for each of its inputs, a key of the owner and a signature. */
  lemma SpendIsSigned(r: Rules, u: UtxoMap, t: Tx, i: nat)
    requires CanApply(r, u, t) && !IsCoinbase(t) && i < |t.inputs|
    ensures t.inputs[i].previous in u && SignsFor(r, t, i, t.inputs[i].previous, u[t.inputs[i].previous])
  {
    hide Total, OutputTotal, InputTotal;
    assert WitnessOk(r, t, i, u[t.inputs[i].previous]);
  }

  /** An applied transaction leaves an output as it is, or has it signed away. */
  lemma SpendLeaves(r: Rules, u: UtxoMap, t: Tx, o: OutPoint)
    requires CanApply(r, u, t) && !IsCoinbase(t) && o in u
    ensures (o in After(r, u, t) && After(r, u, t)[o] == u[o]) || exists i :: SignsFor(r, t, i, o, u[o])
  {
    hide Total, OutputTotal, InputTotal, SignsFor;
    CreatedIs(r.txid(t), t.outputs);
    if o in Inputs(t) {
      var i :| 0 <= i < |t.inputs| && t.inputs[i].previous == o;
      SpendIsSigned(r, u, t, i);
    } else {
      assert o in Created(r.txid(t), t.outputs) ==> o == OutPoint(r.txid(t), o.index);
    }
  }

  /** Some transaction of the list signs the output away. */
  ghost predicate SignedAway(r: Rules, txs: seq<Tx>, o: OutPoint, out: TxOutput)
  {
    exists j, i :: 0 <= j < |txs| && !IsCoinbase(txs[j]) && SignsFor(r, txs[j], i, o, out)
  }

  lemma {:induction false} ListLeaves(r: Rules, u: UtxoMap, txs: seq<Tx>, o: OutPoint)
    requires Replays(r, u, txs) && o in u && forall j | 0 <= j < |txs| :: !IsCoinbase(txs[j])
    ensures (o in Final(r, u, txs) && Final(r, u, txs)[o] == u[o]) || SignedAway(r, txs, o, u[o])
    decreases |txs|
  {
    hide CanApply, After, SignsFor, IsCoinbase;
    if txs != [] {
      SpendLeaves(r, u, txs[0], o);
      var v, rest := After(r, u, txs[0]), txs[1..];
      if o in v && v[o] == u[o] {
        ListLeaves(r, v, rest, o);
        if SignedAway(r, rest, o, u[o]) {
          var j, i :| 0 <= j < |rest| && !IsCoinbase(rest[j]) && SignsFor(r, rest[j], i, o, u[o]);
          assert txs[j + 1] == rest[j];
        }
      }
    }
  }

  /** Every spend of a replayed list, pool or block, is signed for at its own place. */
  lemma {:induction false} ListIsSigned(r: Rules, u: UtxoMap, txs: seq<Tx>, j: nat, i: nat)
    requires Replays(r, u, txs) && j < |txs| && !IsCoinbase(txs[j]) && i < |txs[j].inputs|
    ensures var v, o := Final(r, u, txs[..j]), txs[j].inputs[i].previous;
            o in v && SignsFor(r, txs[j], i, o, v[o])
  {
    hide CanApply, SignsFor, IsCoinbase, After;
    assert txs == txs[..j] + txs[j..] && txs[j..][0] == txs[j];
    ReplayAppend(r, u, txs[..j], txs[j..]);
    SpendIsSigned(r, Final(r, u, txs[..j]), txs[j], i);
  }

  // ---- whole chains -----------------------------------------------------------------------

  /**
   On every replayed chain, every input of every transaction after its block's coinbase names
   an output that is spendable at that point, with a key that owns it and a signature of that
   key over the transaction.
   */
  lemma ChainIsSigned(r: Rules, blocks: seq<Block>, n: nat, j: nat, i: nat)
    requires ChainOk(r, blocks) && n < |blocks|
    requires 1 <= j < |blocks[n].transactions| && i < |blocks[n].transactions[j].inputs|
    ensures blocks[n].transactions != []
    ensures var t := blocks[n].transactions[j];
            var v := Final(r, ChainUtxos(r, blocks[..n]), blocks[n].transactions[1..j]);
            t.inputs[i].previous in v && SignsFor(r, t, i, t.inputs[i].previous, v[t.inputs[i].previous])
  {
    hide SignsFor, ChainUtxos, CanMint, HeaderOk, Final, Replays;
    ChainPrefix(r, blocks, n + 1);
    ChainSnoc(r, blocks, n);
    var txs := Spends(blocks[n]);
    assert txs[j - 1] == blocks[n].transactions[j] && txs[..j - 1] == blocks[n].transactions[1..j];
    ListIsSigned(r, ChainUtxos(r, blocks[..n]), txs, j - 1, i);
  }

  lemma BlockLeaves(r: Rules, u: UtxoMap, b: Block, height: int, previous: Hash, o: OutPoint)
    requires BlockOk(r, u, b, height, previous) && o in u
    ensures (o in BlockAfter(r, u, b) && BlockAfter(r, u, b)[o] == u[o]) || SignedAway(r, b.transactions, o, u[o])
  {
    hide SignsFor, HeaderOk, IsCoinbase, Total, OutputTotal, Final, Replays;
    var c, txs := b.transactions[0], Spends(b);
    assert forall j | 0 <= j < |txs| :: txs[j] == b.transactions[j + 1];
    ListLeaves(r, u, txs, o);
    if SignedAway(r, txs, o, u[o]) {
      var j, i :| 0 <= j < |txs| && !IsCoinbase(txs[j]) && SignsFor(r, txs[j], i, o, u[o]);
      assert b.transactions[j + 1] == txs[j];
    } else {
      var v := Final(r, u, txs);
      CreatedIs(r.txid(c), c.outputs);
      assert o in Created(r.txid(c), c.outputs) ==> o == OutPoint(r.txid(c), o.index);
    }
  }

  /**
   However a chain goes on, an output that was spendable still is, unchanged, or a
   transaction in between carries its owner's signature over spending it.
   */
  lemma {:induction false} OwnerDecides(r: Rules, blocks: seq<Block>, n: nat, o: OutPoint)
    requires ChainOk(r, blocks) && n <= |blocks| && o in ChainUtxos(r, blocks[..n])
    ensures var out := ChainUtxos(r, blocks[..n])[o];
            (o in ChainUtxos(r, blocks) && ChainUtxos(r, blocks)[o] == out) ||
            exists m :: n <= m < |blocks| && SignedAway(r, blocks[m].transactions, o, out)
    decreases |blocks|
  {
    hide BlockOk, BlockAfter, SignedAway;
    if n == |blocks| {
      assert blocks[..n] == blocks;
    } else {
      var k := |blocks| - 1;
      var below, out := blocks[..k], ChainUtxos(r, blocks[..n])[o];
      assert below[..n] == blocks[..n];
      OwnerDecides(r, below, n, o);
      if m :| n <= m < |below| && SignedAway(r, below[m].transactions, o, out) {
        assert blocks[m] == below[m];
      } else {
        BlockLeaves(r, ChainUtxos(r, below), blocks[k], k, TipHash(r, below), o);
        BlockStarts(r, ChainUtxos(r, below), blocks[k], k, TipHash(r, below));
      }
    }
  }

  /** No key of the address ever has a signature that verifies. */
  ghost predicate Lost(r: Rules, address: Text)
  {
    forall k, m, s | r.keyAddress(k) == Some(address) :: !r.verify(k, m, s)
  }

  /** An output to an address that nobody can sign for stays spendable in every extension of the chain. */
  lemma LostCoinsStay(r: Rules, blocks: seq<Block>, n: nat, o: OutPoint)
    requires ChainOk(r, blocks) && n <= |blocks| && o in ChainUtxos(r, blocks[..n])
    requires Lost(r, ChainUtxos(r, blocks[..n])[o].address)
    ensures o in ChainUtxos(r, blocks) && ChainUtxos(r, blocks)[o] == ChainUtxos(r, blocks[..n])[o]
  {
    hide ChainOk, ChainUtxos;
    OwnerDecides(r, blocks, n, o);
  }

  // ---- what every transaction and every block of a chain looks like -------------------------

  /** Version, outputs and witnesses of a transaction on a chain. */
  ghost predicate WellFormed(r: Rules, t: Tx)
  {
    t.version == 1 && t.inputs != [] && t.outputs != [] &&
    (forall i | 0 <= i < |t.outputs| :: 0 < t.outputs[i].amount <= r.maxMoney && r.validAddress(t.outputs[i].address)) &&
    (forall i, j | 0 <= i < j < |t.inputs| :: t.inputs[i].previous != t.inputs[j].previous) &&
    (forall i | 0 <= i < |t.inputs| ::
       if IsCoinbase(t) then t.inputs[i].signature.None? && t.inputs[i].publicKey.None?
       else t.inputs[i].signature.Some? && t.inputs[i].publicKey.Some?)
  }

  lemma {:induction false} ListIsWellFormed(r: Rules, u: UtxoMap, txs: seq<Tx>)
    requires Replays(r, u, txs) && forall j | 0 <= j < |txs| :: !IsCoinbase(txs[j])
    ensures forall j | 0 <= j < |txs| :: WellFormed(r, txs[j])
    decreases |txs|
  {
    hide After, Total, OutputTotal, InputTotal, IsCoinbase;
    if txs != [] {
      var v, rest := After(r, u, txs[0]), txs[1..];
      ListIsWellFormed(r, v, rest);
      forall i | 0 <= i < |txs[0].inputs|
        ensures txs[0].inputs[i].signature.Some? && txs[0].inputs[i].publicKey.Some?
      {
        SpendIsSigned(r, u, txs[0], i);
      }
      assert forall j | 1 <= j < |txs| :: txs[j] == rest[j - 1];
    }
  }

  /**
   Every block of a replayed chain names its height and its predecessor, commits to its
   transactions, meets its own difficulty, and holds well-formed transactions of which the
   first, and only the first, mints.
   */
  lemma BlockOfChain(r: Rules, blocks: seq<Block>, n: nat)
    requires ChainOk(r, blocks) && n < |blocks|
    ensures var b := blocks[n];
            b.version == 1 && b.height == n &&
            b.previousHash == (if n == 0 then ZERO_HASH else r.blockHash(blocks[n - 1])) &&
            b.transactionRoot == r.merkleRoot(b.transactions) &&
            b.difficulty >= 0 && LeadingZeros(r.blockHash(b), b.difficulty) &&
            b.transactions != [] && (forall j | 0 <= j < |b.transactions| :: IsCoinbase(b.transactions[j]) <==> j == 0) &&
            forall j | 0 <= j < |b.transactions| :: WellFormed(r, b.transactions[j])
  {
    hide ChainUtxos, LeadingZeros, BlockOk, BlockAfter, ChainOk, IsCoinbase, WellFormed;
    ChainPrefix(r, blocks, n + 1);
    ChainSnoc(r, blocks, n);
    BlockIs(r, ChainUtxos(r, blocks[..n]), blocks[n], n, TipHash(r, blocks[..n]));
  }

  lemma BlockIs(r: Rules, u: UtxoMap, b: Block, height: int, previous: Hash)
    requires BlockOk(r, u, b, height, previous)
    ensures b.version == 1 && b.height == height && b.previousHash == previous
    ensures b.transactionRoot == r.merkleRoot(b.transactions) && b.difficulty >= 0 && LeadingZeros(r.blockHash(b), b.difficulty)
    ensures b.transactions != [] && forall j | 0 <= j < |b.transactions| :: IsCoinbase(b.transactions[j]) <==> j == 0
    ensures forall j | 0 <= j < |b.transactions| :: WellFormed(r, b.transactions[j])
  {
    hide LeadingZeros, Replays, Final, Fresh, After, Total, OutputTotal, IsCoinbase, WellFormed, Allowance;
    var txs := Spends(b);
    assert forall j | 0 <= j < |txs| :: txs[j] == b.transactions[j + 1];
    ListIsWellFormed(r, u, txs);
    CoinbaseIsWellFormed(r, b.transactions[0]);
    forall j | 0 <= j < |b.transactions|
      ensures WellFormed(r, b.transactions[j])
    {
      if j > 0 {
        assert b.transactions[j] == txs[j - 1];
      }
    }
  }

  lemma CoinbaseIsWellFormed(r: Rules, c: Tx)
    requires CoinbaseShape(r, c)
    ensures WellFormed(r, c)
  {
  }
}
