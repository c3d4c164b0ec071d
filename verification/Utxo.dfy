/**
 The spendable-output map and what one transaction does to it.

 `CanApply`, `Fee` and `After` say, without any loop, when `apply_transaction` succeeds,
 what it returns and what it leaves behind.
 */
module Utxo {
  import opened Bytes
  import opened Ledger

  type UtxoMap = map<OutPoint, TxOutput>

  // ---- sums -------------------------------------------------------------------------

  ghost function SumOver(m: UtxoMap, s: set<OutPoint>): int
  {
    if s == {} then 0 else
      var k :| k in s;
      Amount(m, k) + SumOver(m, s - {k})
  }

  ghost function Total(m: UtxoMap): int
  {
    SumOver(m, m.Keys)
  }

  lemma EmptyTotal()
    ensures Total(map[]) == 0
  {
  }

  lemma {:induction false} SumPick(m: UtxoMap, s: set<OutPoint>, k: OutPoint)
    requires k in s
    ensures SumOver(m, s) == Amount(m, k) + SumOver(m, s - {k})
  {
    var p :| p in s && SumOver(m, s) == Amount(m, p) + SumOver(m, s - {p});
    if p != k {
      SumPick(m, s - {p}, k);
      SumPick(m, s - {k}, p);
      assert s - {p} - {k} == s - {k} - {p};
    }
  }

  lemma {:induction false} SumFrame(m: UtxoMap, n: UtxoMap, s: set<OutPoint>)
    requires forall o | o in s :: Amount(m, o) == Amount(n, o)
    ensures SumOver(m, s) == SumOver(n, s)
  {
    if s != {} {
      var k :| k in s;
      SumFrame(m, n, s - {k});
      SumPick(m, s, k);
      SumPick(n, s, k);
    }
  }

  lemma TotalPick(m: UtxoMap, k: OutPoint)
    requires k in m
    ensures Total(m) == m[k].amount + Total(m - {k})
  {
    SumPick(m, m.Keys, k);
    SumFrame(m, m - {k}, m.Keys - {k});
    assert (m - {k}).Keys == m.Keys - {k};
  }

  lemma TotalPut(m: UtxoMap, k: OutPoint, v: TxOutput)
    requires k !in m
    ensures Total(m[k := v]) == Total(m) + v.amount
  {
    TotalPick(m[k := v], k);
    assert m[k := v] - {k} == m;
  }

  function Amount(u: UtxoMap, o: OutPoint): int
  {
    if o in u then u[o].amount else 0
  }

  /** What the first `n` inputs are worth. */
  function InSum(u: UtxoMap, ins: seq<TxInput>, n: nat): int
    requires n <= |ins|
  {
    if n == 0 then 0 else InSum(u, ins, n - 1) + Amount(u, ins[n - 1].previous)
  }

  function InputTotal(u: UtxoMap, ins: seq<TxInput>): int
  {
    InSum(u, ins, |ins|)
  }

  /** What the first `n` outputs are worth. */
  function OutSum(outs: seq<TxOutput>, n: nat): int
    requires n <= |outs|
  {
    if n == 0 then 0 else OutSum(outs, n - 1) + outs[n - 1].amount
  }

  function OutputTotal(outs: seq<TxOutput>): int
  {
    OutSum(outs, |outs|)
  }

  // ---- one transaction --------------------------------------------------------------

  function Created(id: Hash, outs: seq<TxOutput>): UtxoMap
  {
    map i | 0 <= i < |outs| :: OutPoint(id, i) := outs[i]
  }

  lemma CreatedIs(id: Hash, outs: seq<TxOutput>)
    ensures forall o :: o in Created(id, outs) <==> o.txid == id && 0 <= o.index < |outs|
    ensures forall o | o in Created(id, outs) :: Created(id, outs)[o] == outs[o.index]
  {
  }

  predicate DistinctPrevs(ins: seq<TxInput>)
  {
    forall i, j | 0 <= i < j < |ins| :: ins[i].previous != ins[j].previous
  }

  predicate OutputsOk(r: Rules, outs: seq<TxOutput>)
  {
    outs != [] &&
    forall i | 0 <= i < |outs| :: 0 < outs[i].amount <= r.maxMoney && r.validAddress(outs[i].address)
  }

  predicate WitnessOk(r: Rules, tx: Tx, i: nat, spent: TxOutput)
    requires i < |tx.inputs|
  {
    var w := tx.inputs[i];
    w.publicKey.Some? && w.signature.Some? && w.signature.value != [] &&
    r.keyAddress(w.publicKey.value) == Some(spent.address) &&
    r.verify(w.publicKey.value, MessageFor(tx, i), w.signature.value)
  }

  predicate Unsigned(tx: Tx)
  {
    forall i | 0 <= i < |tx.inputs| :: tx.inputs[i].signature.None? && tx.inputs[i].publicKey.None?
  }

  /** The checks that do not look at the spendable outputs. */
  predicate WellShaped(r: Rules, tx: Tx)
  {
    tx.version == 1 && OutputsOk(r, tx.outputs)
  }

  /** Every input is there, is authorised, and the inputs pay for the outputs. */
  predicate Funded(r: Rules, u: UtxoMap, tx: Tx)
  {
    tx.inputs != [] && DistinctPrevs(tx.inputs) &&
    (forall i | 0 <= i < |tx.inputs| :: tx.inputs[i].previous in u && WitnessOk(r, tx, i, u[tx.inputs[i].previous])) &&
    OutputTotal(tx.outputs) <= InputTotal(u, tx.inputs)
  }

  function Spent(tx: Tx): set<OutPoint>
  {
    if IsCoinbase(tx) then {} else Inputs(tx)
  }

  /** No created outpoint is still spendable once the inputs are gone. */
  predicate Fresh(r: Rules, u: UtxoMap, tx: Tx)
  {
    forall i | 0 <= i < |tx.outputs| :: OutPoint(r.txid(tx), i) in u ==> OutPoint(r.txid(tx), i) in Spent(tx)
  }

  function After(r: Rules, u: UtxoMap, tx: Tx): UtxoMap
  {
    (u - Spent(tx)) + Created(r.txid(tx), tx.outputs)
  }

  function Fee(u: UtxoMap, tx: Tx): int
  {
    if IsCoinbase(tx) then 0 else InputTotal(u, tx.inputs) - OutputTotal(tx.outputs)
  }

  ghost predicate CanApply(r: Rules, u: UtxoMap, tx: Tx)
  {
    WellShaped(r, tx) &&
    (if IsCoinbase(tx) then Unsigned(tx) && OutputTotal(tx.outputs) <= r.subsidy else Funded(r, u, tx)) &&
    Fresh(r, u, tx) &&
    Total(After(r, u, tx)) <= r.maxMoney
  }

  // ---- supply -----------------------------------------------------------------------

  lemma {:induction false} TotalMinus(u: UtxoMap, ins: seq<TxInput>, n: nat)
    requires n <= |ins| && DistinctPrevs(ins)
    requires forall i | 0 <= i < |ins| :: ins[i].previous in u
    ensures Total(u - Prevs(ins[..n])) == Total(u) - InSum(u, ins, n)
  {
    if n == 0 {
      assert u - Prevs(ins[..n]) == u;
    } else {
      var last := ins[n - 1].previous;
      TotalMinus(u, ins, n - 1);
      assert Prevs(ins[..n]) == Prevs(ins[..n - 1]) + {last} by {
        assert ins[..n] == ins[..n - 1] + [ins[n - 1]];
      }
      TotalPick(u - Prevs(ins[..n - 1]), last);
      assert u - Prevs(ins[..n - 1]) - {last} == u - Prevs(ins[..n]);
    }
  }

  lemma CreatedSnoc(id: Hash, outs: seq<TxOutput>, n: nat)
    requires 0 < n <= |outs|
    ensures Created(id, outs[..n]) == Created(id, outs[..n - 1])[OutPoint(id, n - 1) := outs[n - 1]]
  {
    CreatedIs(id, outs[..n]);
    CreatedIs(id, outs[..n - 1]);
  }

  lemma PutUnion(u: UtxoMap, a: UtxoMap, k: OutPoint, v: TxOutput)
    ensures (u + a)[k := v] == u + a[k := v]
  {
  }

  lemma {:induction false} TotalPlus(u: UtxoMap, id: Hash, outs: seq<TxOutput>, n: nat)
    requires n <= |outs|
    requires forall i | 0 <= i < |outs| :: OutPoint(id, i) !in u
    ensures Total(u + Created(id, outs[..n])) == Total(u) + OutSum(outs, n)
  {
    if n == 0 {
      assert u + Created(id, outs[..n]) == u;
    } else {
      var a, k := Created(id, outs[..n - 1]), OutPoint(id, n - 1);
      CreatedIs(id, outs[..n - 1]);
      TotalPlus(u, id, outs, n - 1);
      CreatedSnoc(id, outs, n);
      PutUnion(u, a, k, outs[n - 1]);
      TotalPut(u + a, k, outs[n - 1]);
    }
  }

  /** Applying a transaction moves coins and burns its fee; it never makes any. */
  lemma SpendConserves(r: Rules, u: UtxoMap, tx: Tx)
    requires Funded(r, u, tx) && Fresh(r, u, tx) && !IsCoinbase(tx)
    ensures Total(After(r, u, tx)) == Total(u) - Fee(u, tx)
    ensures Fee(u, tx) >= 0
  {
    assert tx.inputs[..|tx.inputs|] == tx.inputs && tx.outputs[..|tx.outputs|] == tx.outputs;
    TotalMinus(u, tx.inputs, |tx.inputs|);
    TotalPlus(u - Inputs(tx), r.txid(tx), tx.outputs, |tx.outputs|);
  }

  /** A coinbase adds exactly what its outputs say. */
  lemma CoinbaseAdds(r: Rules, u: UtxoMap, tx: Tx)
    requires IsCoinbase(tx) && Fresh(r, u, tx)
    ensures Total(After(r, u, tx)) == Total(u) + OutputTotal(tx.outputs)
  {
    assert u - {} == u && tx.outputs[..|tx.outputs|] == tx.outputs;
    TotalPlus(u, r.txid(tx), tx.outputs, |tx.outputs|);
  }

  lemma {:induction false} InSumFrame(u: UtxoMap, v: UtxoMap, ins: seq<TxInput>, n: nat)
    requires n <= |ins|
    requires forall i | 0 <= i < |ins| :: Amount(u, ins[i].previous) == Amount(v, ins[i].previous)
    ensures InSum(u, ins, n) == InSum(v, ins, n)
  {
    if n > 0 {
      InSumFrame(u, v, ins, n - 1);
    }
  }

  /** Two maps agree on the coins that `tx` spends. */
  ghost predicate AgreeOn(u: UtxoMap, v: UtxoMap, s: set<OutPoint>)
  {
    forall o | o in s :: o in u && o in v && u[o] == v[o]
  }

  lemma FundedFrame(r: Rules, u: UtxoMap, v: UtxoMap, tx: Tx)
    requires AgreeOn(u, v, Inputs(tx))
    ensures Funded(r, u, tx) == Funded(r, v, tx)
    ensures Fee(u, tx) == Fee(v, tx)
  {
    forall i | 0 <= i < |tx.inputs|
      ensures tx.inputs[i].previous in u && tx.inputs[i].previous in v && u[tx.inputs[i].previous] == v[tx.inputs[i].previous]
    {
      assert tx.inputs[i].previous in Inputs(tx);
    }
    InSumFrame(u, v, tx.inputs, |tx.inputs|);
  }
}
