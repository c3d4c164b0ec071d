/**
 `UTXOSet` and `ConsensusState`: the objects that check and apply one transaction,
 proved to do exactly what `CanApply`, `Fee` and `After` say.
 */
module Consensus {
  import opened Bytes
  import opened Ledger
  import opened Replay
  import opened Utxo

  datatype Result<+T> = Ok(value: T) | Err(error: string)

  class UtxoSet {
    var entries: UtxoMap

    constructor (initial: UtxoMap)
      ensures entries == initial
    {
      entries := initial;
    }

    method Add(o: OutPoint, output: TxOutput) returns (res: Result<()>)
      modifies this
      ensures res.Ok? <==> o !in old(entries)
      ensures entries == if res.Ok? then old(entries)[o := output] else old(entries)
    {
      if o in entries {
        return Err("duplicate utxo");
      }
      entries := entries[o := output];
      return Ok(());
    }

    method Spend(o: OutPoint) returns (res: Result<TxOutput>)
      modifies this
      ensures res.Ok? <==> o in old(entries)
      ensures res.Ok? ==> res.value == old(entries)[o]
      ensures entries == old(entries) - {o}
    {
      if o !in entries {
        assert entries - {o} == entries;
        return Err("missing or already spent output");
      }
      res := Ok(entries[o]);
      entries := entries - {o};
    }

    method Sum() returns (total: int)
      ensures total == Total(entries)
    {
      total := 0;
      var rest := entries.Keys;
      while rest != {}
        invariant rest <= entries.Keys
        invariant total + SumOver(entries, rest) == Total(entries)
        decreases rest
      {
        var k :| k in rest;
        SumPick(entries, rest, k);
        total := total + entries[k].amount;
        rest := rest - {k};
      }
    }

    /** Adds the outputs of a transaction one by one. */
    method AddOutputs(id: Hash, outs: seq<TxOutput>) returns (res: Result<()>)
      modifies this
      ensures res.Ok? <==> forall i | 0 <= i < |outs| :: OutPoint(id, i) !in old(entries)
      ensures res.Ok? ==> entries == old(entries) + Created(id, outs)
    {
      var i := 0;
      assert old(entries) + Created(id, outs[..0]) == old(entries);
      while i < |outs|
        invariant 0 <= i <= |outs|
        invariant forall k | 0 <= k < i :: OutPoint(id, k) !in old(entries)
        invariant entries == old(entries) + Created(id, outs[..i])
      {
        CreatedIs(id, outs[..i]);
        CreatedSnoc(id, outs, i + 1);
        PutUnion(old(entries), Created(id, outs[..i]), OutPoint(id, i), outs[i]);
        var added := Add(OutPoint(id, i), outs[i]);
        if added.Err? {
          return added;
        }
        i := i + 1;
      }
      assert outs[..i] == outs;
      return Ok(());
    }

    /** Removes the inputs of a transaction one by one. */
    method SpendInputs(ins: seq<TxInput>) returns (res: Result<()>)
      requires DistinctPrevs(ins)
      modifies this
      ensures res.Ok? <==> Prevs(ins) <= old(entries).Keys
      ensures res.Ok? ==> entries == old(entries) - Prevs(ins)
    {
      var i := 0;
      assert Prevs(ins[..0]) == {};
      assert old(entries) - {} == old(entries);
      while i < |ins|
        invariant 0 <= i <= |ins|
        invariant Prevs(ins[..i]) <= old(entries).Keys
        invariant entries == old(entries) - Prevs(ins[..i])
      {
        PrevsSnoc(ins, i);
        var spent := Spend(ins[i].previous);
        if spent.Err? {
          assert ins[i].previous in Prevs(ins);
          return Err(spent.error);
        }
        assert entries == old(entries) - Prevs(ins[..i + 1]);
        i := i + 1;
      }
      assert ins[..i] == ins;
      return Ok(());
    }
  }

  lemma NoPrevs(ins: seq<TxInput>)
    ensures Prevs(ins[..0]) == {}
  {
  }

  lemma PrevsGrow(ins: seq<TxInput>, i: nat)
    requires i < |ins|
    ensures Prevs(ins[..i + 1]) == Prevs(ins[..i]) + {ins[i].previous}
    ensures ins[i].previous in Prevs(ins[..i]) <==> exists k | 0 <= k < i :: ins[k].previous == ins[i].previous
  {
    assert ins[..i + 1] == ins[..i] + [ins[i]];
    assert forall k | 0 <= k < i :: ins[..i][k] == ins[k];
  }

  lemma PrevsSnoc(ins: seq<TxInput>, i: nat)
    requires i < |ins| && DistinctPrevs(ins)
    ensures Prevs(ins[..i + 1]) == Prevs(ins[..i]) + {ins[i].previous}
    ensures ins[i].previous !in Prevs(ins[..i])
  {
    assert ins[..i + 1] == ins[..i] + [ins[i]];
  }

  /** What every coinbase rule checks besides the amount it may pay. */
  predicate CoinbaseShape(r: Rules, tx: Tx)
  {
    WellShaped(r, tx) && IsCoinbase(tx) && Unsigned(tx)
  }

  /** When a block's reward is accepted: at most `allowed` coins, no clash, within the cap. */
  ghost predicate CanMint(r: Rules, u: UtxoMap, tx: Tx, allowed: Option<int>)
  {
    CoinbaseShape(r, tx) &&
    (allowed.Some? ==> OutputTotal(tx.outputs) <= allowed.value) &&
    Fresh(r, u, tx) &&
    Total(After(r, u, tx)) <= r.maxMoney
  }

  class ConsensusState {
    const rules: Rules
    var utxos: UtxoSet

    ghost function U(): UtxoMap
      reads this, utxos
    {
      utxos.entries
    }

    constructor (r: Rules, initial: UtxoMap)
      ensures rules == r && fresh(utxos) && U() == initial
    {
      rules := r;
      utxos := new UtxoSet(initial);
    }

    method CheckOutputs(outs: seq<TxOutput>) returns (res: Result<()>)
      ensures res.Ok? <==> OutputsOk(rules, outs)
    {
      if outs == [] {
        return Err("transaction has no outputs");
      }
      for i := 0 to |outs|
        invariant forall k | 0 <= k < i :: 0 < outs[k].amount <= rules.maxMoney && rules.validAddress(outs[k].address)
      {
        if outs[i].amount <= 0 {
          return Err("output amount must be positive");
        }
        if outs[i].amount > rules.maxMoney {
          return Err("output exceeds maximum supply");
        }
        if !rules.validAddress(outs[i].address) {
          return Err("invalid output address");
        }
      }
      return Ok(());
    }

    method SumOutputs(outs: seq<TxOutput>) returns (total: int)
      ensures total == OutputTotal(outs)
    {
      total := 0;
      for i := 0 to |outs|
        invariant total == OutSum(outs, i)
      {
        total := total + outs[i].amount;
      }
    }

    method CheckInputs(tx: Tx) returns (res: Result<int>)
      requires tx.inputs != []
      ensures res.Ok? <==> Funded(rules, U(), tx)
      ensures res.Ok? ==> res.value == InputTotal(U(), tx.inputs) - OutputTotal(tx.outputs)
    {
      hide Prevs, WitnessOk, OutputTotal;
      NoPrevs(tx.inputs);
      var seen: set<OutPoint> := {};
      var total := 0;
      for i := 0 to |tx.inputs|
        invariant seen == Prevs(tx.inputs[..i])
        invariant forall j, k | 0 <= j < k < i :: tx.inputs[j].previous != tx.inputs[k].previous
        invariant forall k | 0 <= k < i :: tx.inputs[k].previous in U() && WitnessOk(rules, tx, k, U()[tx.inputs[k].previous])
        invariant total == InSum(U(), tx.inputs, i)
      {
        var o := tx.inputs[i].previous;
        PrevsGrow(tx.inputs, i);
        if o in seen {
          return Err("transaction double-spends an input");
        }
        seen := seen + {o};
        if o !in utxos.entries {
          return Err("missing output");
        }
        total := total + utxos.entries[o].amount;
        if !WitnessOk(rules, tx, i, utxos.entries[o]) {
          return Err("input witness does not authorise the spend");
        }
      }
      var paid := SumOutputs(tx.outputs);
      if paid > total {
        return Err("transaction spends more than its inputs");
      }
      return Ok(total - paid);
    }

    method ValidateTransaction(tx: Tx) returns (res: Result<int>)
      ensures res.Ok? <==>
              WellShaped(rules, tx) &&
              (if IsCoinbase(tx) then Unsigned(tx) && OutputTotal(tx.outputs) <= rules.subsidy
               else Funded(rules, U(), tx))
      ensures res.Ok? ==> res.value == Fee(U(), tx)
    {
      if tx.version != 1 {
        return Err("transaction version is unsupported");
      }
      var shape := CheckOutputs(tx.outputs);
      if shape.Err? {
        return Err(shape.error);
      }
      if IsCoinbase(tx) {
        if tx.inputs[0].signature.Some? || tx.inputs[0].publicKey.Some? {
          return Err("coinbase input must not be signed");
        }
        var paid := SumOutputs(tx.outputs);
        if paid > rules.subsidy {
          return Err("coinbase pays more than subsidy");
        }
        return Ok(0);
      }
      if tx.inputs == [] {
        return Err("transaction has no inputs");
      }
      res := CheckInputs(tx);
    }

    /** Either the whole transaction is applied, or nothing changes. */
    method ApplyTransaction(tx: Tx) returns (res: Result<int>)
      modifies this
      ensures res.Ok? <==> CanApply(rules, old(U()), tx)
      ensures res.Ok? ==> res.value == Fee(old(U()), tx) && U() == After(rules, old(U()), tx) && fresh(utxos)
      ensures res.Err? ==> utxos == old(utxos) && U() == old(U())
    {
      var fee := ValidateTransaction(tx);
      if fee.Err? {
        return fee;
      }
      var updated := new UtxoSet(utxos.entries);
      if !IsCoinbase(tx) {
        var spent := updated.SpendInputs(tx.inputs);
        assert spent.Ok?;
      }
      assert updated.entries == U() - Spent(tx);
      var added := updated.AddOutputs(rules.txid(tx), tx.outputs);
      if added.Err? {
        return Err(added.error);
      }
      var total := updated.Sum();
      if total > rules.maxMoney {
        return Err("utxo set exceeds maximum supply");
      }
      utxos := updated;
      return fee;
    }

    /** Applies a list in order and adds up the fees; a failure may stop half way. */
    method ApplyAll(txs: seq<Tx>) returns (res: Result<int>)
      modifies this
      ensures res.Ok? <==> Replays(rules, old(U()), txs)
      ensures res.Ok? ==> res.value == Replay.Sum(Fees(rules, old(U()), txs)) && U() == Final(rules, old(U()), txs)
      ensures utxos == old(utxos) || fresh(utxos)
    {
      hide CanApply, After, Fee;
      var fees := 0;
      ghost var u := U();
      var i := 0;
      while i < |txs|
        invariant 0 <= i <= |txs|
        invariant Replays(rules, u, txs[..i])
        invariant U() == Final(rules, u, txs[..i])
        invariant fees == Replay.Sum(Fees(rules, u, txs[..i]))
        invariant utxos == old(utxos) || fresh(utxos)
      {
        assert txs[..i + 1] == txs[..i] + [txs[i]];
        ReplaySnoc(rules, u, txs[..i], txs[i]);
        SumSnoc(Fees(rules, u, txs[..i]), Fee(Final(rules, u, txs[..i]), txs[i]));
        var fee := ApplyTransaction(txs[i]);
        if fee.Err? {
          StuckPrefix(rules, u, txs, i + 1);
          return fee;
        }
        fees := fees + fee.value;
        i := i + 1;
      }
      assert txs[..i] == txs;
      return Ok(fees);
    }

    /** The shared body of the two block-reward rules. */
    method Mint(tx: Tx, allowed: Option<int>) returns (res: Result<()>)
      modifies this
      ensures res.Ok? <==> CanMint(rules, old(U()), tx, allowed)
      ensures res.Ok? ==> U() == After(rules, old(U()), tx) && fresh(utxos)
      ensures res.Err? ==> utxos == old(utxos) && U() == old(U())
    {
      if tx.version != 1 {
        return Err("transaction version is unsupported");
      }
      var shape := CheckOutputs(tx.outputs);
      if shape.Err? {
        return Err(shape.error);
      }
      if !IsCoinbase(tx) {
        return Err("block reward transaction must be coinbase");
      }
      if tx.inputs[0].signature.Some? || tx.inputs[0].publicKey.Some? {
        return Err("coinbase input must not be signed");
      }
      var paid := SumOutputs(tx.outputs);
      if allowed.Some? && paid > allowed.value {
        return Err("coinbase pays more than subsidy plus fees");
      }
      var updated := new UtxoSet(utxos.entries);
      assert U() - Spent(tx) == U();
      var added := updated.AddOutputs(rules.txid(tx), tx.outputs);
      if added.Err? {
        return Err(added.error);
      }
      var total := updated.Sum();
      if total > rules.maxMoney {
        return Err("utxo set exceeds maximum supply");
      }
      utxos := updated;
      return Ok(());
    }

    method ApplyBlockCoinbase(tx: Tx, fees: int) returns (res: Result<()>)
      modifies this
      ensures res.Ok? <==> fees >= 0 && CanMint(rules, old(U()), tx, Some(rules.subsidy + fees))
      ensures res.Ok? ==> U() == After(rules, old(U()), tx) && fresh(utxos)
      ensures res.Err? ==> utxos == old(utxos) && U() == old(U())
    {
      if fees < 0 {
        return Err("fees cannot be negative");
      }
      res := Mint(tx, Some(rules.subsidy + fees));
    }

    method ApplyGenesisCoinbase(tx: Tx) returns (res: Result<()>)
      modifies this
      ensures res.Ok? <==> CanMint(rules, old(U()), tx, None)
      ensures res.Ok? ==> U() == After(rules, old(U()), tx) && fresh(utxos)
      ensures res.Err? ==> utxos == old(utxos) && U() == old(U())
    {
      res := Mint(tx, None);
    }

    method CreateCoinbase(miner: Text, fees: int, height: int) returns (res: Result<Tx>)
      ensures res.Ok? <==>
              rules.validAddress(miner) && fees >= 0 && height >= 0 && Total(U()) + rules.subsidy <= rules.maxMoney
      ensures res.Ok? ==> res.value == CoinbaseFor(rules, miner, fees, height)
    {
      if !rules.validAddress(miner) {
        return Err("invalid miner address");
      }
      if fees < 0 {
        return Err("fees cannot be negative");
      }
      if height < 0 {
        return Err("height cannot be negative");
      }
      var total := utxos.Sum();
      if total + rules.subsidy > rules.maxMoney {
        return Err("coinbase would exceed maximum supply");
      }
      return Ok(CoinbaseFor(rules, miner, fees, height));
    }
  }

  /** The reward that a node writes: one unsigned input that carries the height. */
  function CoinbaseFor(r: Rules, miner: Text, fees: int, height: nat): Tx
  {
    Tx(1, [TxInput(OutPoint(ZERO_HASH, -(height + 1)), None, None)], [TxOutput(r.subsidy + fees, miner)])
  }
}
