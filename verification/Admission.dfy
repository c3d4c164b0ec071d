/**
 When a transaction gets into the pool, in terms of pools and fees: exactly when it is
 appended, exactly when it replaces what it conflicts with, and what a full pool gives up
 for it.
 */
module Admission {
  import opened Bytes
  import opened Ledger
  import opened Lists
  import opened Utxo
  import opened Replay
  import opened Policy
  import opened Mempool

  /** In full: what policy asks of a transaction that pays `fee` when `count` are pooled. */
  lemma AdmitsIff(p: Policy, r: Rules, tx: Tx, fee: int, count: nat)
    ensures p.Admits(r, tx, fee, count) <==>
            count < p.maxTransactions && |tx.inputs| <= p.maxInputs && |tx.outputs| <= p.maxOutputs &&
            r.size(tx) <= p.maxTransactionBytes && fee >= p.minRelayFee &&
            fee * 1000 >= r.size(tx) * (p.minRelayFeeRate + count * p.dynamicFeeRateStep)
  {
    FloorIsExact(p, r.size(tx), count, fee);
  }

  /** No pooled entry spends what `tx` spends. */
  ghost predicate NoConflict(pool: seq<Tx>, tx: Tx)
  {
    forall i | 0 <= i < |pool| :: Inputs(pool[i]) !! Inputs(tx)
  }

  ghost predicate NewTxid(r: Rules, pool: seq<Tx>, tx: Tx)
  {
    forall i | 0 <= i < |pool| :: r.txid(pool[i]) != r.txid(tx)
  }

  lemma ReplacedIff(pool: seq<Tx>, tx: Tx)
    ensures Replaced(pool, tx) == [] <==> NoConflict(pool, tx)
  {
    if Replaced(pool, tx) == [] {
      NothingConflicts(pool, tx);
    }
    if NoConflict(pool, tx) {
      PickNone(pool, Conflicting(pool, tx));
    }
  }

  // ---- no conflict ------------------------------------------------------------------------

  /**
   Below capacity and without a conflict, a transaction is appended exactly when it spends,
   is new, applies after a pool that replays, and policy admits it there; otherwise it is refused.
   */
  lemma AppendedIff(r: Rules, p: Policy, u: UtxoMap, pool: seq<Tx>, tx: Tx)
    requires NoConflict(pool, tx) && |pool| < p.maxTransactions
    ensures Submit(r, p, u, pool, tx) ==
            if !IsCoinbase(tx) && NewTxid(r, pool, tx) && Replays(r, u, pool) && CanApply(r, Final(r, u, pool), tx) &&
               p.Admits(r, tx, Fee(Final(r, u, pool), tx), |pool|)
            then Some(pool + [tx]) else None
  {
    hide Replays, Final, CanApply, Fee, RawPolicy.Admits;
    ReplacedIff(pool, tx);
  }

  /** Entry `k` may go: the others still replay, and the transaction applies after them. */
  ghost predicate MayGo(r: Rules, u: UtxoMap, pool: seq<Tx>, tx: Tx, k: nat)
  {
    k < |pool| && Replays(r, u, Without(pool, k)) && CanApply(r, Final(r, u, Without(pool, k)), tx)
  }

  /**
   Entry `k` pays worst of those that may go: none of them has a lower fee rate, or the same
   rate and a lower fee, or both the same and a smaller txid. Fees are those paid in the pool.
   */
  ghost predicate PaysWorst(r: Rules, u: UtxoMap, pool: seq<Tx>, tx: Tx, k: nat)
  {
    MayGo(r, u, pool, tx, k) &&
    forall i: nat | MayGo(r, u, pool, tx, i) ::
      var a, b := Fees(r, u, pool)[k], Fees(r, u, pool)[i];
      var x, y := FeeRate(a, r.size(pool[k])), FeeRate(b, r.size(pool[i]));
      x < y || (x == y && (a < b || (a == b && !Less(r.txid(pool[i]), r.txid(pool[k])))))
  }

  lemma ScoreMeans(r: Rules, u: UtxoMap, pool: seq<Tx>, k: nat, i: nat)
    requires k < |pool| && i < |pool|
    ensures var a, b := Fees(r, u, pool)[k], Fees(r, u, pool)[i];
            var x, y := FeeRate(a, r.size(pool[k])), FeeRate(b, r.size(pool[i]));
            !Higher(PoolScore(r, u, pool, k), PoolScore(r, u, pool, i)) <==>
            x < y || (x == y && (a < b || (a == b && !Less(r.txid(pool[i]), r.txid(pool[k])))))
  {
    hide Fees, FeeRate;
  }

  lemma WorstPaysWorst(r: Rules, u: UtxoMap, pool: seq<Tx>, tx: Tx)
    ensures match WorstOf(r, u, pool, tx, |pool|)
            case None => forall i: nat :: !MayGo(r, u, pool, tx, i)
            case Some(k) => PaysWorst(r, u, pool, tx, k)
  {
    hide Replays, Final, CanApply, Fees, FeeRate, Higher, WorstOf, PoolScore;
    WorstOfIsWorst(r, u, pool, tx, |pool|);
    match WorstOf(r, u, pool, tx, |pool|)
    case None =>
      forall i: nat
        ensures !MayGo(r, u, pool, tx, i)
      {
        if i < |pool| {
          assert !Evictable(r, u, pool, tx, i);
        }
      }
    case Some(k) =>
      forall i: nat | MayGo(r, u, pool, tx, i)
        ensures !Higher(PoolScore(r, u, pool, k), PoolScore(r, u, pool, i))
        ensures var a, b := Fees(r, u, pool)[k], Fees(r, u, pool)[i];
                var x, y := FeeRate(a, r.size(pool[k])), FeeRate(b, r.size(pool[i]));
                x < y || (x == y && (a < b || (a == b && !Less(r.txid(pool[i]), r.txid(pool[k])))))
      {
        assert Evictable(r, u, pool, tx, i);
        ScoreMeans(r, u, pool, k, i);
      }
  }

  /**
   A full pool without a conflict takes the transaction exactly when eviction is allowed and
   there is an entry that pays worst of those that may go, the new one's fee rate in the old
   pool is at least that entry's plus the bump, and policy admits the new one in its place.
   */
  lemma EvictsIff(r: Rules, p: Policy, u: UtxoMap, pool: seq<Tx>, tx: Tx)
    requires Independent(r, pool) && NoConflict(pool, tx) && |pool| >= p.maxTransactions
    ensures Submit(r, p, u, pool, tx).Some? <==>
            !IsCoinbase(tx) && NewTxid(r, pool, tx) && Replays(r, u, pool) && CanApply(r, Final(r, u, pool), tx) && p.allowEviction &&
            exists k :: PaysWorst(r, u, pool, tx, k) && Outbids(r, p, u, pool, tx, k)
    ensures Submit(r, p, u, pool, tx).Some? ==>
            exists k :: PaysWorst(r, u, pool, tx, k) && Outbids(r, p, u, pool, tx, k) &&
                        Submit(r, p, u, pool, tx).value == Without(pool, k) + [tx]
  {
    hide Replays, Final, CanApply, Fee, Fees, FeeRate, RawPolicy.Admits, WorstOf, PaysWorst, PoolScore, Higher;
    ReplacedIff(pool, tx);
    WorstPaysWorst(r, u, pool, tx);
    TooMany(p, r, tx, Fee(Final(r, u, pool), tx), |pool|);
    match WorstOf(r, u, pool, tx, |pool|)
    case None =>
      assert forall k :: !PaysWorst(r, u, pool, tx, k) by {
        WorstMayGo(r, u, pool, tx);
      }
    case Some(k) =>
      PoolRate(r, u, pool, k);
      forall m | PaysWorst(r, u, pool, tx, m)
        ensures m == k
      {
        OneWorst(r, u, pool, tx, k, m);
      }
  }

  /** The new one pays enough more than entry `k`, and policy admits it once that one is gone. */
  ghost predicate Outbids(r: Rules, p: Policy, u: UtxoMap, pool: seq<Tx>, tx: Tx, k: nat)
  {
    k < |pool| &&
    FeeRate(Fee(Final(r, u, pool), tx), r.size(tx)) >= FeeRate(Fees(r, u, pool)[k], r.size(pool[k])) + p.evictionFeeRateBump &&
    p.Admits(r, tx, Fee(Final(r, u, Without(pool, k)), tx), |pool| - 1)
  }

  lemma TooMany(p: Policy, r: Rules, tx: Tx, fee: int, count: nat)
    requires count >= p.maxTransactions
    ensures !p.Admits(r, tx, fee, count)
  {
  }

  lemma PoolRate(r: Rules, u: UtxoMap, pool: seq<Tx>, k: nat)
    requires k < |pool|
    ensures PoolScore(r, u, pool, k).rate == FeeRate(Fees(r, u, pool)[k], r.size(pool[k]))
  {
  }

  lemma WorstMayGo(r: Rules, u: UtxoMap, pool: seq<Tx>, tx: Tx)
    ensures forall k | PaysWorst(r, u, pool, tx, k) :: MayGo(r, u, pool, tx, k)
  {
  }

  lemma OneWorst(r: Rules, u: UtxoMap, pool: seq<Tx>, tx: Tx, k: nat, m: nat)
    requires Independent(r, pool) && PaysWorst(r, u, pool, tx, k) && PaysWorst(r, u, pool, tx, m)
    ensures k == m
  {
    hide Replays, Final, CanApply, Fees, FeeRate;
    LessTotal(r.txid(pool[k]), r.txid(pool[m]));
  }

  /**
   What an accepted submission without a conflict may cost the pool: nothing, or, at capacity,
   exactly one entry, which the new one outbids.
   */
  lemma OnlyOutbidEntriesGo(r: Rules, p: Policy, u: UtxoMap, pool: seq<Tx>, tx: Tx, lost: nat)
    requires PoolOk(r, p, u, pool) && NoConflict(pool, tx) && Submit(r, p, u, pool, tx).Some?
    requires lost < |pool| && pool[lost] !in Submit(r, p, u, pool, tx).value
    ensures |pool| == p.maxTransactions && Submit(r, p, u, pool, tx).value == Without(pool, lost) + [tx]
    ensures FeeRate(Fee(Final(r, u, pool), tx), r.size(tx)) >=
            FeeRate(Fees(r, u, pool)[lost], r.size(pool[lost])) + p.evictionFeeRateBump
    ensures PaysWorst(r, u, pool, tx, lost)
  {
    hide Replays, Final, CanApply, Fee, Fees, FeeRate, RawPolicy.Admits, PaysWorst, Submit, PassesAtIndex, Independent;
    PoolIsBounded(r, p, u, pool);
    if |pool| < p.maxTransactions {
      AppendedIff(r, p, u, pool, tx);
      assert false;
    } else {
      EvictsIff(r, p, u, pool, tx);
      var k :| PaysWorst(r, u, pool, tx, k) && Outbids(r, p, u, pool, tx, k) &&
        Submit(r, p, u, pool, tx).value == Without(pool, k) + [tx];
      if k != lost {
        OthersStay(pool, k, lost, tx);
      }
    }
  }

  lemma OthersStay(pool: seq<Tx>, k: nat, i: nat, tx: Tx)
    requires k < |pool| && i < |pool| && i != k
    ensures pool[i] in Without(pool, k) + [tx]
  {
    var rest := Without(pool, k) + [tx];
    assert rest[if i < k then i else i - 1] == pool[i];
  }

  // ---- a conflict -------------------------------------------------------------------------

  /** Marks the entries that spend something `tx` spends. */
  ghost function Clashing(pool: seq<Tx>, tx: Tx): (m: seq<bool>)
    ensures |m| == |pool| && forall i | 0 <= i < |pool| :: m[i] <==> Inputs(pool[i]) * Inputs(tx) != {}
  {
    seq(|pool|, i requires 0 <= i < |pool| => Inputs(pool[i]) * Inputs(tx) != {})
  }

  lemma ClashingIs(pool: seq<Tx>, tx: Tx)
    ensures Conflicting(pool, tx) == Clashing(pool, tx)
  {
    forall i | 0 <= i < |pool|
      ensures Conflicts(tx, pool[i]) <==> Inputs(pool[i]) * Inputs(tx) != {}
    {
      if Conflicts(tx, pool[i]) {
        var o :| o in Inputs(tx) && o in Inputs(pool[i]);
        assert o in Inputs(pool[i]) * Inputs(tx);
      }
      if Inputs(pool[i]) * Inputs(tx) != {} {
        var o :| o in Inputs(pool[i]) * Inputs(tx);
      }
    }
  }

  /**
   A transaction with a conflict is taken, in place of everything it clashes with and of
   nothing else, exactly when replacement is allowed, it spends and is new, the others replay
   and it applies after them, it pays what the clashing entries paid in the pool plus the
   bump, and policy admits it after the others.
   */
  lemma ReplacesIff(r: Rules, p: Policy, u: UtxoMap, pool: seq<Tx>, tx: Tx)
    requires Independent(r, pool) && Replays(r, u, pool) && !NoConflict(pool, tx)
    ensures var clash := Clashing(pool, tx);
            var rest := Pick(pool, Flip(clash));
            var v := Final(r, u, rest);
            Submit(r, p, u, pool, tx) ==
            if !IsCoinbase(tx) && NewTxid(r, pool, tx) && p.allowReplacement && Replays(r, u, rest) && CanApply(r, v, tx) &&
               Fee(v, tx) >= Sum(Pick(Fees(r, u, pool), clash)) + p.replacementFeeBump &&
               p.Admits(r, tx, Fee(v, tx), |rest|)
            then Some(rest + [tx]) else None
  {
    hide Replays, Final, CanApply, Fee, Fees, RawPolicy.Admits, Pick, Sum, Independent, Conflicting;
    ReplacedIff(pool, tx);
    ClashingIs(pool, tx);
    StayingIsNotConflicting(r, pool, tx);
    if Replays(r, u, Remaining(r, pool, tx)) {
      ReplacedFeeIsExact(r, u, pool, tx);
    }
  }
}
