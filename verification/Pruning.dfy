/**
 Pruning after the active state changed.

 The program keeps the effect of a transaction that applies but fails policy in its
 candidate state although it drops the transaction. That would break the pool; under one
 fixed policy it never happens, because an outpoint names one output, so a transaction
 pays the same fee in every state in which it applies.
 */
module Pruning {
  import opened Ledger
  import opened Lists
  import opened Utxo
  import opened Replay
  import opened Blocks
  import opened History
  import opened Policy
  import opened Mempool

  // ---- an outpoint names one output ---------------------------------------------------

  ghost function MadeIn(r: Rules, universe: set<Tx>): set<OutPoint>
  {
    set t, i | t in universe && 0 <= i < |t.outputs| :: OutPoint(r.txid(t), i)
  }

  /** Every output that the transactions of `universe` define, by outpoint. */
  ghost function Book(r: Rules, universe: set<Tx>): UtxoMap
  {
    map o | o in MadeIn(r, universe) ::
      var t :| t in universe && r.txid(t) == o.txid && 0 <= o.index < |t.outputs|; t.outputs[o.index]
  }

  lemma InBook(r: Rules, universe: set<Tx>, t: Tx, i: nat)
    requires CollisionFree(r, universe) && t in universe && i < |t.outputs|
    ensures OutPoint(r.txid(t), i) in Book(r, universe)
    ensures Book(r, universe)[OutPoint(r.txid(t), i)] == t.outputs[i]
  {
    assert OutPoint(r.txid(t), i) in MadeIn(r, universe);
  }

  /** Every spendable output is one that some transaction of `universe` defines. */
  ghost predicate Coherent(u: UtxoMap, book: UtxoMap)
  {
    forall o | o in u :: o in book && u[o] == book[o]
  }

  lemma CoherentAfter(r: Rules, u: UtxoMap, t: Tx, universe: set<Tx>)
    requires CollisionFree(r, universe) && t in universe && Coherent(u, Book(r, universe))
    ensures Coherent(After(r, u, t), Book(r, universe))
  {
    hide Book, CollisionFree;
    CreatedIs(r.txid(t), t.outputs);
    forall o | o in Created(r.txid(t), t.outputs)
      ensures o in Book(r, universe) && Book(r, universe)[o] == t.outputs[o.index]
    {
      InBook(r, universe, t, o.index);
      assert o == OutPoint(r.txid(t), o.index);
    }
  }

  lemma {:induction false} CoherentFinal(r: Rules, u: UtxoMap, txs: seq<Tx>, universe: set<Tx>)
    requires CollisionFree(r, universe) && Coherent(u, Book(r, universe))
    requires forall i | 0 <= i < |txs| :: txs[i] in universe
    ensures Coherent(Final(r, u, txs), Book(r, universe))
    decreases |txs|
  {
    hide Book, CollisionFree, Coherent, After;
    if txs != [] {
      CoherentAfter(r, u, txs[0], universe);
      CoherentFinal(r, After(r, u, txs[0]), txs[1..], universe);
    }
  }

  lemma {:induction false} CoherentChain(r: Rules, blocks: seq<Block>, universe: set<Tx>)
    requires CollisionFree(r, universe) && forall x | x in AllTxs(blocks) :: x in universe
    ensures Coherent(ChainUtxos(r, blocks), Book(r, universe))
  {
    hide Book, CollisionFree, After;
    if blocks != [] {
      var n := |blocks| - 1;
      var b, whole := blocks[n], AllTxs(blocks);
      var u := ChainUtxos(r, blocks[..n]);
      CoherentChain(r, blocks[..n], universe);
      if b.transactions != [] {
        assert forall x | x in b.transactions :: x in whole;
        var txs := Spends(b);
        assert forall i | 0 <= i < |txs| :: txs[i] == b.transactions[i + 1] && txs[i] in b.transactions;
        CoherentFinal(r, u, txs, universe);
        CoherentAfter(r, Final(r, u, txs), b.transactions[0], universe);
      }
    }
  }

  /** A spend pays the same fee wherever it applies. */
  lemma FeeIsFixed(r: Rules, u: UtxoMap, t: Tx, book: UtxoMap)
    requires Coherent(u, book) && CanApply(r, u, t) && !IsCoinbase(t)
    ensures Fee(u, t) == Fee(book, t)
  {
    InputsPresent(r, u, t);
    FundedFrame(r, u, book, t);
  }

  lemma {:induction false} FeesAreFixed(r: Rules, u: UtxoMap, txs: seq<Tx>, universe: set<Tx>)
    requires CollisionFree(r, universe) && Coherent(u, Book(r, universe)) && Replays(r, u, txs)
    requires forall i | 0 <= i < |txs| :: txs[i] in universe && !IsCoinbase(txs[i])
    ensures forall i | 0 <= i < |txs| :: Fees(r, u, txs)[i] == Fee(Book(r, universe), txs[i])
    decreases |txs|
  {
    hide Book, CollisionFree, Coherent, After, CanApply, Fee;
    if txs != [] {
      FeeIsFixed(r, u, txs[0], Book(r, universe));
      CoherentAfter(r, u, txs[0], universe);
      FeesAreFixed(r, After(r, u, txs[0]), txs[1..], universe);
    }
  }

  // ---- pruning ------------------------------------------------------------------------

  /** The pruning loop from candidate state `u` with `count` entries kept so far. */
  ghost function Prune(r: Rules, p: Policy, u: UtxoMap, pool: seq<Tx>, count: nat): seq<Tx>
    decreases |pool|
  {
    if pool == [] then []
    else if !CanApply(r, u, pool[0]) then Prune(r, p, u, pool[1..], count)
    else if !p.Admits(r, pool[0], Fee(u, pool[0]), count) then Prune(r, p, After(r, u, pool[0]), pool[1..], count)
    else [pool[0]] + Prune(r, p, After(r, u, pool[0]), pool[1..], count + 1)
  }

  /** Marks the entries that apply when those before them that apply have been applied. */
  ghost function Applicable(r: Rules, u: UtxoMap, pool: seq<Tx>): (m: seq<bool>)
    ensures |m| == |pool|
    decreases |pool|
  {
    if pool == [] then []
    else if CanApply(r, u, pool[0]) then [true] + Applicable(r, After(r, u, pool[0]), pool[1..])
    else [false] + Applicable(r, u, pool[1..])
  }

  lemma {:induction false} ApplicableReplays(r: Rules, u: UtxoMap, pool: seq<Tx>)
    ensures Replays(r, u, Pick(pool, Applicable(r, u, pool)))
    decreases |pool|
  {
    hide CanApply, After;
    if pool != [] {
      var m := Applicable(r, u, pool);
      if CanApply(r, u, pool[0]) {
        ApplicableReplays(r, After(r, u, pool[0]), pool[1..]);
        var rest := Pick(pool[1..], m[1..]);
        assert m[1..] == Applicable(r, After(r, u, pool[0]), pool[1..]);
        assert ([pool[0]] + rest)[1..] == rest;
      } else {
        ApplicableReplays(r, u, pool[1..]);
        assert m[1..] == Applicable(r, u, pool[1..]);
      }
    }
  }

  /**
   An entry that passes policy with its fixed fee at its index, or any later one, is
   dropped only because it no longer applies.
   */
  lemma {:induction false} PruneIgnoresPolicy(r: Rules, p: Policy, u: UtxoMap, pool: seq<Tx>, count: nat, base: nat, universe: set<Tx>)
    requires CollisionFree(r, universe) && Coherent(u, Book(r, universe)) && count <= base
    requires forall i | 0 <= i < |pool| :: pool[i] in universe && !IsCoinbase(pool[i])
    requires forall i | 0 <= i < |pool| :: p.Admits(r, pool[i], Fee(Book(r, universe), pool[i]), base + i)
    ensures Prune(r, p, u, pool, count) == Pick(pool, Applicable(r, u, pool))
    decreases |pool|
  {
    hide Book, CollisionFree, Coherent, After, CanApply, Fee;
    if pool != [] {
      var t, rest, book, m := pool[0], pool[1..], Book(r, universe), Applicable(r, u, pool);
      assert forall i | 0 <= i < |rest| :: rest[i] == pool[i + 1];
      forall i | 0 <= i < |rest|
        ensures p.Admits(r, rest[i], Fee(book, rest[i]), base + 1 + i)
      {
        assert p.Admits(r, pool[i + 1], Fee(book, pool[i + 1]), base + (i + 1));
      }
      if CanApply(r, u, t) {
        FeeIsFixed(r, u, t, book);
        assert p.Admits(r, t, Fee(book, t), base + 0);
        AdmitsEarlier(p, r, t, Fee(u, t), base, count);
        CoherentAfter(r, u, t, universe);
        PruneIgnoresPolicy(r, p, After(r, u, t), rest, count + 1, base + 1, universe);
        assert m[1..] == Applicable(r, After(r, u, t), rest);
      } else {
        PruneIgnoresPolicy(r, p, u, rest, count, base + 1, universe);
        assert m[1..] == Applicable(r, u, rest);
      }
    }
  }

  /**
   What remains of a pool in order when the active state changes under it: its entries do
   not collide and pass policy at their index with their fixed fees. It may no longer replay.
   */
  ghost predicate Waiting(r: Rules, p: Policy, pool: seq<Tx>, universe: set<Tx>)
  {
    Independent(r, pool) && (forall x | x in pool :: x in universe) &&
    forall i | 0 <= i < |pool| :: p.Admits(r, pool[i], Fee(Book(r, universe), pool[i]), i)
  }

  /** On a coherent state a waiting pool is in order exactly when it replays. */
  lemma WaitingInOrder(r: Rules, p: Policy, u: UtxoMap, pool: seq<Tx>, universe: set<Tx>)
    requires CollisionFree(r, universe) && Coherent(u, Book(r, universe)) && forall x | x in pool :: x in universe
    ensures PoolOk(r, p, u, pool) <==> Waiting(r, p, pool, universe) && Replays(r, u, pool)
  {
    hide Book, CollisionFree, Coherent, Replays, Fees, Fee;
    if Independent(r, pool) && Replays(r, u, pool) {
      FeesAreFixed(r, u, pool, universe);
      forall i | 0 <= i < |pool|
        ensures p.Admits(r, pool[i], Fees(r, u, pool)[i], i) <==> p.Admits(r, pool[i], Fee(Book(r, universe), pool[i]), i)
      {
      }
    }
  }

  /** Entries that stay when others leave still wait. */
  lemma WaitingPick(r: Rules, p: Policy, pool: seq<Tx>, keep: seq<bool>, universe: set<Tx>)
    requires Waiting(r, p, pool, universe) && |keep| == |pool|
    ensures Waiting(r, p, Pick(pool, keep), universe)
  {
    hide Book, Pick, Fee;
    IndependentPick(r, pool, keep);
    PassesBelow(r, p, pool, keep, Book(r, universe));
    var kept, book := Pick(pool, keep), Book(r, universe);
    forall i | 0 <= i < |kept|
      ensures p.Admits(r, kept[i], Fee(book, kept[i]), i)
    {
      assert p.Admits(r, kept[i], Fee(book, kept[i]), 0 + i);
    }
  }

  /**
   A waiting pool, less any entries, is in order again on any coherent state once it is
   pruned; and policy drops nothing.
   */
  lemma PruneKeepsPool(r: Rules, p: Policy, v: UtxoMap, pool: seq<Tx>, keep: seq<bool>, universe: set<Tx>)
    requires Waiting(r, p, pool, universe) && |keep| == |pool|
    requires CollisionFree(r, universe) && Coherent(v, Book(r, universe))
    ensures var kept := Pick(pool, keep);
            Prune(r, p, v, kept, 0) == Pick(kept, Applicable(r, v, kept)) &&
            Waiting(r, p, Prune(r, p, v, kept, 0), universe) && PoolOk(r, p, v, Prune(r, p, v, kept, 0))
  {
    hide Book, CollisionFree, Coherent, Replays, Fees, Pick, Prune, Applicable, Fee, PoolOk;
    var kept, book := Pick(pool, keep), Book(r, universe);
    WaitingPick(r, p, pool, keep, universe);
    forall i | 0 <= i < |kept|
      ensures kept[i] in universe && p.Admits(r, kept[i], Fee(book, kept[i]), 0 + i)
    {
      assert kept[i] in kept && p.Admits(r, kept[i], Fee(book, kept[i]), i);
    }
    PruneIgnoresPolicy(r, p, v, kept, 0, 0, universe);
    ApplicableReplays(r, v, kept);
    WaitingPick(r, p, kept, Applicable(r, v, kept), universe);
    WaitingInOrder(r, p, v, Pick(kept, Applicable(r, v, kept)), universe);
  }

  /**
   Whatever is accepted, and however, puts a waiting pool in order: acceptance replays
   everything that stays.
   */
  lemma SubmitPutsInOrder(r: Rules, p: Policy, u: UtxoMap, pool: seq<Tx>, tx: Tx, universe: set<Tx>)
    requires Waiting(r, p, pool, universe) && CollisionFree(r, universe) && Coherent(u, Book(r, universe))
    requires Submit(r, p, u, pool, tx).Some?
    ensures PoolOk(r, p, u, Submit(r, p, u, pool, tx).value)
  {
    hide Waiting, PoolOk, CollisionFree, Coherent, Book, Replays, Fees, Final, CanApply, Fee, Evict, Pick, Conflicting, Staying;
    assert forall x | x in pool :: x in universe by {
      WaitingKnown(r, p, pool, universe);
    }
    if Replaced(pool, tx) == [] {
      WaitingInOrder(r, p, u, pool, universe);
      SubmitKeepsPool(r, p, u, pool, tx);
    } else {
      var keep, rest := Staying(r, pool, Replaced(pool, tx)), Remaining(r, pool, tx);
      WaitingPick(r, p, pool, keep, universe);
      WaitingKnown(r, p, rest, universe);
      WaitingInOrder(r, p, u, rest, universe);
      RestIsSeparate(r, p, pool, tx, universe);
      AppendOk(r, p, u, rest, tx);
    }
  }

  lemma WaitingKnown(r: Rules, p: Policy, pool: seq<Tx>, universe: set<Tx>)
    requires Waiting(r, p, pool, universe)
    ensures forall x | x in pool :: x in universe
    ensures Independent(r, pool)
  {
  }

  lemma WaitingIsBounded(r: Rules, p: Policy, pool: seq<Tx>, universe: set<Tx>)
    requires Waiting(r, p, pool, universe)
    ensures |pool| <= p.maxTransactions
  {
    if pool != [] {
      assert p.Admits(r, pool[|pool| - 1], Fee(Book(r, universe), pool[|pool| - 1]), |pool| - 1);
    }
  }

  lemma RestIsSeparate(r: Rules, p: Policy, pool: seq<Tx>, tx: Tx, universe: set<Tx>)
    requires Waiting(r, p, pool, universe) && !IsCoinbase(tx) && !HasTxid(r, pool, r.txid(tx))
    ensures Separate(r, Remaining(r, pool, tx), tx)
  {
    hide Pick, Fee, Book;
    var keep, rest := Staying(r, pool, Replaced(pool, tx)), Remaining(r, pool, tx);
    StayingIsNotConflicting(r, pool, tx);
    PickAt(pool, keep);
    assert forall i | 0 <= i < |rest| :: rest[i] == pool[Place(keep, i)] && !Conflicts(tx, rest[i]);
  }

  /** Entries only move forward when others leave, so fixed fees keep passing policy. */
  lemma PassesBelow(r: Rules, p: Policy, pool: seq<Tx>, keep: seq<bool>, book: UtxoMap)
    requires |keep| == |pool|
    requires forall i | 0 <= i < |pool| :: p.Admits(r, pool[i], Fee(book, pool[i]), i)
    ensures forall i | 0 <= i < |Pick(pool, keep)| :: p.Admits(r, Pick(pool, keep)[i], Fee(book, Pick(pool, keep)[i]), 0 + i)
    ensures forall x | x in Pick(pool, keep) :: x in pool
  {
    hide Pick, Fee;
    PickAt(pool, keep);
    var kept := Pick(pool, keep);
    forall i | 0 <= i < |kept|
      ensures p.Admits(r, kept[i], Fee(book, kept[i]), i)
    {
      var j := Place(keep, i);
      AdmitsEarlier(p, r, pool[j], Fee(book, pool[j]), j, i);
    }
  }
}
