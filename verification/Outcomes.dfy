/**
 What an import leaves behind, entry by entry: which pooled transactions stay, and whom the
 spend table names.
 */
module Outcomes {
  import opened Bytes
  import opened Ledger
  import opened Lists
  import opened Utxo
  import opened Replay
  import opened Blocks
  import opened History
  import opened Policy
  import opened Mempool
  import opened Pruning
  import opened ForkStore
  import opened Convergence
  import opened Node

  // ---- which entries stay -----------------------------------------------------------------

  ghost predicate Among(r: Rules, txs: seq<Tx>, t: Tx)
  {
    exists x :: x in txs && r.txid(x) == r.txid(t)
  }

  /**
   `keep` marks exactly the entries that are not among `gone` and that apply after the
   entries kept before them.
   */
  ghost predicate KeepsWhatApplies(r: Rules, u: UtxoMap, pool: seq<Tx>, gone: seq<Tx>, keep: seq<bool>)
  {
    |keep| == |pool| &&
    forall i | 0 <= i < |pool| ::
      keep[i] <==> !Among(r, gone, pool[i]) && CanApply(r, Final(r, u, Pick(pool[..i], keep[..i])), pool[i])
  }

  lemma AmongIs(r: Rules, gone: seq<Tx>, t: Tx)
    ensures HasTxid(r, gone, r.txid(t)) <==> Among(r, gone, t)
  {
    if HasTxid(r, gone, r.txid(t)) {
      var i :| 0 <= i < |gone| && r.txid(gone[i]) == r.txid(t);
      assert gone[i] in gone;
    }
    if Among(r, gone, t) {
      var x :| x in gone && r.txid(x) == r.txid(t);
      var i :| 0 <= i < |gone| && gone[i] == x;
    }
  }

  /** The marks of the entries that survive removal and pruning. */
  ghost function Survivors(r: Rules, u: UtxoMap, pool: seq<Tx>, gone: seq<Tx>): (keep: seq<bool>)
    ensures |keep| == |pool|
    decreases |pool|
  {
    if pool == [] then []
    else if Among(r, gone, pool[0]) || !CanApply(r, u, pool[0]) then [false] + Survivors(r, u, pool[1..], gone)
    else [true] + Survivors(r, After(r, u, pool[0]), pool[1..], gone)
  }

  lemma {:induction false} SurvivorsKeep(r: Rules, u: UtxoMap, pool: seq<Tx>, gone: seq<Tx>)
    ensures KeepsWhatApplies(r, u, pool, gone, Survivors(r, u, pool, gone))
    decreases |pool|
  {
    hide CanApply, After, Among, Pick, Final;
    if pool != [] {
      var keep, rest := Survivors(r, u, pool, gone), pool[1..];
      var v := if keep[0] then After(r, u, pool[0]) else u;
      SurvivorsKeep(r, v, rest, gone);
      assert keep[1..] == Survivors(r, v, rest, gone);
      forall i | 0 <= i < |pool|
        ensures keep[i] <==> !Among(r, gone, pool[i]) && CanApply(r, Final(r, u, Pick(pool[..i], keep[..i])), pool[i])
      {
        if i == 0 {
          NothingPicked(r, u, pool[..0], keep[..0]);
        } else {
          assert pool[i] == rest[i - 1] && keep[i] == keep[1..][i - 1];
          FirstPicked(r, u, pool, keep, i);
        }
      }
    }
  }

  lemma NothingPicked(r: Rules, u: UtxoMap, pool: seq<Tx>, keep: seq<bool>)
    requires pool == [] && keep == []
    ensures Final(r, u, Pick(pool, keep)) == u
  {
  }

  lemma FirstPicked(r: Rules, u: UtxoMap, pool: seq<Tx>, keep: seq<bool>, i: nat)
    requires |keep| == |pool| && 0 < i <= |pool|
    ensures Final(r, u, Pick(pool[..i], keep[..i])) ==
            Final(r, if keep[0] then After(r, u, pool[0]) else u, Pick(pool[1..][..i - 1], keep[1..][..i - 1]))
  {
    hide After;
    var a, m := pool[..i], keep[..i];
    assert a[1..] == pool[1..][..i - 1] && m[1..] == keep[1..][..i - 1];
    var more := Pick(a[1..], m[1..]);
    assert ([a[0]] + more)[1..] == more;
  }

  lemma {:induction false} SurvivorsAre(r: Rules, u: UtxoMap, pool: seq<Tx>, gone: seq<Tx>)
    ensures var kept := Pick(pool, Staying(r, pool, gone));
            Pick(kept, Applicable(r, u, kept)) == Pick(pool, Survivors(r, u, pool, gone))
    decreases |pool|
  {
    hide CanApply, After, Among;
    if pool != [] {
      AmongIs(r, gone, pool[0]);
      var rest, stay := pool[1..], Staying(r, pool, gone);
      assert stay[1..] == Staying(r, rest, gone);
      var kept := Pick(rest, stay[1..]);
      SurvivorsAre(r, u, rest, gone);
      SurvivorsAre(r, After(r, u, pool[0]), rest, gone);
      assert ([pool[0]] + kept)[1..] == kept;
    }
  }

  /**
   The pool after an import that the index takes: the old entries, in order, that the block
   does not contain and that apply on the new active state after those kept before them.
   */
  lemma PoolAfterImport(r: Rules, p: Policy, genesis: Block, st: State, b: Block, universe: set<Tx>) returns (keep: seq<bool>)
    requires SoundOk(r, p, genesis, st, universe) && CollisionFree(r, universe) && Within(b, universe)
    requires Takes(r, st.forks, b) && Indexable(r, st, b)
    ensures var to := Step(r, p, genesis, st, Arrival(b));
            KeepsWhatApplies(r, to.utxos, st.pool, b.transactions, keep) && to.pool == Pick(st.pool, keep)
  {
    hide ChainOk, Branch, StateAt, Linked, Import, Takes, Book, Coherent, Waiting, StoreWithin, Reindex, PoolAfter, CollisionFree, StoreOk, IsTip, Pick, KeepsWhatApplies, Replays, PoolOk;
    var to := Step(r, p, genesis, st, Arrival(b));
    LinkedOf(r, st.forks.store, genesis);
    ArrivalSound(r, p, genesis, st, b, universe);
    TipCoheres(r, p, genesis, to, universe);
    keep := Survivors(r, to.utxos, st.pool, b.transactions);
    SurvivorsKeep(r, to.utxos, st.pool, b.transactions);
    PoolIs(r, p, to.utxos, st.pool, b, universe);
    assert to.pool == PoolAfter(r, p, to.utxos, st.pool, b);
  }

  lemma PoolIs(r: Rules, p: Policy, u: UtxoMap, pool: seq<Tx>, b: Block, universe: set<Tx>)
    requires Waiting(r, p, pool, universe) && CollisionFree(r, universe) && Coherent(u, Book(r, universe))
    ensures PoolAfter(r, p, u, pool, b) == Pick(pool, Survivors(r, u, pool, b.transactions))
  {
    hide Waiting, Coherent, Book, CollisionFree, Prune, Pick, PoolOk, Applicable, Survivors;
    PruneKeepsPool(r, p, u, pool, Staying(r, pool, b.transactions), universe);
    SurvivorsAre(r, u, pool, b.transactions);
  }

  /** Pruning keeps exactly the entries that apply after those kept before them. */
  lemma PoolAfterPruning(r: Rules, p: Policy, genesis: Block, st: State, universe: set<Tx>) returns (keep: seq<bool>)
    requires SoundOk(r, p, genesis, st, universe) && CollisionFree(r, universe)
    ensures KeepsWhatApplies(r, st.utxos, st.pool, [], keep)
    ensures Step(r, p, genesis, st, Event.Pruning).pool == Pick(st.pool, keep)
  {
    hide Book, Coherent, Waiting, StoreWithin, CollisionFree, StoreOk, Pick, KeepsWhatApplies, Prune, Replays, PoolOk, Applicable;
    TipCoheres(r, p, genesis, st, universe);
    keep := Survivors(r, st.utxos, st.pool, []);
    SurvivorsKeep(r, st.utxos, st.pool, []);
    SurvivorsAre(r, st.utxos, st.pool, []);
    var all := Staying(r, st.pool, []);
    PickAll(st.pool, all);
    PruneKeepsPool(r, p, st.utxos, st.pool, all, universe);
  }

  // ---- what is reported -----------------------------------------------------------------------

  /**
   What an accepted import reports: nothing if the old active chain is a prefix of the new one,
   else the old and the new tip with their heights. A refused one leaves the report alone.
   */
  lemma ReportAfterImport(r: Rules, p: Policy, genesis: Block, st: State, b: Block)
    requires FollowsTip(r, genesis, st)
    ensures var s, to := st.forks.store, Step(r, p, genesis, st, Arrival(b));
            FollowsTip(r, genesis, to) &&
            var was, now := Branch(r, s, Tip(s)), Branch(r, to.forks.store, Tip(to.forks.store));
            to.reorg ==
            if !Takes(r, st.forks, b) then st.reorg
            else if was <= now then None
            else Some(Reorg(Tip(s), Tip(to.forks.store), |was| - 1, |now| - 1))
  {
    hide ChainOk, Branch, StateAt, Reindex, PoolAfter, StoreOk, IsTip, DetectReorg, Accepts, Put, Linked;
    LinkedOf(r, st.forks.store, genesis);
    StepFollowsTip(r, p, genesis, st, Arrival(b));
    if Takes(r, st.forks, b) {
      ReorgRecord(r, st.forks.store, b, genesis);
    }
  }

  // ---- whom the spend table names -----------------------------------------------------------

  lemma {:induction false} TableFinds(rows: seq<Spend>, k: nat)
    requires DistinctKeys(rows) && k < |rows|
    ensures rows[k].outpoint in TableOf(rows) && TableOf(rows)[rows[k].outpoint] == (rows[k].spender, rows[k].input)
  {
    var n := |rows| - 1;
    if k < n {
      assert rows[..n][k] == rows[k];
      TableFinds(rows[..n], k);
      assert rows[k].outpoint != rows[n].outpoint;
    }
  }

  lemma {:induction false} RowOfSpend(r: Rules, log: seq<Tx>, t: Tx, i: nat) returns (k: nat)
    requires t in log && !IsCoinbase(t) && i < |t.inputs|
    ensures k < |Rows(r, log)| && Rows(r, log)[k] == Spend(t.inputs[i].previous, r.txid(t), i)
  {
    hide Keys, IsCoinbase;
    var n := |log| - 1;
    var before := Rows(r, log[..n]);
    if t == log[n] {
      k := |before| + i;
      RowAt(r, t, i);
    } else {
      k := RowOfSpend(r, log[..n], t, i);
      assert Rows(r, log)[k] == before[k];
    }
  }

  lemma RowAt(r: Rules, t: Tx, i: nat)
    requires !IsCoinbase(t) && i < |t.inputs|
    ensures i < |RowsOf(r, t)| && RowsOf(r, t)[i] == Spend(t.inputs[i].previous, r.txid(t), i)
  {
  }

  /** For every spend on a stored branch the tip's spend table names the spender and the input. */
  lemma SpendTableNames(r: Rules, p: Policy, genesis: Block, st: State, h: Hash, t: Tx, i: nat, universe: set<Tx>)
    requires NodeOk(r, p, genesis, st, universe) && st.index.Some? && h in st.forks.store
    requires t in AllTxs(Branch(r, st.forks.store, h)) && !IsCoinbase(t) && i < |t.inputs|
    ensures var table := SpendsAt(st.index.value, h);
            t.inputs[i].previous in table && table[t.inputs[i].previous] == (r.txid(t), i)
  {
    hide ChainOk, PoolOk, Waiting, Branch, AllTxs, ChainUtxos, Rows, TableOf, IsCoinbase;
    var rows := TipRows(r, st.forks.store, h);
    var k := RowOfSpend(r, AllTxs(Branch(r, st.forks.store, h)), t, i);
    TableFinds(rows, k);
  }
}
