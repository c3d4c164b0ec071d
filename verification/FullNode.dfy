/**
 `ConsensusNode`: the object whose methods submit, replace, evict, prune, import and
 build. Every method is proved to take exactly the step of the state machine in `Node`.
 */
module FullNode {
  import opened Bytes
  import opened Ledger
  import opened Lists
  import opened Utxo
  import opened Replay
  import opened Consensus
  import opened Blocks
  import opened History
  import opened Policy
  import opened Mempool
  import opened Pruning
  import opened Assembly
  import opened ForkStore
  import opened Convergence
  import opened Node
  import opened Mining
  import opened BlockStore

  datatype Context = Context(remaining: seq<Tx>, replaced: seq<Tx>, replacedFee: int)

  class ConsensusNode {
    const rules: Rules
    const policy: Policy
    const difficulty: nat
    const store: SQLiteForkStore
    const index: SQLiteUTXOIndex?
    ghost const genesis: Block
    var state: ConsensusState
    var mempool: seq<Tx>
    var lastReorg: Option<Reorg>
    var invalid: set<Hash>

    ghost function Abs(): State
      reads this, state, state.utxos, store, index
    {
      State(Forks(store.table, invalid), state.U(), mempool, lastReorg, if index == null then None else Some(index.tables))
    }

    ghost predicate Valid()
      reads this, state, store, index
    {
      store.rules == rules && state.rules == rules && (index != null ==> index.rules == rules) &&
      StoreOk(rules, store.table, genesis) && DistinctTxids(rules, mempool)
    }

    /** A new node on a genesis block that has been validated, with an index attached. */
    constructor (r: Rules, p: Policy, d: nat, first: Block)
      requires ChainOk(r, [first])
      ensures Valid() && rules == r && policy == p && difficulty == d && genesis == first
      ensures Abs() == FreshNode(r, first, true)
      ensures fresh(state) && fresh(state.utxos) && fresh(store) && fresh(index)
    {
      rules, policy, difficulty, genesis := r, p, d, first;
      mempool, lastReorg, invalid := [], None, {};
      store := new SQLiteForkStore(r, Start(r, first).store);
      var u := ChainUtxos(r, [first]);
      index := new SQLiteUTXOIndex(r, Index(map[r.blockHash(first) := u], map[], r.blockHash(first), u));
      state := new ConsensusState(r, u);
      new;
      StartOk(r, first);
    }

    // ---- admission ----------------------------------------------------------------------

    method CandidateAfter(txs: seq<Tx>) returns (res: Result<int>, candidate: ConsensusState)
      requires state.rules == rules
      ensures fresh(candidate) && fresh(candidate.utxos) && candidate.rules == rules
      ensures res.Ok? <==> Replays(rules, state.U(), txs)
      ensures res.Ok? ==> res.value == Sum(Fees(rules, state.U(), txs)) && candidate.U() == Final(rules, state.U(), txs)
    {
      candidate := new ConsensusState(rules, state.utxos.entries);
      res := candidate.ApplyAll(txs);
    }

    /** The pooled entries that share an input with the transaction. */
    method ListReplaced(tx: Tx) returns (gone: seq<Tx>)
      ensures gone == Replaced(mempool, tx)
    {
      hide Pick;
      var wanted := Inputs(tx);
      ghost var m := Conflicting(mempool, tx);
      gone := [];
      assert mempool[..0] == [] && m[..0] == [];
      PickNone(mempool[..0], m[..0]);
      for i := 0 to |mempool|
        invariant gone == Pick(mempool[..i], m[..i])
      {
        PickSnoc(mempool[..i], m[..i], mempool[i], m[i]);
        assert mempool[..i + 1] == mempool[..i] + [mempool[i]] && m[..i + 1] == m[..i] + [m[i]];
        var shared := wanted * Inputs(mempool[i]);
        assert shared != {} <==> Conflicts(tx, mempool[i]) by {
          SharedInput(tx, mempool[i]);
        }
        if shared != {} {
          gone := gone + [mempool[i]];
        }
      }
      assert mempool[..|mempool|] == mempool && m[..|m|] == m;
    }

    /** The pooled entries whose txid is not among those of `gone`. */
    method ListStaying(gone: seq<Tx>) returns (left: seq<Tx>)
      ensures left == Pick(mempool, Staying(rules, mempool, gone))
    {
      hide Pick;
      var ids := set i | 0 <= i < |gone| :: rules.txid(gone[i]);
      ghost var m := Staying(rules, mempool, gone);
      left := [];
      assert mempool[..0] == [] && m[..0] == [];
      PickNone(mempool[..0], m[..0]);
      for i := 0 to |mempool|
        invariant left == Pick(mempool[..i], m[..i])
      {
        PickSnoc(mempool[..i], m[..i], mempool[i], m[i]);
        assert mempool[..i + 1] == mempool[..i] + [mempool[i]] && m[..i + 1] == m[..i] + [m[i]];
        if rules.txid(mempool[i]) !in ids {
          left := left + [mempool[i]];
        }
      }
      assert mempool[..|mempool|] == mempool && m[..|m|] == m;
    }

    method ReplacementContext(tx: Tx) returns (res: Result<Context>)
      requires state.rules == rules
      ensures Replaced(mempool, tx) == [] ==> res == Ok(Context(mempool, [], 0))
      ensures Replaced(mempool, tx) != [] ==>
                var rest := Remaining(rules, mempool, tx);
                (res.Ok? <==> policy.allowReplacement && Replays(rules, state.U(), rest) &&
                              Replays(rules, Final(rules, state.U(), rest), Replaced(mempool, tx))) &&
                (res.Ok? ==> res.value == Context(rest, Replaced(mempool, tx), ReplacedFee(rules, state.U(), mempool, tx)))
    {
      hide Replays, Final, Fees, Pick;
      var gone := ListReplaced(tx);
      if gone == [] {
        return Ok(Context(mempool, [], 0));
      }
      if !policy.allowReplacement {
        return Err("transaction conflicts with mempool policy");
      }
      var rest := ListStaying(gone);
      var after, candidate := CandidateAfter(rest);
      if after.Err? {
        return Err(after.error);
      }
      var fee := candidate.ApplyAll(gone);
      if fee.Err? {
        return Err(fee.error);
      }
      return Ok(Context(rest, gone, fee.value));
    }

    /** Fee by txid of a list that replays; where a txid repeats, that of the last entry. */
    method TransactionFees(txs: seq<Tx>) returns (res: Result<map<Hash, int>>)
      requires state.rules == rules
      ensures res.Ok? <==> Replays(rules, state.U(), txs)
      ensures res.Ok? ==> LastFees(rules, state.U(), txs, res.value)
    {
      hide CanApply, After, Fee, LastFees, Replays, Final, Fees;
      var candidate := new ConsensusState(rules, state.utxos.entries);
      ghost var u := state.U();
      var fees: map<Hash, int> := map[];
      var i := 0;
      NoFees(rules, u, txs[..0]);
      while i < |txs|
        invariant 0 <= i <= |txs| && fresh(candidate) && fresh(candidate.utxos) && candidate.rules == rules
        invariant state.U() == u && Replays(rules, u, txs[..i]) && candidate.U() == Final(rules, u, txs[..i])
        invariant LastFees(rules, u, txs[..i], fees)
      {
        assert txs[..i + 1] == txs[..i] + [txs[i]];
        ReplaySnoc(rules, u, txs[..i], txs[i]);
        var fee := candidate.ApplyTransaction(txs[i]);
        if fee.Err? {
          StuckPrefix(rules, u, txs, i + 1);
          return Err(fee.error);
        }
        LastFeesSnoc(rules, u, txs[..i], txs[i], fees);
        fees := fees[rules.txid(txs[i]) := fee.value];
        i := i + 1;
      }
      assert txs[..i] == txs;
      return Ok(fees);
    }

    /** Applies the transaction after all entries but one. */
    method TryWithout(pool: seq<Tx>, k: nat, tx: Tx) returns (res: Result<int>)
      requires state.rules == rules && k < |pool|
      ensures res.Ok? <==> Evictable(rules, state.U(), pool, tx, k)
      ensures res.Ok? ==> res.value == Fee(Final(rules, state.U(), Without(pool, k)), tx)
    {
      hide CanApply, After, Fee, Replays, Final;
      var after, candidate := CandidateAfter(pool[..k] + pool[k + 1..]);
      if after.Err? {
        return after;
      }
      res := candidate.ApplyTransaction(tx);
    }

    method EvictForPolicy(tx: Tx, pool: seq<Tx>, fee: int) returns (res: Result<(seq<Tx>, int)>)
      requires state.rules == rules && DistinctTxids(rules, pool) && fee == Fee(Final(rules, state.U(), pool), tx)
      ensures if |pool| >= policy.maxTransactions && policy.allowEviction && !Replays(rules, state.U(), pool) then res.Err? else
              match Evict(rules, policy, state.U(), pool, tx)
              case Refuse => res.Err?
              case Room(rest, paid) => res == Ok((rest, paid))
    {
      hide Replays, Final, Fees, CanApply, Fee, Evictable, Higher, FeeRate;
      if |pool| < policy.maxTransactions || !policy.allowEviction {
        return Ok((pool, fee));
      }
      var fees := TransactionFees(pool);
      if fees.Err? {
        return Err(fees.error);
      }
      assert forall i | 0 <= i < |pool| :: IsLast(rules, pool, i);
      var worst: Option<nat> := None;
      var worstFee, worstScore := 0, ScoreFor(rules, tx, fee);
      for i := 0 to |pool|
        invariant worst == WorstOf(rules, state.U(), pool, tx, i)
        invariant worst.Some? ==> worstScore == PoolScore(rules, state.U(), pool, worst.value)
        invariant worst.Some? ==> worstFee == Fee(Final(rules, state.U(), Without(pool, worst.value)), tx)
      {
        var score := ScoreFor(rules, pool[i], fees.value[rules.txid(pool[i])]);
        var paid := TryWithout(pool, i, tx);
        if paid.Ok? && (worst.None? || Higher(worstScore, score)) {
          worst, worstFee, worstScore := Some(i), paid.value, score;
        }
      }
      if worst.None? {
        return Ok((pool, fee));
      }
      if FeeRate(fee, rules.size(tx)) < worstScore.rate + policy.evictionFeeRateBump {
        return Err("transaction fee rate is below mempool eviction minimum");
      }
      return Ok((Without(pool, worst.value), worstFee));
    }

    /** Takes the submission step of the state machine, or refuses and changes nothing. */
    method SubmitTransaction(tx: Tx) returns (res: Result<Hash>)
      requires Valid()
      modifies this
      ensures Valid() && Abs() == Step(rules, policy, genesis, old(Abs()), Submission(tx))
      ensures res.Ok? <==> Submit(rules, policy, old(state.U()), old(mempool), tx).Some?
      ensures state == old(state) && lastReorg == old(lastReorg) && invalid == old(invalid)
    {
      hide Replays, Final, Fees, CanApply, Fee, StoreOk, Pick, Evict, ReplacedFee, Conflicting;
      var id := rules.txid(tx);
      if IsCoinbase(tx) {
        return Err("coinbase transactions cannot enter the mempool");
      }
      if exists i | 0 <= i < |mempool| :: rules.txid(mempool[i]) == id {
        return Err("transaction already in mempool");
      }
      var context := ReplacementContext(tx);
      if context.Err? {
        return Err(context.error);
      }
      var rest, replaced := context.value.remaining, context.value.replaced;
      var after, candidate := CandidateAfter(rest);
      if after.Err? {
        return Err(after.error);
      }
      var applied := candidate.ApplyTransaction(tx);
      if applied.Err? {
        return Err(applied.error);
      }
      var fee := applied.value;
      if replaced != [] {
        if fee < context.value.replacedFee + policy.replacementFeeBump {
          return Err("replacement fee is below mempool replacement minimum");
        }
      } else {
        var room := EvictForPolicy(tx, rest, fee);
        if room.Err? {
          return Err(room.error);
        }
        rest, fee := room.value.0, room.value.1;
      }
      if !policy.Admits(rules, tx, fee, |rest|) {
        return Err("transaction is below mempool policy");
      }
      SubmitDistinct(rules, policy, state.U(), mempool, tx);
      mempool := rest + [tx];
      return Ok(id);
    }

    // ---- pruning and clearing -------------------------------------------------------------

    method PruneInvalidMempool()
      requires state.rules == rules
      modifies this`mempool
      ensures mempool == Prune(rules, policy, state.U(), old(mempool), 0)
    {
      hide CanApply, After, Fee;
      var candidate := new ConsensusState(rules, state.utxos.entries);
      var valid: seq<Tx> := [];
      var pool := mempool;
      for i := 0 to |pool|
        invariant mempool == pool && fresh(candidate) && fresh(candidate.utxos) && candidate.rules == rules
        invariant state.U() == old(state.U())
        invariant valid + Prune(rules, policy, candidate.U(), pool[i..], |valid|) == Prune(rules, policy, state.U(), pool, 0)
      {
        var tx, rest := pool[i], pool[i..];
        assert rest[0] == tx && rest[1..] == pool[i + 1..];
        ghost var u := candidate.U();
        var fee := candidate.ApplyTransaction(tx);
        if fee.Ok? && policy.Admits(rules, tx, fee.value, |valid|) {
          ghost var tail := Prune(rules, policy, After(rules, u, tx), pool[i + 1..], |valid| + 1);
          assert valid + ([tx] + tail) == valid + [tx] + tail;
          valid := valid + [tx];
        }
      }
      assert pool[|pool|..] == [];
      mempool := valid;
    }

    method PruneMempool() returns (removed: int)
      requires Valid()
      modifies this`mempool
      ensures Valid() && Abs() == Step(rules, policy, genesis, old(Abs()), Event.Pruning)
      ensures removed == |old(mempool)| - |mempool|
    {
      hide StoreOk, Prune;
      var before := |mempool|;
      PruneInvalidMempool();
      PruneDistinct(rules, policy, state.U(), old(mempool), 0);
      return before - |mempool|;
    }

    method ClearMempool() returns (removed: int)
      requires Valid()
      modifies this`mempool
      ensures Valid() && Abs() == Step(rules, policy, genesis, old(Abs()), Clearing)
      ensures removed == |old(mempool)| && mempool == []
    {
      hide StoreOk;
      removed := |mempool|;
      mempool := [];
    }

    // ---- blocks -----------------------------------------------------------------------------

    /** Replays a stored branch, as fork choice does before it trusts one. */
    method ReplayBranch(h: Hash) returns (res: Result<seq<Block>>, replayed: ConsensusState)
      requires Valid()
      ensures fresh(replayed) && fresh(replayed.utxos) && replayed.rules == rules
      ensures res.Ok? <==> h in store.table
      ensures res.Ok? ==> res.value == Branch(rules, store.table, h) && replayed.U() == StateAt(rules, store.table, h)
      ensures res.Ok? ==> res.value != [] && res.value[|res.value| - 1] == store.table[h].block
    {
      hide ChainOk, Branch;
      replayed := new ConsensusState(rules, map[]);
      res := store.ChainToTip(h);
      if res.Ok? {
        var rebuilt, after := RebuildStateFromBlocks(rules, res.value);
        assert rebuilt.Ok?;
        assert LinkedAt(rules, store.table, h);
        replayed := after;
      }
    }

    method ValidateImportCandidate(b: Block) returns (res: Result<()>)
      requires Valid()
      ensures res.Ok? <==>
              b.height != 0 && b.previousHash in store.table &&
              BlockOk(rules, StateAt(rules, store.table, b.previousHash), b, b.height, b.previousHash)
    {
      hide ChainOk, Branch, BlockOk, StateAt;
      if b.height == 0 {
        var tip := store.BestTip();
        if tip.Some? {
          return Err("genesis block already exists");
        }
      }
      var parent, replayed := ReplayBranch(b.previousHash);
      if parent.Err? {
        return Err("block parent is unknown");
      }
      var processor := new BlockProcessor(replayed);
      var applied := processor.ApplyBlock(b, b.height, b.previousHash);
      if applied.Err? {
        return Err(applied.error);
      }
      return Ok(());
    }

    /** Writes the imported tip and the active tip to the index. */
    method UpdateIndex(h: Hash, tip: Hash, active: seq<Block>) returns (res: Result<()>)
      requires Valid() && index != null && h in store.table && tip in store.table
      requires active == Branch(rules, store.table, tip) && state.U() == StateAt(rules, store.table, tip)
      modifies index
      ensures res.Ok? <==> Reindex(rules, store.table, old(index.tables), h, tip).complete
      ensures index.tables == Reindex(rules, store.table, old(index.tables), h, tip).index
    {
      hide ChainOk, Branch, StateAt, Rows, AllTxs, TableOf, DistinctKeys, StoreOk;
      assert Linked(rules, store.table) by {
        LinkedOf(rules, store.table, genesis);
      }
      var imported, replayed := ReplayBranch(h);
      index.SaveTipSnapshot(h, replayed.utxos.entries);
      var first := index.SaveTipSpends(h, imported.value);
      if first.Err? {
        return first;
      }
      index.SaveSnapshot(tip, state.utxos.entries);
      res := index.SaveTipSpends(tip, active);
    }

    /** Makes the best branch active, then indexes the imported tip and prunes the pool. */
    method Activate(b: Block, oldTip: Block) returns (res: Result<()>)
      requires Valid() && rules.blockHash(b) in store.table
      modifies this`state, this`lastReorg, this`mempool, index
      ensures Valid()
      ensures Abs() == Activated(rules, policy, genesis, old(Abs()), b, oldTip)
      ensures index != null ==>
                (res.Ok? <==> CanIndex(rules, store.table, old(index.tables), rules.blockHash(b)))
      ensures index == null ==> res.Ok?
      ensures fresh(state) && fresh(state.utxos)
    {
      hide ChainOk, Branch, StateAt, StoreOk, Reindex, Prune, Pick, Staying, DetectReorg, LinkedAt, Linked, IsTip, DistinctTxids;
      var h := rules.blockHash(b);
      LinkedOf(rules, store.table, genesis);
      StoreNonEmpty(rules, store.table, genesis);
      var tip := store.BestTip();
      var active, replayed := ReplayBranch(tip.value);
      state := replayed;
      lastReorg := DetectReorg(rules, oldTip, active.value[|active.value| - 1]);
      if index != null {
        var indexed := UpdateIndex(h, tip.value, active.value);
        if indexed.Err? {
          return indexed;
        }
      }
      DistinctPick(rules, mempool, Staying(rules, mempool, b.transactions));
      mempool := ListStaying(b.transactions);
      PruneDistinct(rules, policy, state.U(), mempool, 0);
      PruneInvalidMempool();
      return Ok(());
    }

    /**
     Takes the arrival step of the state machine. A refused block only enters the cache of
     refused hashes; after the block is stored, replaying the active branch cannot fail.
     */
    method ImportBlock(b: Block) returns (res: Result<Stored>)
      requires Valid()
      modifies this, store, index
      ensures Valid() && Abs() == Step(rules, policy, genesis, old(Abs()), Arrival(b))
      ensures res.Ok? ==> rules.blockHash(b) in store.table && res.value == store.table[rules.blockHash(b)]
      ensures res.Ok? <==>
              Takes(rules, old(Abs()).forks, b) &&
              (index != null ==> CanIndex(rules, store.table, old(index.tables), rules.blockHash(b)))
      ensures state == old(state) || (fresh(state) && fresh(state.utxos))
    {
      hide ChainOk, Branch, BlockOk, StateAt, StoreOk, Reindex, PoolAfter, DetectReorg, Put, LinkedAt, Linked, IsTip, DistinctTxids;
      ghost var before := Abs();
      LinkedOf(rules, store.table, genesis);
      ImportKeepsStore(rules, before.forks, b, genesis);
      StoreNonEmpty(rules, store.table, genesis);
      var h := rules.blockHash(b);
      var was := store.BestTip();
      if h in invalid {
        return Err("block is cached as invalid");
      }
      var valid := ValidateImportCandidate(b);
      if valid.Err? {
        invalid := invalid + {h};
        return Err(valid.error);
      }
      var oldTip := store.table[was.value].block;
      var stored := store.PutBlock(b);
      if stored.Err? {
        invalid := invalid + {h};
        return stored;
      }
      assert store.table == Import(rules, before.forks, b).store;
      var activated := Activate(b, oldTip);
      if activated.Err? {
        return Err(activated.error);
      }
      return stored;
    }

    // ---- building a block -------------------------------------------------------------------

    /** The inner loop: the applicable entry with the highest score. */
    method BestPending(candidate: ConsensusState, pending: seq<Tx>) returns (best: Option<nat>)
      requires candidate.rules == rules
      ensures best == BestOf(rules, candidate.U(), pending, |pending|)
    {
      hide CanApply, After, Higher;
      best := None;
      var bestScore := Score(0, 0, ZERO_HASH);
      for i := 0 to |pending|
        invariant best == BestOf(rules, candidate.U(), pending, i)
        invariant best.Some? ==> best.value < i && bestScore == ScoreAt(rules, candidate.U(), pending[best.value])
      {
        var trial := new ConsensusState(rules, candidate.utxos.entries);
        var fee := trial.ApplyTransaction(pending[i]);
        if fee.Ok? {
          var score := ScoreFor(rules, pending[i], fee.value);
          if best.None? || Higher(score, bestScore) {
            best, bestScore := Some(i), score;
          }
        }
      }
    }

    /** Repeatedly takes the best applicable entry; fails where none of the rest applies. */
    method PrioritizedMempoolTransactions(candidate: ConsensusState) returns (res: Result<(seq<Tx>, int)>)
      requires candidate.rules == rules
      modifies candidate
      ensures var g := Greedy(rules, old(candidate.U()), mempool);
              (res.Ok? <==> g.Some?) &&
              (res.Ok? ==>
                 res.value == (g.value, Sum(Fees(rules, old(candidate.U()), g.value))) &&
                 candidate.U() == Final(rules, old(candidate.U()), g.value))
      ensures candidate.utxos == old(candidate.utxos) || fresh(candidate.utxos)
    {
      hide CanApply, After, Fee, BestOf, ScoreAt, Higher;
      var pending, selected, fees := mempool, [], 0;
      ghost var u := candidate.U();
      assert Greedy(rules, u, mempool).Some? ==> [] + Greedy(rules, u, mempool).value == Greedy(rules, u, mempool).value;
      while pending != []
        invariant candidate.utxos == old(candidate.utxos) || fresh(candidate.utxos)
        invariant candidate.U() == Final(rules, u, selected) && fees == Sum(Fees(rules, u, selected))
        invariant Greedy(rules, u, mempool) == Prefixed(selected, Greedy(rules, candidate.U(), pending))
        decreases |pending|
      {
        BestOfIsBest(rules, candidate.U(), pending, |pending|);
        var best := BestPending(candidate, pending);
        if best.None? {
          return Err("mempool contains transactions that cannot be mined");
        }
        var tx := pending[best.value];
        ReplaySnoc(rules, u, selected, tx);
        SumSnoc(Fees(rules, u, selected), Fee(Final(rules, u, selected), tx));
        PrefixedSnoc(selected, tx, Greedy(rules, After(rules, candidate.U(), tx), Without(pending, best.value)));
        pending := Without(pending, best.value);
        var fee := candidate.ApplyTransaction(tx);
        fees := fees + fee.value;
        selected := selected + [tx];
      }
      assert selected + [] == selected;
      return Ok((selected, fees));
    }

    /** The unmined block at nonce zero. */
    method BuildCandidateBlock(miner: Text, stamp: Stamp) returns (res: Result<Block>)
      requires Valid()
      ensures res.Ok? <==>
              rules.validAddress(miner) && Greedy(rules, state.U(), mempool).Some? &&
              var sel := Greedy(rules, state.U(), mempool).value;
              Sum(Fees(rules, state.U(), sel)) >= 0 &&
              Total(Final(rules, state.U(), sel)) + rules.subsidy <= rules.maxMoney
      ensures res.Ok? ==>
                var sel := Greedy(rules, state.U(), mempool).value;
                var tip := store.table[Tip(store.table)].block;
                res.value == Candidate(rules, miner, sel, Sum(Fees(rules, state.U(), sel)), tip.height + 1,
                                       rules.blockHash(tip), difficulty, stamp, 0)
    {
      hide Greedy, Final, Fees, Sum, Total, ChainOk, Branch;
      StoreNonEmpty(rules, store.table, genesis);
      if !rules.validAddress(miner) {
        return Err("invalid miner address");
      }
      var candidate := new ConsensusState(rules, state.utxos.entries);
      var chosen := PrioritizedMempoolTransactions(candidate);
      if chosen.Err? {
        return Err(chosen.error);
      }
      var tip := store.BestTip();
      assert LinkedAt(rules, store.table, tip.value);
      var height := store.table[tip.value].block.height + 1;
      var coinbase := candidate.CreateCoinbase(miner, chosen.value.1, height);
      if coinbase.Err? {
        return Err(coinbase.error);
      }
      var txs := [coinbase.value] + chosen.value.0;
      return Ok(Block(1, height, tip.value, rules.merkleRoot(txs), difficulty, stamp, 0, txs));
    }
  }

  /** Puts what is already selected in front of what assembly will still select. */
  function Prefixed(selected: seq<Tx>, rest: Option<seq<Tx>>): Option<seq<Tx>>
  {
    match rest
    case None => None
    case Some(more) => Some(selected + more)
  }

  lemma PrefixedSnoc(selected: seq<Tx>, tx: Tx, rest: Option<seq<Tx>>)
    ensures rest.Some? ==> selected + ([tx] + rest.value) == selected + [tx] + rest.value
  {
  }

  /** No later entry of the list has the same txid. */
  ghost predicate IsLast(r: Rules, txs: seq<Tx>, i: nat)
    requires i < |txs|
  {
    forall j | i < j < |txs| :: r.txid(txs[j]) != r.txid(txs[i])
  }

  /** `fees` has the txids of the list, each with the fee of the last entry that has it. */
  ghost predicate LastFees(r: Rules, u: UtxoMap, txs: seq<Tx>, fees: map<Hash, int>)
  {
    (forall i | 0 <= i < |txs| && IsLast(r, txs, i) ::
       r.txid(txs[i]) in fees && fees[r.txid(txs[i])] == Fees(r, u, txs)[i]) &&
    forall id | id in fees :: HasTxid(r, txs, id)
  }

  lemma NoFees(r: Rules, u: UtxoMap, txs: seq<Tx>)
    requires txs == []
    ensures LastFees(r, u, txs, map[]) && Replays(r, u, txs) && Final(r, u, txs) == u
  {
  }

  lemma LastFeesSnoc(r: Rules, u: UtxoMap, txs: seq<Tx>, t: Tx, fees: map<Hash, int>)
    requires LastFees(r, u, txs, fees)
    ensures LastFees(r, u, txs + [t], fees[r.txid(t) := Fee(Final(r, u, txs), t)])
  {
    hide CanApply, After, Fee, Replays, Final, Fees;
    ReplaySnoc(r, u, txs, t);
    var whole := txs + [t];
    assert forall i | 0 <= i < |txs| :: whole[i] == txs[i];
    assert whole[|txs|] == t;
    forall i | 0 <= i < |txs| && IsLast(r, whole, i)
      ensures IsLast(r, txs, i) && r.txid(txs[i]) != r.txid(t)
    {
    }
  }

  lemma StoreNonEmpty(r: Rules, s: Store, genesis: Block)
    requires StoreOk(r, s, genesis)
    ensures s.Keys != {} && Tip(s) in s
  {
    assert r.blockHash(genesis) in s.Keys;
  }

  lemma SharedInput(a: Tx, b: Tx)
    ensures Inputs(a) * Inputs(b) != {} <==> Conflicts(a, b)
  {
    if Inputs(a) * Inputs(b) != {} {
      var o :| o in Inputs(a) * Inputs(b);
    }
    if Conflicts(a, b) {
      var o :| o in Inputs(a) && o in Inputs(b);
      assert o in Inputs(a) * Inputs(b);
    }
  }

  lemma DistinctPick(r: Rules, pool: seq<Tx>, keep: seq<bool>)
    requires |keep| == |pool| && DistinctTxids(r, pool)
    ensures DistinctTxids(r, Pick(pool, keep))
  {
    PickAt(pool, keep);
    forall i, j | 0 <= i < j < Count(keep)
      ensures Place(keep, i) < Place(keep, j)
    {
      PlaceIncreases(keep, i, j);
    }
  }

  /** Admission never lets a txid in twice. */
  lemma SubmitDistinct(r: Rules, p: Policy, u: UtxoMap, pool: seq<Tx>, tx: Tx)
    requires DistinctTxids(r, pool)
    ensures Submit(r, p, u, pool, tx).Some? ==> DistinctTxids(r, Submit(r, p, u, pool, tx).value)
  {
    hide Replays, Final, Fees, CanApply, Fee, Pick, ReplacedFee, Higher, FeeRate, RawPolicy.Admits;
    var keep := Staying(r, pool, Replaced(pool, tx));
    DistinctPick(r, pool, keep);
    PickFrom(pool, keep);
    if !HasTxid(r, pool, r.txid(tx)) {
      var rest := Remaining(r, pool, tx);
      assert forall i | 0 <= i < |rest| :: rest[i] in rest;
      assert forall x | x in pool :: r.txid(x) != r.txid(tx);
    }
  }

  /** Pruning only removes entries. */
  lemma {:induction false} PruneDistinct(r: Rules, p: Policy, u: UtxoMap, pool: seq<Tx>, count: nat)
    requires DistinctTxids(r, pool)
    ensures DistinctTxids(r, Prune(r, p, u, pool, count))
    ensures forall x | x in Prune(r, p, u, pool, count) :: x in pool
    decreases |pool|
  {
    hide CanApply, After, Fee, RawPolicy.Admits;
    if pool != [] {
      var rest := pool[1..];
      assert forall i | 0 <= i < |rest| :: rest[i] == pool[i + 1];
      PruneDistinct(r, p, u, rest, count);
      PruneDistinct(r, p, After(r, u, pool[0]), rest, count);
      PruneDistinct(r, p, After(r, u, pool[0]), rest, count + 1);
      var kept := Prune(r, p, After(r, u, pool[0]), rest, count + 1);
      assert forall i | 0 <= i < |kept| :: kept[i] in kept;
    }
  }
}
