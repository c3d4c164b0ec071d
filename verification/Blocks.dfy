/**
 Blocks and chains of blocks: when a block is valid on a state, what it does to it,
 the processor that validates on a copy before it touches the live state, and what
 every replayed chain says about the money supply.
 */
module Blocks {
  import opened Bytes
  import opened Ledger
  import opened Utxo
  import opened Replay
  import opened Consensus

  // ---- one block --------------------------------------------------------------------

  predicate HeaderOk(r: Rules, b: Block, height: int, previous: Hash)
  {
    b.version == 1 && b.height == height && b.previousHash == previous &&
    b.difficulty >= 0 && LeadingZeros(r.blockHash(b), b.difficulty) &&
    b.transactionRoot == r.merkleRoot(b.transactions)
  }

  predicate CoinbaseFirst(b: Block)
  {
    b.transactions != [] && IsCoinbase(b.transactions[0]) &&
    forall i | 1 <= i < |b.transactions| :: !IsCoinbase(b.transactions[i])
  }

  predicate IsGenesisSlot(b: Block)
  {
    b.height == 0 && b.previousHash == ZERO_HASH
  }

  function Spends(b: Block): seq<Tx>
    requires b.transactions != []
  {
    b.transactions[1..]
  }

  function BlockFees(r: Rules, u: UtxoMap, b: Block): int
    requires b.transactions != []
  {
    Sum(Fees(r, u, Spends(b)))
  }

  function Allowance(r: Rules, u: UtxoMap, b: Block): Option<int>
    requires b.transactions != []
  {
    if IsGenesisSlot(b) then None else Some(r.subsidy + BlockFees(r, u, b))
  }

  ghost predicate BlockOk(r: Rules, u: UtxoMap, b: Block, height: int, previous: Hash)
  {
    HeaderOk(r, b, height, previous) && CoinbaseFirst(b) &&
    Replays(r, u, Spends(b)) &&
    CanMint(r, Final(r, u, Spends(b)), b.transactions[0], Allowance(r, u, b))
  }

  function BlockAfter(r: Rules, u: UtxoMap, b: Block): UtxoMap
    requires b.transactions != []
  {
    After(r, Final(r, u, Spends(b)), b.transactions[0])
  }

  lemma FeesNonNegative(r: Rules, u: UtxoMap, b: Block)
    requires CoinbaseFirst(b) && Replays(r, u, Spends(b))
    ensures BlockFees(r, u, b) >= 0
    ensures Total(Final(r, u, Spends(b))) == Total(u) - BlockFees(r, u, b)
  {
    var txs := Spends(b);
    assert forall i | 0 <= i < |txs| :: txs[i] == b.transactions[i + 1];
    ReplayConserves(r, u, txs);
    SumNonNegative(Fees(r, u, txs));
  }

  class BlockProcessor {
    const state: ConsensusState

    constructor (s: ConsensusState)
      ensures state == s
    {
      state := s;
    }

    /** One pass over a block's transactions; a failed pass may stop half way. */
    static method Pass(s: ConsensusState, b: Block) returns (res: Result<int>)
      requires CoinbaseFirst(b)
      modifies s
      ensures res.Ok? <==>
              Replays(s.rules, old(s.U()), Spends(b)) &&
              CanMint(s.rules, Final(s.rules, old(s.U()), Spends(b)), b.transactions[0], Allowance(s.rules, old(s.U()), b))
      ensures res.Ok? ==> res.value == BlockFees(s.rules, old(s.U()), b)
      ensures res.Ok? ==> s.U() == BlockAfter(s.rules, old(s.U()), b)
      ensures s.utxos == old(s.utxos) || fresh(s.utxos)
    {
      hide CanMint, After, Fee, CanApply;
      ghost var u := s.U();
      var fees := s.ApplyAll(b.transactions[1..]);
      if fees.Err? {
        return fees;
      }
      FeesNonNegative(s.rules, u, b);
      var minted: Result<()>;
      if b.height == 0 && b.previousHash == ZERO_HASH {
        minted := s.ApplyGenesisCoinbase(b.transactions[0]);
      } else {
        minted := s.ApplyBlockCoinbase(b.transactions[0], fees.value);
      }
      if minted.Err? {
        return Err(minted.error);
      }
      return fees;
    }

    /** Decides on a copy; the live state is not touched. */
    method ValidateBlock(b: Block, height: int, previous: Hash) returns (res: Result<int>)
      ensures res.Ok? <==> BlockOk(state.rules, state.U(), b, height, previous)
      ensures res.Ok? ==> res.value == BlockFees(state.rules, state.U(), b)
    {
      if b.version != 1 {
        return Err("block version is unsupported");
      }
      if b.height != height {
        return Err("block height is invalid");
      }
      if b.previousHash != previous {
        return Err("block previous hash is invalid");
      }
      if b.difficulty < 0 {
        return Err("block difficulty cannot be negative");
      }
      if !LeadingZeros(state.rules.blockHash(b), b.difficulty) {
        return Err("block proof of work is invalid");
      }
      if b.transactionRoot != state.rules.merkleRoot(b.transactions) {
        return Err("block transaction root is invalid");
      }
      if b.transactions == [] {
        return Err("block has no transactions");
      }
      if !IsCoinbase(b.transactions[0]) {
        return Err("first transaction must be coinbase");
      }
      if exists i | 1 <= i < |b.transactions| :: IsCoinbase(b.transactions[i]) {
        return Err("block has multiple coinbase transactions");
      }
      var candidate := new ConsensusState(state.rules, state.utxos.entries);
      res := Pass(candidate, b);
    }

    /**
     Validates on a copy, then applies to the live state. The second pass would leave a
     half-applied block behind if it could fail; the contract says that it cannot.
     */
    method ApplyBlock(b: Block, height: int, previous: Hash) returns (res: Result<int>)
      modifies state
      ensures res.Ok? <==> BlockOk(state.rules, old(state.U()), b, height, previous)
      ensures res.Ok? ==> res.value == BlockFees(state.rules, old(state.U()), b)
      ensures state.U() == if res.Ok? then BlockAfter(state.rules, old(state.U()), b) else old(state.U())
      ensures state.utxos == old(state.utxos) || fresh(state.utxos)
    {
      var fees := ValidateBlock(b, height, previous);
      if fees.Err? {
        return fees;
      }
      var live := Pass(state, b);
      if live.Err? {
        return live;
      }
      return fees;
    }
  }

  // ---- chains -----------------------------------------------------------------------

  function TipHash(r: Rules, blocks: seq<Block>): Hash
  {
    if blocks == [] then ZERO_HASH else r.blockHash(blocks[|blocks| - 1])
  }

  /** Every block is valid on the state its predecessors leave, starting from nothing. */
  ghost predicate ChainOk(r: Rules, blocks: seq<Block>)
  {
    blocks == [] ||
    var n := |blocks| - 1;
    ChainOk(r, blocks[..n]) && BlockOk(r, ChainUtxos(r, blocks[..n]), blocks[n], n, TipHash(r, blocks[..n]))
  }

  function ChainUtxos(r: Rules, blocks: seq<Block>): UtxoMap
  {
    if blocks == [] then map[] else
    var n := |blocks| - 1;
    if blocks[n].transactions == [] then ChainUtxos(r, blocks[..n])
    else BlockAfter(r, ChainUtxos(r, blocks[..n]), blocks[n])
  }

  lemma {:induction false} ChainPrefix(r: Rules, blocks: seq<Block>, n: nat)
    requires ChainOk(r, blocks) && n <= |blocks|
    ensures ChainOk(r, blocks[..n])
  {
    hide BlockOk, ChainUtxos;
    if n == |blocks| {
      assert blocks[..n] == blocks;
    } else {
      ChainPrefix(r, blocks[..|blocks| - 1], n);
      assert blocks[..|blocks| - 1][..n] == blocks[..n];
    }
  }

  /** One block more on a chain. */
  lemma ChainSnoc(r: Rules, blocks: seq<Block>, i: nat)
    requires i < |blocks|
    ensures ChainOk(r, blocks[..i + 1]) <==>
            ChainOk(r, blocks[..i]) && BlockOk(r, ChainUtxos(r, blocks[..i]), blocks[i], i, TipHash(r, blocks[..i]))
    ensures blocks[i].transactions != [] ==>
              ChainUtxos(r, blocks[..i + 1]) == BlockAfter(r, ChainUtxos(r, blocks[..i]), blocks[i])
    ensures TipHash(r, blocks[..i + 1]) == r.blockHash(blocks[i])
  {
    hide BlockOk, BlockAfter;
    var upTo := blocks[..i + 1];
    assert upTo[..i] == blocks[..i] && upTo[i] == blocks[i];
  }

  lemma BlockHasTransactions(r: Rules, u: UtxoMap, b: Block, height: int, previous: Hash)
    requires BlockOk(r, u, b, height, previous)
    ensures b.transactions != []
  {
  }

  method RebuildStateFromBlocks(r: Rules, blocks: seq<Block>) returns (res: Result<int>, state: ConsensusState)
    ensures res.Ok? <==> ChainOk(r, blocks)
    ensures fresh(state) && fresh(state.utxos) && state.rules == r
    ensures res.Ok? ==> state.U() == ChainUtxos(r, blocks)
  {
    hide BlockOk, BlockAfter, BlockFees, ChainOk, ChainUtxos, TipHash;
    state := new ConsensusState(r, map[]);
    var processor := new BlockProcessor(state);
    var previous := ZERO_HASH;
    var i := 0;
    assert blocks[..0] == [];
    EmptyChain(r);
    while i < |blocks|
      invariant 0 <= i <= |blocks|
      invariant ChainOk(r, blocks[..i])
      invariant state.U() == ChainUtxos(r, blocks[..i])
      invariant previous == TipHash(r, blocks[..i])
      invariant fresh(state.utxos)
    {
      ChainSnoc(r, blocks, i);
      ghost var u := state.U();
      var applied := processor.ApplyBlock(blocks[i], i, previous);
      if applied.Err? {
        if ChainOk(r, blocks) {
          ChainPrefix(r, blocks, i + 1);
        }
        return Err(applied.error), state;
      }
      BlockHasTransactions(r, u, blocks[i], i, previous);
      previous := r.blockHash(blocks[i]);
      i := i + 1;
    }
    assert blocks[..i] == blocks;
    return Ok(0), state;
  }

  lemma EmptyChain(r: Rules)
    ensures ChainOk(r, []) && ChainUtxos(r, []) == map[] && TipHash(r, []) == ZERO_HASH
  {
  }

  // ---- supply -----------------------------------------------------------------------

  lemma {:induction false} SumNonNegative(s: seq<int>)
    requires forall i | 0 <= i < |s| :: s[i] >= 0
    ensures Sum(s) >= 0
  {
    if s != [] {
      SumNonNegative(s[1..]);
    }
  }

  /** What all coinbases of a chain pay out. */
  function Minted(blocks: seq<Block>): int
  {
    if blocks == [] then 0 else
    var b := blocks[|blocks| - 1];
    Minted(blocks[..|blocks| - 1]) + if b.transactions == [] then 0 else OutputTotal(b.transactions[0].outputs)
  }

  /** What all spends of a chain leave as fees. */
  function Burned(r: Rules, blocks: seq<Block>): int
  {
    if blocks == [] then 0 else
    var n := |blocks| - 1;
    Burned(r, blocks[..n]) +
    if blocks[n].transactions == [] then 0 else BlockFees(r, ChainUtxos(r, blocks[..n]), blocks[n])
  }

  lemma BlockSupply(r: Rules, u: UtxoMap, b: Block, height: int, previous: Hash)
    requires BlockOk(r, u, b, height, previous)
    ensures Total(BlockAfter(r, u, b)) == Total(u) - BlockFees(r, u, b) + OutputTotal(b.transactions[0].outputs)
    ensures Total(BlockAfter(r, u, b)) <= r.maxMoney
    ensures BlockFees(r, u, b) >= 0
    ensures height > 0 ==> OutputTotal(b.transactions[0].outputs) <= r.subsidy + BlockFees(r, u, b)
  {
    FeesNonNegative(r, u, b);
    CoinbaseAdds(r, Final(r, u, Spends(b)), b.transactions[0]);
  }

  /**
   Along every replayed chain the supply is what the coinbases paid out less the fees,
   it stays within the cap, and it grows by at most the subsidy per block after the first.
   */
  lemma {:induction false} SupplyOfChain(r: Rules, blocks: seq<Block>)
    requires ChainOk(r, blocks)
    ensures Total(ChainUtxos(r, blocks)) == Minted(blocks) - Burned(r, blocks)
    ensures Total(ChainUtxos(r, blocks)) <= r.maxMoney
    ensures blocks != [] ==>
              blocks[0].transactions != [] &&
              Total(ChainUtxos(r, blocks)) <= OutputTotal(blocks[0].transactions[0].outputs) + (|blocks| - 1) * r.subsidy
  {
    hide BlockAfter, BlockFees, Total, OutputTotal, HeaderOk, Replays, CanMint;
    if blocks == [] {
      assert Total(map[]) == 0 by {
        EmptyTotal();
      }
    } else {
      var n := |blocks| - 1;
      SupplyOfChain(r, blocks[..n]);
      BlockSupply(r, ChainUtxos(r, blocks[..n]), blocks[n], n, TipHash(r, blocks[..n]));
      if n > 0 {
        assert blocks[..n][0] == blocks[0];
        assert n * r.subsidy == (n - 1) * r.subsidy + r.subsidy;
      }
    }
  }
}
