/**
 The fork store: blocks by hash with cumulative work, the branch below a block, the best
 tip, and what importing a block does to the store and to the cache of refused hashes.
 */
module ForkStore {
  import opened Bytes
  import opened Ledger
  import opened Utxo
  import opened Blocks

  datatype Stored = Stored(block: Block, work: nat)

  type Store = map<Hash, Stored>

  function Pow2(n: int): (w: nat)
    ensures w > 0
  {
    if n <= 0 then 1 else 2 * Pow2(n - 1)
  }

  function Work(b: Block): (w: nat)
    ensures w > 0
  {
    Pow2(b.difficulty)
  }

  // ---- branches -----------------------------------------------------------------------

  /** The entry sits on a parent that is one lower and has the rest of its work. */
  ghost predicate LinkedAt(r: Rules, s: Store, h: Hash)
    requires h in s
  {
    var b := s[h].block;
    r.blockHash(b) == h &&
    if b.height == 0 then b.previousHash == ZERO_HASH && s[h].work == Work(b)
    else
      b.height > 0 && b.previousHash in s && s[b.previousHash].block.height == b.height - 1 &&
      s[h].work == s[b.previousHash].work + Work(b)
  }

  ghost predicate Linked(r: Rules, s: Store)
  {
    forall h | h in s :: LinkedAt(r, s, h)
  }

  /** The blocks from the root of the tree up to `h`. */
  ghost function Branch(r: Rules, s: Store, h: Hash): (blocks: seq<Block>)
    requires Linked(r, s) && h in s
    ensures |blocks| == s[h].block.height + 1
    ensures blocks[|blocks| - 1] == s[h].block
    decreases s[h].block.height
  {
    assert LinkedAt(r, s, h);
    var b := s[h].block;
    if b.height == 0 then [b] else Branch(r, s, b.previousHash) + [b]
  }

  /** A well-formed store: one root, and every branch replays from it without error. */
  ghost predicate StoreOk(r: Rules, s: Store, genesis: Block)
  {
    Linked(r, s) && r.blockHash(genesis) in s && s[r.blockHash(genesis)].block == genesis && genesis.height == 0 &&
    (forall h | h in s :: s[h].block.height == 0 ==> h == r.blockHash(genesis)) &&
    (forall h | h in s :: ChainOk(r, Branch(r, s, h)))
  }

  /** The state that replaying the branch up to `h` ends in. */
  ghost function StateAt(r: Rules, s: Store, h: Hash): UtxoMap
    requires Linked(r, s) && h in s
  {
    ChainUtxos(r, Branch(r, s, h))
  }

  // ---- best tip -----------------------------------------------------------------------

  /** More work, then more height, then the smaller hash. */
  predicate Better(s: Store, a: Hash, b: Hash)
    requires a in s && b in s
  {
    var x, y := s[a], s[b];
    x.work > y.work ||
    (x.work == y.work && (x.block.height > y.block.height || (x.block.height == y.block.height && Less(a, b))))
  }

  predicate IsTip(s: Store, h: Hash)
  {
    h in s && forall k | k in s && k != h :: Better(s, h, k)
  }

  lemma BetterTotal(s: Store, a: Hash, b: Hash)
    requires a in s && b in s
    ensures a == b || Better(s, a, b) || Better(s, b, a)
    ensures !(Better(s, a, b) && Better(s, b, a))
  {
    LessTotal(a, b);
    if Less(a, b) && Less(b, a) {
      LessTransitive(a, b, a);
    }
    LessIrreflexive(a);
  }

  lemma BetterTransitive(s: Store, a: Hash, b: Hash, c: Hash)
    requires a in s && b in s && c in s && Better(s, a, b) && Better(s, b, c)
    ensures Better(s, a, c)
  {
    if Less(a, b) && Less(b, c) {
      LessTransitive(a, b, c);
    }
  }

  /** Every nonempty set of stored hashes has a best one. */
  lemma {:induction false} BestIn(s: Store, keys: set<Hash>) returns (h: Hash)
    requires keys != {} && keys <= s.Keys
    ensures h in keys && forall k | k in keys && k != h :: Better(s, h, k)
    decreases keys
  {
    var x :| x in keys;
    if keys == {x} {
      h := x;
    } else {
      var rest := keys - {x};
      assert keys == {x} + rest;
      h := BestIn(s, rest);
      BetterTotal(s, x, h);
      if Better(s, x, h) {
        forall k | k in keys && k != x
          ensures Better(s, x, k)
        {
          if k != h {
            BetterTransitive(s, x, h, k);
          }
        }
        h := x;
      }
    }
  }

  ghost function Tip(s: Store): (h: Hash)
    requires s.Keys != {}
    ensures IsTip(s, h)
  {
    assert exists h :: IsTip(s, h) by {
      var h := BestIn(s, s.Keys);
      assert IsTip(s, h);
    }
    var h :| IsTip(s, h);
    h
  }

  lemma TipIsUnique(s: Store, a: Hash, b: Hash)
    requires IsTip(s, a) && IsTip(s, b)
    ensures a == b
  {
    BetterTotal(s, a, b);
  }

  // ---- importing ----------------------------------------------------------------------

  /** Validation on the parent's branch succeeds and the store takes the block. */
  ghost predicate Accepts(r: Rules, s: Store, b: Block)
    requires Linked(r, s)
  {
    b.height != 0 && b.previousHash in s &&
    BlockOk(r, StateAt(r, s, b.previousHash), b, b.height, b.previousHash) &&
    (r.blockHash(b) in s || b.height == s[b.previousHash].block.height + 1)
  }

  function Put(r: Rules, s: Store, b: Block): Store
    requires b.previousHash in s
  {
    if r.blockHash(b) in s then s
    else s[r.blockHash(b) := Stored(b, s[b.previousHash].work + Work(b))]
  }

  /** The part of the node that imports change regardless of the mempool. */
  datatype Forks = Forks(store: Store, invalid: set<Hash>)

  ghost predicate Takes(r: Rules, f: Forks, b: Block)
    requires Linked(r, f.store)
  {
    r.blockHash(b) !in f.invalid && Accepts(r, f.store, b)
  }

  ghost function Import(r: Rules, f: Forks, b: Block): Forks
    requires Linked(r, f.store)
  {
    if r.blockHash(b) in f.invalid then f
    else if Accepts(r, f.store, b) then Forks(Put(r, f.store, b), f.invalid)
    else Forks(f.store, f.invalid + {r.blockHash(b)})
  }

  ghost predicate Extends(s: Store, t: Store)
  {
    forall h | h in s :: h in t && t[h] == s[h]
  }

  /** Blocks that come later do not change the branches that were there. */
  lemma {:induction false} BranchFrame(r: Rules, s: Store, t: Store, h: Hash)
    requires Linked(r, s) && Linked(r, t) && Extends(s, t) && h in s
    ensures Branch(r, s, h) == Branch(r, t, h)
    decreases s[h].block.height
  {
    assert LinkedAt(r, s, h);
    if s[h].block.height > 0 {
      BranchFrame(r, s, t, s[h].block.previousHash);
    }
  }

  lemma PutLinks(r: Rules, s: Store, b: Block)
    requires Linked(r, s) && b.height != 0 && b.previousHash in s && r.blockHash(b) !in s
    requires b.height == s[b.previousHash].block.height + 1
    ensures Linked(r, Put(r, s, b)) && Extends(s, Put(r, s, b))
  {
    var t := Put(r, s, b);
    assert LinkedAt(r, s, b.previousHash);
    forall h | h in t
      ensures LinkedAt(r, t, h)
    {
      if h != r.blockHash(b) {
        assert LinkedAt(r, s, h);
      }
    }
  }

  /** The new branch is the parent's branch and the block. */
  lemma NewBranch(r: Rules, s: Store, b: Block)
    requires Linked(r, s) && b.height != 0 && b.previousHash in s && r.blockHash(b) !in s
    requires b.height == s[b.previousHash].block.height + 1
    ensures Linked(r, Put(r, s, b))
    ensures Branch(r, Put(r, s, b), r.blockHash(b)) == Branch(r, s, b.previousHash) + [b]
  {
    PutLinks(r, s, b);
    BranchFrame(r, s, Put(r, s, b), b.previousHash);
  }

  /** Importing any block keeps the store well formed. */
  lemma ImportKeepsStore(r: Rules, f: Forks, b: Block, genesis: Block)
    requires StoreOk(r, f.store, genesis)
    ensures StoreOk(r, Import(r, f, b).store, genesis)
    ensures Extends(f.store, Import(r, f, b).store)
  {
    hide BlockOk, ChainOk, Work, Branch;
    var s := f.store;
    if Takes(r, f, b) && r.blockHash(b) !in s {
      var t := Put(r, s, b);
      PutLinks(r, s, b);
      NewBranch(r, s, b);
      var parent := Branch(r, s, b.previousHash);
      assert LinkedAt(r, s, b.previousHash);
      BranchStep(r, parent, b);
      forall h | h in t
        ensures ChainOk(r, Branch(r, t, h))
      {
        if h != r.blockHash(b) {
          BranchFrame(r, s, t, h);
        }
      }
    }
  }

  lemma BranchStep(r: Rules, parent: seq<Block>, b: Block)
    requires ChainOk(r, parent) && BlockOk(r, ChainUtxos(r, parent), b, b.height, b.previousHash)
    requires b.height == |parent| && b.previousHash == TipHash(r, parent)
    ensures ChainOk(r, parent + [b])
    ensures ChainUtxos(r, parent + [b]) == BlockAfter(r, ChainUtxos(r, parent), b)
  {
    var whole := parent + [b];
    assert whole[..|whole| - 1] == parent;
  }
}
