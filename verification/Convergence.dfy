/**
 What a sequence of imports adds up to: the store is determined by the set of blocks
 exactly when every block that has a valid chain comes after its parent; and a tip change is reported as a reorganisation exactly
 when the old active chain is not a prefix of the new one.
 */
module Convergence {
  import opened Bytes
  import opened Ledger
  import opened Blocks
  import opened ForkStore

  function ChainWork(blocks: seq<Block>): nat
  {
    if blocks == [] then 0 else ChainWork(blocks[..|blocks| - 1]) + Work(blocks[|blocks| - 1])
  }

  lemma {:induction false} WorkOfBranch(r: Rules, s: Store, h: Hash)
    requires Linked(r, s) && h in s
    ensures s[h].work == ChainWork(Branch(r, s, h))
    decreases s[h].block.height
  {
    assert LinkedAt(r, s, h);
    var b, blocks := s[h].block, Branch(r, s, h);
    if b.height > 0 {
      WorkOfBranch(r, s, b.previousHash);
      assert blocks[..|blocks| - 1] == Branch(r, s, b.previousHash);
    } else {
      assert blocks[..0] == [];
    }
  }

  lemma {:induction false} WorkGrows(a: seq<Block>, b: seq<Block>)
    requires a <= b
    ensures ChainWork(a) + |b| - |a| <= ChainWork(b)
    decreases |b|
  {
    if a != b {
      WorkGrows(a, b[..|b| - 1]);
    }
  }

  // ---- reorganisations ------------------------------------------------------------------

  datatype Reorg = Reorg(oldTip: Hash, newTip: Hash, oldHeight: int, newHeight: int)

  function DetectReorg(r: Rules, was: Block, now: Block): Option<Reorg>
  {
    if r.blockHash(was) == r.blockHash(now) then None
    else if now.previousHash == r.blockHash(was) && now.height == was.height + 1 then None
    else Some(Reorg(r.blockHash(was), r.blockHash(now), was.height, now.height))
  }

  /** One more block either becomes the best tip or leaves it alone. */
  lemma TipAfterPut(r: Rules, s: Store, t: Store, h: Hash)
    requires s.Keys != {} && Extends(s, t) && t.Keys == s.Keys + {h}
    ensures Tip(t) == Tip(s) || Tip(t) == h
  {
    var was, now := Tip(s), Tip(t);
    if now != h && now != was {
      assert Better(t, now, was) && Better(s, was, now);
      BetterTotal(s, was, now);
    }
  }

  /** A new block on the best tip has more work than the tip. */
  lemma PutOnTip(r: Rules, s: Store, b: Block)
    requires Linked(r, s) && s.Keys != {} && b.previousHash == Tip(s) && r.blockHash(b) !in s
    ensures Tip(Put(r, s, b)) == r.blockHash(b)
  {
    hide Work, Linked;
    var t, h := Put(r, s, b), r.blockHash(b);
    assert Extends(s, t) && t.Keys == s.Keys + {h};
    TipAfterPut(r, s, t, h);
    assert Better(t, h, b.previousHash);
    BetterTotal(t, h, b.previousHash);
  }

  /** A better branch below the tip would contradict the choice of the tip. */
  lemma PrefixOfTip(r: Rules, s: Store, was: Hash, h: Hash)
    requires Linked(r, s) && IsTip(s, was) && h in s
    requires Branch(r, s, was) <= Branch(r, s, h)
    ensures h == was
  {
    hide Branch, ChainWork;
    assert h != was ==> Better(s, was, h);
    var a, b := Branch(r, s, was), Branch(r, s, h);
    WorkOfBranch(r, s, was);
    WorkOfBranch(r, s, h);
    WorkGrows(a, b);
    assert LinkedAt(r, s, was) && LinkedAt(r, s, h);
    assert |a| == |b| ==> a == b;
  }

  /**
   After an accepted import the best tip is the old one or the imported block, and a
   reorganisation is reported exactly when the old active chain is not a prefix of the new.
   */
  lemma ReorgIffNotPrefix(r: Rules, s: Store, b: Block, genesis: Block)
    requires StoreOk(r, s, genesis) && Accepts(r, s, b)
    ensures var t := Put(r, s, b);
            StoreOk(r, t, genesis) && (Tip(t) == Tip(s) || Tip(t) == r.blockHash(b)) &&
            (DetectReorg(r, s[Tip(s)].block, t[Tip(t)].block).None? <==> Branch(r, s, Tip(s)) <= Branch(r, t, Tip(t)))
  {
    hide Branch, ChainOk, BlockOk, Work, StateAt, LinkedAt, IsTip, DetectReorg;
    var t := Put(r, s, b);
    ImportKeepsStore(r, Forks(s, {}), b, genesis);
    assert r.blockHash(genesis) in s.Keys && r.blockHash(genesis) in t.Keys;
    var was, now, h := Tip(s), Tip(t), r.blockHash(b);
    TipKnown(r, s);
    TipKnown(r, t);
    if h !in s {
      TipAfterPut(r, s, t, h);
    }
    BranchFrame(r, s, t, was);
    if now == was {
      NoReorg(r, s[was].block);
    } else {
      NewBranch(r, s, b);
      ReorgStep(r, s, was, b);
    }
  }

  /**
   The record that an accepted import leaves: nothing if the old active chain is a prefix of
   the new one, else the old tip and height and the new tip and height.
   */
  lemma ReorgRecord(r: Rules, s: Store, b: Block, genesis: Block)
    requires StoreOk(r, s, genesis) && Accepts(r, s, b)
    ensures var t := Put(r, s, b);
            StoreOk(r, t, genesis) &&
            var was, now := Branch(r, s, Tip(s)), Branch(r, t, Tip(t));
            DetectReorg(r, s[Tip(s)].block, t[Tip(t)].block) ==
            if was <= now then None else Some(Reorg(Tip(s), Tip(t), |was| - 1, |now| - 1))
  {
    hide Branch, ChainOk, BlockOk, Work, StateAt, LinkedAt, IsTip, Put;
    ReorgIffNotPrefix(r, s, b, genesis);
    var t := Put(r, s, b);
    LinkedOf(r, s, genesis);
    LinkedOf(r, t, genesis);
    assert r.blockHash(genesis) in s.Keys && r.blockHash(genesis) in t.Keys;
    TipKnown(r, s);
    TipKnown(r, t);
  }

  lemma TipKnown(r: Rules, s: Store)
    requires Linked(r, s) && s.Keys != {}
    ensures Tip(s) in s && IsTip(s, Tip(s)) && r.blockHash(s[Tip(s)].block) == Tip(s)
  {
    assert LinkedAt(r, s, Tip(s));
  }

  lemma NoReorg(r: Rules, b: Block)
    ensures DetectReorg(r, b, b).None?
  {
  }

  lemma HasBlocks(r: Rules, s: Store, h: Hash)
    requires Linked(r, s) && h in s
    ensures Branch(r, s, h) != []
  {
    assert LinkedAt(r, s, h);
  }

  /** A new tip is silent exactly when it sits on the old one. */
  lemma ReorgStep(r: Rules, s: Store, was: Hash, b: Block)
    requires Linked(r, s) && IsTip(s, was) && b.previousHash in s && r.blockHash(b) !in s
    requires b.height == s[b.previousHash].block.height + 1 && r.blockHash(s[was].block) == was
    ensures DetectReorg(r, s[was].block, b).None? <==> Branch(r, s, was) <= Branch(r, s, b.previousHash) + [b]
  {
    hide Branch, Linked;
    assert DetectReorg(r, s[was].block, b).None? <==> b.previousHash == was;
    hide DetectReorg, IsTip;
    var below, mine := Branch(r, s, b.previousHash), Branch(r, s, was);
    if mine <= below + [b] {
      HasBlocks(r, s, was);
      PrefixDrops(mine, below, b);
      PrefixOfTip(r, s, was, b.previousHash);
    }
  }

  lemma PrefixDrops(a: seq<Block>, below: seq<Block>, b: Block)
    requires a <= below + [b] && a != [] && a[|a| - 1] != b
    ensures a <= below
  {
    assert |a| == |below| + 1 ==> a == below + [b];
  }

  // ---- convergence ----------------------------------------------------------------------

  ghost function ImportAll(r: Rules, f: Forks, xs: seq<Block>, genesis: Block): Forks
    requires StoreOk(r, f.store, genesis)
    decreases |xs|
  {
    if xs == [] then f else
    ImportKeepsStore(r, f, xs[0], genesis);
    ImportAll(r, Import(r, f, xs[0]), xs[1..], genesis)
  }

  function Hashes(r: Rules, xs: seq<Block>): set<Hash>
  {
    set i | 0 <= i < |xs| :: r.blockHash(xs[i])
  }

  ghost predicate DistinctHashes(r: Rules, xs: seq<Block>)
  {
    forall i, j | 0 <= i < j < |xs| :: r.blockHash(xs[i]) != r.blockHash(xs[j])
  }

  /** A block whose parent is in the list comes after it. */
  ghost predicate ParentFirst(r: Rules, xs: seq<Block>)
  {
    forall i, j | 0 <= i < |xs| && 0 <= j < |xs| && r.blockHash(xs[j]) == xs[i].previousHash :: j < i
  }

  ghost predicate HashesInjective(r: Rules, bs: set<Block>)
  {
    forall a, b | a in bs && b in bs && r.blockHash(a) == r.blockHash(b) :: a == b
  }

  ghost function ByHash(r: Rules, bs: set<Block>): map<Hash, Block>
    requires HashesInjective(r, bs)
  {
    map b | b in bs :: r.blockHash(b) := b
  }

  /**
   The valid chain that ends in `h`, if the blocks of `all` contain one. It is defined from
   the set of blocks alone; no order of arrival enters.
   */
  ghost function Path(r: Rules, all: map<Hash, Block>, genesis: Block, h: Hash): Option<seq<Block>>
    decreases if h in all && all[h].height > 0 then all[h].height else 0
  {
    if h == r.blockHash(genesis) then Some([genesis])
    else if h !in all || all[h].height <= 0 then None
    else
      var b := all[h];
      if b.previousHash !in all || all[b.previousHash].height != b.height - 1 then None else
      match Path(r, all, genesis, b.previousHash)
      case None => None
      case Some(below) =>
        if BlockOk(r, ChainUtxos(r, below), b, b.height, b.previousHash) then Some(below + [b]) else None
  }

  /** The store holds exactly the blocks of `seen` that have a path, on that path. */
  ghost predicate Holds(r: Rules, s: Store, all: map<Hash, Block>, genesis: Block, seen: set<Hash>)
    requires Linked(r, s)
  {
    (forall h :: h in s <==> h in seen && Path(r, all, genesis, h).Some?) &&
    (forall h | h in s :: h in all && s[h].block == all[h] && Path(r, all, genesis, h) == Some(Branch(r, s, h)))
  }

  /** A block that has a path comes after its parent; for the others the order is free. */
  ghost predicate PathsInOrder(r: Rules, all: map<Hash, Block>, genesis: Block, xs: seq<Block>)
  {
    forall i, j | 0 <= i < |xs| && 0 <= j < |xs| && r.blockHash(xs[j]) == xs[i].previousHash &&
      Path(r, all, genesis, r.blockHash(xs[i])).Some? :: j < i
  }

  lemma ParentFirstIsInOrder(r: Rules, all: map<Hash, Block>, genesis: Block, xs: seq<Block>)
    requires ParentFirst(r, xs)
    ensures PathsInOrder(r, all, genesis, xs)
  {
  }

  /** Acceptance is a matter of the set of blocks alone, if a block with a path finds its parent. */
  lemma AcceptsIffPath(r: Rules, s: Store, all: map<Hash, Block>, genesis: Block, seen: set<Hash>, b: Block)
    requires StoreOk(r, s, genesis) && Holds(r, s, all, genesis, seen)
    requires r.blockHash(b) in all && all[r.blockHash(b)] == b
    requires r.blockHash(b) !in seen && r.blockHash(b) != r.blockHash(genesis)
    requires Path(r, all, genesis, r.blockHash(b)).Some? ==> b.previousHash in seen
    ensures Accepts(r, s, b) <==> Path(r, all, genesis, r.blockHash(b)).Some?
    ensures Accepts(r, s, b) ==> Path(r, all, genesis, r.blockHash(b)) == Some(Branch(r, s, b.previousHash) + [b])
  {
    hide BlockOk, ChainOk, Branch;
    if b.previousHash in s {
      assert LinkedAt(r, s, b.previousHash);
    }
  }

  lemma HoldsStep(r: Rules, f: Forks, all: map<Hash, Block>, genesis: Block, seen: set<Hash>, b: Block)
    requires StoreOk(r, f.store, genesis) && Holds(r, f.store, all, genesis, seen)
    requires r.blockHash(b) in all && all[r.blockHash(b)] == b
    requires r.blockHash(b) !in seen && r.blockHash(b) != r.blockHash(genesis) && f.invalid <= seen
    requires Path(r, all, genesis, r.blockHash(b)).Some? ==> b.previousHash in seen
    ensures StoreOk(r, Import(r, f, b).store, genesis)
    ensures Holds(r, Import(r, f, b).store, all, genesis, seen + {r.blockHash(b)})
    ensures Import(r, f, b).invalid <= seen + {r.blockHash(b)}
  {
    hide BlockOk, ChainOk, Branch, Work, Path;
    ImportKeepsStore(r, f, b, genesis);
    var s, h := f.store, r.blockHash(b);
    AcceptsIffPath(r, s, all, genesis, seen, b);
    if Accepts(r, s, b) {
      assert h !in s;
      NewBranch(r, s, b);
      PutLinks(r, s, b);
      HoldsPut(r, s, Put(r, s, b), all, genesis, seen, b);
    }
  }

  lemma HoldsPut(r: Rules, s: Store, t: Store, all: map<Hash, Block>, genesis: Block, seen: set<Hash>, b: Block)
    requires Linked(r, s) && Linked(r, t) && Extends(s, t) && Holds(r, s, all, genesis, seen)
    requires t.Keys == s.Keys + {r.blockHash(b)} && t[r.blockHash(b)].block == b
    requires r.blockHash(b) in all && all[r.blockHash(b)] == b
    requires Path(r, all, genesis, r.blockHash(b)) == Some(Branch(r, t, r.blockHash(b)))
    ensures Holds(r, t, all, genesis, seen + {r.blockHash(b)})
  {
    hide Branch, Path, Linked;
    forall k | k in s
      ensures Path(r, all, genesis, k) == Some(Branch(r, t, k))
    {
      BranchFrame(r, s, t, k);
    }
  }

  lemma {:induction false} HoldsAll(r: Rules, f: Forks, all: map<Hash, Block>, genesis: Block, seen: set<Hash>, xs: seq<Block>)
    requires StoreOk(r, f.store, genesis) && Holds(r, f.store, all, genesis, seen) && f.invalid <= seen
    requires r.blockHash(genesis) in seen && DistinctHashes(r, xs)
    requires forall i | 0 <= i < |xs| :: r.blockHash(xs[i]) !in seen && r.blockHash(xs[i]) in all && all[r.blockHash(xs[i])] == xs[i]
    requires forall h | h in all :: h in seen || exists i | 0 <= i < |xs| :: r.blockHash(xs[i]) == h
    requires PathsInOrder(r, all, genesis, xs)
    ensures StoreOk(r, ImportAll(r, f, xs, genesis).store, genesis)
    ensures Holds(r, ImportAll(r, f, xs, genesis).store, all, genesis, seen + Hashes(r, xs))
    decreases |xs|
  {
    hide Holds, StoreOk, Import, Hashes, Path;
    if xs == [] {
      NoHashes(r);
      assert seen + Hashes(r, xs) == seen;
    } else {
      var b, rest, h := xs[0], xs[1..], r.blockHash(xs[0]);
      if Path(r, all, genesis, h).Some? {
        PathHasParent(r, all, genesis, b);
      }
      assert forall i | 0 <= i < |rest| :: rest[i] == xs[i + 1];
      LinkedOf(r, f.store, genesis);
      HoldsStep(r, f, all, genesis, seen, b);
      forall k | k in all
        ensures k in seen + {h} || exists i | 0 <= i < |rest| :: r.blockHash(rest[i]) == k
      {
        if k !in seen + {h} {
          var i :| 0 <= i < |xs| && r.blockHash(xs[i]) == k;
          assert rest[i - 1] == xs[i];
        }
      }
      HoldsAll(r, Import(r, f, b), all, genesis, seen + {h}, rest);
      HashesOf(r, xs);
      assert seen + {h} + Hashes(r, rest) == seen + Hashes(r, xs);
    }
  }

  lemma PathHasParent(r: Rules, all: map<Hash, Block>, genesis: Block, b: Block)
    requires r.blockHash(b) in all && all[r.blockHash(b)] == b && r.blockHash(b) != r.blockHash(genesis)
    requires Path(r, all, genesis, r.blockHash(b)).Some?
    ensures b.previousHash in all
  {
  }

  lemma NoHashes(r: Rules)
    ensures Hashes(r, []) == {}
  {
  }

  lemma HashesOf(r: Rules, xs: seq<Block>)
    requires xs != []
    ensures Hashes(r, xs) ==
            {r.blockHash(xs[0])} + Hashes(r, xs[1..])
  {
    var rest := xs[1..];
    forall h | h in Hashes(r, xs)
      ensures h == r.blockHash(xs[0]) || h in Hashes(r, rest)
    {
      var i :| 0 <= i < |xs| && r.blockHash(xs[i]) == h;
      if i > 0 {
        assert rest[i - 1] == xs[i];
      }
    }
  }

  function Start(r: Rules, genesis: Block): Forks
  {
    Forks(map[r.blockHash(genesis) := Stored(genesis, Work(genesis))], {})
  }

  lemma StartOk(r: Rules, genesis: Block)
    requires ChainOk(r, [genesis])
    ensures StoreOk(r, Start(r, genesis).store, genesis)
    ensures Branch(r, Start(r, genesis).store, r.blockHash(genesis)) == [genesis]
  {
    assert [genesis][..0] == [];
  }

  /**
   A delivery of distinct blocks leaves a store that is determined by the set of blocks alone
   exactly when every block that has a path comes after its parent.
   */
  lemma StoreIsDetermined(r: Rules, genesis: Block, xs: seq<Block>, all: map<Hash, Block>)
    requires ChainOk(r, [genesis]) && DistinctHashes(r, [genesis] + xs) && Indexes(r, genesis, xs, all)
    ensures StoreOk(r, Start(r, genesis).store, genesis)
    ensures StoreOk(r, ImportAll(r, Start(r, genesis), xs, genesis).store, genesis)
    ensures Holds(r, ImportAll(r, Start(r, genesis), xs, genesis).store, all, genesis, all.Keys) <==>
            PathsInOrder(r, all, genesis, xs)
  {
    hide BlockOk, ChainOk, StoreOk, Work, Path, ImportAll, PathsInOrder, Holds;
    StartOk(r, genesis);
    ImportAllKeeps(r, Start(r, genesis), xs, genesis);
    LinkedOf(r, ImportAll(r, Start(r, genesis), xs, genesis).store, genesis);
    if PathsInOrder(r, all, genesis, xs) {
      InOrderHolds(r, genesis, xs, all);
    } else {
      LateParentMissesOut(r, genesis, xs, all);
    }
  }

  lemma InOrderHolds(r: Rules, genesis: Block, xs: seq<Block>, all: map<Hash, Block>)
    requires ChainOk(r, [genesis]) && DistinctHashes(r, [genesis] + xs) && Indexes(r, genesis, xs, all)
    requires PathsInOrder(r, all, genesis, xs)
    ensures StoreOk(r, Start(r, genesis).store, genesis)
    ensures StoreOk(r, ImportAll(r, Start(r, genesis), xs, genesis).store, genesis)
    ensures Holds(r, ImportAll(r, Start(r, genesis), xs, genesis).store, all, genesis, all.Keys)
  {
    hide BlockOk, ChainOk, StoreOk, Work, Path, PathsInOrder, Holds;
    StartOk(r, genesis);
    var g, whole := r.blockHash(genesis), [genesis] + xs;
    assert forall i | 0 <= i < |xs| :: whole[i + 1] == xs[i];
    assert whole[0] == genesis;
    StartHolds(r, genesis, all);
    HoldsAll(r, Start(r, genesis), all, genesis, {g}, xs);
    assert {g} + Hashes(r, xs) == all.Keys;
  }

  lemma {:induction false} ImportAllKeeps(r: Rules, f: Forks, xs: seq<Block>, genesis: Block)
    requires StoreOk(r, f.store, genesis)
    ensures StoreOk(r, ImportAll(r, f, xs, genesis).store, genesis)
    decreases |xs|
  {
    hide StoreOk, Import;
    if xs != [] {
      LinkedOf(r, f.store, genesis);
      ImportKeepsStore(r, f, xs[0], genesis);
      ImportAllKeeps(r, Import(r, f, xs[0]), xs[1..], genesis);
    }
  }

  lemma {:induction false} ImportAllAppend(r: Rules, f: Forks, xs: seq<Block>, ys: seq<Block>, genesis: Block)
    requires StoreOk(r, f.store, genesis)
    ensures StoreOk(r, ImportAll(r, f, xs, genesis).store, genesis)
    ensures ImportAll(r, f, xs + ys, genesis) == ImportAll(r, ImportAll(r, f, xs, genesis), ys, genesis)
    decreases |xs|
  {
    hide StoreOk, Import;
    if xs == [] {
      assert xs + ys == ys;
    } else {
      LinkedOf(r, f.store, genesis);
      ImportKeepsStore(r, f, xs[0], genesis);
      ImportAllAppend(r, Import(r, f, xs[0]), xs[1..], ys, genesis);
      assert (xs + ys)[0] == xs[0] && (xs + ys)[1..] == xs[1..] + ys;
    }
  }

  /** Only what arrived is stored. */
  lemma {:induction false} ImportedOnly(r: Rules, f: Forks, xs: seq<Block>, genesis: Block)
    requires StoreOk(r, f.store, genesis)
    ensures ImportAll(r, f, xs, genesis).store.Keys <= f.store.Keys + Hashes(r, xs)
    decreases |xs|
  {
    hide StoreOk, Accepts, Hashes;
    if xs != [] {
      LinkedOf(r, f.store, genesis);
      ImportKeepsStore(r, f, xs[0], genesis);
      ImportedOnly(r, Import(r, f, xs[0]), xs[1..], genesis);
      HashesOf(r, xs);
    }
  }

  /** If a block that has a path comes before its parent, it is missing in the end. */
  lemma LateParentMissesOut(r: Rules, genesis: Block, xs: seq<Block>, all: map<Hash, Block>)
    requires ChainOk(r, [genesis]) && DistinctHashes(r, [genesis] + xs) && Indexes(r, genesis, xs, all)
    requires !PathsInOrder(r, all, genesis, xs)
    ensures StoreOk(r, Start(r, genesis).store, genesis)
    ensures StoreOk(r, ImportAll(r, Start(r, genesis), xs, genesis).store, genesis)
    ensures !Holds(r, ImportAll(r, Start(r, genesis), xs, genesis).store, all, genesis, all.Keys)
  {
    hide BlockOk, ChainOk, StoreOk, Work, ImportAll, Hashes, Path, Branch;
    StartOk(r, genesis);
    ImportAllKeeps(r, Start(r, genesis), xs, genesis);
    LinkedOf(r, ImportAll(r, Start(r, genesis), xs, genesis).store, genesis);
    var i, j :| 0 <= i < |xs| && 0 <= j < |xs| && r.blockHash(xs[j]) == xs[i].previousHash &&
      Path(r, all, genesis, r.blockHash(xs[i])).Some? && i <= j;
    EarlyIsRefused(r, genesis, xs, i, j);
  }

  lemma EarlyIsRefused(r: Rules, genesis: Block, xs: seq<Block>, i: nat, j: nat)
    requires StoreOk(r, Start(r, genesis).store, genesis) && DistinctHashes(r, [genesis] + xs)
    requires i <= j < |xs| && r.blockHash(xs[j]) == xs[i].previousHash
    ensures r.blockHash(xs[i]) !in ImportAll(r, Start(r, genesis), xs, genesis).store
  {
    hide BlockOk, StoreOk, Work, ImportAll, Hashes, DistinctHashes;
    var before, after := xs[..i], xs[i + 1..];
    assert xs == before + ([xs[i]] + after);
    ImportAllAppend(r, Start(r, genesis), before, [xs[i]] + after, genesis);
    ImportedOnly(r, Start(r, genesis), before, genesis);
    NotYet(r, genesis, xs, i, i);
    NotYet(r, genesis, xs, i, j);
    OrphanIsRefusedForGood(r, ImportAll(r, Start(r, genesis), before, genesis), xs[i], after, genesis);
  }

  /** A block of the list is not among the ones before it. */
  lemma NotYet(r: Rules, genesis: Block, xs: seq<Block>, i: nat, j: nat)
    requires i <= j < |xs| && DistinctHashes(r, [genesis] + xs)
    ensures r.blockHash(xs[j]) !in {r.blockHash(genesis)} + Hashes(r, xs[..i])
  {
    var whole := [genesis] + xs;
    assert whole[0] == genesis && whole[j + 1] == xs[j];
    assert forall k | 0 <= k < i :: xs[..i][k] == whole[k + 1];
  }

  lemma StartHolds(r: Rules, genesis: Block, all: map<Hash, Block>)
    requires ChainOk(r, [genesis]) && r.blockHash(genesis) in all && all[r.blockHash(genesis)] == genesis
    ensures StoreOk(r, Start(r, genesis).store, genesis)
    ensures Holds(r, Start(r, genesis).store, all, genesis, {r.blockHash(genesis)})
  {
    hide BlockOk, ChainOk, Work;
    StartOk(r, genesis);
  }

  lemma HoldsOnce(r: Rules, s: Store, t: Store, all: map<Hash, Block>, genesis: Block, seen: set<Hash>)
    requires Linked(r, s) && Linked(r, t) && Holds(r, s, all, genesis, seen) && Holds(r, t, all, genesis, seen)
    ensures s == t
  {
    hide Branch, Path;
    assert s.Keys == t.Keys;
    forall h | h in s
      ensures s[h] == t[h]
    {
      WorkOfBranch(r, s, h);
      WorkOfBranch(r, t, h);
    }
  }

  /**
   Two stores with the same genesis that are sent the same blocks, in any two orders in
   which a block that has a path comes after its parent, end up equal.
   */
  lemma StoresConverge(r: Rules, genesis: Block, xs: seq<Block>, ys: seq<Block>, all: map<Hash, Block>)
    requires ChainOk(r, [genesis]) && DistinctHashes(r, [genesis] + xs) && DistinctHashes(r, [genesis] + ys)
    requires Indexes(r, genesis, xs, all) && Indexes(r, genesis, ys, all)
    requires PathsInOrder(r, all, genesis, xs) && PathsInOrder(r, all, genesis, ys)
    ensures StoreOk(r, Start(r, genesis).store, genesis)
    ensures ImportAll(r, Start(r, genesis), xs, genesis).store == ImportAll(r, Start(r, genesis), ys, genesis).store
  {
    hide BlockOk, ChainOk, StoreOk, Holds, ImportAll, PathsInOrder;
    StoreIsDetermined(r, genesis, xs, all);
    StoreIsDetermined(r, genesis, ys, all);
    var s, t := ImportAll(r, Start(r, genesis), xs, genesis).store, ImportAll(r, Start(r, genesis), ys, genesis).store;
    LinkedOf(r, s, genesis);
    LinkedOf(r, t, genesis);
    HoldsOnce(r, s, t, all, genesis, all.Keys);
  }

  /** `all` finds exactly the blocks of the list and genesis, by their hashes. */
  ghost predicate Indexes(r: Rules, genesis: Block, xs: seq<Block>, all: map<Hash, Block>)
  {
    all.Keys == {r.blockHash(genesis)} + Hashes(r, xs) && all[r.blockHash(genesis)] == genesis &&
    forall i | 0 <= i < |xs| :: r.blockHash(xs[i]) in all && all[r.blockHash(xs[i])] == xs[i]
  }

  lemma IndexBlocks(r: Rules, genesis: Block, xs: seq<Block>, ys: seq<Block>) returns (all: map<Hash, Block>)
    requires DistinctHashes(r, [genesis] + xs) && forall b :: b in xs <==> b in ys
    ensures Indexes(r, genesis, xs, all) && Indexes(r, genesis, ys, all)
  {
    var bs := {genesis} + set b | b in xs;
    assert bs == {genesis} + set b | b in ys;
    NoClash(r, genesis, xs);
    all := ByHash(r, bs);
    ByHashIndexes(r, genesis, xs, bs);
    ByHashIndexes(r, genesis, ys, bs);
  }

  lemma NoClash(r: Rules, genesis: Block, xs: seq<Block>)
    requires DistinctHashes(r, [genesis] + xs)
    ensures HashesInjective(r, {genesis} + set b | b in xs)
  {
    var whole := [genesis] + xs;
    forall a, b | a in whole && b in whole && r.blockHash(a) == r.blockHash(b)
      ensures a == b
    {
      var i :| 0 <= i < |whole| && whole[i] == a;
      var j :| 0 <= j < |whole| && whole[j] == b;
    }
    assert forall b | b in xs :: b in whole;
    assert whole[0] == genesis;
  }

  lemma ByHashIndexes(r: Rules, genesis: Block, xs: seq<Block>, bs: set<Block>)
    requires HashesInjective(r, bs) && bs == {genesis} + set b | b in xs
    ensures Indexes(r, genesis, xs, ByHash(r, bs))
  {
    var all := ByHash(r, bs);
    assert forall b | b in bs :: r.blockHash(b) in all && all[r.blockHash(b)] == b;
    assert forall i | 0 <= i < |xs| :: xs[i] in bs;
    forall h | h in all
      ensures h == r.blockHash(genesis) || h in Hashes(r, xs)
    {
      var b :| b in bs && r.blockHash(b) == h;
      if b != genesis {
        var i :| 0 <= i < |xs| && xs[i] == b;
      }
    }
  }

  lemma LinkedOf(r: Rules, s: Store, genesis: Block)
    requires StoreOk(r, s, genesis)
    ensures Linked(r, s)
  {
  }

  // ---- why parents must come first --------------------------------------------------------

  lemma {:induction false} RefusedStaysOut(r: Rules, f: Forks, h: Hash, xs: seq<Block>, genesis: Block)
    requires StoreOk(r, f.store, genesis) && h in f.invalid && h !in f.store
    ensures h !in ImportAll(r, f, xs, genesis).store
    decreases |xs|
  {
    hide StoreOk, Accepts;
    if xs != [] {
      ImportKeepsStore(r, f, xs[0], genesis);
      LinkedOf(r, f.store, genesis);
      RefusedStaysOut(r, Import(r, f, xs[0]), h, xs[1..], genesis);
    }
  }

  /** A block that arrives before its parent is refused for good, whatever arrives later. */
  lemma OrphanIsRefusedForGood(r: Rules, f: Forks, b: Block, later: seq<Block>, genesis: Block)
    requires StoreOk(r, f.store, genesis) && r.blockHash(b) !in f.store && b.previousHash !in f.store
    ensures r.blockHash(b) !in ImportAll(r, f, [b] + later, genesis).store
  {
    hide StoreOk, BlockOk;
    ImportKeepsStore(r, f, b, genesis);
    LinkedOf(r, f.store, genesis);
    assert ([b] + later)[1..] == later;
    RefusedStaysOut(r, Import(r, f, b), r.blockHash(b), later, genesis);
  }
}
