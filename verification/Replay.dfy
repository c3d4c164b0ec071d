/**
 Applying a list of transactions one after the other, and why the order may change.

 The core is a diamond: two transactions that can both be applied now, share no input and
 have different txids can be applied in either order, with the same fees and the same
 result. It needs no assumption about hashing.
 */
module Replay {
  import opened Bytes
  import opened Ledger
  import opened Lists
  import opened Utxo

  ghost predicate Replays(r: Rules, u: UtxoMap, txs: seq<Tx>)
    decreases |txs|
  {
    txs == [] || (CanApply(r, u, txs[0]) && Replays(r, After(r, u, txs[0]), txs[1..]))
  }

  function Final(r: Rules, u: UtxoMap, txs: seq<Tx>): UtxoMap
    decreases |txs|
  {
    if txs == [] then u else Final(r, After(r, u, txs[0]), txs[1..])
  }

  /** The fee each transaction pays at its own place in the list. */
  function Fees(r: Rules, u: UtxoMap, txs: seq<Tx>): (f: seq<int>)
    ensures |f| == |txs|
    decreases |txs|
  {
    if txs == [] then [] else [Fee(u, txs[0])] + Fees(r, After(r, u, txs[0]), txs[1..])
  }

  function Sum(s: seq<int>): int
  {
    if s == [] then 0 else s[0] + Sum(s[1..])
  }

  /** Transactions that cannot collide: none mints, no shared input, no shared txid. */
  ghost predicate Independent(r: Rules, txs: seq<Tx>)
  {
    (forall i | 0 <= i < |txs| :: !IsCoinbase(txs[i])) &&
    (forall i, j | 0 <= i < j < |txs| :: r.txid(txs[i]) != r.txid(txs[j])) &&
    (forall i, j | 0 <= i < j < |txs| :: Inputs(txs[i]) !! Inputs(txs[j]))
  }

  lemma IndependentTail(r: Rules, txs: seq<Tx>)
    requires Independent(r, txs) && txs != []
    ensures Independent(r, txs[1..])
  {
    var t := txs[1..];
    assert forall i | 0 <= i < |t| :: t[i] == txs[i + 1];
  }

  lemma IndependentWithout(r: Rules, txs: seq<Tx>, k: nat)
    requires Independent(r, txs) && k < |txs|
    ensures Independent(r, Without(txs, k))
  {
    var t := Without(txs, k);
    assert forall i | 0 <= i < |t| :: t[i] == txs[if i < k then i else i + 1];
  }

  // ---- lists ------------------------------------------------------------------------

  lemma {:induction false} ReplayAppend(r: Rules, u: UtxoMap, a: seq<Tx>, b: seq<Tx>)
    ensures Replays(r, u, a + b) <==> Replays(r, u, a) && Replays(r, Final(r, u, a), b)
    ensures Final(r, u, a + b) == Final(r, Final(r, u, a), b)
    ensures Fees(r, u, a + b) == Fees(r, u, a) + Fees(r, Final(r, u, a), b)
    decreases |a|
  {
    hide CanApply, After, Fee;
    if a == [] {
      assert a + b == b;
    } else {
      var v := After(r, u, a[0]);
      ReplayAppend(r, v, a[1..], b);
      assert (a + b)[0] == a[0] && (a + b)[1..] == a[1..] + b;
      var w := Final(r, v, a[1..]);
      assert [Fee(u, a[0])] + (Fees(r, v, a[1..]) + Fees(r, w, b)) == [Fee(u, a[0])] + Fees(r, v, a[1..]) + Fees(r, w, b);
    }
  }

  /** One step of a replay. */
  lemma ReplayCons(r: Rules, u: UtxoMap, h: Tx, t: seq<Tx>)
    ensures Replays(r, u, [h] + t) <==> CanApply(r, u, h) && Replays(r, After(r, u, h), t)
    ensures Final(r, u, [h] + t) == Final(r, After(r, u, h), t)
    ensures Fees(r, u, [h] + t) == [Fee(u, h)] + Fees(r, After(r, u, h), t)
  {
    hide CanApply, After, Fee;
    assert ([h] + t)[0] == h && ([h] + t)[1..] == t;
  }

  lemma WithoutLater<T>(s: seq<T>, k: nat)
    requires 0 < k < |s|
    ensures s == [s[0]] + s[1..]
    ensures Without(s, k) == [s[0]] + Without(s[1..], k - 1)
  {
  }

  lemma ReplaySnoc(r: Rules, u: UtxoMap, a: seq<Tx>, t: Tx)
    ensures Replays(r, u, a + [t]) <==> Replays(r, u, a) && CanApply(r, Final(r, u, a), t)
    ensures Final(r, u, a + [t]) == After(r, Final(r, u, a), t)
    ensures Fees(r, u, a + [t]) == Fees(r, u, a) + [Fee(Final(r, u, a), t)]
  {
    ReplayAppend(r, u, a, [t]);
    var v := Final(r, u, a);
    assert [t][1..] == [];
    assert Final(r, v, [t]) == After(r, v, t);
    assert Fees(r, v, [t]) == [Fee(v, t)];
  }

  /** A list with a prefix that does not replay does not replay. */
  lemma StuckPrefix(r: Rules, u: UtxoMap, txs: seq<Tx>, n: nat)
    requires n <= |txs| && !Replays(r, u, txs[..n])
    ensures !Replays(r, u, txs)
  {
    hide Replays;
    assert txs == txs[..n] + txs[n..];
    ReplayAppend(r, u, txs[..n], txs[n..]);
  }

  lemma {:induction false} SumAppend(a: seq<int>, b: seq<int>)
    ensures Sum(a + b) == Sum(a) + Sum(b)
  {
    if a == [] {
      assert a + b == b;
    } else {
      assert (a + b)[1..] == a[1..] + b;
      SumAppend(a[1..], b);
    }
  }

  lemma SumCons(x: int, s: seq<int>)
    ensures Sum([x] + s) == x + Sum(s)
  {
    assert ([x] + s)[1..] == s;
  }

  lemma SumSnoc(a: seq<int>, x: int)
    ensures Sum(a + [x]) == Sum(a) + x
  {
    SumAppend(a, [x]);
    assert [x][1..] == [];
  }

  lemma SumWithout(s: seq<int>, k: nat)
    requires k < |s|
    ensures Sum(s) == s[k] + Sum(Without(s, k))
  {
    assert s == s[..k] + s[k..];
    SumAppend(s[..k], s[k..]);
    SumAppend(s[..k], s[k + 1..]);
  }

  // ---- the diamond ------------------------------------------------------------------

  lemma MapDiamond(u: UtxoMap, a: set<OutPoint>, b: set<OutPoint>, ca: UtxoMap, cb: UtxoMap)
    requires a <= u.Keys && b <= u.Keys && a !! b && ca.Keys !! cb.Keys
    requires forall o | o in ca :: o in u ==> o in a
    requires forall o | o in cb :: o in u ==> o in b
    ensures AgreeOn(u, u - b + cb, a)
    ensures forall o | o in ca :: o in u - b + cb ==> o in a
    ensures u - a + ca - b + cb == u - b + cb - a + ca
  {
  }

  lemma Diamond(r: Rules, u: UtxoMap, a: Tx, b: Tx)
    requires CanApply(r, u, a) && CanApply(r, u, b)
    requires !IsCoinbase(a) && !IsCoinbase(b)
    requires r.txid(a) != r.txid(b) && Inputs(a) !! Inputs(b)
    ensures CanApply(r, After(r, u, b), a) && CanApply(r, After(r, u, a), b)
    ensures After(r, After(r, u, b), a) == After(r, After(r, u, a), b)
    ensures Fee(After(r, u, b), a) == Fee(u, a) && Fee(After(r, u, a), b) == Fee(u, b)
  {
    HalfDiamond(r, u, a, b);
    HalfDiamond(r, u, b, a);
  }

  lemma HalfDiamond(r: Rules, u: UtxoMap, a: Tx, b: Tx)
    requires CanApply(r, u, a) && CanApply(r, u, b)
    requires !IsCoinbase(a) && !IsCoinbase(b)
    requires r.txid(a) != r.txid(b) && Inputs(a) !! Inputs(b)
    ensures CanApply(r, After(r, u, b), a)
    ensures After(r, After(r, u, b), a) == After(r, After(r, u, a), b)
    ensures Fee(After(r, u, b), a) == Fee(u, a)
  {
    var ca, cb := Created(r.txid(a), a.outputs), Created(r.txid(b), b.outputs);
    CreatedIs(r.txid(a), a.outputs);
    CreatedIs(r.txid(b), b.outputs);
    InputsPresent(r, u, a);
    InputsPresent(r, u, b);
    MapDiamond(u, Inputs(a), Inputs(b), ca, cb);
    var v := After(r, u, b);
    FundedFrame(r, u, v, a);
    SpendConserves(r, v, a);
  }

  lemma InputsPresent(r: Rules, u: UtxoMap, t: Tx)
    requires CanApply(r, u, t) && !IsCoinbase(t)
    ensures Inputs(t) <= u.Keys && Inputs(t) != {}
  {
    assert t.inputs[0].previous in Inputs(t);
  }

  /**
   Any transaction of a replayable list that can be applied first may be moved to the
   front: the others keep their order, everybody keeps their fee, and the result is the same.
   */
  lemma {:induction false} MoveToFront(r: Rules, u: UtxoMap, txs: seq<Tx>, k: nat)
    requires Independent(r, txs) && Replays(r, u, txs)
    requires k < |txs| && CanApply(r, u, txs[k])
    ensures Fee(u, txs[k]) == Fees(r, u, txs)[k]
    ensures Replays(r, After(r, u, txs[k]), Without(txs, k))
    ensures Final(r, After(r, u, txs[k]), Without(txs, k)) == Final(r, u, txs)
    ensures Fees(r, After(r, u, txs[k]), Without(txs, k)) == Without(Fees(r, u, txs), k)
    decreases k
  {
    hide CanApply, After, Fee, Replays, Final, Fees;
    var h, tail := txs[0], txs[1..];
    assert txs == [h] + tail;
    ReplayCons(r, u, h, tail);
    if k == 0 {
      assert Without(txs, 0) == tail && Without([Fee(u, h)] + Fees(r, After(r, u, h), tail), 0) == Fees(r, After(r, u, h), tail);
    } else {
      Diamond(r, u, h, txs[k]);
      IndependentTail(r, txs);
      MoveToFront(r, After(r, u, h), tail, k - 1);
      WithoutLater(txs, k);
      ReplayCons(r, After(r, u, txs[k]), h, Without(tail, k - 1));
      WithoutLater(Fees(r, u, txs), k);
      assert Fees(r, u, txs)[1..] == Fees(r, After(r, u, h), tail);
    }
  }

  /**
   If the marked entries of a replayable list replay on their own, then the other entries,
   in their old order, replay after them. Everybody pays the fee they paid in the list.
   */
  lemma {:induction false} MarkedFirst(r: Rules, u: UtxoMap, txs: seq<Tx>, keep: seq<bool>)
    requires |keep| == |txs| && Independent(r, txs)
    requires Replays(r, u, txs) && Replays(r, u, Pick(txs, keep))
    ensures Fees(r, u, Pick(txs, keep)) == Pick(Fees(r, u, txs), keep)
    ensures var v := Final(r, u, Pick(txs, keep));
            Replays(r, v, Pick(txs, Flip(keep))) &&
            Final(r, v, Pick(txs, Flip(keep))) == Final(r, u, txs) &&
            Fees(r, v, Pick(txs, Flip(keep))) == Pick(Fees(r, u, txs), Flip(keep))
    decreases |txs|
  {
    hide CanApply, After, Fee;
    var fees := Fees(r, u, txs);
    if k :| 0 <= k < |keep| && keep[k] && forall i | 0 <= i < k :: !keep[i] {
      var rest, mask := Without(txs, k), Without(keep, k);
      PickFirst(txs, keep, k);
      PickFirst(fees, keep, k);
      assert Flip(mask) == Without(Flip(keep), k);
      PickSkip(txs, Flip(keep), k);
      PickSkip(fees, Flip(keep), k);
      assert ([txs[k]] + Pick(rest, mask))[1..] == Pick(rest, mask);
      MoveToFront(r, u, txs, k);
      IndependentWithout(r, txs, k);
      MarkedFirst(r, After(r, u, txs[k]), rest, mask);
    } else {
      NoneMarked(keep, |keep|);
      PickNone(txs, keep);
      PickNone(fees, keep);
      PickAll(txs, Flip(keep));
      PickAll(fees, Flip(keep));
    }
  }

  lemma {:induction false} NoneMarked(keep: seq<bool>, n: nat)
    requires n <= |keep|
    requires !exists k :: 0 <= k < |keep| && keep[k] && forall i | 0 <= i < k :: !keep[i]
    ensures forall i | 0 <= i < n :: !keep[i]
  {
    if n > 0 {
      NoneMarked(keep, n - 1);
    }
  }

  lemma IndependentPick(r: Rules, txs: seq<Tx>, keep: seq<bool>)
    requires |keep| == |txs| && Independent(r, txs)
    ensures Independent(r, Pick(txs, keep))
  {
    PickAt(txs, keep);
    forall i, j | 0 <= i < j < Count(keep)
      ensures Place(keep, i) < Place(keep, j)
    {
      PlaceIncreases(keep, i, j);
    }
  }

  /** Replaying spends burn exactly their fees, so fees can never exceed the supply. */
  lemma {:induction false} ReplayConserves(r: Rules, u: UtxoMap, txs: seq<Tx>)
    requires Replays(r, u, txs) && forall i | 0 <= i < |txs| :: !IsCoinbase(txs[i])
    ensures Total(Final(r, u, txs)) == Total(u) - Sum(Fees(r, u, txs))
    ensures forall i | 0 <= i < |txs| :: Fees(r, u, txs)[i] >= 0
    decreases |txs|
  {
    if txs != [] {
      SpendConserves(r, u, txs[0]);
      ReplayConserves(r, After(r, u, txs[0]), txs[1..]);
    }
  }
}
