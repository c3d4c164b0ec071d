/**
 The mempool: what admission, replacement, eviction and pruning do to the pooled list,
 and the invariant they keep.
 */
module Mempool {
  import opened Bytes
  import opened Ledger
  import opened Lists
  import opened Utxo
  import opened Replay
  import opened Policy

  /**
   The pool replays in list order, its entries cannot collide, and each passes policy at
   its own index with the fee it pays there.
   */
  ghost predicate PoolOk(r: Rules, p: Policy, u: UtxoMap, pool: seq<Tx>)
  {
    Independent(r, pool) && Replays(r, u, pool) && PassesAtIndex(r, p, u, pool)
  }

  ghost predicate PassesAtIndex(r: Rules, p: Policy, u: UtxoMap, pool: seq<Tx>)
  {
    forall i | 0 <= i < |pool| :: p.Admits(r, pool[i], Fees(r, u, pool)[i], i)
  }

  lemma PoolIsBounded(r: Rules, p: Policy, u: UtxoMap, pool: seq<Tx>)
    requires PoolOk(r, p, u, pool)
    ensures |pool| <= p.maxTransactions
  {
    if pool != [] {
      assert p.Admits(r, pool[|pool| - 1], Fees(r, u, pool)[|pool| - 1], |pool| - 1);
    }
  }

  // ---- sublists and longer lists ------------------------------------------------------

  /** Entries that still replay after others left keep their fees and still pass policy. */
  lemma SublistOk(r: Rules, p: Policy, u: UtxoMap, pool: seq<Tx>, keep: seq<bool>)
    requires PoolOk(r, p, u, pool) && |keep| == |pool| && Replays(r, u, Pick(pool, keep))
    ensures PoolOk(r, p, u, Pick(pool, keep))
  {
    hide Replays, Fees, Pick;
    IndependentPick(r, pool, keep);
    MarkedFirst(r, u, pool, keep);
    var fees := Fees(r, u, pool);
    PickAt(pool, keep);
    PickAt(fees, keep);
    forall i | 0 <= i < Count(keep)
      ensures p.Admits(r, Pick(pool, keep)[i], Pick(fees, keep)[i], i)
    {
      AdmitsEarlier(p, r, pool[Place(keep, i)], fees[Place(keep, i)], Place(keep, i), i);
    }
  }

  ghost predicate Separate(r: Rules, pool: seq<Tx>, tx: Tx)
  {
    !IsCoinbase(tx) &&
    forall i | 0 <= i < |pool| :: r.txid(pool[i]) != r.txid(tx) && Inputs(pool[i]) !! Inputs(tx)
  }

  lemma AppendOk(r: Rules, p: Policy, u: UtxoMap, pool: seq<Tx>, tx: Tx)
    requires PoolOk(r, p, u, pool) && Separate(r, pool, tx)
    requires CanApply(r, Final(r, u, pool), tx)
    requires p.Admits(r, tx, Fee(Final(r, u, pool), tx), |pool|)
    ensures PoolOk(r, p, u, pool + [tx])
    ensures Sum(Fees(r, u, pool + [tx])) == Sum(Fees(r, u, pool)) + Fee(Final(r, u, pool), tx)
  {
    hide Replays, Fees, CanApply, Fee, Final;
    ReplaySnoc(r, u, pool, tx);
    SumSnoc(Fees(r, u, pool), Fee(Final(r, u, pool), tx));
  }

  // ---- replacement --------------------------------------------------------------------

  predicate Conflicts(a: Tx, b: Tx)
  {
    exists o :: o in Inputs(a) && o in Inputs(b)
  }

  /** Marks the pooled entries that share an input with `tx`. */
  function Conflicting(pool: seq<Tx>, tx: Tx): (m: seq<bool>)
    ensures |m| == |pool| && forall i | 0 <= i < |pool| :: m[i] == Conflicts(tx, pool[i])
  {
    seq(|pool|, i requires 0 <= i < |pool| => Conflicts(tx, pool[i]))
  }

  function Replaced(pool: seq<Tx>, tx: Tx): seq<Tx>
  {
    Pick(pool, Conflicting(pool, tx))
  }

  /** Marks the entries whose txid is not that of a replaced entry. */
  function Staying(r: Rules, pool: seq<Tx>, gone: seq<Tx>): (m: seq<bool>)
    ensures |m| == |pool|
    ensures forall i | 0 <= i < |pool| :: m[i] == !HasTxid(r, gone, r.txid(pool[i]))
  {
    seq(|pool|, i requires 0 <= i < |pool| => !HasTxid(r, gone, r.txid(pool[i])))
  }

  predicate HasTxid(r: Rules, pool: seq<Tx>, id: Hash)
  {
    exists i | 0 <= i < |pool| :: r.txid(pool[i]) == id
  }

  function Remaining(r: Rules, pool: seq<Tx>, tx: Tx): seq<Tx>
  {
    Pick(pool, Staying(r, pool, Replaced(pool, tx)))
  }

  /** With distinct txids, leaving out by txid leaves out exactly the conflicting entries. */
  lemma StayingIsNotConflicting(r: Rules, pool: seq<Tx>, tx: Tx)
    requires Independent(r, pool)
    ensures Staying(r, pool, Replaced(pool, tx)) == Flip(Conflicting(pool, tx))
  {
    var m := Conflicting(pool, tx);
    var gone := Pick(pool, m);
    PickAt(pool, m);
    forall i | 0 <= i < |pool|
      ensures HasTxid(r, gone, r.txid(pool[i])) == m[i]
    {
      if m[i] {
        var j := PlaceOf(m, i);
        assert gone[j] == pool[i];
      }
      if HasTxid(r, gone, r.txid(pool[i])) {
        var j :| 0 <= j < |gone| && r.txid(gone[j]) == r.txid(pool[i]);
        assert gone[j] == pool[Place(m, j)];
      }
    }
  }

  lemma {:induction false} PlaceOf(keep: seq<bool>, i: nat) returns (j: nat)
    requires i < |keep| && keep[i]
    ensures j < Count(keep) && Place(keep, j) == i
  {
    if i == 0 {
      j := 0;
    } else {
      j := PlaceOf(keep[1..], i - 1);
      if keep[0] {
        j := j + 1;
      }
    }
  }

  lemma {:induction false} SumSplit(f: seq<int>, keep: seq<bool>)
    requires |f| == |keep|
    ensures Sum(Pick(f, keep)) + Sum(Pick(f, Flip(keep))) == Sum(f)
    decreases |f|
  {
    if f != [] {
      assert Flip(keep)[1..] == Flip(keep[1..]);
      SumSplit(f[1..], keep[1..]);
      var a, b := Pick(f[1..], keep[1..]), Pick(f[1..], Flip(keep[1..]));
      assert ([f[0]] + a)[1..] == a && ([f[0]] + b)[1..] == b;
    }
  }

  ghost function ReplacedFee(r: Rules, u: UtxoMap, pool: seq<Tx>, tx: Tx): int
  {
    Sum(Fees(r, Final(r, u, Remaining(r, pool, tx)), Replaced(pool, tx)))
  }

  /**
   If the entries that do not conflict replay without the others, the loop that prices the
   replaced entries cannot fail, and it finds exactly the fees they pay in the pool.
   */
  lemma ReplacedFeeIsExact(r: Rules, u: UtxoMap, pool: seq<Tx>, tx: Tx)
    requires Independent(r, pool) && Replays(r, u, pool) && Replays(r, u, Remaining(r, pool, tx))
    ensures Replays(r, Final(r, u, Remaining(r, pool, tx)), Replaced(pool, tx))
    ensures Fees(r, Final(r, u, Remaining(r, pool, tx)), Replaced(pool, tx)) == Pick(Fees(r, u, pool), Conflicting(pool, tx))
    ensures Sum(Fees(r, u, Remaining(r, pool, tx))) + ReplacedFee(r, u, pool, tx) == Sum(Fees(r, u, pool))
  {
    hide Replays, Fees, Final, Pick, Sum;
    var m := Conflicting(pool, tx);
    StayingIsNotConflicting(r, pool, tx);
    MarkedFirst(r, u, pool, Flip(m));
    assert Flip(Flip(m)) == m;
    SumSplit(Fees(r, u, pool), Flip(m));
  }

  ghost function SubmitReplacing(r: Rules, p: Policy, u: UtxoMap, pool: seq<Tx>, tx: Tx): Option<seq<Tx>>
  {
    var rest, gone := Remaining(r, pool, tx), Replaced(pool, tx);
    var v := Final(r, u, rest);
    if !p.allowReplacement || !Replays(r, u, rest) || !Replays(r, v, gone) || !CanApply(r, v, tx) then None
    else if Fee(v, tx) < ReplacedFee(r, u, pool, tx) + p.replacementFeeBump then None
    else if !p.Admits(r, tx, Fee(v, tx), |rest|) then None
    else Some(rest + [tx])
  }

  // ---- eviction -----------------------------------------------------------------------

  /** Without entry `k` the pool still replays and `tx` still applies. */
  ghost predicate Evictable(r: Rules, u: UtxoMap, pool: seq<Tx>, tx: Tx, k: nat)
    requires k < |pool|
  {
    Replays(r, u, Without(pool, k)) && CanApply(r, Final(r, u, Without(pool, k)), tx)
  }

  function PoolScore(r: Rules, u: UtxoMap, pool: seq<Tx>, k: nat): Score
    requires k < |pool|
  {
    ScoreFor(r, pool[k], Fees(r, u, pool)[k])
  }

  /** The evictable entry with the lowest score among the first `n`, as the loop finds it. */
  ghost function WorstOf(r: Rules, u: UtxoMap, pool: seq<Tx>, tx: Tx, n: nat): (k: Option<nat>)
    requires n <= |pool|
    ensures k.Some? ==> k.value < n
  {
    if n == 0 then None else
    var worst := WorstOf(r, u, pool, tx, n - 1);
    if !Evictable(r, u, pool, tx, n - 1) then worst
    else if worst.None? || Higher(PoolScore(r, u, pool, worst.value), PoolScore(r, u, pool, n - 1)) then Some(n - 1)
    else worst
  }

  lemma {:induction false} WorstOfIsWorst(r: Rules, u: UtxoMap, pool: seq<Tx>, tx: Tx, n: nat)
    requires n <= |pool|
    ensures match WorstOf(r, u, pool, tx, n)
            case None => forall i | 0 <= i < n :: !Evictable(r, u, pool, tx, i)
            case Some(k) =>
              Evictable(r, u, pool, tx, k) &&
              forall i | 0 <= i < n && Evictable(r, u, pool, tx, i) :: !Higher(PoolScore(r, u, pool, k), PoolScore(r, u, pool, i))
  {
    hide Evictable, PoolScore, Higher;
    if n > 0 {
      WorstOfIsWorst(r, u, pool, tx, n - 1);
      var worst := WorstOf(r, u, pool, tx, n - 1);
      if Evictable(r, u, pool, tx, n - 1) {
        var mine := PoolScore(r, u, pool, n - 1);
        HigherTotal(mine, mine);
        if worst.Some? && Higher(PoolScore(r, u, pool, worst.value), mine) {
          forall i | 0 <= i < n - 1 && Evictable(r, u, pool, tx, i)
            ensures !Higher(mine, PoolScore(r, u, pool, i))
          {
            if Higher(mine, PoolScore(r, u, pool, i)) {
              HigherTransitive(PoolScore(r, u, pool, worst.value), mine, PoolScore(r, u, pool, i));
            }
          }
        }
      }
    }
  }

  datatype Eviction = Refuse | Room(remaining: seq<Tx>, fee: int)

  ghost function Evict(r: Rules, p: Policy, u: UtxoMap, pool: seq<Tx>, tx: Tx): Eviction
  {
    var fee := Fee(Final(r, u, pool), tx);
    if |pool| < p.maxTransactions || !p.allowEviction then Room(pool, fee) else
    match WorstOf(r, u, pool, tx, |pool|)
    case None => Room(pool, fee)
    case Some(k) =>
      if FeeRate(fee, r.size(tx)) < PoolScore(r, u, pool, k).rate + p.evictionFeeRateBump then Refuse
      else Room(Without(pool, k), Fee(Final(r, u, Without(pool, k)), tx))
  }

  ghost function SubmitPlain(r: Rules, p: Policy, u: UtxoMap, pool: seq<Tx>, tx: Tx): Option<seq<Tx>>
  {
    if !Replays(r, u, pool) || !CanApply(r, Final(r, u, pool), tx) then None else
    match Evict(r, p, u, pool, tx)
    case Refuse => None
    case Room(rest, fee) => if p.Admits(r, tx, fee, |rest|) then Some(rest + [tx]) else None
  }

  /** The new pool, or `None` where the transaction is refused and the pool stays as it is. */
  ghost function Submit(r: Rules, p: Policy, u: UtxoMap, pool: seq<Tx>, tx: Tx): Option<seq<Tx>>
  {
    if IsCoinbase(tx) || HasTxid(r, pool, r.txid(tx)) then None
    else if Replaced(pool, tx) == [] then SubmitPlain(r, p, u, pool, tx)
    else SubmitReplacing(r, p, u, pool, tx)
  }

  // ---- submission keeps the pool -------------------------------------------------------

  lemma NothingConflicts(pool: seq<Tx>, tx: Tx)
    requires Replaced(pool, tx) == []
    ensures forall i | 0 <= i < |pool| :: !Conflicts(tx, pool[i])
  {
    var m := Conflicting(pool, tx);
    PickAt(pool, m);
    forall i | 0 <= i < |pool|
      ensures !Conflicts(tx, pool[i])
    {
      if m[i] {
        var j := PlaceOf(m, i);
      }
    }
  }

  lemma ReplacingKeepsPool(r: Rules, p: Policy, u: UtxoMap, pool: seq<Tx>, tx: Tx)
    requires PoolOk(r, p, u, pool) && !IsCoinbase(tx) && !HasTxid(r, pool, r.txid(tx))
    requires SubmitReplacing(r, p, u, pool, tx).Some?
    ensures PoolOk(r, p, u, SubmitReplacing(r, p, u, pool, tx).value)
    ensures Sum(Fees(r, u, SubmitReplacing(r, p, u, pool, tx).value)) >= Sum(Fees(r, u, pool)) + p.replacementFeeBump
  {
    hide Replays, Fees, Pick, Final, CanApply, Fee, Sum;
    var keep, rest := Staying(r, pool, Replaced(pool, tx)), Remaining(r, pool, tx);
    SublistOk(r, p, u, pool, keep);
    StayingIsNotConflicting(r, pool, tx);
    PickAt(pool, keep);
    assert Separate(r, rest, tx) by {
      assert forall i | 0 <= i < |rest| :: rest[i] == pool[Place(keep, i)] && !Conflicts(tx, rest[i]);
    }
    AppendOk(r, p, u, rest, tx);
    ReplacedFeeIsExact(r, u, pool, tx);
  }

  lemma PlainKeepsPool(r: Rules, p: Policy, u: UtxoMap, pool: seq<Tx>, tx: Tx)
    requires PoolOk(r, p, u, pool) && !IsCoinbase(tx) && !HasTxid(r, pool, r.txid(tx))
    requires Replaced(pool, tx) == [] && SubmitPlain(r, p, u, pool, tx).Some?
    ensures PoolOk(r, p, u, SubmitPlain(r, p, u, pool, tx).value)
  {
    hide Replays, Fees, Pick, Final, CanApply, Fee, Sum;
    NothingConflicts(pool, tx);
    assert Separate(r, pool, tx);
    var rest := Evict(r, p, u, pool, tx).remaining;
    if rest == pool {
      AppendOk(r, p, u, pool, tx);
    } else {
      WorstOfIsWorst(r, u, pool, tx, |pool|);
      var k := WorstOf(r, u, pool, tx, |pool|).value;
      PickAllBut(pool, k);
      SublistOk(r, p, u, pool, AllBut(|pool|, k));
      assert Separate(r, rest, tx) by {
        assert forall i | 0 <= i < |rest| :: rest[i] == pool[if i < k then i else i + 1];
      }
      AppendOk(r, p, u, rest, tx);
    }
  }

  /** Whatever is submitted, and whichever way it is admitted, the pool stays in order. */
  lemma SubmitKeepsPool(r: Rules, p: Policy, u: UtxoMap, pool: seq<Tx>, tx: Tx)
    requires PoolOk(r, p, u, pool) && Submit(r, p, u, pool, tx).Some?
    ensures PoolOk(r, p, u, Submit(r, p, u, pool, tx).value)
    ensures Replaced(pool, tx) != [] ==>
              Sum(Fees(r, u, Submit(r, p, u, pool, tx).value)) >= Sum(Fees(r, u, pool)) + p.replacementFeeBump
  {
    hide PoolOk, SubmitPlain, SubmitReplacing, Fees, Sum, Replaced;
    if Replaced(pool, tx) == [] {
      PlainKeepsPool(r, p, u, pool, tx);
    } else {
      ReplacingKeepsPool(r, p, u, pool, tx);
    }
  }
}
