/**
 Block assembly: repeatedly take, among the pooled transactions that can be applied now,
 the one with the highest score.
 */
module Assembly {
  import opened Bytes
  import opened Ledger
  import opened Utxo
  import opened Replay
  import opened Policy

  function ScoreAt(r: Rules, u: UtxoMap, tx: Tx): Score
  {
    ScoreFor(r, tx, Fee(u, tx))
  }

  /** The best applicable entry among the first `n`, as the inner loop finds it. */
  ghost function BestOf(r: Rules, u: UtxoMap, pending: seq<Tx>, n: nat): (k: Option<nat>)
    requires n <= |pending|
    ensures k.Some? ==> k.value < n
  {
    if n == 0 then None else
    var best := BestOf(r, u, pending, n - 1);
    if !CanApply(r, u, pending[n - 1]) then best
    else if best.None? || Higher(ScoreAt(r, u, pending[n - 1]), ScoreAt(r, u, pending[best.value])) then Some(n - 1)
    else best
  }

  /** `k` can be applied and nothing that can be applied scores higher. */
  ghost predicate IsBest(r: Rules, u: UtxoMap, pending: seq<Tx>, n: nat, k: nat)
    requires n <= |pending|
  {
    k < n && CanApply(r, u, pending[k]) &&
    forall i | 0 <= i < n && CanApply(r, u, pending[i]) :: !Higher(ScoreAt(r, u, pending[i]), ScoreAt(r, u, pending[k]))
  }

  lemma {:induction false} BestOfIsBest(r: Rules, u: UtxoMap, pending: seq<Tx>, n: nat)
    requires n <= |pending|
    ensures match BestOf(r, u, pending, n)
            case None => forall i | 0 <= i < n :: !CanApply(r, u, pending[i])
            case Some(k) => IsBest(r, u, pending, n, k)
  {
    hide CanApply, ScoreAt, Higher;
    if n > 0 {
      BestOfIsBest(r, u, pending, n - 1);
      var best := BestOf(r, u, pending, n - 1);
      if CanApply(r, u, pending[n - 1]) {
        var mine := ScoreAt(r, u, pending[n - 1]);
        HigherTotal(mine, mine);
        if best.Some? && Higher(mine, ScoreAt(r, u, pending[best.value])) {
          forall i | 0 <= i < n - 1 && CanApply(r, u, pending[i])
            ensures !Higher(ScoreAt(r, u, pending[i]), mine)
          {
            if Higher(ScoreAt(r, u, pending[i]), mine) {
              HigherTransitive(ScoreAt(r, u, pending[i]), mine, ScoreAt(r, u, pending[best.value]));
            }
          }
        }
      }
    }
  }

  /** The order in which assembly takes the pool, or `None` where it gets stuck. */
  ghost function Greedy(r: Rules, u: UtxoMap, pending: seq<Tx>): Option<seq<Tx>>
    decreases |pending|
  {
    if pending == [] then Some([]) else
    match BestOf(r, u, pending, |pending|)
    case None => None
    case Some(k) =>
      match Greedy(r, After(r, u, pending[k]), Without(pending, k))
      case None => None
      case Some(rest) => Some([pending[k]] + rest)
  }

  lemma WithoutMultiset<T>(s: seq<T>, k: nat)
    requires k < |s|
    ensures multiset(s) == multiset([s[k]]) + multiset(Without(s, k))
  {
    assert s == s[..k] + [s[k]] + s[k + 1..];
  }

  /**
   If the pool replays in its own order, assembly never gets stuck, takes every pooled
   transaction exactly once, and ends with the same fees and the same state.
   */
  lemma {:induction false} GreedyTakesAll(r: Rules, u: UtxoMap, pool: seq<Tx>)
    requires Independent(r, pool) && Replays(r, u, pool)
    ensures Greedy(r, u, pool).Some?
    ensures var sel := Greedy(r, u, pool).value;
            multiset(sel) == multiset(pool) && Replays(r, u, sel) &&
            Final(r, u, sel) == Final(r, u, pool) &&
            Sum(Fees(r, u, sel)) == Sum(Fees(r, u, pool))
    decreases |pool|
  {
    hide CanApply, After, Fee, Higher, ScoreAt, BestOf, Independent, Replays, Final, Fees;
    if pool == [] {
      assert Greedy(r, u, pool) == Some(pool);
    } else {
      BestOfIsBest(r, u, pool, |pool|);
      ReplayCons(r, u, pool[0], pool[1..]);
      assert pool == [pool[0]] + pool[1..];
      var k := BestOf(r, u, pool, |pool|).value;
      MoveToFront(r, u, pool, k);
      IndependentWithout(r, pool, k);
      GreedyTakesAll(r, After(r, u, pool[k]), Without(pool, k));
      var rest := Greedy(r, After(r, u, pool[k]), Without(pool, k)).value;
      WithoutMultiset(pool, k);
      SumWithout(Fees(r, u, pool), k);
      ReplayCons(r, u, pool[k], rest);
      SumCons(Fee(u, pool[k]), Fees(r, After(r, u, pool[k]), rest));
    }
  }

  /** The scores of an ordering, each at its own place. */
  function Scores(r: Rules, u: UtxoMap, order: seq<Tx>): (s: seq<Score>)
    ensures |s| == |order|
    decreases |order|
  {
    if order == [] then [] else [ScoreAt(r, u, order[0])] + Scores(r, After(r, u, order[0]), order[1..])
  }

  /** `a` is lexicographically at least `b`. */
  predicate AtLeast(a: seq<Score>, b: seq<Score>)
    requires |a| == |b|
  {
    a == [] || Higher(a[0], b[0]) || (a[0] == b[0] && AtLeast(a[1..], b[1..]))
  }

  /** Among all orderings of the pool that replay, assembly finds the greatest. */
  lemma {:induction false} GreedyIsGreatest(r: Rules, u: UtxoMap, pool: seq<Tx>, order: seq<Tx>)
    requires Independent(r, pool) && Replays(r, u, pool)
    requires multiset(order) == multiset(pool) && Replays(r, u, order)
    ensures Greedy(r, u, pool).Some? && |Greedy(r, u, pool).value| == |order|
    ensures AtLeast(Scores(r, u, Greedy(r, u, pool).value), Scores(r, u, order))
    decreases |pool|
  {
    hide CanApply, After, Higher, ScoreAt, Replays, Independent, Greedy, BestOf, Scores, AtLeast;
    GreedyTakesAll(r, u, pool);
    var sel := Greedy(r, u, pool).value;
    SameLength(order, pool);
    SameLength(sel, pool);
    if pool != [] {
      var k := GreedyStep(r, u, pool);
      var v := After(r, u, pool[k]);
      ReplaysHead(r, u, order);
      if order[0] == pool[k] {
        TailMultiset(order, pool, k);
        GreedyIsGreatest(r, v, Without(pool, k), order[1..]);
      } else {
        var j := FindHead(order, pool);
        BestIsHigher(r, u, pool, k, j);
      }
      AtLeastStep(r, u, sel, order);
    } else {
      assert sel == [] && order == [];
      AtLeastEmpty(r, u);
    }
  }

  lemma AtLeastEmpty(r: Rules, u: UtxoMap)
    ensures Scores(r, u, []) == [] && AtLeast([], [])
  {
  }

  lemma AtLeastStep(r: Rules, u: UtxoMap, a: seq<Tx>, b: seq<Tx>)
    requires |a| == |b| > 0
    requires Higher(ScoreAt(r, u, a[0]), ScoreAt(r, u, b[0])) ||
             (a[0] == b[0] && AtLeast(Scores(r, After(r, u, a[0]), a[1..]), Scores(r, After(r, u, a[0]), b[1..])))
    ensures AtLeast(Scores(r, u, a), Scores(r, u, b))
  {
    hide After, Higher, ScoreAt;
    var s, t := Scores(r, After(r, u, a[0]), a[1..]), Scores(r, After(r, u, b[0]), b[1..]);
    assert ([ScoreAt(r, u, a[0])] + s)[1..] == s && ([ScoreAt(r, u, b[0])] + t)[1..] == t;
  }

  lemma TailMultiset<T>(order: seq<T>, pool: seq<T>, k: nat)
    requires multiset(order) == multiset(pool) && k < |pool| && order != [] && order[0] == pool[k]
    ensures multiset(order[1..]) == multiset(Without(pool, k))
  {
    WithoutMultiset(pool, k);
    WithoutMultiset(order, 0);
    assert Without(order, 0) == order[1..];
    assert multiset(order[1..]) == multiset(order) - multiset([order[0]]);
    assert multiset(Without(pool, k)) == multiset(pool) - multiset([pool[k]]);
  }

  lemma FindHead<T>(order: seq<T>, pool: seq<T>) returns (j: nat)
    requires multiset(order) == multiset(pool) && order != []
    ensures j < |pool| && pool[j] == order[0]
  {
    assert order[0] in multiset(order);
    j :| j < |pool| && pool[j] == order[0];
  }

  lemma ReplaysHead(r: Rules, u: UtxoMap, txs: seq<Tx>)
    requires Replays(r, u, txs) && txs != []
    ensures CanApply(r, u, txs[0]) && Replays(r, After(r, u, txs[0]), txs[1..])
  {
  }

  /** The first choice of assembly, and the pool it leaves. */
  lemma GreedyStep(r: Rules, u: UtxoMap, pool: seq<Tx>) returns (k: nat)
    requires Independent(r, pool) && Replays(r, u, pool) && pool != []
    ensures k < |pool| && IsBest(r, u, pool, |pool|, k)
    ensures Independent(r, Without(pool, k)) && Replays(r, After(r, u, pool[k]), Without(pool, k))
    ensures Greedy(r, u, pool).Some? && Greedy(r, u, pool).value != []
    ensures Greedy(r, u, pool).value[0] == pool[k]
    ensures Greedy(r, After(r, u, pool[k]), Without(pool, k)) == Some(Greedy(r, u, pool).value[1..])
  {
    hide CanApply, After, Higher, ScoreAt, Fee;
    GreedyTakesAll(r, u, pool);
    BestOfIsBest(r, u, pool, |pool|);
    k := BestOf(r, u, pool, |pool|).value;
    MoveToFront(r, u, pool, k);
    IndependentWithout(r, pool, k);
  }

  lemma BestIsHigher(r: Rules, u: UtxoMap, pool: seq<Tx>, k: nat, j: nat)
    requires Independent(r, pool) && IsBest(r, u, pool, |pool|, k)
    requires j < |pool| && pool[j] != pool[k] && CanApply(r, u, pool[j])
    ensures Higher(ScoreAt(r, u, pool[k]), ScoreAt(r, u, pool[j]))
  {
    hide CanApply, ScoreAt, Higher;
    assert r.txid(pool[j]) != r.txid(pool[k]);
    DifferentIds(r, u, pool[k], pool[j]);
  }

  lemma DifferentIds(r: Rules, u: UtxoMap, a: Tx, b: Tx)
    requires r.txid(a) != r.txid(b) && !Higher(ScoreAt(r, u, b), ScoreAt(r, u, a))
    ensures Higher(ScoreAt(r, u, a), ScoreAt(r, u, b))
  {
    HigherTotal(ScoreAt(r, u, a), ScoreAt(r, u, b));
  }

  lemma SameLength<T>(a: seq<T>, b: seq<T>)
    requires multiset(a) == multiset(b)
    ensures |a| == |b|
  {
    assert |multiset(a)| == |a| && |multiset(b)| == |b|;
  }

  // ---- what the order is about ------------------------------------------------------------

  lemma {:induction false} GreedyPermutes(r: Rules, u: UtxoMap, pool: seq<Tx>)
    requires Greedy(r, u, pool).Some?
    ensures multiset(Greedy(r, u, pool).value) == multiset(pool)
    decreases |pool|
  {
    hide CanApply, After, BestOf;
    if pool != [] {
      var k := BestOf(r, u, pool, |pool|).value;
      GreedyPermutes(r, After(r, u, pool[k]), Without(pool, k));
      WithoutMultiset(pool, k);
    }
  }

  /** In the order of scores, fee rate comes first, then the fee, then the txid. */
  lemma NotHigherMeans(r: Rules, u: UtxoMap, a: Tx, b: Tx)
    requires !Higher(ScoreAt(r, u, b), ScoreAt(r, u, a))
    ensures var x, y := FeeRate(Fee(u, a), r.size(a)), FeeRate(Fee(u, b), r.size(b));
            x > y || (x == y && (Fee(u, a) > Fee(u, b) || (Fee(u, a) == Fee(u, b) && !Less(r.txid(a), r.txid(b)))))
  {
    hide Fee, FeeRate;
  }

  /**
   At every step, whatever assembly takes, no entry it has not taken yet and could take then
   has a higher fee rate, or the same rate and a higher fee, or both the same and a greater txid.
   */
  lemma {:induction false} NextPaysBest(r: Rules, u: UtxoMap, pool: seq<Tx>, i: nat, j: nat)
    requires Greedy(r, u, pool).Some? && i <= j < |Greedy(r, u, pool).value|
    requires var sel := Greedy(r, u, pool).value; CanApply(r, Final(r, u, sel[..i]), sel[j])
    ensures var sel := Greedy(r, u, pool).value;
            var v := Final(r, u, sel[..i]);
            var a, b := Fee(v, sel[i]), Fee(v, sel[j]);
            var x, y := FeeRate(a, r.size(sel[i])), FeeRate(b, r.size(sel[j]));
            CanApply(r, v, sel[i]) &&
            (x > y || (x == y && (a > b || (a == b && !Less(r.txid(sel[i]), r.txid(sel[j]))))))
    decreases i
  {
    hide CanApply, After, Fee, FeeRate, BestOf, Final, Higher, ScoreAt;
    var sel := Greedy(r, u, pool).value;
    BestOfIsBest(r, u, pool, |pool|);
    var k := BestOf(r, u, pool, |pool|).value;
    var v, rest := After(r, u, pool[k]), Without(pool, k);
    assert sel[0] == pool[k] && sel[1..] == Greedy(r, v, rest).value;
    FinalTakes(r, u, sel, i);
    if i == 0 {
      GreedyPermutes(r, u, pool);
      assert sel[j] in multiset(sel);
      var m :| 0 <= m < |pool| && pool[m] == sel[j];
      NotHigherMeans(r, u, pool[k], pool[m]);
    } else {
      assert sel[i] == sel[1..][i - 1] && sel[j] == sel[1..][j - 1];
      NextPaysBest(r, v, rest, i - 1, j - 1);
    }
  }

  lemma FinalTakes(r: Rules, u: UtxoMap, txs: seq<Tx>, i: nat)
    requires i <= |txs|
    ensures i == 0 ==> Final(r, u, txs[..i]) == u
    ensures i > 0 ==> Final(r, u, txs[..i]) == Final(r, After(r, u, txs[0]), txs[1..][..i - 1])
  {
    hide After;
    if i > 0 {
      assert txs[..i][1..] == txs[1..][..i - 1];
    }
  }
}
