/** Sublists given by a mask: what list comprehensions with a filter build. */
module Lists {
  import opened Bytes

  /** The entries of `s` that `keep` marks, in order. */
  function Pick<T>(s: seq<T>, keep: seq<bool>): seq<T>
    requires |s| == |keep|
    decreases |s|
  {
    if s == [] then [] else
    var rest := Pick(s[1..], keep[1..]);
    if keep[0] then [s[0]] + rest else rest
  }

  function Flip(keep: seq<bool>): (f: seq<bool>)
    ensures |f| == |keep| && forall i | 0 <= i < |keep| :: f[i] == !keep[i]
  {
    seq(|keep|, i requires 0 <= i < |keep| => !keep[i])
  }

  function Count(keep: seq<bool>): nat
  {
    if keep == [] then 0 else (if keep[0] then 1 else 0) + Count(keep[1..])
  }

  /** Where the `i`-th marked position is. */
  function Place(keep: seq<bool>, i: nat): (j: nat)
    requires i < Count(keep)
    ensures i <= j < |keep| && keep[j]
  {
    if !keep[0] then 1 + Place(keep[1..], i)
    else if i == 0 then 0
    else 1 + Place(keep[1..], i - 1)
  }

  lemma {:induction false} PlaceIncreases(keep: seq<bool>, i: nat, j: nat)
    requires i < j < Count(keep)
    ensures Place(keep, i) < Place(keep, j)
  {
    if !keep[0] {
      PlaceIncreases(keep[1..], i, j);
    } else if i > 0 {
      PlaceIncreases(keep[1..], i - 1, j - 1);
    }
  }

  lemma {:induction false} PickAt<T>(s: seq<T>, keep: seq<bool>)
    requires |s| == |keep|
    ensures |Pick(s, keep)| == Count(keep)
    ensures forall i | 0 <= i < Count(keep) :: Pick(s, keep)[i] == s[Place(keep, i)]
    decreases |s|
  {
    if s != [] {
      PickAt(s[1..], keep[1..]);
    }
  }

  lemma {:induction false} PickSnoc<T>(s: seq<T>, keep: seq<bool>, x: T, b: bool)
    requires |s| == |keep|
    ensures Pick(s + [x], keep + [b]) == Pick(s, keep) + (if b then [x] else [])
    decreases |s|
  {
    if s != [] {
      PickSnoc(s[1..], keep[1..], x, b);
      assert (s + [x])[1..] == s[1..] + [x] && (keep + [b])[1..] == keep[1..] + [b];
    }
  }

  lemma {:induction false} PickNone<T>(s: seq<T>, keep: seq<bool>)
    requires |s| == |keep| && forall i | 0 <= i < |keep| :: !keep[i]
    ensures Pick(s, keep) == []
    decreases |s|
  {
    if s != [] {
      PickNone(s[1..], keep[1..]);
    }
  }

  lemma {:induction false} PickAll<T>(s: seq<T>, keep: seq<bool>)
    requires |s| == |keep| && forall i | 0 <= i < |keep| :: keep[i]
    ensures Pick(s, keep) == s
    decreases |s|
  {
    if s != [] {
      PickAll(s[1..], keep[1..]);
    }
  }

  /** Taking out a marked entry that has no marked entry before it. */
  lemma {:induction false} PickFirst<T>(s: seq<T>, keep: seq<bool>, k: nat)
    requires |s| == |keep| && k < |s| && keep[k] && forall i | 0 <= i < k :: !keep[i]
    ensures Pick(s, keep) == [s[k]] + Pick(Without(s, k), Without(keep, k))
    decreases |s|
  {
    if k == 0 {
      assert Without(s, 0) == s[1..] && Without(keep, 0) == keep[1..];
    } else {
      PickFirst(s[1..], keep[1..], k - 1);
      assert Without(s, k)[1..] == Without(s[1..], k - 1);
      assert Without(keep, k)[1..] == Without(keep[1..], k - 1);
    }
  }

  /** Taking out an entry that is not marked changes nothing. */
  lemma {:induction false} PickSkip<T>(s: seq<T>, keep: seq<bool>, k: nat)
    requires |s| == |keep| && k < |s| && !keep[k]
    ensures Pick(s, keep) == Pick(Without(s, k), Without(keep, k))
    decreases |s|
  {
    if k == 0 {
      assert Without(s, 0) == s[1..] && Without(keep, 0) == keep[1..];
    } else {
      PickSkip(s[1..], keep[1..], k - 1);
      assert Without(s, k)[1..] == Without(s[1..], k - 1);
      assert Without(keep, k)[1..] == Without(keep[1..], k - 1);
    }
  }

  /** The mask that drops position `k` only. */
  function AllBut(n: nat, k: nat): (keep: seq<bool>)
    ensures |keep| == n && forall i | 0 <= i < n :: keep[i] == (i != k)
  {
    seq(n, i => i != k)
  }

  lemma PickAllBut<T>(s: seq<T>, k: nat)
    requires k < |s|
    ensures Pick(s, AllBut(|s|, k)) == Without(s, k)
  {
    var keep := AllBut(|s|, k);
    PickSkip(s, keep, k);
    PickAll(Without(s, k), Without(keep, k));
  }
}
