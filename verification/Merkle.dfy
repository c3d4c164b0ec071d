/**
 The transaction root. Each layer pairs neighbours and repeats the last hash of a layer of
 odd length. Two lists of distinct txids never share a root, whatever their lengths, unless
 the hash function collides on the nodes of the two trees.
 */
module Merkle {
  import opened Bytes

  type Pairing = (Hash, Hash) -> Hash

  /** The layer above: neighbours paired, the last one with itself where it has no neighbour. */
  function Up(pair: Pairing, layer: seq<Hash>): (above: seq<Hash>)
    ensures |above| == (|layer| + 1) / 2
  {
    seq((|layer| + 1) / 2, i requires 0 <= i < (|layer| + 1) / 2 =>
      pair(layer[2 * i], if 2 * i + 1 < |layer| then layer[2 * i + 1] else layer[2 * i]))
  }

  function Root(pair: Pairing, layer: seq<Hash>): Hash
    requires layer != []
    decreases |layer|
  {
    if |layer| == 1 then layer[0] else Root(pair, Up(pair, layer))
  }

  /** Pads a layer of odd length with its last hash and pairs neighbours. */
  method PairUp(pair: Pairing, layer: seq<Hash>) returns (above: seq<Hash>)
    requires layer != []
    ensures above == Up(pair, layer)
  {
    var padded := if |layer| % 2 == 1 then layer + [layer[|layer| - 1]] else layer;
    above := [];
    var i := 0;
    while i < |padded|
      invariant 0 <= i <= |padded| && i % 2 == 0 && |above| == i / 2
      invariant forall k | 0 <= k < |above| :: above[k] == pair(padded[2 * k], padded[2 * k + 1])
    {
      above := above + [pair(padded[i], padded[i + 1])];
      i := i + 2;
    }
  }

  /** The loop of `calculate_transaction_root` over a layer that is replaced each time. */
  method CalculateRoot(pair: Pairing, emptyRoot: Hash, txids: seq<Hash>) returns (root: Hash)
    ensures root == if txids == [] then emptyRoot else Root(pair, txids)
  {
    if txids == [] {
      return emptyRoot;
    }
    var layer := txids;
    while |layer| > 1
      invariant layer != [] && Root(pair, layer) == Root(pair, txids)
      decreases |layer|
    {
      layer := PairUp(pair, layer);
    }
    return layer[0];
  }

  /** All hashes of the tree, from the leaves to the root. */
  function Nodes(pair: Pairing, layer: seq<Hash>): set<Hash>
    decreases |layer|
  {
    (set i | 0 <= i < |layer| :: layer[i]) + if |layer| <= 1 then {} else Nodes(pair, Up(pair, layer))
  }

  /** Pairing does not collide on `nodes`. */
  ghost predicate Injective(pair: Pairing, nodes: set<Hash>)
  {
    forall a, b, c, d | a in nodes && b in nodes && c in nodes && d in nodes && pair(a, b) == pair(c, d) :: a == c && b == d
  }

  /** No pair of nodes hashes to a leaf. */
  ghost predicate LeavesApart(pair: Pairing, nodes: set<Hash>, leaves: set<Hash>)
  {
    forall a, b | a in nodes && b in nodes :: pair(a, b) !in leaves
  }

  /** `h` is the root of a full tree of depth `k` over `leaves`, inside `nodes`. */
  ghost predicate AtDepth(pair: Pairing, nodes: set<Hash>, leaves: set<Hash>, h: Hash, k: nat)
    decreases k
  {
    if k == 0 then h in leaves
    else exists a, b :: a in nodes && b in nodes && h == pair(a, b) && AtDepth(pair, nodes, leaves, a, k - 1)
  }

  lemma Children(pair: Pairing, nodes: set<Hash>, leaves: set<Hash>, h: Hash, k: nat) returns (a: Hash, b: Hash)
    requires AtDepth(pair, nodes, leaves, h, k) && k > 0
    ensures a in nodes && b in nodes && h == pair(a, b) && AtDepth(pair, nodes, leaves, a, k - 1)
  {
    a, b :| a in nodes && b in nodes && h == pair(a, b) && AtDepth(pair, nodes, leaves, a, k - 1);
  }

  lemma LeafDepth(pair: Pairing, nodes: set<Hash>, leaves: set<Hash>, h: Hash)
    ensures AtDepth(pair, nodes, leaves, h, 0) <==> h in leaves
  {
  }

  lemma {:induction false} DepthIsUnique(pair: Pairing, nodes: set<Hash>, leaves: set<Hash>, h: Hash, j: nat, k: nat)
    requires Injective(pair, nodes) && LeavesApart(pair, nodes, leaves)
    requires AtDepth(pair, nodes, leaves, h, j) && AtDepth(pair, nodes, leaves, h, k)
    ensures j == k
    decreases j
  {
    hide AtDepth;
    LeafDepth(pair, nodes, leaves, h);
    if j > 0 {
      var a, b := Children(pair, nodes, leaves, h, j);
      if k > 0 {
        var c, d := Children(pair, nodes, leaves, h, k);
        DepthIsUnique(pair, nodes, leaves, a, j - 1, k - 1);
      }
    } else if k > 0 {
      var c, d := Children(pair, nodes, leaves, h, k);
    }
  }

  ghost predicate LayerAt(pair: Pairing, nodes: set<Hash>, leaves: set<Hash>, layer: seq<Hash>, k: nat)
  {
    layer != [] && Distinct(layer) && Nodes(pair, layer) <= nodes &&
    forall i | 0 <= i < |layer| :: layer[i] in nodes && AtDepth(pair, nodes, leaves, layer[i], k)
  }

  /** Distinct hashes at one depth give distinct hashes at the next. */
  lemma UpKeeps(pair: Pairing, nodes: set<Hash>, leaves: set<Hash>, layer: seq<Hash>, k: nat)
    requires Injective(pair, nodes) && LayerAt(pair, nodes, leaves, layer, k) && |layer| > 1
    ensures LayerAt(pair, nodes, leaves, Up(pair, layer), k + 1)
  {
    var above := Up(pair, layer);
    forall i | 0 <= i < |above|
      ensures above[i] in nodes && AtDepth(pair, nodes, leaves, above[i], k + 1)
    {
      assert above[i] in Nodes(pair, above);
      var a := layer[2 * i];
      var b := if 2 * i + 1 < |layer| then layer[2 * i + 1] else layer[2 * i];
      assert above[i] == pair(a, b) && a in nodes && b in nodes;
    }
    forall i, j | 0 <= i < j < |above|
      ensures above[i] != above[j]
    {
      assert layer[2 * i] != layer[2 * j];
    }
  }

  lemma {:induction false} RootDepth(pair: Pairing, nodes: set<Hash>, leaves: set<Hash>, layer: seq<Hash>, k: nat) returns (d: nat)
    requires Injective(pair, nodes) && LayerAt(pair, nodes, leaves, layer, k)
    ensures d >= k && AtDepth(pair, nodes, leaves, Root(pair, layer), d)
    ensures |layer| > 1 ==> d > k
    decreases |layer|
  {
    if |layer| == 1 {
      d := k;
    } else {
      UpKeeps(pair, nodes, leaves, layer, k);
      d := RootDepth(pair, nodes, leaves, Up(pair, layer), k + 1);
    }
  }

  /** Two distinct layers with the same layer above are the same, odd or even. */
  lemma UpIsInjective(pair: Pairing, nodes: set<Hash>, a: seq<Hash>, b: seq<Hash>)
    requires Injective(pair, nodes) && Distinct(a) && Distinct(b) && Up(pair, a) == Up(pair, b)
    requires forall i | 0 <= i < |a| :: a[i] in nodes
    requires forall i | 0 <= i < |b| :: b[i] in nodes
    ensures a == b
  {
    var up := Up(pair, a);
    forall i | 0 <= i < |up|
      ensures a[2 * i] == b[2 * i]
      ensures (2 * i + 1 < |a| <==> 2 * i + 1 < |b|) && (2 * i + 1 < |a| ==> a[2 * i + 1] == b[2 * i + 1])
    {
      UpAt(pair, nodes, a, b, i);
    }
    hide Up, Injective, Distinct;
    if |up| > 0 {
      var m := |up| - 1;
      assert 2 * m + 1 < |a| <==> 2 * m + 1 < |b|;
    }
    forall n | 0 <= n < |a|
      ensures a[n] == b[n]
    {
      var i := n / 2;
      assert a[2 * i] == b[2 * i] && (n == 2 * i || n == 2 * i + 1);
    }
  }

  lemma UpAt(pair: Pairing, nodes: set<Hash>, a: seq<Hash>, b: seq<Hash>, i: nat)
    requires Injective(pair, nodes) && Distinct(a) && Distinct(b) && Up(pair, a) == Up(pair, b) && i < |Up(pair, a)|
    requires forall i | 0 <= i < |a| :: a[i] in nodes
    requires forall i | 0 <= i < |b| :: b[i] in nodes
    ensures a[2 * i] == b[2 * i]
    ensures (2 * i + 1 < |a| <==> 2 * i + 1 < |b|) && (2 * i + 1 < |a| ==> a[2 * i + 1] == b[2 * i + 1])
  {
    var x := if 2 * i + 1 < |a| then a[2 * i + 1] else a[2 * i];
    var y := if 2 * i + 1 < |b| then b[2 * i + 1] else b[2 * i];
    assert Up(pair, a)[i] == pair(a[2 * i], x) && Up(pair, b)[i] == pair(b[2 * i], y);
  }

  lemma {:induction false} SameRoot(pair: Pairing, nodes: set<Hash>, leaves: set<Hash>, a: seq<Hash>, b: seq<Hash>, k: nat)
    requires Injective(pair, nodes) && LeavesApart(pair, nodes, leaves)
    requires LayerAt(pair, nodes, leaves, a, k) && LayerAt(pair, nodes, leaves, b, k)
    requires Root(pair, a) == Root(pair, b)
    ensures a == b
    decreases |a|
  {
    hide Nodes, Injective, LeavesApart, AtDepth, Up;
    if |a| > 1 && |b| > 1 {
      UpKeeps(pair, nodes, leaves, a, k);
      UpKeeps(pair, nodes, leaves, b, k);
      SameRoot(pair, nodes, leaves, Up(pair, a), Up(pair, b), k + 1);
      UpIsInjective(pair, nodes, a, b);
    } else {
      var d := RootDepth(pair, nodes, leaves, a, k);
      var e := RootDepth(pair, nodes, leaves, b, k);
      DepthIsUnique(pair, nodes, leaves, Root(pair, a), d, e);
      if |a| == 1 && |b| == 1 {
        assert a == [a[0]] && b == [b[0]];
      } else {
        DepthIsUnique(pair, nodes, leaves, Root(pair, a), k, if |a| == 1 then e else d);
      }
    }
  }

  /** The root commits to the whole list of txids. */
  lemma RootCommits(pair: Pairing, a: seq<Hash>, b: seq<Hash>)
    requires a != [] && b != [] && Distinct(a) && Distinct(b)
    requires Injective(pair, Nodes(pair, a) + Nodes(pair, b))
    requires LeavesApart(pair, Nodes(pair, a) + Nodes(pair, b), (set i | 0 <= i < |a| :: a[i]) + (set i | 0 <= i < |b| :: b[i]))
    requires Root(pair, a) == Root(pair, b)
    ensures a == b
  {
    var nodes, leaves := Nodes(pair, a) + Nodes(pair, b), (set i | 0 <= i < |a| :: a[i]) + (set i | 0 <= i < |b| :: b[i]);
    assert LayerAt(pair, nodes, leaves, a, 0);
    assert LayerAt(pair, nodes, leaves, b, 0);
    SameRoot(pair, nodes, leaves, a, b, 0);
  }

  // ---- what the root is made of --------------------------------------------------------------

  /** The sizes of full trees. */
  function Width(k: nat): (n: nat)
    ensures n > 0
  {
    if k == 0 then 1 else 2 * Width(k - 1)
  }

  lemma ParentAt(pair: Pairing, layer: seq<Hash>, i: nat)
    requires 2 * i < |layer|
    ensures i < |Up(pair, layer)|
    ensures Up(pair, layer)[i] == pair(layer[2 * i], if 2 * i + 1 < |layer| then layer[2 * i + 1] else layer[2 * i])
  {
  }

  lemma UpHalves(pair: Pairing, a: seq<Hash>, b: seq<Hash>, n: nat)
    requires |a| == 2 * n
    ensures Up(pair, a + b) == Up(pair, a) + Up(pair, b)
  {
    hide Up;
    var whole, x, y := a + b, Up(pair, a + b), Up(pair, a) + Up(pair, b);
    assert |Up(pair, a)| == n && |x| == |y|;
    forall i | 0 <= i < |x|
      ensures x[i] == y[i]
    {
      ParentAt(pair, whole, i);
      if i < n {
        ParentAt(pair, a, i);
      } else {
        ParentAt(pair, b, i - n);
        assert whole[2 * i] == b[2 * (i - n)];
      }
    }
  }

  /** The root over two full halves pairs the root of the first with the root of the second, in this order. */
  lemma {:induction false} RootOfHalves(pair: Pairing, a: seq<Hash>, b: seq<Hash>, k: nat)
    requires |a| == |b| == Width(k)
    ensures Root(pair, a + b) == pair(Root(pair, a), Root(pair, b))
    decreases k
  {
    UpWidth(pair, a, k);
    UpWidth(pair, b, k);
    if k == 0 {
      assert a + b == [a[0], b[0]];
      assert Up(pair, a + b) == [pair(a[0], b[0])];
    } else {
      UpHalves(pair, a, b, Width(k - 1));
      RootOfHalves(pair, Up(pair, a), Up(pair, b), k - 1);
    }
  }

  lemma UpWidth(pair: Pairing, a: seq<Hash>, k: nat)
    requires |a| == Width(k)
    ensures k > 0 ==> |Up(pair, a)| == Width(k - 1) && |a| % 2 == 0
  {
  }

  /** A layer of odd length counts as if its last hash stood there twice. */
  lemma RootOfOdd(pair: Pairing, a: seq<Hash>)
    requires |a| % 2 == 1 && |a| > 1
    ensures Root(pair, a) == Root(pair, a + [a[|a| - 1]])
  {
    UpOfOdd(pair, a, |a| / 2);
  }

  lemma UpOfOdd(pair: Pairing, a: seq<Hash>, n: nat)
    requires |a| == 2 * n + 1
    ensures Up(pair, a) == Up(pair, a + [a[|a| - 1]])
  {
    hide Up;
    var padded := a + [a[|a| - 1]];
    var x, y := Up(pair, a), Up(pair, padded);
    assert |x| == n + 1 && |y| == n + 1;
    forall i | 0 <= i < n + 1
      ensures x[i] == y[i]
    {
      ParentAt(pair, a, i);
      ParentAt(pair, padded, i);
    }
  }
}
