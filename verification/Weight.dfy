/**
 What difficulty means: as a test on a block's hash read as a number, and as weight in the
 choice between branches.
 */
module Weight {
  import opened Bytes
  import opened Ledger
  import opened Codec
  import opened ForkStore
  import opened Convergence

  // ---- the proof-of-work test ------------------------------------------------------------

  function Pow16(n: nat): (v: nat)
    ensures v > 0
  {
    if n == 0 then 1 else 16 * Pow16(n - 1)
  }

  /** The number that a byte string spells, most significant byte first. */
  function Value(s: seq<Byte>): nat
  {
    if s == [] then 0 else 256 * Value(s[..|s| - 1]) + s[|s| - 1]
  }

  /** The number that the first `n` hexadecimal digits spell. */
  function Digits(h: Hash, n: nat): nat
    requires n <= 64
  {
    if n == 0 then 0 else 16 * Digits(h, n - 1) + HexDigit(h, n - 1)
  }

  lemma {:induction false} DigitsSpell(h: Hash, k: nat)
    requires k <= 32
    ensures Digits(h, 2 * k) == Value(h[..k])
  {
    hide Digits, Value;
    if k == 0 {
      NoDigits(h);
    } else {
      DigitsSpell(h, k - 1);
      OneByteMore(h, k - 1);
    }
  }

  lemma NoDigits(h: Hash)
    ensures Digits(h, 0) == 0 && Value(h[..0]) == 0
  {
  }

  lemma OneByteMore(h: Hash, k: nat)
    requires k < 32
    ensures Digits(h, 2 * k + 2) == 256 * Digits(h, 2 * k) + h[k]
    ensures Value(h[..k + 1]) == 256 * Value(h[..k]) + h[k]
  {
    TwoDigits(h, k);
    hide HexDigit;
    var part := h[..k + 1];
    assert part[..k] == h[..k];
    assert Digits(h, 2 * k + 1) == 16 * Digits(h, 2 * k) + HexDigit(h, 2 * k);
  }

  lemma TwoDigits(h: Hash, k: nat)
    requires k < 32
    ensures h[k] == 16 * HexDigit(h, 2 * k) + HexDigit(h, 2 * k + 1)
  {
    assert (2 * k) % 2 == 0 && (2 * k) / 2 == k && (2 * k + 1) % 2 == 1 && (2 * k + 1) / 2 == k;
  }

  lemma {:induction false} DigitsAreZero(h: Hash, n: nat)
    requires n <= 64
    ensures (forall k | 0 <= k < n :: HexDigit(h, k) == 0) <==> Digits(h, n) == 0
  {
    hide HexDigit;
    if n > 0 {
      DigitsAreZero(h, n - 1);
    }
  }

  /** Cutting off the last `m` digits is what comparing with 16^m looks at. */
  lemma {:induction false} DigitsBelow(h: Hash, n: nat, m: nat)
    requires n + m <= 64
    ensures Digits(h, n) == 0 <==> Digits(h, n + m) < Pow16(m)
    decreases m
  {
    if m > 0 {
      DigitsBelow(h, n, m - 1);
      assert Digits(h, n + m) == 16 * Digits(h, n + m - 1) + HexDigit(h, n + m - 1);
    }
  }

  /** A hash starts with `n` zero digits exactly when the number it spells is below 16^(64 - n). */
  lemma ZerosAreATarget(h: Hash, n: nat)
    requires n <= 64
    ensures LeadingZeros(h, n) <==> Value(h) < Pow16(64 - n)
  {
    hide HexDigit, Digits, Value, Pow16;
    DigitsSpell(h, 32);
    assert h[..32] == h;
    DigitsAreZero(h, n);
    DigitsBelow(h, n, 64 - n);
  }

  /** Byte strings of one length compare by their first difference. */
  lemma {:induction false} LessSnoc(a: seq<Byte>, b: seq<Byte>, x: Byte, y: Byte)
    requires |a| == |b|
    ensures Less(a + [x], b + [y]) <==> Less(a, b) || (a == b && x < y)
  {
    var s, t := a + [x], b + [y];
    if a != [] {
      LessSnoc(a[1..], b[1..], x, y);
      assert s[1..] == a[1..] + [x] && t[1..] == b[1..] + [y];
      assert a == b <==> a[0] == b[0] && a[1..] == b[1..] by {
        assert a == [a[0]] + a[1..] && b == [b[0]] + b[1..];
      }
    }
  }

  /** The order of hashes, as in tie-breaks, is the order of the numbers they spell. */
  lemma {:induction false} LessIsNumeric(a: seq<Byte>, b: seq<Byte>)
    requires |a| == |b|
    ensures Less(a, b) <==> Value(a) < Value(b)
    ensures a == b <==> Value(a) == Value(b)
  {
    if a != [] {
      var n := |a| - 1;
      LessIsNumeric(a[..n], b[..n]);
      LessSnoc(a[..n], b[..n], a[n], b[n]);
      assert a == a[..n] + [a[n]] && b == b[..n] + [b[n]];
    }
  }

  lemma {:induction false} FieldSpells(s: seq<Byte>)
    ensures FromBE(s) == Value(s)
  {
    if s != [] {
      FieldSpells(s[..|s| - 1]);
    }
  }

  /** Encoded whole numbers sort like the numbers: the most significant byte comes first. */
  lemma FieldsSortLikeNumbers(a: nat, b: nat, k: nat)
    requires a < Pow256(k) && b < Pow256(k)
    ensures Less(BE(a, k), BE(b, k)) <==> a < b
  {
    hide BE, FromBE, Value, Pow256;
    ReadsBack(a, k);
    ReadsBack(b, k);
    FieldSpells(BE(a, k));
    FieldSpells(BE(b, k));
    LessIsNumeric(BE(a, k), BE(b, k));
  }

  // ---- the weight of a block and of a branch -------------------------------------------------

  function TwoTo(n: nat): (v: nat)
    ensures v > 0
  {
    if n == 0 then 1 else TwoTo(n - 1) + TwoTo(n - 1)
  }

  lemma {:induction false} TwoToAdds(a: nat, b: nat)
    ensures TwoTo(a + b) == TwoTo(a) * TwoTo(b)
  {
    if b > 0 {
      TwoToAdds(a, b - 1);
      Distribute(TwoTo(a), TwoTo(b - 1));
    }
  }

  lemma Distribute(x: int, y: int)
    ensures x * (y + y) == x * y + x * y
  {
  }

  lemma {:induction false} TwoToGrows(a: nat, b: nat)
    requires a <= b
    ensures TwoTo(a) <= TwoTo(b)
  {
    if a < b {
      TwoToGrows(a, b - 1);
    }
  }

  /** Two to the difficulty, or one where the difficulty is not positive. */
  function WeightOf(difficulty: int): nat
  {
    if difficulty <= 0 then 1 else TwoTo(difficulty)
  }

  lemma {:induction false} PowIsTwoTo(n: int)
    ensures Pow2(n) == WeightOf(n)
  {
    if n > 0 {
      PowIsTwoTo(n - 1);
    }
  }

  /** The weights of the blocks of a branch, added up. */
  function BranchWeight(blocks: seq<Block>): nat
  {
    if blocks == [] then 0 else BranchWeight(blocks[..|blocks| - 1]) + WeightOf(blocks[|blocks| - 1].difficulty)
  }

  lemma {:induction false} ChainWorkIsWeight(blocks: seq<Block>)
    ensures ChainWork(blocks) == BranchWeight(blocks)
  {
    hide WeightOf, Pow2;
    if blocks != [] {
      ChainWorkIsWeight(blocks[..|blocks| - 1]);
      PowIsTwoTo(blocks[|blocks| - 1].difficulty);
    }
  }

  /** The store records, for every block, the weights of its branch added up. */
  lemma StoredWeight(r: Rules, s: Store, h: Hash)
    requires Linked(r, s) && h in s
    ensures s[h].work == BranchWeight(Branch(r, s, h))
  {
    hide Branch, ChainWork, BranchWeight;
    WorkOfBranch(r, s, h);
    ChainWorkIsWeight(Branch(r, s, h));
  }

  /** The best tip has the heaviest branch; of equally heavy ones the longest; then the smallest hash. */
  lemma TipIsHeaviest(r: Rules, s: Store, k: Hash)
    requires Linked(r, s) && k in s && k != Tip(s)
    ensures var tip := Tip(s);
            var a, b := BranchWeight(Branch(r, s, tip)), BranchWeight(Branch(r, s, k));
            a > b || (a == b && (|Branch(r, s, tip)| > |Branch(r, s, k)| ||
                                 (|Branch(r, s, tip)| == |Branch(r, s, k)| && Less(tip, k))))
  {
    hide Branch, BranchWeight, Linked;
    StoredWeight(r, s, Tip(s));
    StoredWeight(r, s, k);
  }

  lemma {:induction false} WeightAppend(a: seq<Block>, b: seq<Block>)
    ensures BranchWeight(a + b) == BranchWeight(a) + BranchWeight(b)
    decreases |b|
  {
    hide WeightOf;
    if b == [] {
      assert a + b == a;
    } else {
      var n := |b| - 1;
      WeightAppend(a, b[..n]);
      assert (a + b)[..|a + b| - 1] == a + b[..n] && (a + b)[|a + b| - 1] == b[n];
    }
  }

  lemma {:induction false} LightBranch(blocks: seq<Block>, d: nat)
    requires forall i | 0 <= i < |blocks| :: blocks[i].difficulty <= d
    ensures BranchWeight(blocks) <= |blocks| * TwoTo(d)
  {
    if blocks != [] {
      var n := |blocks| - 1;
      var last := blocks[n].difficulty;
      LightBranch(blocks[..n], d);
      if last > 0 {
        TwoToGrows(last, d);
      }
      OneMore(n, TwoTo(d));
    }
  }

  lemma OneMore(n: int, w: int)
    ensures (n + 1) * w == n * w + w
  {
  }

  /** Fewer than 2^k blocks of difficulty `d` weigh less than one of difficulty `d + k`. */
  lemma FewAreLighter(blocks: seq<Block>, d: nat, k: nat)
    requires |blocks| < TwoTo(k) && forall i | 0 <= i < |blocks| :: blocks[i].difficulty <= d
    ensures BranchWeight(blocks) < WeightOf(d + k)
  {
    hide BranchWeight;
    LightBranch(blocks, d);
    TwoToAdds(d, k);
    FewerIsLess(|blocks|, TwoTo(k), TwoTo(d));
  }

  lemma FewerIsLess(a: int, b: int, w: int)
    requires a < b && w > 0
    ensures a * w < w * b
  {
    assert (b - a) * w > 0;
  }

  /**
   `blocks` is below `parent`, or leaves `parent` with fewer than 2^k blocks of difficulty at
   most `d`.
   */
  ghost predicate LightFrom(parent: seq<Block>, blocks: seq<Block>, d: nat, k: nat)
  {
    blocks <= parent ||
    (parent <= blocks && |blocks| - |parent| < TwoTo(k) && forall i | |parent| <= i < |blocks| :: blocks[i].difficulty <= d)
  }

  lemma HeavyIsHeavier(parent: seq<Block>, b: Block, blocks: seq<Block>, d: nat, k: nat)
    requires b.difficulty == d + k && LightFrom(parent, blocks, d, k)
    ensures BranchWeight(blocks) < BranchWeight(parent + [b])
  {
    hide BranchWeight, WeightOf;
    WeightAppend(parent, [b]);
    assert BranchWeight([b]) == WeightOf(d + k) by {
      WeighOne(b);
    }
    if blocks <= parent {
      assert parent == blocks + parent[|blocks|..];
      WeightAppend(blocks, parent[|blocks|..]);
      SomeWeight(d + k);
    } else {
      var more := blocks[|parent|..];
      assert blocks == parent + more;
      assert forall i | 0 <= i < |more| :: more[i] == blocks[|parent| + i];
      WeightAppend(parent, more);
      FewAreLighter(more, d, k);
    }
  }

  lemma WeighOne(b: Block)
    ensures BranchWeight([b]) == WeightOf(b.difficulty)
  {
    assert [b][..0] == [];
  }

  lemma SomeWeight(n: int)
    ensures WeightOf(n) > 0
  {
  }

  /**
   One block of difficulty `d + k` outweighs every branch that leaves its parent with fewer
   than 2^k blocks of difficulty at most `d`: if the store holds nothing else beside its
   descendants, the best tip is on it, however long the other branches are.
   */
  lemma HeavyBlockWins(r: Rules, s: Store, heavy: Hash, d: nat, k: nat)
    requires Linked(r, s) && heavy in s && s[heavy].block.height > 0 && s[heavy].block.difficulty == d + k
    requires s[heavy].block.previousHash in s
    requires forall h | h in s && !(Branch(r, s, heavy) <= Branch(r, s, h)) ::
               LightFrom(Branch(r, s, s[heavy].block.previousHash), Branch(r, s, h), d, k)
    ensures Tip(s) in s && Branch(r, s, heavy) <= Branch(r, s, Tip(s))
  {
    hide LightFrom, BranchWeight;
    assert LinkedAt(r, s, heavy);
    var parent, b, tip := Branch(r, s, s[heavy].block.previousHash), s[heavy].block, Tip(s);
    assert Branch(r, s, heavy) == parent + [b];
    if !(Branch(r, s, heavy) <= Branch(r, s, tip)) {
      HeavyIsHeavier(parent, b, Branch(r, s, tip), d, k);
      TipIsHeaviest(r, s, heavy);
    }
  }
}
