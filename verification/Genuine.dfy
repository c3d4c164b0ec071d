/**
 The rules as the program instantiates them: txids are digests of the full encoding, block
 hashes are digests of the header encoding, and the transaction root is the Merkle root of
 the txids. What is left open is the digest itself, the address check and the signatures.
 */
module Genuine {
  import opened Bytes
  import opened Ledger
  import opened Wire
  import opened Merkle
  import Blocks
  import Policy
  import Node
  import Reachable

  type Digest = seq<Byte> -> Hash

  function Txid(sha: Digest, tx: Tx): Hash
  {
    sha(TxBytes(true, tx))
  }

  function Txids(sha: Digest, txs: seq<Tx>): (ids: seq<Hash>)
    ensures |ids| == |txs|
  {
    seq(|txs|, i requires 0 <= i < |txs| => Txid(sha, txs[i]))
  }

  /** A digest of two concatenated digests. */
  function PairOf(sha: Digest): Pairing
  {
    (a: Hash, b: Hash) => sha(a + b)
  }

  function TransactionRoot(sha: Digest, txs: seq<Tx>): Hash
  {
    if txs == [] then sha([]) else Root(PairOf(sha), Txids(sha, txs))
  }

  function SizeOf(tx: Tx): Size
  {
    |TxBytes(true, tx)|
  }

  function RulesFor(sha: Digest, address: Text -> bool, owner: PublicKey -> Option<Text>,
                    verify: (PublicKey, SigningMessage, Text) -> bool, subsidy: nat, cap: nat): Rules
    requires cap > 0
  {
    var raw := RawRules.Rules(
                 (t: Tx) => Txid(sha, t), (b: Block) => sha(HeaderBytes(b)), (ts: seq<Tx>) => TransactionRoot(sha, ts),
                 (t: Tx) => SizeOf(t), address, owner, verify, subsidy, cap);
    assert raw.subsidy >= 0 && raw.maxMoney > 0;
    raw
  }

  /** The digest does not collide on the encodings of `universe`. */
  ghost predicate DigestsDiffer(sha: Digest, universe: set<Tx>)
  {
    forall a, b | a in universe && b in universe && Txid(sha, a) == Txid(sha, b) :: TxBytes(true, a) == TxBytes(true, b)
  }

  /** Encodings determine transactions, so only the digest could make txids collide. */
  lemma TxidsDoNotCollide(sha: Digest, r: Rules, universe: set<Tx>)
    requires forall t :: r.txid(t) == Txid(sha, t)
    requires DigestsDiffer(sha, universe) && forall t | t in universe :: TxInRange(true, t)
    ensures CollisionFree(r, universe)
  {
    hide TxBytes, TxInRange, TxFromBytes;
    forall a, b | a in universe && b in universe && r.txid(a) == r.txid(b)
      ensures a == b
    {
      assert Txid(sha, a) == Txid(sha, b);
      TxRoundTrip(true, a);
      TxRoundTrip(true, b);
    }
  }

  /**
   The rules of the program, with the digest as the only thing assumed about: if it does not
   collide on the encodings of the transactions that occur, every run of a node is safe, and
   it keeps its full invariant exactly when every import fits the index.
   */
  lemma EveryGenuineRun(sha: Digest, address: Text -> bool, owner: PublicKey -> Option<Text>,
                        verify: (PublicKey, SigningMessage, Text) -> bool, subsidy: nat, cap: nat,
                        p: Policy.Policy, genesis: Block, indexed: bool, es: seq<Node.Event>, universe: set<Tx>)
    requires cap > 0 && DigestsDiffer(sha, universe) && forall t | t in universe :: TxInRange(true, t)
    requires Blocks.ChainOk(RulesFor(sha, address, owner, verify, subsidy, cap), [genesis]) && Node.Within(genesis, universe)
    requires forall i | 0 <= i < |es| :: Node.EventOk(es[i], universe)
    ensures var r := RulesFor(sha, address, owner, verify, subsidy, cap);
            Node.NodeOk(r, p, genesis, Node.FreshNode(r, genesis, indexed), universe) &&
            var first := Node.FreshNode(r, genesis, indexed);
            var st := Node.Run(r, p, genesis, first, es);
            Reachable.Safe(r, p, genesis, st) &&
            (Node.NodeOk(r, p, genesis, st, universe) <==> Node.AllFit(r, p, genesis, first, es))
  {
    hide TxBytes, TxInRange, Node.Run, Node.AllFit, Reachable.Safe, Node.SoundOk, Blocks.ChainOk, Node.Within, Node.EventOk, Node.FreshNode;
    var r := RulesFor(sha, address, owner, verify, subsidy, cap);
    TxidsDoNotCollide(sha, r, universe);
    Reachable.EveryRun(r, p, genesis, indexed, es, universe);
  }

  /** The digest does not collide on the nodes of the two trees over `a` and `b`. */
  ghost predicate TreesDiffer(sha: Digest, a: seq<Tx>, b: seq<Tx>)
  {
    var pair, x, y := PairOf(sha), Txids(sha, a), Txids(sha, b);
    var nodes := Nodes(pair, x) + Nodes(pair, y);
    Injective(pair, nodes) && LeavesApart(pair, nodes, (set i | 0 <= i < |x| :: x[i]) + (set i | 0 <= i < |y| :: y[i]))
  }

  /**
   Two non-empty transaction lists with pairwise distinct txids and the same transaction
   root are the same list, despite the repeated hash in layers of odd length.
   */
  lemma RootCommitsToTransactions(sha: Digest, a: seq<Tx>, b: seq<Tx>)
    requires a != [] && b != [] && Distinct(Txids(sha, a)) && Distinct(Txids(sha, b))
    requires DigestsDiffer(sha, (set t | t in a) + (set t | t in b)) && TreesDiffer(sha, a, b)
    requires forall t | t in a || t in b :: TxInRange(true, t)
    requires TransactionRoot(sha, a) == TransactionRoot(sha, b)
    ensures a == b
  {
    hide TxBytes, TxInRange, TxFromBytes, Root, Nodes, Injective, LeavesApart;
    var x, y := Txids(sha, a), Txids(sha, b);
    RootCommits(PairOf(sha), x, y);
    forall i | 0 <= i < |a|
      ensures a[i] == b[i]
    {
      assert x[i] == y[i] && a[i] in a && b[i] in b;
      TxRoundTrip(true, a[i]);
      TxRoundTrip(true, b[i]);
    }
  }

  /** The root of one transaction is its txid; of two, the digest of the two txids in their order. */
  lemma SmallRoots(sha: Digest, a: Tx, b: Tx)
    ensures TransactionRoot(sha, []) == sha([])
    ensures TransactionRoot(sha, [a]) == sha(TxBytes(true, a))
    ensures TransactionRoot(sha, [a, b]) == sha(sha(TxBytes(true, a)) + sha(TxBytes(true, b)))
  {
    hide TxBytes;
    var x, y := Txids(sha, [a]), Txids(sha, [b]);
    assert Txids(sha, [a, b]) == x + y;
    assert Width(0) == 1;
    RootOfHalves(PairOf(sha), x, y, 0);
  }

  /** The digest does not collide on the headers of two blocks. */
  ghost predicate HeadersDiffer(sha: Digest, a: Block, b: Block)
  {
    sha(HeaderBytes(a)) == sha(HeaderBytes(b)) ==> HeaderBytes(a) == HeaderBytes(b)
  }

  /**
   A block hash commits to the whole block: two blocks with the same hash, whose roots are
   those of their transactions, are the same, unless the digest collides on their headers,
   their transactions or the nodes of their trees.
   */
  lemma BlockHashCommits(sha: Digest, a: Block, b: Block)
    requires HeaderInRange(a) && HeaderInRange(b) && HeadersDiffer(sha, a, b)
    requires sha(HeaderBytes(a)) == sha(HeaderBytes(b))
    requires a.transactionRoot == TransactionRoot(sha, a.transactions) && b.transactionRoot == TransactionRoot(sha, b.transactions)
    requires a.transactions != [] && b.transactions != []
    requires Distinct(Txids(sha, a.transactions)) && Distinct(Txids(sha, b.transactions))
    requires DigestsDiffer(sha, (set t | t in a.transactions) + (set t | t in b.transactions))
    requires TreesDiffer(sha, a.transactions, b.transactions)
    requires forall t | t in a.transactions || t in b.transactions :: TxInRange(true, t)
    ensures a == b
  {
    hide TxBytes, TxInRange, HeaderInRange, HeaderBytes, ParseHeader, TransactionRoot, TreesDiffer, DigestsDiffer, Txids;
    HeaderBack(a, []);
    HeaderBack(b, []);
    assert a.transactionRoot == b.transactionRoot by {
      assert a.(transactions := []) == b.(transactions := []);
      assert a.(transactions := []).transactionRoot == a.transactionRoot;
    }
    RootCommitsToTransactions(sha, a.transactions, b.transactions);
    assert a == a.(transactions := []).(transactions := a.transactions);
  }

  /**
   The rules of the program in terms of encodings: txids and block hashes are digests of the
   whole transaction and of the header, and policy counts the bytes of the whole transaction.
   */
  lemma RulesAre(sha: Digest, address: Text -> bool, owner: PublicKey -> Option<Text>,
                 verify: (PublicKey, SigningMessage, Text) -> bool, subsidy: nat, cap: nat, t: Tx, b: Block)
    requires cap > 0
    ensures var r := RulesFor(sha, address, owner, verify, subsidy, cap);
            r.txid(t) == sha(TxBytes(true, t)) && r.size(t) == |TxBytes(true, t)| && r.blockHash(b) == sha(HeaderBytes(b)) &&
            r.merkleRoot(b.transactions) == TransactionRoot(sha, b.transactions) &&
            r.keyAddress == owner && r.verify == verify && r.validAddress == address && r.subsidy == subsidy && r.maxMoney == cap
  {
    hide TxBytes, HeaderBytes, TransactionRoot;
  }
}
