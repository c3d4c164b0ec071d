/**
 Transactions, blocks and the functions the consensus rules take from outside: SHA-256
 digests, the address check and Ed25519 verification. Those are fields of `Rules`, so
 every statement holds for whatever they compute; a statement that needs collision
 freedom says so on a finite set of transactions.
 */
module Ledger {
  import opened Bytes

  type Text = seq<Byte>

  type Stamp = s: seq<Byte> | |s| == 8 witness seq(8, _ => 0)

  datatype OutPoint = OutPoint(txid: Hash, index: int)

  datatype PublicKey = PublicKey(algorithm: Text, key: Text)

  datatype TxInput = TxInput(previous: OutPoint, signature: Option<Text>, publicKey: Option<PublicKey>)

  datatype TxOutput = TxOutput(amount: int, address: Text)

  datatype Tx = Tx(version: int, inputs: seq<TxInput>, outputs: seq<TxOutput>)

  datatype Block = Block(
    version: int,
    height: int,
    previousHash: Hash,
    transactionRoot: Hash,
    difficulty: int,
    timestamp: Stamp,
    nonce: int,
    transactions: seq<Tx>)

  /** What an input signature covers: every outpoint and output, but no witness. */
  datatype SigningMessage = SigningMessage(
    inputIndex: nat,
    inputs: seq<OutPoint>,
    outputs: seq<TxOutput>,
    version: int)

  type Size = n: nat | n > 0 witness 1

  datatype RawRules = Rules(
    txid: Tx -> Hash,
    blockHash: Block -> Hash,
    merkleRoot: seq<Tx> -> Hash,
    size: Tx -> Size,
    validAddress: Text -> bool,
    keyAddress: PublicKey -> Option<Text>,
    verify: (PublicKey, SigningMessage, Text) -> bool,
    subsidy: int,
    maxMoney: int)

  /** `ConsensusState` refuses a negative subsidy and a cap that is not positive. */
  type Rules = r: RawRules | r.subsidy >= 0 && r.maxMoney > 0
    witness Rules(
        (t: Tx) => ZERO_HASH, (b: Block) => ZERO_HASH, (ts: seq<Tx>) => ZERO_HASH, (t: Tx) => 1,
        (a: Text) => true, (k: PublicKey) => None, (k: PublicKey, m: SigningMessage, s: Text) => true, 0, 1)

  predicate IsCoinbase(tx: Tx)
  {
    |tx.inputs| == 1 && tx.inputs[0].previous.txid == ZERO_HASH && tx.inputs[0].previous.index < 0
  }

  function Prevs(ins: seq<TxInput>): set<OutPoint>
  {
    set i | 0 <= i < |ins| :: ins[i].previous
  }

  function Inputs(tx: Tx): set<OutPoint>
  {
    Prevs(tx.inputs)
  }

  function MessageFor(tx: Tx, i: nat): SigningMessage
  {
    SigningMessage(i, seq(|tx.inputs|, k requires 0 <= k < |tx.inputs| => tx.inputs[k].previous), tx.outputs, tx.version)
  }

  /** No two different transactions of `universe` share a txid. */
  ghost predicate CollisionFree(r: Rules, universe: set<Tx>)
  {
    forall a, b | a in universe && b in universe && r.txid(a) == r.txid(b) :: a == b
  }
}
