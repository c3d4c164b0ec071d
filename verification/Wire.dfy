/** Transactions and blocks on the wire and in the store, and what the codecs promise. */
module Wire {
  import opened Bytes
  import opened Ledger
  import opened Codec

  const TX_MAGIC: seq<Byte> := [0x62, 0x63, 0x63, 0x74, 0x78]
  const BLOCK_MAGIC: seq<Byte> := [0x62, 0x63, 0x63, 0x62, 0x6C, 0x6B]
  const CODEC_VERSION: nat := 1

  // ---- a constant prefix and a counted list -------------------------------------------------

  function Expect(bs: seq<Byte>, prefix: seq<Byte>): Parsed<()>
  {
    match Take(bs, |prefix|)
    case Fail => Fail
    case Got(front, rest) => if front == prefix then Got((), rest) else Fail
  }

  lemma ExpectBack(prefix: seq<Byte>, rest: seq<Byte>)
    ensures Expect(prefix + rest, prefix) == Got((), rest)
  {
    TakeBack(prefix, rest);
  }

  lemma ExpectOnly(bs: seq<Byte>, prefix: seq<Byte>)
    requires Expect(bs, prefix).Got?
    ensures bs == prefix + Expect(bs, prefix).rest
  {
    TakeSplits(bs, |prefix|);
  }

  function EncCounted<T>(enc: T -> seq<Byte>, xs: seq<T>): seq<Byte>
  {
    EncUint(|xs|) + EncMany(enc, xs)
  }

  function ParseCounted<T>(parse: seq<Byte> -> Parsed<T>, bs: seq<Byte>): Parsed<seq<T>>
  {
    match ParseUint(bs)
    case Fail => Fail
    case Got(count, more) => ParseMany(parse, count, more)
  }

  ghost predicate AllOk<T>(ok: T -> bool, xs: seq<T>)
  {
    IsUint64(|xs|) && forall i | 0 <= i < |xs| :: ok(xs[i])
  }

  lemma CountedBack<T(!new)>(enc: T -> seq<Byte>, parse: seq<Byte> -> Parsed<T>, ok: T -> bool, xs: seq<T>, rest: seq<Byte>)
    requires Inverse(enc, parse, ok) && AllOk(ok, xs)
    ensures ParseCounted(parse, EncCounted(enc, xs) + rest) == Got(xs, rest)
  {
    hide EncUint, ParseUint, EncMany, ParseMany;
    UintInverse();
    assert EncCounted(enc, xs) + rest == EncUint(|xs|) + (EncMany(enc, xs) + rest);
    assert ParseUint(EncUint(|xs|) + (EncMany(enc, xs) + rest)) == Got(|xs|, EncMany(enc, xs) + rest);
    ManyBack(enc, parse, ok, xs, rest);
  }

  lemma CountedOnly<T(!new)>(enc: T -> seq<Byte>, parse: seq<Byte> -> Parsed<T>, ok: T -> bool, bs: seq<Byte>)
    requires Inverse(enc, parse, ok) && ParseCounted(parse, bs).Got?
    ensures AllOk(ok, ParseCounted(parse, bs).value)
    ensures bs == EncCounted(enc, ParseCounted(parse, bs).value) + ParseCounted(parse, bs).rest
  {
    hide EncUint, ParseUint, EncMany, ParseMany, IsUint64;
    UintInverse();
    var head := ParseUint(bs);
    assert IsUint64(head.value) && bs == EncUint(head.value) + head.rest;
    ManyOnly(enc, parse, ok, head.value, head.rest);
    var xs, rest := ParseCounted(parse, bs).value, ParseCounted(parse, bs).rest;
    assert EncUint(|xs|) + (EncMany(enc, xs) + rest) == EncCounted(enc, xs) + rest;
  }

  // ---- transactions -------------------------------------------------------------------------

  function InputEnc(signed: bool): TxInput -> seq<Byte>
  {
    (i: TxInput) => EncInput(signed, i)
  }

  function InputParse(signed: bool): seq<Byte> -> Parsed<TxInput>
  {
    (bs: seq<Byte>) => ParseInput(signed, bs)
  }

  function InputOk(signed: bool): TxInput -> bool
  {
    (i: TxInput) => InputInRange(signed, i)
  }

  lemma InputInverse(signed: bool)
    ensures Inverse(InputEnc(signed), InputParse(signed), InputOk(signed))
  {
    hide EncInput, ParseInput, InputInRange;
    forall i, rest | InputInRange(signed, i)
      ensures ParseInput(signed, EncInput(signed, i) + rest) == Got(i, rest)
    {
      InputBack(signed, i, rest);
    }
    forall bs | ParseInput(signed, bs).Got?
      ensures InputInRange(signed, ParseInput(signed, bs).value)
      ensures bs == EncInput(signed, ParseInput(signed, bs).value) + ParseInput(signed, bs).rest
    {
      InputOnly(signed, bs);
    }
  }

  ghost predicate TxInRange(signed: bool, tx: Tx)
  {
    IsInt64(tx.version) && AllOk(InputOk(signed), tx.inputs) && AllOk(OutputInRange, tx.outputs)
  }

  function TxBytes(signed: bool, tx: Tx): seq<Byte>
  {
    TX_MAGIC + BE(CODEC_VERSION, 2) + EncInt(tx.version) +
    EncCounted(InputEnc(signed), tx.inputs) + EncCounted(EncOutput, tx.outputs)
  }

  function ParseTx(signed: bool, bs: seq<Byte>): Parsed<Tx>
  {
    match Expect(bs, TX_MAGIC)
    case Fail => Fail
    case Got(_, b1) =>
      match Expect(b1, BE(CODEC_VERSION, 2))
      case Fail => Fail
      case Got(_, b2) =>
        match ParseInt(b2)
        case Fail => Fail
        case Got(version, b3) =>
          match ParseCounted(InputParse(signed), b3)
          case Fail => Fail
          case Got(inputs, b4) =>
            match ParseCounted(ParseOutput, b4)
            case Fail => Fail
            case Got(outputs, rest) => Got(Tx(version, inputs, outputs), rest)
  }

  /** Decoding fails unless the payload ends with the last output. */
  function TxFromBytes(signed: bool, bs: seq<Byte>): Option<Tx>
  {
    match ParseTx(signed, bs)
    case Fail => None
    case Got(tx, rest) => if rest == [] then Some(tx) else None
  }

  lemma TxBack(signed: bool, tx: Tx, rest: seq<Byte>)
    requires TxInRange(signed, tx)
    ensures ParseTx(signed, TxBytes(signed, tx) + rest) == Got(tx, rest)
  {
    hide Inverse, EncCounted, ParseCounted, EncInt, ParseInt, AllOk, InputOk, InputEnc, InputParse, Expect, BE, IsInt64;
    var e := EncCounted(EncOutput, tx.outputs) + rest;
    var d := EncCounted(InputEnc(signed), tx.inputs) + e;
    var c := EncInt(tx.version) + d;
    var b := BE(CODEC_VERSION, 2) + c;
    assert TxBytes(signed, tx) + rest == TX_MAGIC + b;
    ExpectBack(TX_MAGIC, b);
    ExpectBack(BE(CODEC_VERSION, 2), c);
    IntBack(tx.version, d);
    InputInverse(signed);
    CountedBack(InputEnc(signed), InputParse(signed), InputOk(signed), tx.inputs, e);
    OutputInverse();
    CountedBack(EncOutput, ParseOutput, OutputInRange, tx.outputs, rest);
  }

  lemma IntBack(v: int, rest: seq<Byte>)
    requires IsInt64(v)
    ensures ParseInt(EncInt(v) + rest) == Got(v, rest)
  {
    hide EncInt, ParseInt, IsInt64;
    IntInverse();
  }

  lemma IntOnly(bs: seq<Byte>)
    requires ParseInt(bs).Got?
    ensures IsInt64(ParseInt(bs).value) && bs == EncInt(ParseInt(bs).value) + ParseInt(bs).rest
  {
    hide EncInt, ParseInt, IsInt64;
    IntInverse();
  }

  lemma TxOnly(signed: bool, bs: seq<Byte>)
    requires ParseTx(signed, bs).Got?
    ensures TxInRange(signed, ParseTx(signed, bs).value)
    ensures bs == TxBytes(signed, ParseTx(signed, bs).value) + ParseTx(signed, bs).rest
  {
    hide Inverse, EncCounted, ParseCounted, EncInt, ParseInt, AllOk, InputOk, InputEnc, InputParse, Expect, BE, IsInt64;
    ExpectOnly(bs, TX_MAGIC);
    var b1 := Expect(bs, TX_MAGIC).rest;
    ExpectOnly(b1, BE(CODEC_VERSION, 2));
    var b2 := Expect(b1, BE(CODEC_VERSION, 2)).rest;
    IntOnly(b2);
    var b3 := ParseInt(b2).rest;
    InputInverse(signed);
    CountedOnly(InputEnc(signed), InputParse(signed), InputOk(signed), b3);
    var b4 := ParseCounted(InputParse(signed), b3).rest;
    OutputInverse();
    CountedOnly(EncOutput, ParseOutput, OutputInRange, b4);
  }

  /** Decoding an encoding returns the transaction. */
  lemma TxRoundTrip(signed: bool, tx: Tx)
    requires TxInRange(signed, tx)
    ensures TxFromBytes(signed, TxBytes(signed, tx)) == Some(tx)
  {
    hide ParseTx, TxBytes, TxInRange;
    TxBack(signed, tx, []);
    assert TxBytes(signed, tx) + [] == TxBytes(signed, tx);
  }

  /** A byte string that decodes is the encoding of what it decodes to. */
  lemma TxIsCanonical(signed: bool, bs: seq<Byte>)
    requires TxFromBytes(signed, bs).Some?
    ensures TxInRange(signed, TxFromBytes(signed, bs).value)
    ensures TxBytes(signed, TxFromBytes(signed, bs).value) == bs
  {
    hide ParseTx, TxBytes, TxInRange;
    TxOnly(signed, bs);
    var tx := ParseTx(signed, bs).value;
    assert TxBytes(signed, tx) + [] == TxBytes(signed, tx);
  }

  function StripInput(i: TxInput): TxInput
  {
    TxInput(i.previous, None, None)
  }

  function Strip(tx: Tx): Tx
  {
    Tx(tx.version, seq(|tx.inputs|, i requires 0 <= i < |tx.inputs| => StripInput(tx.inputs[i])), tx.outputs)
  }

  lemma {:induction false} StripEncodes(ins: seq<TxInput>, bare: seq<TxInput>)
    requires |ins| == |bare| && forall i | 0 <= i < |ins| :: bare[i] == StripInput(ins[i])
    ensures EncMany(InputEnc(false), ins) == EncMany(InputEnc(false), bare)
    decreases |ins|
  {
    if ins != [] {
      StripEncodes(ins[1..], bare[1..]);
    }
  }

  /** The witness-free form of any encodable transaction decodes to it without its witness. */
  lemma StrippedRoundTrip(tx: Tx)
    requires TxInRange(true, tx)
    ensures TxFromBytes(false, TxBytes(false, tx)) == Some(Strip(tx))
  {
    hide ParseTx, TxFromBytes;
    var bare := Strip(tx);
    StripEncodes(tx.inputs, bare.inputs);
    assert TxInRange(false, bare) by {
      assert forall i | 0 <= i < |tx.inputs| :: InputOk(true)(tx.inputs[i]);
    }
    TxRoundTrip(false, bare);
  }

  // ---- blocks ---------------------------------------------------------------------------------

  ghost predicate BlockTxInRange(tx: Tx)
  {
    TxInRange(true, tx) && Fits32(TxBytes(true, tx))
  }

  function EncBlockTx(tx: Tx): seq<Byte>
  {
    EncBytes(TxBytes(true, tx))
  }

  function ParseBlockTx(bs: seq<Byte>): Parsed<Tx>
  {
    match ParseBytes(bs)
    case Fail => Fail
    case Got(payload, rest) =>
      match TxFromBytes(true, payload)
      case None => Fail
      case Some(tx) => Got(tx, rest)
  }

  ghost function BlockTxOk(): Tx -> bool
  {
    (tx: Tx) => BlockTxInRange(tx)
  }

  lemma BlockTxInverse()
    ensures Inverse(EncBlockTx, ParseBlockTx, BlockTxOk())
  {
    hide TxBytes, TxFromBytes, TxInRange, EncBytes, ParseBytes, Fits32;
    BytesInverse();
    forall tx, rest | BlockTxInRange(tx)
      ensures ParseBlockTx(EncBlockTx(tx) + rest) == Got(tx, rest)
    {
      assert ParseBytes(EncBytes(TxBytes(true, tx)) + rest) == Got(TxBytes(true, tx), rest);
      TxRoundTrip(true, tx);
    }
    forall bs | ParseBlockTx(bs).Got?
      ensures BlockTxInRange(ParseBlockTx(bs).value) && bs == EncBlockTx(ParseBlockTx(bs).value) + ParseBlockTx(bs).rest
    {
      var payload := ParseBytes(bs).value;
      assert Fits32(payload) && bs == EncBytes(payload) + ParseBytes(bs).rest;
      TxIsCanonical(true, payload);
    }
  }

  predicate HeaderInRange(b: Block)
  {
    IsInt64(b.version) && IsInt64(b.height) && IsInt64(b.difficulty) && IsInt64(b.nonce)
  }

  ghost predicate BlockInRange(b: Block)
  {
    HeaderInRange(b) && AllOk(BlockTxOk(), b.transactions)
  }

  function HeaderBytes(b: Block): seq<Byte>
  {
    BLOCK_MAGIC + BE(CODEC_VERSION, 2) + EncInt(b.version) + EncInt(b.height) + b.previousHash + b.transactionRoot +
    EncInt(b.difficulty) + b.timestamp + EncInt(b.nonce)
  }

  function BlockBytes(b: Block): seq<Byte>
  {
    HeaderBytes(b) + EncCounted(EncBlockTx, b.transactions)
  }

  /** The nine header fields, in a block without transactions. */
  function ParseHeader(bs: seq<Byte>): Parsed<Block>
  {
    match Expect(bs, BLOCK_MAGIC)
    case Fail => Fail
    case Got(_, b1) =>
      match Expect(b1, BE(CODEC_VERSION, 2))
      case Fail => Fail
      case Got(_, b2) =>
        match ParseInt(b2)
        case Fail => Fail
        case Got(version, b3) =>
          match ParseInt(b3)
          case Fail => Fail
          case Got(height, b4) => ParseLinks(version, height, b4)
  }

  function ParseLinks(version: int, height: int, b4: seq<Byte>): Parsed<Block>
  {
    match Take(b4, 32)
    case Fail => Fail
    case Got(previous, b5) =>
      match Take(b5, 32)
      case Fail => Fail
      case Got(root, b6) =>
        match ParseInt(b6)
        case Fail => Fail
        case Got(difficulty, b7) =>
          match Take(b7, 8)
          case Fail => Fail
          case Got(stamp, b8) =>
            match ParseInt(b8)
            case Fail => Fail
            case Got(nonce, rest) => Got(Block(version, height, previous, root, difficulty, stamp, nonce, []), rest)
  }

  function LinkBytes(b: Block): seq<Byte>
  {
    b.previousHash + b.transactionRoot + EncInt(b.difficulty) + b.timestamp + EncInt(b.nonce)
  }

  lemma LinksBack(b: Block, rest: seq<Byte>)
    requires HeaderInRange(b)
    ensures ParseLinks(b.version, b.height, LinkBytes(b) + rest) == Got(b.(transactions := []), rest)
  {
    hide EncInt, ParseInt, IsInt64, Take;
    var e := EncInt(b.nonce) + rest;
    var d := b.timestamp + e;
    var c := EncInt(b.difficulty) + d;
    var r := b.transactionRoot + c;
    assert LinkBytes(b) + rest == b.previousHash + r;
    TakeBack(b.previousHash, r);
    TakeBack(b.transactionRoot, c);
    IntBack(b.difficulty, d);
    TakeBack(b.timestamp, e);
    IntBack(b.nonce, rest);
  }

  lemma TakeOnly(bs: seq<Byte>, n: nat)
    requires Take(bs, n).Got?
    ensures |Take(bs, n).value| == n && bs == Take(bs, n).value + Take(bs, n).rest
  {
    TakeSplits(bs, n);
  }

  lemma LinksOnly(version: int, height: int, bs: seq<Byte>)
    requires IsInt64(version) && IsInt64(height) && ParseLinks(version, height, bs).Got?
    ensures var b := ParseLinks(version, height, bs).value;
            HeaderInRange(b) && b.version == version && b.height == height && b.transactions == [] &&
            bs == LinkBytes(b) + ParseLinks(version, height, bs).rest
  {
    hide EncInt, ParseInt, IsInt64, Take;
    TakeOnly(bs, 32);
    var b5 := Take(bs, 32).rest;
    TakeOnly(b5, 32);
    var b6 := Take(b5, 32).rest;
    IntOnly(b6);
    var b7 := ParseInt(b6).rest;
    TakeOnly(b7, 8);
    IntOnly(Take(b7, 8).rest);
  }

  lemma HeaderBack(b: Block, rest: seq<Byte>)
    requires HeaderInRange(b)
    ensures ParseHeader(HeaderBytes(b) + rest) == Got(b.(transactions := []), rest)
  {
    hide EncInt, ParseInt, IsInt64, Expect, BE, ParseLinks;
    var d := LinkBytes(b) + rest;
    var c := EncInt(b.height) + d;
    var v := EncInt(b.version) + c;
    var t := BE(CODEC_VERSION, 2) + v;
    assert HeaderBytes(b) + rest == BLOCK_MAGIC + t;
    ExpectBack(BLOCK_MAGIC, t);
    ExpectBack(BE(CODEC_VERSION, 2), v);
    IntBack(b.version, c);
    IntBack(b.height, d);
    LinksBack(b, rest);
  }

  lemma HeaderOnly(bs: seq<Byte>)
    requires ParseHeader(bs).Got?
    ensures var b := ParseHeader(bs).value;
            HeaderInRange(b) && b.transactions == [] && bs == HeaderBytes(b) + ParseHeader(bs).rest
  {
    hide EncInt, ParseInt, IsInt64, Expect, BE, ParseLinks;
    ExpectOnly(bs, BLOCK_MAGIC);
    var b1 := Expect(bs, BLOCK_MAGIC).rest;
    ExpectOnly(b1, BE(CODEC_VERSION, 2));
    var b2 := Expect(b1, BE(CODEC_VERSION, 2)).rest;
    IntOnly(b2);
    var b3 := ParseInt(b2).rest;
    IntOnly(b3);
    var b4 := ParseInt(b3).rest;
    LinksOnly(ParseInt(b2).value, ParseInt(b3).value, b4);
    var b, rest := ParseHeader(bs).value, ParseHeader(bs).rest;
    assert HeaderBytes(b) + rest ==
           BLOCK_MAGIC + (BE(CODEC_VERSION, 2) + (EncInt(b.version) + (EncInt(b.height) + (LinkBytes(b) + rest))));
  }

  function BlockFromBytes(bs: seq<Byte>): Option<Block>
  {
    match ParseHeader(bs)
    case Fail => None
    case Got(b, more) =>
      match ParseCounted(ParseBlockTx, more)
      case Fail => None
      case Got(txs, rest) => if rest == [] then Some(b.(transactions := txs)) else None
  }

  /** Decoding an encoding returns the block. */
  lemma BlockRoundTrip(b: Block)
    requires BlockInRange(b)
    ensures BlockFromBytes(BlockBytes(b)) == Some(b)
  {
    hide ParseHeader, HeaderBytes, HeaderInRange, EncCounted, ParseCounted, Inverse, AllOk, BlockTxOk;
    HeaderBack(b, EncCounted(EncBlockTx, b.transactions));
    BlockTxInverse();
    CountedBack(EncBlockTx, ParseBlockTx, BlockTxOk(), b.transactions, []);
    assert EncCounted(EncBlockTx, b.transactions) + [] == EncCounted(EncBlockTx, b.transactions);
  }

  lemma HeaderIgnoresTransactions(b: Block, txs: seq<Tx>)
    ensures HeaderBytes(b.(transactions := txs)) == HeaderBytes(b)
  {
  }

  /** A byte string that decodes is the encoding of the block it decodes to. */
  lemma BlockIsCanonical(bs: seq<Byte>)
    requires BlockFromBytes(bs).Some?
    ensures BlockInRange(BlockFromBytes(bs).value)
    ensures BlockBytes(BlockFromBytes(bs).value) == bs
  {
    hide ParseHeader, HeaderBytes, EncCounted, ParseCounted, Inverse, AllOk, BlockTxOk, IsInt64;
    HeaderOnly(bs);
    var head := ParseHeader(bs);
    BlockTxInverse();
    CountedOnly(EncBlockTx, ParseBlockTx, BlockTxOk(), head.rest);
    var txs := ParseCounted(ParseBlockTx, head.rest).value;
    HeaderIgnoresTransactions(head.value, txs);
    assert EncCounted(EncBlockTx, txs) + [] == EncCounted(EncBlockTx, txs);
  }

  // ---- bounded loops ----------------------------------------------------------------------------

  lemma InputConsumes(signed: bool)
    ensures Consumes(InputParse(signed), 40)
  {
    forall bs | ParseInput(signed, bs).Got?
      ensures |ParseInput(signed, bs).rest| + 40 <= |bs|
    {
      InputOnly(signed, bs);
    }
  }

  lemma OutputConsumes()
    ensures Consumes(ParseOutput, 12)
  {
    OutputInverse();
    forall bs | ParseOutput(bs).Got?
      ensures |ParseOutput(bs).rest| + 12 <= |bs|
    {
      assert bs == EncOutput(ParseOutput(bs).value) + ParseOutput(bs).rest;
    }
  }

  lemma BlockTxConsumes()
    ensures Consumes(ParseBlockTx, 4)
  {
    hide TxFromBytes, ParseBytes;
    BytesInverse();
    forall bs | ParseBlockTx(bs).Got?
      ensures |ParseBlockTx(bs).rest| + 4 <= |bs|
    {
      assert bs == EncBytes(ParseBytes(bs).value) + ParseBytes(bs).rest;
    }
  }

  /** Whatever counts a payload declares, no decoding loop outlives the payload. */
  lemma DeclaredCountsAreHarmless(signed: bool, count: nat, bs: seq<Byte>)
    ensures Attempts(InputParse(signed), count, bs) * 40 <= |bs| + 40
    ensures Attempts(ParseOutput, count, bs) * 12 <= |bs| + 12
    ensures Attempts(ParseBlockTx, count, bs) * 4 <= |bs| + 4
  {
    InputConsumes(signed);
    OutputConsumes();
    BlockTxConsumes();
    LoopIsBounded(InputParse(signed), 40, count, bs);
    LoopIsBounded(ParseOutput, 12, count, bs);
    LoopIsBounded(ParseBlockTx, 4, count, bs);
  }

  /** Where each field of a block header stands, and that whole numbers take eight bytes. */
  lemma HeaderLayout(b: Block)
    ensures var h := HeaderBytes(b);
            |h| == 112 && h[..6] == BLOCK_MAGIC && h[6..8] == BE(CODEC_VERSION, 2) && h[8..16] == EncInt(b.version) &&
            h[16..24] == EncInt(b.height) && h[24..56] == b.previousHash && h[56..88] == b.transactionRoot &&
            h[88..96] == EncInt(b.difficulty) && h[96..104] == b.timestamp && h[104..] == EncInt(b.nonce)
  {
    hide EncInt;
    IntWidth(b.version);
    IntWidth(b.height);
    IntWidth(b.difficulty);
    IntWidth(b.nonce);
  }

  lemma IntWidth(n: int)
    ensures |EncInt(n)| == 8
  {
  }
}
