/**
 The decoders as the program runs them: a cursor over a payload that every read moves.
 Each is proved to agree with its decoder on the unread bytes.
 */
module Reader {
  import opened Bytes
  import opened Ledger
  import opened Consensus
  import opened Codec
  import opened Wire

  class ByteReader {
    const payload: seq<Byte>
    var offset: nat

    ghost predicate Valid()
      reads this
    {
      offset <= |payload|
    }

    ghost function Unread(): seq<Byte>
      requires Valid()
      reads this
    {
      payload[offset..]
    }

    constructor (bytes: seq<Byte>)
      ensures Valid() && Unread() == bytes && payload == bytes
    {
      payload, offset := bytes, 0;
    }

    /** `res` and the new position are what the decoder result `p` says. */
    ghost predicate Follows<T>(res: Result<T>, p: Parsed<T>)
      requires Valid()
      reads this
    {
      match p
      case Fail => res.Err?
      case Got(v, rest) => res == Ok(v) && Unread() == rest
    }

    method Read(size: int) returns (res: Result<seq<Byte>>)
      requires Valid()
      modifies this
      ensures Valid()
      ensures size >= 0 ==> Follows(res, Take(old(Unread()), size))
      ensures size < 0 ==> res.Err?
      ensures res.Err? ==> offset == old(offset)
    {
      var end := offset + size;
      if size < 0 || end > |payload| {
        return Err("binary payload is truncated");
      }
      res := Ok(payload[offset..end]);
      assert payload[offset..end] == payload[offset..][..size] && payload[end..] == payload[offset..][size..];
      offset := end;
    }

    method Finished() returns (done: bool)
      requires Valid()
      ensures done <==> Unread() == []
    {
      return offset == |payload|;
    }

    /** Reads a constant, or fails with the given complaint. */
    method ExpectPrefix(prefix: seq<Byte>, complaint: string) returns (res: Result<()>)
      requires Valid()
      modifies this
      ensures Valid() && Follows(res, Expect(old(Unread()), prefix))
    {
      var front := Read(|prefix|);
      if front.Err? {
        return Err(front.error);
      }
      if front.value != prefix {
        return Err(complaint);
      }
      return Ok(());
    }

    method DecodeUint() returns (res: Result<int>)
      requires Valid()
      modifies this
      ensures Valid() && Follows(res, ParseUint(old(Unread())))
      ensures res.Ok? ==> res.value >= 0
    {
      var raw := Read(8);
      if raw.Err? {
        return Err(raw.error);
      }
      return Ok(FromBE(raw.value));
    }

    method DecodeInt() returns (res: Result<int>)
      requires Valid()
      modifies this
      ensures Valid() && Follows(res, ParseInt(old(Unread())))
    {
      var n := DecodeUint();
      if n.Err? {
        return n;
      }
      return Ok(if n.value >= TWO63 then n.value - TWO64 else n.value);
    }

    method DecodeBytes() returns (res: Result<seq<Byte>>)
      requires Valid()
      modifies this
      ensures Valid() && Follows(res, ParseBytes(old(Unread())))
    {
      var size := Read(4);
      if size.Err? {
        return size;
      }
      res := Read(FromBE(size.value));
    }

    method DecodeText() returns (res: Result<Text>)
      requires Valid()
      modifies this
      ensures Valid() && Follows(res, ParseText(old(Unread())))
    {
      hide ValidUtf8, ParseBytes;
      res := DecodeBytes();
      if res.Ok? && !ValidUtf8(res.value) {
        return Err("text field is not valid utf-8");
      }
    }

    method DecodeOutPoint() returns (res: Result<OutPoint>)
      requires Valid()
      modifies this
      ensures Valid() && Follows(res, ParseOutPoint(old(Unread())))
    {
      hide ParseInt;
      var id := Read(32);
      if id.Err? {
        return Err(id.error);
      }
      var index := DecodeInt();
      if index.Err? {
        return Err(index.error);
      }
      return Ok(OutPoint(id.value, index.value));
    }

    method DecodeSignature() returns (res: Result<Option<Text>>)
      requires Valid()
      modifies this
      ensures Valid() && Follows(res, ParseOption(ParseText, old(Unread())))
    {
      hide ParseText;
      var flag := Read(1);
      if flag.Err? {
        return Err(flag.error);
      }
      if flag.value == [0] {
        return Ok(None);
      }
      if flag.value != [1] {
        return Err("signature presence flag is invalid");
      }
      var text := DecodeText();
      if text.Err? {
        return Err(text.error);
      }
      return Ok(Some(text.value));
    }

    method DecodeKey() returns (res: Result<Option<PublicKey>>)
      requires Valid()
      modifies this
      ensures Valid() && Follows(res, ParseOption(ParseKey, old(Unread())))
    {
      hide ParseText;
      var flag := Read(1);
      if flag.Err? {
        return Err(flag.error);
      }
      if flag.value == [0] {
        return Ok(None);
      }
      if flag.value != [1] {
        return Err("public key presence flag is invalid");
      }
      var algorithm := DecodeText();
      if algorithm.Err? {
        return Err(algorithm.error);
      }
      var key := DecodeText();
      if key.Err? {
        return Err(key.error);
      }
      return Ok(Some(PublicKey(algorithm.value, key.value)));
    }

    method DecodeInput(signed: bool) returns (res: Result<TxInput>)
      requires Valid()
      modifies this
      ensures Valid() && Follows(res, ParseInput(signed, old(Unread())))
    {
      hide ParseOutPoint, ParseOption;
      var previous := DecodeOutPoint();
      if previous.Err? {
        return Err(previous.error);
      }
      if !signed {
        return Ok(TxInput(previous.value, None, None));
      }
      var signature := DecodeSignature();
      if signature.Err? {
        return Err(signature.error);
      }
      var key := DecodeKey();
      if key.Err? {
        return Err(key.error);
      }
      return Ok(TxInput(previous.value, signature.value, key.value));
    }

    method DecodeOutput() returns (res: Result<TxOutput>)
      requires Valid()
      modifies this
      ensures Valid() && Follows(res, ParseOutput(old(Unread())))
    {
      hide ParseUint, ParseText;
      var amount := DecodeUint();
      if amount.Err? {
        return Err(amount.error);
      }
      var address := DecodeText();
      if address.Err? {
        return Err(address.error);
      }
      return Ok(TxOutput(amount.value, address.value));
    }

    method DecodeInputs(signed: bool) returns (res: Result<seq<TxInput>>)
      requires Valid()
      modifies this
      ensures Valid() && Follows(res, ParseCounted(InputParse(signed), old(Unread())))
    {
      hide ParseUint, ParseInput;
      var count := DecodeUint();
      if count.Err? {
        return Err(count.error);
      }
      ghost var parse := InputParse(signed);
      ghost var whole := ParseMany(parse, count.value, Unread());
      var xs: seq<TxInput> := [];
      var left := count.value;
      PrependNil(whole);
      while left > 0
        invariant Valid() && left >= 0
        invariant whole == Prepend(xs, ParseMany(parse, left, Unread()))
      {
        var x := DecodeInput(signed);
        if x.Err? {
          return Err(x.error);
        }
        PrependSnoc(xs, x.value, ParseMany(parse, left - 1, Unread()));
        xs := xs + [x.value];
        left := left - 1;
      }
      assert xs + [] == xs;
      return Ok(xs);
    }

    method DecodeOutputs() returns (res: Result<seq<TxOutput>>)
      requires Valid()
      modifies this
      ensures Valid() && Follows(res, ParseCounted(ParseOutput, old(Unread())))
    {
      hide ParseUint, ParseOutput;
      var count := DecodeUint();
      if count.Err? {
        return Err(count.error);
      }
      ghost var whole := ParseMany(ParseOutput, count.value, Unread());
      var xs: seq<TxOutput> := [];
      var left := count.value;
      PrependNil(whole);
      while left > 0
        invariant Valid() && left >= 0
        invariant whole == Prepend(xs, ParseMany(ParseOutput, left, Unread()))
      {
        var x := DecodeOutput();
        if x.Err? {
          return Err(x.error);
        }
        PrependSnoc(xs, x.value, ParseMany(ParseOutput, left - 1, Unread()));
        xs := xs + [x.value];
        left := left - 1;
      }
      assert xs + [] == xs;
      return Ok(xs);
    }

    method DecodeBlockTxs() returns (res: Result<seq<Tx>>)
      requires Valid()
      modifies this
      ensures Valid() && Follows(res, ParseCounted(ParseBlockTx, old(Unread())))
    {
      hide ParseUint, ParseBytes, TxFromBytes;
      var count := DecodeUint();
      if count.Err? {
        return Err(count.error);
      }
      ghost var whole := ParseMany(ParseBlockTx, count.value, Unread());
      var xs: seq<Tx> := [];
      var left := count.value;
      PrependNil(whole);
      while left > 0
        invariant Valid() && left >= 0
        invariant whole == Prepend(xs, ParseMany(ParseBlockTx, left, Unread()))
      {
        var raw := DecodeBytes();
        if raw.Err? {
          return Err(raw.error);
        }
        var tx := DecodeTransaction(true, raw.value);
        if tx.Err? {
          return Err(tx.error);
        }
        PrependSnoc(xs, tx.value, ParseMany(ParseBlockTx, left - 1, Unread()));
        xs := xs + [tx.value];
        left := left - 1;
      }
      assert xs + [] == xs;
      return Ok(xs);
    }

    method DecodeTxFields(signed: bool) returns (res: Result<Tx>)
      requires Valid()
      modifies this
      ensures Valid() && Follows(res, ParseTx(signed, old(Unread())))
    {
      hide ParseInt, ParseCounted, BE, Expect;
      var magic := ExpectPrefix(TX_MAGIC, "transaction binary magic is invalid");
      if magic.Err? {
        return Err(magic.error);
      }
      var codec := ExpectPrefix(BE(CODEC_VERSION, 2), "transaction binary codec version is unsupported");
      if codec.Err? {
        return Err(codec.error);
      }
      var version := DecodeInt();
      if version.Err? {
        return Err(version.error);
      }
      var inputs := DecodeInputs(signed);
      if inputs.Err? {
        return Err(inputs.error);
      }
      var outputs := DecodeOutputs();
      if outputs.Err? {
        return Err(outputs.error);
      }
      return Ok(Tx(version.value, inputs.value, outputs.value));
    }

    method DecodeLinks(version: int, height: int) returns (res: Result<Block>)
      requires Valid()
      modifies this
      ensures Valid() && Follows(res, ParseLinks(version, height, old(Unread())))
    {
      hide ParseInt;
      var previous := Read(32);
      if previous.Err? {
        return Err(previous.error);
      }
      var root := Read(32);
      if root.Err? {
        return Err(root.error);
      }
      var difficulty := DecodeInt();
      if difficulty.Err? {
        return Err(difficulty.error);
      }
      var stamp := Read(8);
      if stamp.Err? {
        return Err(stamp.error);
      }
      var nonce := DecodeInt();
      if nonce.Err? {
        return Err(nonce.error);
      }
      return Ok(Block(version, height, previous.value, root.value, difficulty.value, stamp.value, nonce.value, []));
    }

    method DecodeHeader() returns (res: Result<Block>)
      requires Valid()
      modifies this
      ensures Valid() && Follows(res, ParseHeader(old(Unread())))
    {
      hide ParseInt, ParseLinks, BE, Expect;
      var magic := ExpectPrefix(BLOCK_MAGIC, "block binary magic is invalid");
      if magic.Err? {
        return Err(magic.error);
      }
      var codec := ExpectPrefix(BE(CODEC_VERSION, 2), "block binary codec version is unsupported");
      if codec.Err? {
        return Err(codec.error);
      }
      var version := DecodeInt();
      if version.Err? {
        return Err(version.error);
      }
      var height := DecodeInt();
      if height.Err? {
        return Err(height.error);
      }
      res := DecodeLinks(version.value, height.value);
    }
  }

  function Prepend<T>(xs: seq<T>, p: Parsed<seq<T>>): Parsed<seq<T>>
  {
    match p
    case Fail => Fail
    case Got(ys, rest) => Got(xs + ys, rest)
  }

  lemma PrependNil<T>(p: Parsed<seq<T>>)
    ensures Prepend([], p) == p
  {
    assert p.Got? ==> [] + p.value == p.value;
  }

  lemma PrependSnoc<T>(xs: seq<T>, x: T, p: Parsed<seq<T>>)
    ensures p.Got? ==> xs + ([x] + p.value) == xs + [x] + p.value
  {
  }

  /** `ConsensusTransaction.from_bytes`. */
  method DecodeTransaction(signed: bool, bytes: seq<Byte>) returns (res: Result<Tx>)
    ensures match TxFromBytes(signed, bytes)
            case None => res.Err?
            case Some(tx) => res == Ok(tx)
  {
    hide ParseTx;
    var reader := new ByteReader(bytes);
    res := reader.DecodeTxFields(signed);
    if res.Ok? {
      var done := reader.Finished();
      if !done {
        return Err("binary payload has trailing bytes");
      }
    }
  }

  /** `ConsensusBlock.from_bytes`. */
  method DecodeBlock(bytes: seq<Byte>) returns (res: Result<Block>)
    ensures match BlockFromBytes(bytes)
            case None => res.Err?
            case Some(b) => res == Ok(b)
  {
    hide ParseHeader, ParseCounted;
    var reader := new ByteReader(bytes);
    res := reader.DecodeHeader();
    if res.Err? {
      return;
    }
    var txs := reader.DecodeBlockTxs();
    if txs.Err? {
      return Err(txs.error);
    }
    var done := reader.Finished();
    if !done {
      return Err("binary payload has trailing bytes");
    }
    return Ok(res.value.(transactions := txs.value));
  }
}
