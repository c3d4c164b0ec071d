/**
 The canonical binary encodings and their decoders.

 A decoder turns the unread bytes into a value and the bytes after it. Every decoder here
 is the exact inverse of its encoder: it reads back what was written whatever follows, and
 it accepts no other spelling of the value.
 */
module Codec {
  import opened Bytes
  import opened Ledger

  datatype Parsed<+T> = Fail | Got(value: T, rest: seq<Byte>)

  /** `parse` undoes `enc` on the values that satisfy `ok`, and accepts nothing else. */
  ghost predicate Inverse<T(!new)>(enc: T -> seq<Byte>, parse: seq<Byte> -> Parsed<T>, ok: T -> bool)
  {
    (forall x, rest :: ok(x) ==> parse(enc(x) + rest) == Got(x, rest)) &&
    (forall bs :: parse(bs).Got? ==> ok(parse(bs).value) && bs == enc(parse(bs).value) + parse(bs).rest)
  }

  // ---- numbers ------------------------------------------------------------------------

  function Pow256(k: nat): (n: nat)
    ensures n > 0
  {
    if k == 0 then 1 else 256 * Pow256(k - 1)
  }

  /** The low `k` bytes of `n`, most significant first. */
  function BE(n: nat, k: nat): (s: seq<Byte>)
    ensures |s| == k
  {
    if k == 0 then [] else BE(n / 256, k - 1) + [n % 256]
  }

  function FromBE(s: seq<Byte>): (n: nat)
    ensures n < Pow256(|s|)
  {
    if s == [] then 0 else FromBE(s[..|s| - 1]) * 256 + s[|s| - 1]
  }

  lemma {:induction false} ReadsBack(n: nat, k: nat)
    requires n < Pow256(k)
    ensures FromBE(BE(n, k)) == n
  {
    if k > 0 {
      ReadsBack(n / 256, k - 1);
      var s := BE(n, k);
      assert s[..|s| - 1] == BE(n / 256, k - 1);
    }
  }

  lemma DivMod256(q: nat, b: Byte)
    ensures (q * 256 + b) / 256 == q && (q * 256 + b) % 256 == b
  {
  }

  lemma {:induction false} WritesBack(s: seq<Byte>)
    ensures BE(FromBE(s), |s|) == s
  {
    if s != [] {
      var init, last := s[..|s| - 1], s[|s| - 1];
      WritesBack(init);
      DivMod256(FromBE(init), last);
      assert s == init + [last];
    }
  }

  const TWO32: nat := 0x1_0000_0000
  const TWO63: nat := 0x8000_0000_0000_0000
  const TWO64: nat := 0x1_0000_0000_0000_0000

  lemma Powers()
    ensures Pow256(2) == 0x1_0000 && Pow256(4) == TWO32 && Pow256(8) == TWO64
  {
    assert Pow256(1) == 256 && Pow256(3) == 0x100_0000 && Pow256(5) == 0x100_0000_0000;
    assert Pow256(6) == 0x1_0000_0000_0000 && Pow256(7) == 0x100_0000_0000_0000;
  }

  predicate IsInt64(v: int)
  {
    0 <= v + TWO63 < TWO64
  }

  predicate IsUint64(v: int)
  {
    0 <= v < TWO64
  }

  /** Two's complement, as `struct.pack(">q")` writes it. */
  function EncInt(v: int): (s: seq<Byte>)
    ensures |s| == 8
  {
    BE(if v < 0 then (v + TWO64) % TWO64 else v, 8)
  }

  function EncUint(v: int): (s: seq<Byte>)
    ensures |s| == 8
  {
    BE(if v < 0 then 0 else v, 8)
  }

  function Take(bs: seq<Byte>, n: nat): Parsed<seq<Byte>>
  {
    if n <= |bs| then Got(bs[..n], bs[n..]) else Fail
  }

  function ParseUint(bs: seq<Byte>): (p: Parsed<int>)
    ensures p.Got? ==> p.value >= 0
  {
    match Take(bs, 8)
    case Fail => Fail
    case Got(raw, rest) => Got(FromBE(raw), rest)
  }

  function ParseInt(bs: seq<Byte>): Parsed<int>
  {
    match ParseUint(bs)
    case Fail => Fail
    case Got(n, rest) => Got(if n >= TWO63 then n - TWO64 else n, rest)
  }

  lemma TakeBack(a: seq<Byte>, rest: seq<Byte>)
    ensures Take(a + rest, |a|) == Got(a, rest)
  {
    assert (a + rest)[..|a|] == a && (a + rest)[|a|..] == rest;
  }

  lemma TakeSplits(bs: seq<Byte>, n: nat)
    requires n <= |bs|
    ensures bs == bs[..n] + bs[n..]
  {
  }

  lemma UintInverse()
    ensures Inverse(EncUint, ParseUint, IsUint64)
  {
    Powers();
    forall v, rest | IsUint64(v)
      ensures ParseUint(EncUint(v) + rest) == Got(v, rest)
    {
      TakeBack(EncUint(v), rest);
      ReadsBack(v, 8);
    }
    forall bs | ParseUint(bs).Got?
      ensures IsUint64(ParseUint(bs).value) && bs == EncUint(ParseUint(bs).value) + ParseUint(bs).rest
    {
      WritesBack(bs[..8]);
      TakeSplits(bs, 8);
    }
  }

  lemma IntInverse()
    ensures Inverse(EncInt, ParseInt, IsInt64)
  {
    hide BE, FromBE, ParseUint;
    UintInverse();
    forall v, rest | IsInt64(v)
      ensures ParseInt(EncInt(v) + rest) == Got(v, rest)
    {
      var n := if v < 0 then v + TWO64 else v;
      assert EncInt(v) == EncUint(n) && IsUint64(n);
      assert ParseUint(EncUint(n) + rest) == Got(n, rest);
    }
    forall bs | ParseInt(bs).Got?
      ensures IsInt64(ParseInt(bs).value) && bs == EncInt(ParseInt(bs).value) + ParseInt(bs).rest
    {
      var n := ParseUint(bs).value;
      assert EncInt(ParseInt(bs).value) == EncUint(n);
    }
  }

  // ---- byte fields and text -------------------------------------------------------------

  predicate Fits32(s: seq<Byte>)
  {
    |s| < TWO32
  }

  function EncBytes(s: seq<Byte>): seq<Byte>
  {
    BE(|s|, 4) + s
  }

  function ParseBytes(bs: seq<Byte>): Parsed<seq<Byte>>
  {
    match Take(bs, 4)
    case Fail => Fail
    case Got(size, rest) => Take(rest, FromBE(size))
  }

  lemma BytesInverse()
    ensures Inverse(EncBytes, ParseBytes, Fits32)
  {
    Powers();
    forall s, rest | Fits32(s)
      ensures ParseBytes(EncBytes(s) + rest) == Got(s, rest)
    {
      assert EncBytes(s) + rest == BE(|s|, 4) + (s + rest);
      TakeBack(BE(|s|, 4), s + rest);
      ReadsBack(|s|, 4);
      TakeBack(s, rest);
    }
    forall bs | ParseBytes(bs).Got?
      ensures Fits32(ParseBytes(bs).value) && bs == EncBytes(ParseBytes(bs).value) + ParseBytes(bs).rest
    {
      WritesBack(bs[..4]);
      TakeSplits(bs, 4);
      TakeSplits(bs[4..], FromBE(bs[..4]));
    }
  }

  predicate Tail(b: Byte)
  {
    0x80 <= b <= 0xBF
  }

  /** Length of the UTF-8 sequence at the front, or 0; the table of section 4 of RFC 3629. */
  function Utf8Length(s: seq<Byte>): (n: nat)
    ensures n <= |s|
  {
    if s == [] then 0
    else if s[0] <= 0x7F then 1
    else if |s| < 2 then 0
    else if 0xC2 <= s[0] <= 0xDF then if Tail(s[1]) then 2 else 0
    else if |s| < 3 || !Tail(s[2]) then 0
    else if s[0] == 0xE0 then if 0xA0 <= s[1] <= 0xBF then 3 else 0
    else if s[0] == 0xED then if 0x80 <= s[1] <= 0x9F then 3 else 0
    else if 0xE1 <= s[0] <= 0xEF then if Tail(s[1]) then 3 else 0
    else if |s| < 4 || !Tail(s[3]) then 0
    else if s[0] == 0xF0 then if 0x90 <= s[1] <= 0xBF then 4 else 0
    else if 0xF1 <= s[0] <= 0xF3 then if Tail(s[1]) then 4 else 0
    else if s[0] == 0xF4 then if 0x80 <= s[1] <= 0x8F then 4 else 0
    else 0
  }

  predicate ValidUtf8(s: seq<Byte>)
  {
    s == [] || (Utf8Length(s) > 0 && ValidUtf8(s[Utf8Length(s)..]))
  }

  predicate IsText(s: Text)
  {
    Fits32(s) && ValidUtf8(s)
  }

  function EncText(s: Text): seq<Byte>
  {
    EncBytes(s)
  }

  function ParseText(bs: seq<Byte>): Parsed<Text>
  {
    match ParseBytes(bs)
    case Fail => Fail
    case Got(s, rest) => if ValidUtf8(s) then Got(s, rest) else Fail
  }

  lemma TextInverse()
    ensures Inverse(EncText, ParseText, IsText)
  {
    hide ValidUtf8, ParseBytes, EncBytes, Fits32;
    BytesInverse();
    assert forall s, rest | Fits32(s) :: ParseBytes(EncBytes(s) + rest) == Got(s, rest);
    forall s, rest | IsText(s)
      ensures ParseText(EncText(s) + rest) == Got(s, rest)
    {
    }
  }

  // ---- outpoints, inputs and outputs ------------------------------------------------------

  predicate OutPointInRange(o: OutPoint)
  {
    IsInt64(o.index)
  }

  function EncOutPoint(o: OutPoint): (s: seq<Byte>)
    ensures |s| == 40
  {
    o.txid + EncInt(o.index)
  }

  function ParseOutPoint(bs: seq<Byte>): Parsed<OutPoint>
  {
    match Take(bs, 32)
    case Fail => Fail
    case Got(id, more) =>
      match ParseInt(more)
      case Fail => Fail
      case Got(index, rest) => Got(OutPoint(id, index), rest)
  }

  lemma OutPointInverse()
    ensures Inverse(EncOutPoint, ParseOutPoint, OutPointInRange)
  {
    hide EncInt, ParseInt, IsInt64;
    IntInverse();
    forall o, rest | OutPointInRange(o)
      ensures ParseOutPoint(EncOutPoint(o) + rest) == Got(o, rest)
    {
      assert EncOutPoint(o) + rest == o.txid + (EncInt(o.index) + rest);
      TakeBack(o.txid, EncInt(o.index) + rest);
      assert ParseInt(EncInt(o.index) + rest) == Got(o.index, rest);
    }
    forall bs | ParseOutPoint(bs).Got?
      ensures OutPointInRange(ParseOutPoint(bs).value) && bs == EncOutPoint(ParseOutPoint(bs).value) + ParseOutPoint(bs).rest
    {
      TakeSplits(bs, 32);
      assert ParseInt(bs[32..]).Got?;
    }
  }

  /** An optional field: a zero byte, or a one byte and the field. */
  function EncOption<T>(enc: T -> seq<Byte>, x: Option<T>): seq<Byte>
  {
    match x
    case None => [0]
    case Some(v) => [1] + enc(v)
  }

  function ParseOption<T>(parse: seq<Byte> -> Parsed<T>, bs: seq<Byte>): Parsed<Option<T>>
  {
    match Take(bs, 1)
    case Fail => Fail
    case Got(flag, more) =>
      if flag == [0] then Got(None, more)
      else if flag != [1] then Fail
      else match parse(more)
        case Fail => Fail
        case Got(v, rest) => Got(Some(v), rest)
  }

  lemma OptionBack<T(!new)>(enc: T -> seq<Byte>, parse: seq<Byte> -> Parsed<T>, ok: T -> bool, x: Option<T>, rest: seq<Byte>)
    requires Inverse(enc, parse, ok) && (x.Some? ==> ok(x.value))
    ensures ParseOption(parse, EncOption(enc, x) + rest) == Got(x, rest)
  {
    match x
    case None =>
      TakeBack([0], rest);
    case Some(v) =>
      assert [1] + enc(v) + rest == [1] + (enc(v) + rest);
      TakeBack([1], enc(v) + rest);
  }

  lemma OptionOnly<T(!new)>(enc: T -> seq<Byte>, parse: seq<Byte> -> Parsed<T>, ok: T -> bool, bs: seq<Byte>)
    requires Inverse(enc, parse, ok) && ParseOption(parse, bs).Got?
    ensures var x := ParseOption(parse, bs).value;
            (x.Some? ==> ok(x.value)) && bs == EncOption(enc, x) + ParseOption(parse, bs).rest
  {
    TakeSplits(bs, 1);
    if bs[..1] == [1] {
      assert parse(bs[1..]).Got?;
    }
  }

  predicate KeyInRange(k: PublicKey)
  {
    IsText(k.algorithm) && IsText(k.key)
  }

  function EncKey(k: PublicKey): seq<Byte>
  {
    EncText(k.algorithm) + EncText(k.key)
  }

  function ParseKey(bs: seq<Byte>): Parsed<PublicKey>
  {
    match ParseText(bs)
    case Fail => Fail
    case Got(algorithm, more) =>
      match ParseText(more)
      case Fail => Fail
      case Got(key, rest) => Got(PublicKey(algorithm, key), rest)
  }

  lemma KeyInverse()
    ensures Inverse(EncKey, ParseKey, KeyInRange)
  {
    hide EncText, ParseText, IsText;
    TextInverse();
    forall k, rest | KeyInRange(k)
      ensures ParseKey(EncKey(k) + rest) == Got(k, rest)
    {
      assert EncKey(k) + rest == EncText(k.algorithm) + (EncText(k.key) + rest);
    }
    forall bs | ParseKey(bs).Got?
      ensures KeyInRange(ParseKey(bs).value) && bs == EncKey(ParseKey(bs).value) + ParseKey(bs).rest
    {
      var more := ParseText(bs).rest;
      assert ParseText(more).Got?;
    }
  }

  /** With witness every field must be encodable; without witness there must be none to lose. */
  predicate InputInRange(signed: bool, i: TxInput)
  {
    OutPointInRange(i.previous) &&
    if signed then (i.signature.Some? ==> IsText(i.signature.value)) && (i.publicKey.Some? ==> KeyInRange(i.publicKey.value))
    else i.signature.None? && i.publicKey.None?
  }

  function EncInput(signed: bool, i: TxInput): seq<Byte>
  {
    if !signed then EncOutPoint(i.previous)
    else EncOutPoint(i.previous) + EncOption(EncText, i.signature) + EncOption(EncKey, i.publicKey)
  }

  function ParseInput(signed: bool, bs: seq<Byte>): Parsed<TxInput>
  {
    match ParseOutPoint(bs)
    case Fail => Fail
    case Got(previous, more) =>
      if !signed then Got(TxInput(previous, None, None), more) else
      match ParseOption(ParseText, more)
      case Fail => Fail
      case Got(signature, last) =>
        match ParseOption(ParseKey, last)
        case Fail => Fail
        case Got(key, rest) => Got(TxInput(previous, signature, key), rest)
  }

  lemma OutPointBack(o: OutPoint, rest: seq<Byte>)
    requires OutPointInRange(o)
    ensures ParseOutPoint(EncOutPoint(o) + rest) == Got(o, rest)
  {
    hide EncOutPoint, ParseOutPoint, OutPointInRange;
    OutPointInverse();
  }

  lemma OutPointOnly(bs: seq<Byte>)
    requires ParseOutPoint(bs).Got?
    ensures OutPointInRange(ParseOutPoint(bs).value) && bs == EncOutPoint(ParseOutPoint(bs).value) + ParseOutPoint(bs).rest
  {
    hide EncOutPoint, ParseOutPoint, OutPointInRange;
    OutPointInverse();
  }

  lemma InputBack(signed: bool, i: TxInput, rest: seq<Byte>)
    requires InputInRange(signed, i)
    ensures ParseInput(signed, EncInput(signed, i) + rest) == Got(i, rest)
  {
    hide EncOutPoint, ParseOutPoint, OutPointInRange, EncOption, ParseOption, Inverse, IsText, KeyInRange;
    if !signed {
      OutPointBack(i.previous, rest);
    } else {
      TextInverse();
      KeyInverse();
      var s, k := EncOption(EncText, i.signature), EncOption(EncKey, i.publicKey);
      assert EncInput(signed, i) + rest == EncOutPoint(i.previous) + (s + (k + rest));
      OutPointBack(i.previous, s + (k + rest));
      OptionBack(EncText, ParseText, IsText, i.signature, k + rest);
      OptionBack(EncKey, ParseKey, KeyInRange, i.publicKey, rest);
    }
  }

  lemma InputOnly(signed: bool, bs: seq<Byte>)
    requires ParseInput(signed, bs).Got?
    ensures InputInRange(signed, ParseInput(signed, bs).value)
    ensures bs == EncInput(signed, ParseInput(signed, bs).value) + ParseInput(signed, bs).rest
  {
    hide EncOutPoint, ParseOutPoint, OutPointInRange, EncOption, ParseOption, Inverse, IsText, KeyInRange;
    OutPointOnly(bs);
    assert OutPointInRange(ParseOutPoint(bs).value) && bs == EncOutPoint(ParseOutPoint(bs).value) + ParseOutPoint(bs).rest;
    if signed {
      TextInverse();
      KeyInverse();
      var more := ParseOutPoint(bs).rest;
      OptionOnly(EncText, ParseText, IsText, more);
      var last := ParseOption(ParseText, more).rest;
      OptionOnly(EncKey, ParseKey, KeyInRange, last);
    }
  }

  predicate OutputInRange(o: TxOutput)
  {
    IsUint64(o.amount) && IsText(o.address)
  }

  function EncOutput(o: TxOutput): seq<Byte>
  {
    EncUint(o.amount) + EncText(o.address)
  }

  function ParseOutput(bs: seq<Byte>): Parsed<TxOutput>
  {
    match ParseUint(bs)
    case Fail => Fail
    case Got(amount, more) =>
      match ParseText(more)
      case Fail => Fail
      case Got(address, rest) => Got(TxOutput(amount, address), rest)
  }

  lemma OutputInverse()
    ensures Inverse(EncOutput, ParseOutput, OutputInRange)
  {
    hide EncText, ParseText, IsText, EncUint, ParseUint, IsUint64;
    TextInverse();
    UintInverse();
    forall o, rest | OutputInRange(o)
      ensures ParseOutput(EncOutput(o) + rest) == Got(o, rest)
    {
      assert EncOutput(o) + rest == EncUint(o.amount) + (EncText(o.address) + rest);
    }
    forall bs | ParseOutput(bs).Got?
      ensures OutputInRange(ParseOutput(bs).value) && bs == EncOutput(ParseOutput(bs).value) + ParseOutput(bs).rest
    {
      var more := ParseUint(bs).rest;
      assert ParseText(more).Got?;
    }
  }

  // ---- counted lists ------------------------------------------------------------------------

  function EncMany<T>(enc: T -> seq<Byte>, xs: seq<T>): seq<Byte>
  {
    if xs == [] then [] else enc(xs[0]) + EncMany(enc, xs[1..])
  }

  /** Decodes `count` elements; the declared count may be anything. */
  function ParseMany<T>(parse: seq<Byte> -> Parsed<T>, count: nat, bs: seq<Byte>): Parsed<seq<T>>
    decreases count
  {
    if count == 0 then Got([], bs) else
    match parse(bs)
    case Fail => Fail
    case Got(x, more) =>
      match ParseMany(parse, count - 1, more)
      case Fail => Fail
      case Got(xs, rest) => Got([x] + xs, rest)
  }

  lemma {:induction false} ManyBack<T(!new)>(enc: T -> seq<Byte>, parse: seq<Byte> -> Parsed<T>, ok: T -> bool, xs: seq<T>, rest: seq<Byte>)
    requires Inverse(enc, parse, ok) && forall i | 0 <= i < |xs| :: ok(xs[i])
    ensures ParseMany(parse, |xs|, EncMany(enc, xs) + rest) == Got(xs, rest)
    decreases |xs|
  {
    if xs == [] {
      assert [] + rest == rest;
    } else {
      ManyBack(enc, parse, ok, xs[1..], rest);
      assert EncMany(enc, xs) + rest == enc(xs[0]) + (EncMany(enc, xs[1..]) + rest);
      assert xs == [xs[0]] + xs[1..];
    }
  }

  lemma {:induction false} ManyOnly<T(!new)>(enc: T -> seq<Byte>, parse: seq<Byte> -> Parsed<T>, ok: T -> bool, count: nat, bs: seq<Byte>)
    requires Inverse(enc, parse, ok) && ParseMany(parse, count, bs).Got?
    ensures var xs := ParseMany(parse, count, bs).value;
            |xs| == count && (forall i | 0 <= i < |xs| :: ok(xs[i])) && bs == EncMany(enc, xs) + ParseMany(parse, count, bs).rest
    decreases count
  {
    if count == 0 {
      assert [] + bs == bs;
    } else {
      var first := parse(bs);
      ManyOnly(enc, parse, ok, count - 1, first.rest);
      var xs, rest := ParseMany(parse, count - 1, first.rest).value, ParseMany(parse, count - 1, first.rest).rest;
      var all := [first.value] + xs;
      assert all[1..] == xs;
      assert enc(first.value) + (EncMany(enc, xs) + rest) == enc(first.value) + EncMany(enc, xs) + rest;
    }
  }

  /** How many elements the decoding loop tries before it ends, one way or the other. */
  function Attempts<T>(parse: seq<Byte> -> Parsed<T>, count: nat, bs: seq<Byte>): nat
    decreases count
  {
    if count == 0 then 0 else
    match parse(bs)
    case Fail => 1
    case Got(_, more) => 1 + Attempts(parse, count - 1, more)
  }

  /** Every element takes at least `size` bytes. */
  ghost predicate Consumes<T>(parse: seq<Byte> -> Parsed<T>, size: nat)
  {
    forall bs :: parse(bs).Got? ==> |parse(bs).rest| + size <= |bs|
  }

  /** However large the declared count, the loop stops once the payload is used up. */
  lemma {:induction false} LoopIsBounded<T>(parse: seq<Byte> -> Parsed<T>, size: nat, count: nat, bs: seq<Byte>)
    requires Consumes(parse, size) && size > 0
    ensures Attempts(parse, count, bs) * size <= |bs| + size
    ensures ParseMany(parse, count, bs).Got? ==> count * size <= |bs|
    decreases count
  {
    if count > 0 && parse(bs).Got? {
      var more := parse(bs).rest;
      LoopIsBounded(parse, size, count - 1, more);
      assert (1 + Attempts(parse, count - 1, more)) * size == size + Attempts(parse, count - 1, more) * size;
      assert count * size == (count - 1) * size + size;
    }
  }
}
