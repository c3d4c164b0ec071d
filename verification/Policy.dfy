/** Local mempool policy: admission limits, fee rates and the score that orders transactions. */
module Policy {
  import opened Bytes
  import opened Ledger

  datatype RawPolicy = Policy(
    maxTransactions: int,
    maxTransactionBytes: int,
    maxInputs: int,
    maxOutputs: int,
    minRelayFee: int,
    minRelayFeeRate: int,
    dynamicFeeRateStep: int,
    allowReplacement: bool,
    replacementFeeBump: int,
    allowEviction: bool,
    evictionFeeRateBump: int)
  {
    /** What `__post_init__` insists on. */
    predicate Valid()
    {
      maxTransactions > 0 && maxTransactionBytes > 0 && maxInputs > 0 && maxOutputs > 0 &&
      minRelayFee >= 0 && minRelayFeeRate >= 0 && dynamicFeeRateStep >= 0 &&
      replacementFeeBump >= 0 && evictionFeeRateBump >= 0
    }

    /** The fee floor in coins per 1000 bytes rises with every transaction already pooled. */
    function EffectiveRate(count: nat): int
    {
      minRelayFeeRate + count * dynamicFeeRateStep
    }

    function MinimumFee(size: Size, count: nat): int
    {
      var byRate := (size * EffectiveRate(count) + 999) / 1000;
      if minRelayFee > byRate then minRelayFee else byRate
    }

    predicate Admits(r: Rules, tx: Tx, fee: int, count: nat)
    {
      count < maxTransactions &&
      |tx.inputs| <= maxInputs &&
      |tx.outputs| <= maxOutputs &&
      r.size(tx) <= maxTransactionBytes &&
      fee >= MinimumFee(r.size(tx), count)
    }
  }

  type Policy = p: RawPolicy | p.Valid()
    witness Policy(5000, 100000, 128, 128, 0, 0, 0, true, 1, true, 1)

  /** What the pool admits at some occupancy it admits at any lower one. */
  lemma AdmitsEarlier(p: Policy, r: Rules, tx: Tx, fee: int, count: nat, earlier: nat)
    requires p.Admits(r, tx, fee, count) && earlier <= count
    ensures p.Admits(r, tx, fee, earlier)
  {
    var size := r.size(tx);
    RateRises(earlier, count, p.dynamicFeeRateStep);
    RateRises2(size, p.EffectiveRate(earlier), p.EffectiveRate(count));
    assert p.MinimumFee(size, earlier) <= p.MinimumFee(size, count);
  }

  lemma RateRises(a: int, b: int, step: int)
    requires a <= b && step >= 0
    ensures a * step <= b * step
  {
  }

  lemma RateRises2(size: int, a: int, b: int)
    requires size >= 0 && a <= b
    ensures size * a <= size * b
  {
  }

  /** Coins per 1000 bytes, rounded down. */
  function FeeRate(fee: int, size: Size): int
  {
    (fee * 1000) / size
  }

  /** The fee floor is exact: it rounds up the price of the bytes, and no further. */
  lemma FloorIsExact(p: Policy, size: Size, count: nat, fee: int)
    ensures fee >= p.MinimumFee(size, count) <==>
            fee >= p.minRelayFee && fee * 1000 >= size * (p.minRelayFeeRate + count * p.dynamicFeeRateStep)
  {
    var price := size * p.EffectiveRate(count);
    assert fee >= (price + 999) / 1000 <==> fee * 1000 >= price;
  }

  /** A fee rate is the largest whole number of coins per 1000 bytes that the fee pays for. */
  lemma FeeRateIsExact(fee: int, size: Size, rate: int)
    ensures FeeRate(fee, size) >= rate <==> fee * 1000 >= rate * size
  {
    var q, n := FeeRate(fee, size), fee * 1000;
    assert q * size <= n < q * size + size;
    if q >= rate {
      RateRises(rate, q, size);
    } else {
      RateRises(q + 1, rate, size);
    }
  }

  datatype Score = Score(rate: int, fee: int, id: Hash)

  function ScoreFor(r: Rules, tx: Tx, fee: int): Score
  {
    Score(FeeRate(fee, r.size(tx)), fee, r.txid(tx))
  }

  /** Tuple order: fee rate, then fee, then txid. */
  predicate Higher(a: Score, b: Score)
  {
    a.rate > b.rate || (a.rate == b.rate && (a.fee > b.fee || (a.fee == b.fee && Less(b.id, a.id))))
  }

  lemma HigherTotal(a: Score, b: Score)
    ensures Higher(a, b) || a == b || Higher(b, a)
    ensures !Higher(a, a)
  {
    LessTotal(a.id, b.id);
    LessIrreflexive(a.id);
  }

  lemma HigherTransitive(a: Score, b: Score, c: Score)
    requires Higher(a, b) && Higher(b, c)
    ensures Higher(a, c)
  {
    if a.rate == b.rate == c.rate && a.fee == b.fee == c.fee {
      LessTransitive(c.id, b.id, a.id);
    }
  }
}
