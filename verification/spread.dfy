/** The spread calculator of calculate_spread.py:38-57, over exact reals.
    The rounding to 4 and 6 decimal places is not modelled. */
module Spread {
  import opened Exchanges

  /** Price spread and funding spread, both in percent. */
  datatype Spreads = Spreads(price: real, funding: real)

  /** What a call of `calculate_spread` ends in: a result, or the
      ZeroDivisionError raised when the lower price is 0. */
  datatype Outcome = Computed(spreads: Spreads) | DivisionByZero

  /** Python's `max(a, b)` and `min(a, b)`: on a tie the first argument. */
  function Max(a: real, b: real): real {
    if b > a then b else a
  }

  function Min(a: real, b: real): real {
    if b < a then b else a
  }

  /** `(max_price / min_price - 1) * 100`; shared by the live view
      (calculate_spread.py:42-44) and the sweep (maker_lists.py:65-67). */
  function PriceSpread(a: real, b: real): real
    requires Min(a, b) != 0.0
  {
    (Max(a, b) / Min(a, b) - 1.0) * 100.0
  }

  /** The live view's funding spread: the higher-priced exchange's funding
      minus the other's; on an exact tie, Bybit's minus OKX's. */
  function LiveFunding(bybitPrice: real, okxPrice: real, bybitFunding: real, okxFunding: real): real {
    if Max(bybitPrice, okxPrice) == bybitPrice then bybitFunding - okxFunding else okxFunding - bybitFunding
  }

  /** `calculate_spread(bybit_data, okx_data)`. */
  function CalculateSpread(bybit: Record, okx: Record): (r: Outcome)
    ensures !(bybit.price.Num? && okx.price.Num?) ==> r == Computed(Spreads(0.0, 0.0))
    ensures bybit.price.Num? && okx.price.Num? ==>
      var pb, po := bybit.price.v, okx.price.v;
      && (r.DivisionByZero? <==> (pb == 0.0 && po >= 0.0) || (po == 0.0 && pb >= 0.0))
      && (r.Computed? ==>
            r.spreads.funding == if pb >= po then bybit.funding - okx.funding else okx.funding - bybit.funding)
      && (pb > 0.0 && po > 0.0 ==> r.Computed? && r.spreads.price >= 0.0 && (r.spreads.price == 0.0 <==> pb == po))
  {
    if bybit.price.Num? && okx.price.Num? then
      var pb, po := bybit.price.v, okx.price.v;
      if Min(pb, po) == 0.0 then DivisionByZero
      else
        PositivePriceSpreadSign(pb, po);
        Computed(Spreads(PriceSpread(pb, po), LiveFunding(pb, po, bybit.funding, okx.funding)))
    else
      Computed(Spreads(0.0, 0.0))
  }

  lemma RatioAtLeastOne(x: real, y: real)
    requires 0.0 < y <= x
    ensures x / y >= 1.0
    ensures x / y == 1.0 <==> x == y
  {
    var q := x / y;
    assert q * y == x;
  }

  /** For positive prices the price spread is non-negative, and it is zero
      exactly when the two prices are equal. */
  lemma PriceSpreadSign(a: real, b: real)
    requires a > 0.0 && b > 0.0
    ensures PriceSpread(a, b) >= 0.0
    ensures PriceSpread(a, b) == 0.0 <==> a == b
  {
    RatioAtLeastOne(Max(a, b), Min(a, b));
  }

  lemma PositivePriceSpreadSign(a: real, b: real)
    requires Min(a, b) != 0.0
    ensures a > 0.0 && b > 0.0 ==> PriceSpread(a, b) >= 0.0 && (PriceSpread(a, b) == 0.0 <==> a == b)
  {
    if a > 0.0 && b > 0.0 {
      PriceSpreadSign(a, b);
    }
  }

  /** For positive prices the price spread is the gap between them relative
      to the lower one: |a − b| / min(a, b) × 100. */
  lemma PriceSpreadIsRelativeGap(a: real, b: real)
    requires a > 0.0 && b > 0.0
    ensures PriceSpread(a, b) == (if a >= b then a - b else b - a) / Min(a, b) * 100.0
  {
    var hi, lo := Max(a, b), Min(a, b);
    var q := hi / lo;
    assert q * lo == hi;
    var g := (hi - lo) / lo;
    assert g * lo == hi - lo;
    assert (q - 1.0) * lo == hi - lo;
    ZeroProduct(g - (q - 1.0), lo);
  }

  lemma ZeroProduct(x: real, y: real)
    requires x * y == 0.0 && y != 0.0
    ensures x == 0.0
  {
  }

  /** Swapping which exchange is which leaves the price spread alone. */
  lemma PriceSpreadSymmetric(a: real, b: real)
    requires Min(a, b) != 0.0
    ensures Min(b, a) != 0.0 && PriceSpread(a, b) == PriceSpread(b, a)
  {
  }

  /** Relabelling the two exchanges keeps the outcome's kind and its price
      spread. The funding spread is always the higher-priced side's funding
      minus the other's, so it is unchanged when the prices differ; only the
      tie-break depends on the order of the arguments, and there the sign
      flips. */
  lemma CalculateSpreadRelabel(bybit: Record, okx: Record)
    ensures CalculateSpread(bybit, okx).Computed? <==> CalculateSpread(okx, bybit).Computed?
    ensures CalculateSpread(bybit, okx).Computed? ==>
      && CalculateSpread(bybit, okx).spreads.price == CalculateSpread(okx, bybit).spreads.price
      && CalculateSpread(bybit, okx).spreads.funding ==
           if bybit.price == okx.price then -CalculateSpread(okx, bybit).spreads.funding
           else CalculateSpread(okx, bybit).spreads.funding
  {
    if bybit.price.Num? && okx.price.Num? && Min(bybit.price.v, okx.price.v) != 0.0 {
      PriceSpreadSymmetric(bybit.price.v, okx.price.v);
    }
  }

  /** When the two prices trade places, so that the other exchange becomes
      the higher-priced one, the funding spread changes sign. */
  lemma FundingFlipsWithHigherPricedSide(p: real, q: real, bybitFunding: real, okxFunding: real)
    requires p > 0.0 && q > 0.0 && p != q
    ensures
      var before := CalculateSpread(Record(Num(p), bybitFunding, ""), Record(Num(q), okxFunding, ""));
      var after := CalculateSpread(Record(Num(q), bybitFunding, ""), Record(Num(p), okxFunding, ""));
      && before.Computed? && after.Computed?
      && after.spreads.funding == -before.spreads.funding
      && after.spreads.price == before.spreads.price
  {
    PriceSpreadSymmetric(p, q);
  }

  /** The worked example: Bybit at 65000 with funding 0.01%, OKX at 65100
      with funding −0.02%. OKX is higher, so the funding spread is OKX's
      minus Bybit's; the price spread is 2/13 ≈ 0.1538 before rounding. */
  lemma WorkedExample()
    ensures CalculateSpread(Record(Num(65000.0), 0.01, ""), Record(Num(65100.0), -0.02, ""))
         == Computed(Spreads(2.0 / 13.0, -0.03))
  {
    assert 65100.0 / 65000.0 == 651.0 / 650.0;
  }

  /** A zero lower price is not guarded: with numbers for both prices the
      calculator raises instead of returning the all-zero result it returns
      for non-numeric prices. */
  lemma ZeroPriceRaises(p: real, funding: real, other: real)
    requires p >= 0.0
    ensures CalculateSpread(Record(Num(0.0), funding, ""), Record(Num(p), other, "")) == DivisionByZero
    ensures CalculateSpread(Record(Num(p), funding, ""), Record(Num(0.0), other, "")) == DivisionByZero
    ensures CalculateSpread(Record(NotNum, funding, ""), Record(Num(0.0), other, "")) == Computed(Spreads(0.0, 0.0))
  {
  }
}
