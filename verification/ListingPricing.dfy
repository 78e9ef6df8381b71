/** From an Amazon price to an eBay price, over exact reals: what the seller is left with, and the price ending. */
module ListingPricing {
  import opened Numbers
  import opened Options

  datatype FeeConfig = FeeConfig(
    ebayFeePercent: real, fixedFeeAmount: real, priceRoundingEnabled: bool, priceEndingCents: Option<real>)

  datatype PriceRange = PriceRange(minPrice: real, maxPrice: real, profitMarginPercent: real, fixedProfitAmount: real)

  /** The figures `calculateListingPrice` returns; `rounding` is what the price ending added. */
  datatype Metrics = Metrics(
    finalPrice: real, estimatedProfit: real, profitMargin: real, roi: real, trueCost: real,
    usedFallbackMargin: bool, ebayFeeAmount: real, adFeeAmount: real,
    minPriceFloorApplied: bool, rounding: real)

  /** `Math.round`. */
  function Round(x: real): int { (x + 0.5).Floor }

  function Round2(x: real): real { Round(x * 100.0) as real / 100.0 }

  function Share(fees: FeeConfig, ad: real): real { (fees.ebayFeePercent + ad) / 100.0 }

  function ApplyEbayFees(netTarget: real, fees: FeeConfig, ad: real): real {
    var deduction := Share(fees, ad);
    if deduction >= 1.0 then netTarget * 1.5
    else Round2((netTarget + fees.fixedFeeAmount) / (1.0 - deduction))
  }

  function ResolvePriceEndingCents(fees: FeeConfig): (r: Option<nat>)
    ensures r.Some? ==> r.value <= 99
  {
    if !fees.priceRoundingEnabled || fees.priceEndingCents.None? then None
    else
      var cents := fees.priceEndingCents.value;
      if cents == cents.Floor as real && 0.0 <= cents <= 99.0 then Some(cents.Floor) else None
  }

  /** The least whole number of cents from `priceCents` on that ends as asked. */
  function EndingFrom(priceCents: int, ending: nat): int { ending + 100 * ((priceCents - ending + 99) / 100) }

  function WithEnding(price: real, ending: nat): real { EndingFrom(Round(price * 100.0), ending) as real / 100.0 }

  /** `applyPriceEnding`. */
  method ApplyPriceEnding(price: real, ending: nat) returns (r: real)
    requires ending <= 99
    ensures r == WithEnding(price, ending)
  {
    var priceCents := Round(price * 100.0);
    var candidate := priceCents / 100 * 100 + ending;
    if candidate < priceCents {
      candidate := candidate + 100;
    }
    r := candidate as real / 100.0;
  }

  function FindRange(ranges: seq<PriceRange>, price: real): Option<PriceRange> {
    if ranges == [] then None
    else if ranges[0].minPrice <= price <= ranges[0].maxPrice then Some(ranges[0])
    else FindRange(ranges[1..], price)
  }

  function TrueCost(amazonPrice: real, tax: real): real { amazonPrice + amazonPrice * (tax / 100.0) }

  /** What the seller is to be left with. */
  function NetTarget(amazonPrice: real, ranges: seq<PriceRange>, tax: real): real {
    var cost := TrueCost(amazonPrice, tax);
    match FindRange(ranges, amazonPrice)
    case None => cost + cost * 0.2
    case Some(range) => cost + cost * (range.profitMarginPercent / 100.0) + range.fixedProfitAmount
  }

  const MIN_PRICE := 0.99

  function Floored(price: real): real { if price < MIN_PRICE then MIN_PRICE else price }

  function Ended(price: real, fees: FeeConfig): real {
    match ResolvePriceEndingCents(fees) case None => price case Some(e) => WithEnding(price, e)
  }

  function FinalPrice(net: real, fees: FeeConfig, ad: real): real { Ended(Floored(ApplyEbayFees(net, fees, ad)), fees) }

  /** What the ending rule added. */
  function Rounding(net: real, fees: FeeConfig, ad: real): real {
    Round2(FinalPrice(net, fees, ad) - Floored(ApplyEbayFees(net, fees, ad)))
  }

  function ProfitWith(net: real, cost: real, rounding: real, share: real): real {
    net - cost + rounding * MaxReal(1.0 - share, 0.0)
  }

  function Profit(net: real, cost: real, fees: FeeConfig, ad: real): real {
    ProfitWith(net, cost, Rounding(net, fees, ad), Share(fees, ad))
  }

  /** A percentage fee, as reported. */
  function Fee(base: real, percent: real): real { Round2(base * (percent / 100.0)) }

  /** `calculateListingPrice`. */
  method CalculateListingPrice(amazonPrice: real, ranges: seq<PriceRange>, fees: FeeConfig, tax: real, adRate: real)
    returns (m: Metrics)
    ensures var net, ad := NetTarget(amazonPrice, ranges, tax), MaxReal(adRate, 0.0);
            && m.finalPrice == FinalPrice(net, fees, ad) && m.rounding == Rounding(net, fees, ad)
            && m.minPriceFloorApplied == (ApplyEbayFees(net, fees, ad) < MIN_PRICE)
            && m.trueCost == Round2(TrueCost(amazonPrice, tax))
            && m.estimatedProfit == Round2(Profit(net, TrueCost(amazonPrice, tax), fees, ad))
            && m.usedFallbackMargin == FindRange(ranges, amazonPrice).None?
            && m.ebayFeeAmount == Fee(FeeBase(net, fees, ad), fees.ebayFeePercent)
            && m.adFeeAmount == Fee(FeeBase(net, fees, ad), ad)
            && m.profitMargin == Round2(PercentOf(Profit(net, TrueCost(amazonPrice, tax), fees, ad), m.finalPrice))
            && m.roi == Round2(PercentOf(Profit(net, TrueCost(amazonPrice, tax), fees, ad), TrueCost(amazonPrice, tax)))
  {
    hide Round, Round2, Share, WithEnding, ResolvePriceEndingCents, ApplyEbayFees, MaxReal, ProfitWith, Fee, PercentOf;
    var taxAmount := amazonPrice * (tax / 100.0);
    var trueCost := amazonPrice + taxAmount;
    var range := FindRange(ranges, amazonPrice);
    var marginAmount, fixedProfitAmount := 0.0, 0.0;
    if range.None? {
      marginAmount := trueCost * 0.2;
    } else {
      if range.value.profitMarginPercent != 0.0 {
        marginAmount := trueCost * (range.value.profitMarginPercent / 100.0);
      }
      if range.value.fixedProfitAmount != 0.0 {
        fixedProfitAmount := range.value.fixedProfitAmount;
      }
    }
    var netTarget := trueCost + marginAmount + fixedProfitAmount;
    assert trueCost == TrueCost(amazonPrice, tax) && netTarget == NetTarget(amazonPrice, ranges, tax);
    hide TrueCost, NetTarget;
    var ad := MaxReal(adRate, 0.0);
    var priceBeforeFloor := ApplyEbayFees(netTarget, fees, ad);
    var floorApplied := priceBeforeFloor < MIN_PRICE;
    var priceBeforeRounding := if floorApplied then MIN_PRICE else priceBeforeFloor;
    var ending := ResolvePriceEndingCents(fees);
    var finalPrice := priceBeforeRounding;
    if ending.Some? {
      finalPrice := ApplyPriceEnding(priceBeforeRounding, ending.value);
    }
    var rounding := Round2(finalPrice - priceBeforeRounding);
    var feeBase := if rounding > 0.0 then finalPrice else priceBeforeFloor;
    assert feeBase == FeeBase(netTarget, fees, ad);
    var profit := ProfitWith(netTarget, trueCost, rounding, Share(fees, ad));
    var margin := PercentOf(profit, finalPrice);
    var roi := PercentOf(profit, trueCost);
    m := Metrics(finalPrice, Round2(profit), Round2(margin), Round2(roi), Round2(trueCost), range.None?,
                 Fee(feeBase, fees.ebayFeePercent), Fee(feeBase, ad), floorApplied, rounding);
  }

  /** A share of nothing, or of a loss, is reported as zero. */
  function PercentOf(part: real, whole: real): real { if whole > 0.0 then part / whole * 100.0 else 0.0 }

  /** What the percentage fees are reported on. */
  function FeeBase(net: real, fees: FeeConfig, ad: real): real {
    if Rounding(net, fees, ad) > 0.0 then FinalPrice(net, fees, ad) else ApplyEbayFees(net, fees, ad)
  }

  /** What a sale at this price really leaves, once eBay, the ad and Amazon are paid. */
  function Proceeds(price: real, cost: real, fees: FeeConfig, ad: real): real {
    price - price * (fees.ebayFeePercent + ad) / 100.0 - fees.fixedFeeAmount - cost
  }

  // --- rounding to cents -------------------------------------------------------------------

  predicate WholeCents(price: real) { price * 100.0 == (price * 100.0).Floor as real }

  lemma RoundNear(x: real)
    ensures x - 0.5 < Round(x) as real <= x + 0.5
  {}

  lemma Round2Near(x: real)
    ensures x - 0.005 < Round2(x) <= x + 0.005 && WholeCents(Round2(x))
  {
    RoundNear(x * 100.0);
    CentsAreWhole(Round(x * 100.0));
  }

  lemma CentsAreWhole(n: int)
    ensures WholeCents(n as real / 100.0) && n as real / 100.0 * 100.0 == n as real
  {
    assert n as real / 100.0 * 100.0 == n as real;
  }

  lemma WholeStays(price: real)
    requires WholeCents(price)
    ensures Round2(price) == price && Round(price * 100.0) as real == price * 100.0
  {
    var n := (price * 100.0).Floor;
    assert (n as real + 0.5).Floor == n;
  }

  // --- the price ending ----------------------------------------------------------------------

  lemma EndingIsLeast(priceCents: int, ending: nat)
    requires ending <= 99
    ensures var c := EndingFrom(priceCents, ending);
            c % 100 == ending && priceCents <= c < priceCents + 100
    ensures forall m: int :: m >= priceCents && m % 100 == ending ==> EndingFrom(priceCents, ending) <= m
  {
    var c := EndingFrom(priceCents, ending);
    assert c % 100 == ending && priceCents <= c < priceCents + 100;
    forall m: int | m >= priceCents && m % 100 == ending
      ensures c <= m
    {
      assert m == 100 * (m / 100) + ending && c == 100 * (c / 100) + ending;
    }
  }

  /** A price in whole cents gets the least amount from it on with the ending. */
  lemma LeastWithEnding(price: real, ending: nat)
    requires ending <= 99 && WholeCents(price)
    ensures var r := WithEnding(price, ending);
            WholeCents(r) && Round(r * 100.0) % 100 == ending && price <= r < price + 1.0
    ensures forall m: int ::
              m as real / 100.0 >= price && m % 100 == ending ==> WithEnding(price, ending) <= m as real / 100.0
  {
    hide EndingFrom, Round;
    var p := Round(price * 100.0);
    WholeStays(price);
    EndingIsLeast(p, ending);
    var c := EndingFrom(p, ending);
    CentsAreWhole(c);
    WholeStays(c as real / 100.0);
    forall m: int | m as real / 100.0 >= price && m % 100 == ending
      ensures WithEnding(price, ending) <= m as real / 100.0
    {
      assert m as real >= p as real;
    }
  }

  /**
   Rounding never cuts the price, except when the price is not in whole cents, rounds down to a cent, and that
   cent already has the ending.
   */
  lemma EndingCutsThePrice(price: real, ending: nat)
    requires ending <= 99
    ensures WithEnding(price, ending) < price
            <==> Round(price * 100.0) as real < price * 100.0 && Round(price * 100.0) % 100 == ending
  {
    hide EndingFrom, Round;
    var p := Round(price * 100.0);
    RoundNear(price * 100.0);
    EndingIsLeast(p, ending);
    var c := EndingFrom(p, ending);
    CentsAreWhole(c);
    assert c == p <==> p % 100 == ending;
    if c > p {
      assert c as real >= p as real + 1.0;
    }
  }

  /** At fees of 100 percent and more the price is not rounded to cents, so it does happen. */
  lemma EndingCutsAtFullFees()
    ensures var fees := FeeConfig(100.0, 0.0, true, Some(0.0));
            var net := 20.004 / 1.5;
            ApplyEbayFees(net, fees, 0.0) == 20.004 && FinalPrice(net, fees, 0.0) == 20.0
  {
    assert (2000.4 + 0.5).Floor == 2000;
  }

  // --- what the seller is left with --------------------------------------------------------------

  /** Fees are not negative and take less than everything. */
  predicate Workable(fees: FeeConfig, ad: real) {
    fees.ebayFeePercent >= 0.0 && fees.fixedFeeAmount >= 0.0 && ad >= 0.0 && fees.ebayFeePercent + ad < 100.0
  }

  lemma ShareBounds(fees: FeeConfig, ad: real)
    requires Workable(fees, ad)
    ensures 0.0 <= Share(fees, ad) < 1.0
  {}

  lemma ProductSign(a: real, q: real)
    requires q > 0.0
    ensures a >= 0.0 ==> a * q >= 0.0
  {}

  lemma ScaledSmall(d: real, q: real)
    requires 0.0 < q <= 1.0
    ensures d <= 0.005 ==> d * q <= 0.005
    ensures d >= -0.005 ==> d * q >= -0.005
  {
    ProductSign(0.005 - d, q);
    ProductSign(d + 0.005, q);
    assert (0.005 - d) * q == 0.005 * q - d * q;
    assert (d + 0.005) * q == d * q + 0.005 * q;
  }

  /** The reverse formula leaves the target, to half a cent. */
  lemma FeesLeaveTarget(net: real, fees: FeeConfig, ad: real)
    requires Workable(fees, ad)
    ensures var b := ApplyEbayFees(net, fees, ad);
            WholeCents(b) && net - 0.005 <= b * (1.0 - Share(fees, ad)) - fees.fixedFeeAmount <= net + 0.005
  {
    ShareBounds(fees, ad);
    var q := 1.0 - Share(fees, ad);
    hide Share, Round2, WholeCents;
    var x := (net + fees.fixedFeeAmount) / q;
    assert x * q == net + fees.fixedFeeAmount;
    Round2Near(x);
    ScaledSmall(Round2(x) - x, q);
    assert (Round2(x) - x) * q == Round2(x) * q - x * q;
  }

  /** Prices stay in whole cents, so the amount the ending adds is exact and never negative. */
  lemma RoundingIsExact(net: real, fees: FeeConfig, ad: real)
    requires Workable(fees, ad)
    ensures var before := Floored(ApplyEbayFees(net, fees, ad));
            && WholeCents(before) && WholeCents(FinalPrice(net, fees, ad))
            && Rounding(net, fees, ad) == FinalPrice(net, fees, ad) - before >= 0.0
  {
    FeesLeaveTarget(net, fees, ad);
    hide ApplyEbayFees, WithEnding, Round2, ResolvePriceEndingCents;
    var before := Floored(ApplyEbayFees(net, fees, ad));
    CentsAreWhole(99);
    var ending := ResolvePriceEndingCents(fees);
    if ending.Some? { LeastWithEnding(before, ending.value); }
    DifferenceIsWhole(FinalPrice(net, fees, ad), before);
    WholeStays(FinalPrice(net, fees, ad) - before);
  }

  lemma DifferenceIsWhole(a: real, b: real)
    requires WholeCents(a) && WholeCents(b)
    ensures WholeCents(a - b)
  {
    assert (a - b) * 100.0 == ((a * 100.0).Floor - (b * 100.0).Floor) as real;
  }

  /** The final price is the least amount with the ending that is not below the floored price. */
  lemma FinalPriceIsLeast(net: real, fees: FeeConfig, ad: real)
    requires Workable(fees, ad)
    ensures var before, final := Floored(ApplyEbayFees(net, fees, ad)), FinalPrice(net, fees, ad);
            match ResolvePriceEndingCents(fees)
            case None => final == before
            case Some(e) =>
              && final >= before && Round(final * 100.0) % 100 == e
              && forall m: int :: m as real / 100.0 >= before && m % 100 == e ==> final <= m as real / 100.0
  {
    FeesLeaveTarget(net, fees, ad);
    hide ApplyEbayFees, WithEnding, Round2, Round, ResolvePriceEndingCents;
    CentsAreWhole(99);
    var ending := ResolvePriceEndingCents(fees);
    if ending.Some? { LeastWithEnding(Floored(ApplyEbayFees(net, fees, ad)), ending.value); }
  }

  /**
   The estimate against what the sale leaves: not above it by half a cent, and that near when the floor is not used.
   */
  lemma ProfitNear(net: real, cost: real, fees: FeeConfig, ad: real)
    requires Workable(fees, ad)
    ensures var gap := Profit(net, cost, fees, ad) - Proceeds(FinalPrice(net, fees, ad), cost, fees, ad);
            gap <= 0.005 && (ApplyEbayFees(net, fees, ad) >= MIN_PRICE ==> gap >= -0.005)
  {
    hide ApplyEbayFees, FinalPrice, Rounding, WholeCents, Share, Proceeds;
    FeesLeaveTarget(net, fees, ad);
    RoundingIsExact(net, fees, ad);
    ShareBounds(fees, ad);
    ProceedsAre(FinalPrice(net, fees, ad), cost, fees, ad);
    var q, b, f := 1.0 - Share(fees, ad), ApplyEbayFees(net, fees, ad), FinalPrice(net, fees, ad);
    SharesOf(f, Floored(b), b, q);
  }

  lemma SharesOf(f: real, before: real, b: real, q: real)
    requires q > 0.0 && before >= b
    ensures (f - before) * q == f * q - before * q && before * q >= b * q
  {
    ProductSign(before - b, q);
    assert (before - b) * q == before * q - b * q;
  }

  /**
   Reported profit is never above what a sale leaves by more than a cent, and within a cent when the floor is not
   used.
   */
  lemma ProfitIsHonest(net: real, cost: real, fees: FeeConfig, ad: real)
    requires Workable(fees, ad)
    ensures var reported := Round2(Profit(net, cost, fees, ad));
            var left := Proceeds(FinalPrice(net, fees, ad), cost, fees, ad);
            && reported <= left + 0.01
            && (ApplyEbayFees(net, fees, ad) >= MIN_PRICE ==> reported >= left - 0.01)
  {
    hide Profit, Proceeds, Round2, ApplyEbayFees, FinalPrice, WholeCents;
    ProfitNear(net, cost, fees, ad);
    Round2Near(Profit(net, cost, fees, ad));
  }

  /** Advertising does not change what is left: at any two ad rates, proceeds agree to a cent. */
  lemma AdRateIsNeutral(net: real, cost: real, fees: FeeConfig, ad: real, other: real)
    requires Workable(fees, ad) && Workable(fees, other) && ResolvePriceEndingCents(fees).None?
    requires ApplyEbayFees(net, fees, ad) >= MIN_PRICE && ApplyEbayFees(net, fees, other) >= MIN_PRICE
    ensures var a := Proceeds(FinalPrice(net, fees, ad), cost, fees, ad);
            var b := Proceeds(FinalPrice(net, fees, other), cost, fees, other);
            -0.01 <= a - b <= 0.01
  {
    FeesLeaveTarget(net, fees, ad);
    FeesLeaveTarget(net, fees, other);
    hide ApplyEbayFees, ResolvePriceEndingCents, Share, WholeCents, Proceeds;
    ProceedsAre(FinalPrice(net, fees, ad), cost, fees, ad);
    ProceedsAre(FinalPrice(net, fees, other), cost, fees, other);
  }

  lemma EndingMonotone(a: int, b: int, ending: nat)
    requires a <= b
    ensures EndingFrom(a, ending) <= EndingFrom(b, ending)
  {}

  lemma RoundMonotone(x: real, y: real)
    requires x <= y
    ensures Round(x) <= Round(y)
  {
    assert Round(x) as real <= x + 0.5 <= y + 0.5 < Round(y) as real + 1.0;
  }

  lemma Round2Monotone(x: real, y: real)
    requires x <= y
    ensures Round2(x) <= Round2(y)
  {
    hide Round;
    RoundMonotone(x * 100.0, y * 100.0);
  }

  lemma WithEndingMonotone(x: real, y: real, ending: nat)
    requires x <= y
    ensures WithEnding(x, ending) <= WithEnding(y, ending)
  {
    hide EndingFrom, Round;
    RoundMonotone(x * 100.0, y * 100.0);
    EndingMonotone(Round(x * 100.0), Round(y * 100.0), ending);
  }

  lemma QuotientMonotone(a: real, b: real, q: real)
    requires a <= b && q > 0.0
    ensures a / q <= b / q
  {
    assert b / q - a / q == (b - a) / q;
    assert (b - a) / q >= 0.0;
  }

  /** A seller who asks for more never gets a lower price. */
  lemma PriceMonotone(net: real, more: real, fees: FeeConfig, ad: real)
    requires Workable(fees, ad) && net <= more
    ensures FinalPrice(net, fees, ad) <= FinalPrice(more, fees, ad)
  {
    ShareBounds(fees, ad);
    hide Share, Round, Round2, EndingFrom, ResolvePriceEndingCents, WithEnding;
    var q := 1.0 - Share(fees, ad);
    QuotientMonotone(net + fees.fixedFeeAmount, more + fees.fixedFeeAmount, q);
    Round2Monotone((net + fees.fixedFeeAmount) / q, (more + fees.fixedFeeAmount) / q);
    var x, y := Floored(ApplyEbayFees(net, fees, ad)), Floored(ApplyEbayFees(more, fees, ad));
    var ending := ResolvePriceEndingCents(fees);
    if ending.Some? { WithEndingMonotone(x, y, ending.value); }
  }

  /** Without the floor, the fees are reported on the final price. */
  lemma FeeBaseIsFinal(net: real, fees: FeeConfig, ad: real)
    requires Workable(fees, ad) && ApplyEbayFees(net, fees, ad) >= MIN_PRICE
    ensures FeeBase(net, fees, ad) == FinalPrice(net, fees, ad)
  {
    RoundingIsExact(net, fees, ad);
    hide ApplyEbayFees, FinalPrice, Rounding, WholeCents;
  }

  /** The figures of the breakdown add up to the price, each rounded to a cent. */
  lemma BreakdownAddsUp(net: real, cost: real, fees: FeeConfig, ad: real)
    requires Workable(fees, ad) && ApplyEbayFees(net, fees, ad) >= MIN_PRICE
    ensures var base := FeeBase(net, fees, ad);
            var sum := Round2(cost) + Fee(base, fees.ebayFeePercent) + Fee(base, ad)
                       + fees.fixedFeeAmount + Round2(Profit(net, cost, fees, ad));
            FinalPrice(net, fees, ad) - 0.025 <= sum <= FinalPrice(net, fees, ad) + 0.025
  {
    hide ApplyEbayFees, FinalPrice, Rounding, Round2, WholeCents, Share, Profit, FeeBase, Fee, Proceeds;
    FeeBaseIsFinal(net, fees, ad);
    var f := FinalPrice(net, fees, ad);
    FeesAddUp(f, fees, ad);
    Round2Near(cost);
    Round2Near(Profit(net, cost, fees, ad));
    ProfitNear(net, cost, fees, ad);
    ProceedsAre(f, cost, fees, ad);
  }

  lemma ProceedsAre(price: real, cost: real, fees: FeeConfig, ad: real)
    ensures Proceeds(price, cost, fees, ad) == price - price * Share(fees, ad) - fees.fixedFeeAmount - cost
  {
    assert price * (fees.ebayFeePercent + ad) / 100.0 == price * Share(fees, ad);
  }

  /** The two percentage fees, each rounded, are the share taken to a cent. */
  lemma FeesAddUp(base: real, fees: FeeConfig, ad: real)
    ensures base * Share(fees, ad) - 0.01 <= Fee(base, fees.ebayFeePercent) + Fee(base, ad)
    ensures Fee(base, fees.ebayFeePercent) + Fee(base, ad) <= base * Share(fees, ad) + 0.01
  {
    hide Fee, Share;
    FeesSplit(base, fees, ad);
    FeeNear(base, fees.ebayFeePercent);
    FeeNear(base, ad);
  }

  lemma FeeNear(base: real, percent: real)
    ensures base * (percent / 100.0) - 0.005 <= Fee(base, percent) <= base * (percent / 100.0) + 0.005
  {
    hide Round2, WholeCents;
    Round2Near(base * (percent / 100.0));
  }

  lemma FeesSplit(base: real, fees: FeeConfig, ad: real)
    ensures base * (fees.ebayFeePercent / 100.0) + base * (ad / 100.0) == base * Share(fees, ad)
  {
    assert fees.ebayFeePercent / 100.0 + ad / 100.0 == Share(fees, ad);
  }

  // --- the same in plain figures ---------------------------------------------------------------------

  /** This range holds the price, and none before it does. */
  predicate FirstHolding(ranges: seq<PriceRange>, price: real, i: nat) {
    && i < |ranges| && ranges[i].minPrice <= price <= ranges[i].maxPrice
    && forall j | 0 <= j < i :: price < ranges[j].minPrice || price > ranges[j].maxPrice
  }

  predicate NoneHolding(ranges: seq<PriceRange>, price: real) {
    forall j | 0 <= j < |ranges| :: price < ranges[j].minPrice || price > ranges[j].maxPrice
  }

  lemma {:induction false} FindsFirst(ranges: seq<PriceRange>, price: real, i: nat)
    ensures FirstHolding(ranges, price, i) ==> FindRange(ranges, price) == Some(ranges[i])
    ensures NoneHolding(ranges, price) ==> FindRange(ranges, price) == None
  {
    if ranges == [] {
    } else {
      FindsFirst(ranges[1..], price, if i > 0 then i - 1 else 0);
      if FirstHolding(ranges, price, i) && i > 0 {
        assert price < ranges[0].minPrice || price > ranges[0].maxPrice;
        assert forall j | 0 <= j < i - 1 :: ranges[1..][j] == ranges[j + 1];
      }
    }
  }

  /** Amazon's price and the purchase tax on it. */
  lemma CostIsTaxed(amazonPrice: real, tax: real)
    ensures 100.0 * TrueCost(amazonPrice, tax) == amazonPrice * (100.0 + tax)
  {
    assert amazonPrice * (tax / 100.0) * 100.0 == amazonPrice * tax;
    assert amazonPrice * (100.0 + tax) == amazonPrice * 100.0 + amazonPrice * tax;
  }

  /** The cost, the margin and the fixed profit of the first range that holds the price, or 20 percent if none does. */
  lemma {:induction false} TargetIsCostAndProfit(
      amazonPrice: real, ranges: seq<PriceRange>, tax: real, cost: real, i: nat)
    requires 100.0 * cost == amazonPrice * (100.0 + tax)
    ensures FirstHolding(ranges, amazonPrice, i) ==>
              100.0 * (NetTarget(amazonPrice, ranges, tax) - ranges[i].fixedProfitAmount)
                == cost * (100.0 + ranges[i].profitMarginPercent)
    ensures NoneHolding(ranges, amazonPrice) ==> 5.0 * NetTarget(amazonPrice, ranges, tax) == 6.0 * cost
  {
    CostIsTaxed(amazonPrice, tax);
    FindsFirst(ranges, amazonPrice, i);
    hide TrueCost, FindRange, FirstHolding, NoneHolding;
    if FirstHolding(ranges, amazonPrice, i) {
      InRange(ranges, amazonPrice, i);
      Percentage(cost, ranges[i].profitMarginPercent);
    }
  }

  lemma InRange(ranges: seq<PriceRange>, price: real, i: nat)
    requires FirstHolding(ranges, price, i)
    ensures i < |ranges|
  {}

  lemma Percentage(x: real, percent: real)
    ensures 100.0 * (x + x * (percent / 100.0)) == x * (100.0 + percent)
  {
    assert x * (percent / 100.0) * 100.0 == x * percent;
    assert x * (100.0 + percent) == x * 100.0 + x * percent;
  }

  /** The ending is a whole number of cents from 0 to 99; any other setting is off. */
  lemma EndingIsRead(fees: FeeConfig)
    ensures forall e: int | 0 <= e <= 99 ::
              ResolvePriceEndingCents(fees) == Some(e)
              <==> fees.priceRoundingEnabled && fees.priceEndingCents == Some(e as real)
  {
  }

  /** Some price in whole cents leaves the target to half a cent after eBay's percentages and fixed fee. */
  predicate LeavesTarget(price: real, net: real, fees: FeeConfig, ad: real) {
    WholeCents(price)
    && net - 0.005 <= price - price * (fees.ebayFeePercent + ad) / 100.0 - fees.fixedFeeAmount <= net + 0.005
  }

  /** The price is the least amount, with the ending asked for, from 0.99 and from such a price on. */
  lemma PriceMeans(net: real, fees: FeeConfig, ad: real) returns (base: real)
    requires Workable(fees, ad)
    ensures LeavesTarget(base, net, fees, ad) && base == ApplyEbayFees(net, fees, ad)
    ensures var from := if base < 0.99 then 0.99 else base;
            match ResolvePriceEndingCents(fees)
            case None => FinalPrice(net, fees, ad) == from
            case Some(e) =>
              && FinalPrice(net, fees, ad) >= from && Round(FinalPrice(net, fees, ad) * 100.0) % 100 == e
              && forall m: int ::
                   m as real / 100.0 >= from && m % 100 == e ==> FinalPrice(net, fees, ad) <= m as real / 100.0
  {
    base := ApplyEbayFees(net, fees, ad);
    FeesLeaveTarget(net, fees, ad);
    FinalPriceIsLeast(net, fees, ad);
    hide ApplyEbayFees, FinalPrice, WholeCents, Round, ResolvePriceEndingCents, Workable;
    ShareTaken(base, fees, ad);
  }

  lemma ShareTaken(price: real, fees: FeeConfig, ad: real)
    ensures price * (1.0 - Share(fees, ad)) == price - price * (fees.ebayFeePercent + ad) / 100.0
  {
    assert price * (fees.ebayFeePercent + ad) / 100.0 == price * Share(fees, ad);
    hide Share;
    assert price * (1.0 - Share(fees, ad)) == price - price * Share(fees, ad);
  }

  /** With fees of 100 percent and more half the target is added instead. */
  lemma FullFeesAddHalf(net: real, fees: FeeConfig, ad: real)
    requires fees.ebayFeePercent + ad >= 100.0
    ensures 2.0 * ApplyEbayFees(net, fees, ad) == 3.0 * net
  {
  }

  /** A margin is a percentage of the price, a return one of the cost; of nothing, or of a loss, they are zero. */
  lemma PercentIsShare(part: real, whole: real)
    ensures whole > 0.0 ==> PercentOf(part, whole) * whole == 100.0 * part
    ensures whole <= 0.0 ==> PercentOf(part, whole) == 0.0
  {
    if whole > 0.0 {
      var q := part / whole;
      assert q * whole == part;
      assert q * 100.0 * whole == q * whole * 100.0;
    }
  }
}
