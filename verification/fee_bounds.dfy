/**
  When a paid order is split by the rate and when it is charged the minimum fee, in the configuration's own numbers.
  The code compares with a rounded quotient, so a price within that rounding of the bound is left open.
 */
module FeeBounds {
  import opened Decimals
  import opened Wrappers
  import opened Fees

  /** The fee over the ratios, once per year, with a rounding error. */
  function Bound(fee: real, rate: real, error: real, years: real): real
    requires rate > 0.0
  {
    (fee / rate + error) * years
  }

  /**
    The prices between which the rounding decides whether the rate applies: the minimum fee over the ratios, a year.
   */
  function LowPrice(v: Charge, cfg: FeeConfig): real
    requires cfg.platformFeeRatio + cfg.serviceFeeRatio > 0.0
  {
    Bound(cfg.minPriceFee, cfg.platformFeeRatio + cfg.serviceFeeRatio, -HALF, v.years as real)
  }

  function HighPrice(v: Charge, cfg: FeeConfig): real
    requires cfg.platformFeeRatio + cfg.serviceFeeRatio > 0.0
  {
    Bound(cfg.minPriceFee, cfg.platformFeeRatio + cfg.serviceFeeRatio, HALF, v.years as real)
  }

  lemma BoundNear(v: Charge, cfg: FeeConfig)
    requires cfg.platformFeeRatio + cfg.serviceFeeRatio > 0.0
    ensures LowPrice(v, cfg) <= CouponMinPrice(v, cfg) <= HighPrice(v, cfg)
  {
    QuotientNear(cfg.minPriceFee, cfg.platformFeeRatio + cfg.serviceFeeRatio, v.years as real);
    hide Div, Bound;
  }

  lemma QuotientNear(fee: real, rate: real, years: real)
    requires rate > 0.0 && years >= 0.0
    ensures Bound(fee, rate, -HALF, years) <= Div(fee, rate) * years <= Bound(fee, rate, HALF, years)
  {
    DivWithin(fee, rate);
    var exact, q := fee / rate, Div(fee, rate);
    hide Div;
    ScaleMonotone(exact - HALF, q, years);
    ScaleMonotone(q, exact + HALF, years);
  }

  lemma TimesRate(x: real, rate: real, fee: real, slack: real, years: real)
    requires rate > 0.0
    ensures x * rate > (fee + rate * slack) * years <==> x > Bound(fee, rate, slack, years)
    ensures x * rate < (fee - rate * slack) * years <==> x < Bound(fee, rate, -slack, years)
  {
    BoundTimesRate(rate, fee, slack, years);
    BoundTimesRate(rate, fee, -slack, years);
    TimesPositive(x, Bound(fee, rate, slack, years), rate);
    TimesPositive(Bound(fee, rate, -slack, years), x, rate);
    hide Bound;
  }

  lemma BoundTimesRate(rate: real, fee: real, error: real, years: real)
    requires rate > 0.0
    ensures Bound(fee, rate, error, years) * rate == (fee + rate * error) * years
  {
    var exact := fee / rate;
    assert exact * rate == fee;
    assert (exact + error) * rate == fee + rate * error;
    assert (exact + error) * years * rate == (exact + error) * rate * years;
  }

  lemma TimesPositive(x: real, y: real, rate: real)
    requires rate > 0.0
    ensures x * rate > y * rate <==> x > y
  {
    assert (x - y) * rate == x * rate - y * rate;
  }

  /** The comparison of the code, outside its rounding. */
  lemma PriceAbove(v: Charge, cfg: FeeConfig)
    requires cfg.platformFeeRatio + cfg.serviceFeeRatio > 0.0
    ensures var rate := cfg.platformFeeRatio + cfg.serviceFeeRatio;
            v.usdAmount * rate > (cfg.minPriceFee + rate * HALF) * (v.years as real) ==>
              v.usdAmount > CouponMinPrice(v, cfg)
    ensures var rate := cfg.platformFeeRatio + cfg.serviceFeeRatio;
            v.usdAmount * rate < (cfg.minPriceFee - rate * HALF) * (v.years as real) ==>
              v.usdAmount < CouponMinPrice(v, cfg)
  {
    BoundNear(v, cfg);
    TimesRate(v.usdAmount, cfg.platformFeeRatio + cfg.serviceFeeRatio, cfg.minPriceFee, HALF, v.years as real);
    hide CouponMinPrice, Bound;
  }

  predicate Whole(x: real) {
    x == x.Floor as real
  }

  /** Within half of the last of the token's decimals. */
  predicate ShownNear(x: real, y: real, token: Token) {
    (x - y) * Pow10(token.decimals) <= 0.5 && (y - x) * Pow10(token.decimals) <= 0.5
  }

  function OwnersPart(net: real, cfg: FeeConfig): real {
    net * (1.0 - cfg.platformFeeRatio - cfg.serviceFeeRatio)
  }

  function ServicesPart(net: real, cfg: FeeConfig): real {
    net * (cfg.platformFeeRatio + cfg.serviceFeeRatio)
  }

  /** The two parts of the net amount, in the amounts and ratios themselves. */
  lemma RatesAre(v: Charge, cfg: FeeConfig)
    ensures Net(v) == v.amount - v.premiumAmount
    ensures var net := Net(v);
            && ByRate(net, cfg) == Split(OwnersPart(net, cfg), Some(ServicesPart(net, cfg)))
            && net * OwnerRate(cfg) == OwnersPart(net, cfg)
            && net * (1.0 - OwnerRate(cfg)) == ServicesPart(net, cfg)
            && net - ServicesPart(net, cfg) == OwnersPart(net, cfg)
  {
    PartsAre(Net(v), cfg);
  }

  lemma PartsAre(net: real, cfg: FeeConfig)
    ensures ByRate(net, cfg) == Split(OwnersPart(net, cfg), Some(ServicesPart(net, cfg)))
    ensures net * OwnerRate(cfg) == OwnersPart(net, cfg)
    ensures net * (1.0 - OwnerRate(cfg)) == ServicesPart(net, cfg)
    ensures net - ServicesPart(net, cfg) == OwnersPart(net, cfg)
  {
    var owner := OwnerRate(cfg);
    assert owner == 1.0 - cfg.platformFeeRatio - cfg.serviceFeeRatio;
    assert net - net * (1.0 - owner) == net * owner;
    assert 1.0 - owner == cfg.platformFeeRatio + cfg.serviceFeeRatio;
    assert ByRate(net, cfg) == Split(net * owner, Some(ServicesPart(net, cfg)));
  }

  /**
    A dollar-priced order whose price times the two ratios is more than the minimum fee of its years pays the
    ratios of the net amount as its fee, and the owner gets, and is shown, the rest.
   */
  lemma DollarsByRate(v: Charge, token: Token, cfg: FeeConfig)
    requires Divisible(token, cfg) && v.couponPrice.None? && v.usdAmount > 0.0
    requires var rate := cfg.platformFeeRatio + cfg.serviceFeeRatio;
             v.usdAmount * rate > (cfg.minPriceFee + rate * HALF) * (v.years as real)
    ensures PayoutSplit(v, token, cfg) ==
            Split(OwnersPart(v.amount - v.premiumAmount, cfg), Some(ServicesPart(v.amount - v.premiumAmount, cfg)))
    ensures v.amount > 0.0 ==> DisplayedShare(v, token, cfg) == PayoutSplit(v, token, cfg).share
  {
    PriceAbove(v, cfg);
    RatesAre(v, cfg);
    hide CouponMinPrice, ByRate, Net, OwnerRate;
    assert v.usdAmount > CouponMinPrice(v, cfg);
    assert PayoutSplit(v, token, cfg) == ByRate(Net(v), cfg);
    assert v.amount > 0.0 ==> DisplayedShare(v, token, cfg) == Net(v) * OwnerRate(cfg);
    hide *;
  }

  /** The exact number of base units the owner gets: what the price exceeds the minimum by, once per year. */
  function ExcessUnits(v: Charge, token: Token, cfg: FeeConfig): real
    requires token.price > 0.0
  {
    (v.usdAmount - cfg.minPriceFee) * (v.years as real) * Pow10(token.decimals) / token.price
  }

  /**
    Below that bound: at the minimum fee the owner gets nothing, below it the rate applies after all, and above it
    the owner gets what the price exceeds it by, once per year, in base units rounded up (and is shown it rounded to
    the token's decimals), the rest being the fee.
   */
  lemma DollarsByMinimum(v: Charge, token: Token, cfg: FeeConfig)
    requires Divisible(token, cfg) && v.couponPrice.None? && v.usdAmount > 0.0
    requires var rate := cfg.platformFeeRatio + cfg.serviceFeeRatio;
             v.usdAmount * rate < (cfg.minPriceFee - rate * HALF) * (v.years as real)
    ensures var net, paid, exact := v.amount - v.premiumAmount, PayoutSplit(v, token, cfg), ExcessUnits(v, token, cfg);
            && (v.usdAmount == cfg.minPriceFee ==> paid == Split(0.0, Some(net)))
            && (v.usdAmount < cfg.minPriceFee ==>
                  paid == Split(OwnersPart(net, cfg), Some(ServicesPart(net, cfg))))
            && (v.usdAmount > cfg.minPriceFee ==>
                  && Whole(paid.share) && exact - HALF <= paid.share < exact + HALF + 1.0
                  && paid.fee == Some(net - paid.share))
    ensures v.amount > 0.0 ==>
              var shown, exact := DisplayedShare(v, token, cfg), ExcessUnits(v, token, cfg);
              && (v.usdAmount <= cfg.minPriceFee ==> shown == PayoutSplit(v, token, cfg).share)
              && (v.usdAmount > cfg.minPriceFee ==>
                    ShownNear(shown, exact, token))
  {
    PriceAbove(v, cfg);
    hide *;
    DollarsBelow(v, token, cfg);
  }

  lemma DollarsBelow(v: Charge, token: Token, cfg: FeeConfig)
    requires Divisible(token, cfg) && v.couponPrice.None? && 0.0 < v.usdAmount < CouponMinPrice(v, cfg)
    ensures var net, paid, exact := v.amount - v.premiumAmount, PayoutSplit(v, token, cfg), ExcessUnits(v, token, cfg);
            && (v.usdAmount == cfg.minPriceFee ==> paid == Split(0.0, Some(net)))
            && (v.usdAmount < cfg.minPriceFee ==>
                  paid == Split(OwnersPart(net, cfg), Some(ServicesPart(net, cfg))))
            && (v.usdAmount > cfg.minPriceFee ==>
                  && Whole(paid.share) && exact - HALF <= paid.share < exact + HALF + 1.0
                  && paid.fee == Some(net - paid.share))
    ensures v.amount > 0.0 ==>
              var shown, exact := DisplayedShare(v, token, cfg), ExcessUnits(v, token, cfg);
              && (v.usdAmount <= cfg.minPriceFee ==> shown == PayoutSplit(v, token, cfg).share)
              && (v.usdAmount > cfg.minPriceFee ==>
                    ShownNear(shown, exact, token))
  {
    hide CouponMinPrice, AboveMinimum, CeilUnits, RoundUnits, PayoutSplit, DisplayedShare, BaseUnits, ExcessUnits,
      Pow10,
      OwnersPart, ServicesPart, Whole, ShownNear, Net;
    DollarBranches(v, token, cfg);
    NetIs(v);
    PaidWithin(AboveMinimum(v, cfg), token);
    ShownWithin(AboveMinimum(v, cfg), token);
    ExcessIs(v, token, cfg);
  }

  lemma ExcessIs(v: Charge, token: Token, cfg: FeeConfig)
    requires token.price > 0.0
    ensures BaseUnits(AboveMinimum(v, cfg), token) / token.price == ExcessUnits(v, token, cfg)
  {
    hide Pow10;
  }

  /** The branches below the bound, for what is paid and what is shown. */
  lemma DollarBranches(v: Charge, token: Token, cfg: FeeConfig)
    requires Divisible(token, cfg) && v.couponPrice.None? && 0.0 < v.usdAmount < CouponMinPrice(v, cfg)
    ensures var net, paid := Net(v), PayoutSplit(v, token, cfg);
            && (v.usdAmount == cfg.minPriceFee ==> paid == Split(0.0, Some(net)))
            && (v.usdAmount < cfg.minPriceFee ==>
                  paid == Split(OwnersPart(net, cfg), Some(ServicesPart(net, cfg))))
            && (v.usdAmount > cfg.minPriceFee ==>
                  paid.share == CeilUnits(AboveMinimum(v, cfg), token) && paid.fee == Some(net - paid.share))
    ensures v.amount > 0.0 ==>
              var shown := DisplayedShare(v, token, cfg);
              && (v.usdAmount == cfg.minPriceFee ==> shown == 0.0)
              && (v.usdAmount < cfg.minPriceFee ==> shown == OwnersPart(Net(v), cfg))
              && (v.usdAmount > cfg.minPriceFee ==> shown == RoundUnits(AboveMinimum(v, cfg), token))
  {
    hide CouponMinPrice, CeilUnits, RoundUnits, OwnerRate, AboveMinimum, Net, OwnersPart, ServicesPart;
    if v.usdAmount < cfg.minPriceFee {
      assert SplitInDollars(v, token, cfg) == ByFee(Net(v), Net(v) * (1.0 - OwnerRate(cfg)));
      RatesAre(v, cfg);
    }
  }

  /** Dollars in base units, paid and shown, against the exact quotient. */
  lemma PaidWithin(usd: real, token: Token)
    requires token.price > 0.0
    ensures var exact := BaseUnits(usd, token) / token.price;
            && Whole(CeilUnits(usd, token))
            && exact - HALF <= CeilUnits(usd, token) < exact + HALF + 1.0
  {
    var units := BaseUnits(usd, token);
    CeilWithin(units, token.price);
    assert CeilUnits(usd, token) == Ceil(Div(units, token.price));
    hide *;
  }

  lemma ShownWithin(usd: real, token: Token)
    requires token.price > 0.0
    ensures var exact := BaseUnits(usd, token) / token.price;
            ShownNear(RoundUnits(usd, token), exact, token)
  {
    var units := BaseUnits(usd, token);
    RoundToWithin(units / token.price, Pow10(token.decimals));
    hide Pow10, RoundTo;
    assert RoundUnits(usd, token) == RoundTo(units / token.price, Pow10(token.decimals));
    hide *;
  }

  lemma CeilWhole(x: real)
    ensures Whole(Ceil(x))
  {
    assert -((-x).Floor as real) == (-(-x).Floor) as real;
  }

  lemma CeilWithin(a: real, b: real)
    requires b > 0.0
    ensures var c := Ceil(Div(a, b));
            Whole(c) && a / b - HALF <= c < a / b + HALF + 1.0
  {
    DivWithin(a, b);
    CeilWhole(Div(a, b));
    hide Div, Ceil;
  }

  // ---------- orders priced in tokens ----------

  function PerDollar(token: Token): (n: real)
    requires token.price > 0.0
    ensures n > 0.0
  {
    Pow10(token.decimals) / token.price
  }

  /** The same in base units. */
  function LowBound(v: Charge, token: Token, cfg: FeeConfig): real
    requires Divisible(token, cfg)
  {
    LowPrice(v, cfg) * PerDollar(token)
  }

  function HighBound(v: Charge, token: Token, cfg: FeeConfig): real
    requires Divisible(token, cfg)
  {
    HighPrice(v, cfg) * PerDollar(token)
  }

  /** The exact number of base units that the minimum fee of the order's years costs. */
  function MinimumUnits(v: Charge, token: Token, cfg: FeeConfig): real
    requires token.price > 0.0
  {
    cfg.minPriceFee * (v.years as real) * PerDollar(token)
  }

  lemma InUnits(usd: real, token: Token)
    requires token.price > 0.0
    ensures BaseUnits(usd, token) / token.price == usd * PerDollar(token)
  {
    hide Pow10;
  }

  lemma BoundInUnits(v: Charge, token: Token, cfg: FeeConfig)
    requires Divisible(token, cfg)
    ensures LowBound(v, token, cfg) <= BaseUnits(CouponMinPrice(v, cfg), token) / token.price
            <= HighBound(v, token, cfg)
  {
    var bound, low, high, perDollar := CouponMinPrice(v, cfg), LowPrice(v, cfg), HighPrice(v, cfg), PerDollar(token);
    BoundNear(v, cfg);
    InUnits(bound, token);
    hide CouponMinPrice, LowPrice, HighPrice, PerDollar, BaseUnits;
    ScaleMonotone(low, bound, perDollar);
    ScaleMonotone(bound, high, perDollar);
  }

  /** A token-priced order is split by the rate when its amount exceeds the bound in base units, rounded up. */
  lemma TokensByRate(v: Charge, token: Token, cfg: FeeConfig)
    requires Divisible(token, cfg) && v.couponPrice.None? && v.usdAmount <= 0.0
    requires v.amount >= HighBound(v, token, cfg) + HALF + 1.0
    ensures PayoutSplit(v, token, cfg) ==
            Split(OwnersPart(v.amount - v.premiumAmount, cfg), Some(ServicesPart(v.amount - v.premiumAmount, cfg)))
    ensures v.amount > 0.0 ==> DisplayedShare(v, token, cfg) == PayoutSplit(v, token, cfg).share
  {
    BoundInUnits(v, token, cfg);
    PaidWithin(CouponMinPrice(v, cfg), token);
    UnitsAgree(CouponMinPrice(v, cfg), token);
    RatesAre(v, cfg);
    hide *;
    assert v.amount > CeilUnits(CouponMinPrice(v, cfg), token) && v.amount > RoundUnits(CouponMinPrice(v, cfg), token);
    TokenBranches(v, token, cfg);
  }

  /** The branches of a token-priced order, for what is paid and what is shown. */
  lemma TokenBranches(v: Charge, token: Token, cfg: FeeConfig)
    requires Divisible(token, cfg) && v.couponPrice.None? && v.usdAmount <= 0.0
    ensures var net, paid, fee := Net(v), PayoutSplit(v, token, cfg), CeilUnits(MinimumFee(v, cfg), token);
            paid == if v.amount > CeilUnits(CouponMinPrice(v, cfg), token) || net < fee
                    then Split(OwnersPart(net, cfg), Some(ServicesPart(net, cfg))) else Split(net - fee, Some(fee))
    ensures v.amount > 0.0 ==>
              var net, shown, fee := Net(v), DisplayedShare(v, token, cfg), RoundUnits(MinimumFee(v, cfg), token);
              shown == if v.amount > RoundUnits(CouponMinPrice(v, cfg), token) || net < fee then OwnersPart(net, cfg)
                       else net - fee
  {
    RatesAre(v, cfg);
    hide CouponMinPrice, MinimumFee, CeilUnits, RoundUnits, OwnerRate, Net, ByRate, OwnersPart, ServicesPart;
  }

  /**
    Below it the minimum fee of the years, in base units rounded up (and shown rounded to the token's decimals), is
    taken off, unless the net amount does not cover it: then the rate applies.
   */
  lemma TokensByMinimum(v: Charge, token: Token, cfg: FeeConfig)
    requires Divisible(token, cfg) && v.couponPrice.None? && v.usdAmount <= 0.0
    requires v.amount < LowBound(v, token, cfg) - 0.5
    ensures var net, paid, exact := v.amount - v.premiumAmount, PayoutSplit(v, token, cfg), MinimumUnits(v, token, cfg);
            && paid.fee.Some? && paid.share == net - paid.fee.value
            && (net >= exact + HALF + 1.0 ==>
                  && Whole(paid.fee.value)
                  && exact - HALF <= paid.fee.value < exact + HALF + 1.0)
            && (net < exact - HALF ==> paid.fee.value == ServicesPart(net, cfg))
    ensures v.amount > 0.0 ==>
              var net, shown, exact := v.amount - v.premiumAmount, DisplayedShare(v, token, cfg),
                  MinimumUnits(v, token, cfg);
              && (net >= exact + 0.5 ==> exact - 0.5 <= net - shown <= exact + 0.5)
              && (net < exact - 0.5 ==> shown == OwnersPart(net, cfg))
  {
    hide CouponMinPrice, MinimumFee, CeilUnits, RoundUnits, PayoutSplit, DisplayedShare, BaseUnits, PerDollar, Pow10,
      LowBound, HighBound, MinimumUnits, OwnersPart, ServicesPart, Whole, Net, OwnerRate, ByRate;
    BoundInUnits(v, token, cfg);
    PaidWithin(CouponMinPrice(v, cfg), token);
    UnitsAgree(CouponMinPrice(v, cfg), token);
    PaidWithin(MinimumFee(v, cfg), token);
    UnitsAgree(MinimumFee(v, cfg), token);
    MinimumInUnits(v, token, cfg);
    TokenBranches(v, token, cfg);
    RatesAre(v, cfg);
  }

  lemma MinimumInUnits(v: Charge, token: Token, cfg: FeeConfig)
    requires token.price > 0.0
    ensures BaseUnits(MinimumFee(v, cfg), token) / token.price == MinimumUnits(v, token, cfg)
  {
    InUnits(MinimumFee(v, cfg), token);
    hide Pow10, PerDollar;
  }

  lemma NetIs(v: Charge)
    ensures Net(v) == v.amount - v.premiumAmount
  {
  }

  /** So away from the two bounds, what is paid for a token-priced order and what is shown are near. */
  lemma TokenSharesAgree(v: Charge, token: Token, cfg: FeeConfig)
    requires Divisible(token, cfg) && v.couponPrice.None? && v.usdAmount <= 0.0 && v.amount > 0.0
    requires var net, exact := v.amount - v.premiumAmount, MinimumUnits(v, token, cfg);
             || v.amount >= HighBound(v, token, cfg) + HALF + 1.0
             || (v.amount < LowBound(v, token, cfg) - 0.5 && (net >= exact + HALF + 1.0 || net < exact - 0.5))
    ensures Abs(PayoutSplit(v, token, cfg).share - DisplayedShare(v, token, cfg)) < 2.0
  {
    RatesAre(v, cfg);
    hide PayoutSplit, DisplayedShare, LowBound, HighBound, MinimumUnits;
    if v.amount >= HighBound(v, token, cfg) + HALF + 1.0 {
      TokensByRate(v, token, cfg);
    } else {
      TokensByMinimum(v, token, cfg);
    }
  }

  lemma CouponRateIs(v: Charge, token: Token, cfg: FeeConfig)
    requires Divisible(token, cfg) && v.couponPrice.Some? && v.usdAmount > v.couponPrice.value
    ensures var rest := CeilUnits(v.usdAmount - v.couponPrice.value, token);
            PayoutSplit(v, token, cfg) ==
            Split(OwnersPart(rest, cfg), Some(ServicesPart(rest, cfg)))
  {
    PartsAre(CeilUnits(v.usdAmount - v.couponPrice.value, token), cfg);
    hide CeilUnits, ByRate;
  }

  /** A coupon that leaves a part of the price: the rate of that part, in base units rounded up, is paid. */
  lemma CouponByRate(v: Charge, token: Token, cfg: FeeConfig)
    requires Divisible(token, cfg) && v.couponPrice.Some? && v.usdAmount > v.couponPrice.value
    ensures var paid := PayoutSplit(v, token, cfg);
            var exact := (v.usdAmount - v.couponPrice.value) * PerDollar(token);
            exists rest: real :: && Whole(rest) && exact - HALF <= rest < exact + HALF + 1.0
               && paid == Split(OwnersPart(rest, cfg), Some(ServicesPart(rest, cfg)))
  {
    var left := v.usdAmount - v.couponPrice.value;
    PaidWithin(left, token);
    InUnits(left, token);
    CouponRateIs(v, token, cfg);
    var rest := CeilUnits(left, token);
    hide *;
    assert Whole(rest);
  }
}
