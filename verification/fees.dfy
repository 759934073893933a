/**
  How a paid order's amount is split between the owner of the parent account and the service: once for
  the payout runs, once for the owner's balance, with different rounding. Token amounts are in base units.
 */
module Fees {
  import opened Decimals
  import opened Wrappers

  datatype Token = Token(decimals: nat, price: real)

  datatype FeeConfig = FeeConfig(minPriceFee: real, platformFeeRatio: real, serviceFeeRatio: real)

  /** The amounts of an order; `couponPrice` is the face value of the coupon it used, if any. */
  datatype Charge = Charge(amount: real, premiumAmount: real, usdAmount: real, years: nat, couponPrice: Option<real>)

  /** The divisors of the computation are not zero. */
  predicate Divisible(token: Token, cfg: FeeConfig) {
    token.price > 0.0 && cfg.platformFeeRatio + cfg.serviceFeeRatio > 0.0
  }

  function OwnerRate(cfg: FeeConfig): real {
    1.0 - cfg.platformFeeRatio - cfg.serviceFeeRatio
  }

  function Net(v: Charge): real {
    v.amount - v.premiumAmount
  }

  /** The price up to which the minimum fee applies instead of the rate. */
  function CouponMinPrice(v: Charge, cfg: FeeConfig): real
    requires cfg.platformFeeRatio + cfg.serviceFeeRatio > 0.0
  {
    Div(cfg.minPriceFee, cfg.platformFeeRatio + cfg.serviceFeeRatio) * (v.years as real)
  }

  /** The price above the minimum fee, once per year. */
  function AboveMinimum(v: Charge, cfg: FeeConfig): real {
    (v.usdAmount - cfg.minPriceFee) * (v.years as real)
  }

  function MinimumFee(v: Charge, cfg: FeeConfig): real {
    cfg.minPriceFee * (v.years as real)
  }

  function BaseUnits(usd: real, token: Token): real {
    usd * Pow10(token.decimals)
  }

  /** Dollars in base units, rounded up. */
  function CeilUnits(usd: real, token: Token): real
    requires token.price > 0.0
  {
    Ceil(Div(BaseUnits(usd, token), token.price))
  }

  /** Dollars in base units, rounded to the token's decimals. */
  function RoundUnits(usd: real, token: Token): real
    requires token.price > 0.0
  {
    DivRound(BaseUnits(usd, token), token.price, token.decimals)
  }

  // ---------- the payout's split ----------

  /** The owner's share, and the fee where the run records one. */
  datatype Split = Split(share: real, fee: Option<real>)

  function ByRate(net: real, cfg: FeeConfig): Split {
    Split(net * OwnerRate(cfg), Some(net * (cfg.platformFeeRatio + cfg.serviceFeeRatio)))
  }

  function ByFee(net: real, fee: real): Split {
    Split(net - fee, Some(fee))
  }

  function SplitInDollars(v: Charge, token: Token, cfg: FeeConfig): Split
    requires Divisible(token, cfg)
  {
    var net, subFee := Net(v), v.usdAmount - cfg.minPriceFee;
    if v.usdAmount > CouponMinPrice(v, cfg) then ByRate(net, cfg)
    else if subFee == 0.0 then Split(0.0, Some(net))
    else if subFee < 0.0 then ByFee(net, net * (1.0 - OwnerRate(cfg)))
    else
      var subAmount := CeilUnits(AboveMinimum(v, cfg), token);
      Split(subAmount, Some(net - subAmount))
  }

  function SplitInTokens(v: Charge, token: Token, cfg: FeeConfig): Split
    requires Divisible(token, cfg)
  {
    var net := Net(v);
    if v.amount > CeilUnits(CouponMinPrice(v, cfg), token) then ByRate(net, cfg)
    else
      var fee := CeilUnits(MinimumFee(v, cfg), token);
      ByFee(net, if net - fee < 0.0 then net * (1.0 - OwnerRate(cfg)) else fee)
  }

  function SplitWithCoupon(v: Charge, token: Token, cfg: FeeConfig): Split
    requires Divisible(token, cfg) && v.couponPrice.Some?
  {
    if v.usdAmount > v.couponPrice.value
    then ByRate(CeilUnits(v.usdAmount - v.couponPrice.value, token), cfg)
    else Split(0.0, None)
  }

  function PayoutSplit(v: Charge, token: Token, cfg: FeeConfig): Split
    requires Divisible(token, cfg)
  {
    if v.couponPrice.Some? then SplitWithCoupon(v, token, cfg)
    else if v.usdAmount > 0.0 then SplitInDollars(v, token, cfg)
    else SplitInTokens(v, token, cfg)
  }

  lemma RatesAddUp(net: real, cfg: FeeConfig)
    ensures ByRate(net, cfg).fee.Some?
    ensures ByRate(net, cfg).share + ByRate(net, cfg).fee.value == net
  {
  }

  /** Without a coupon, in all branches, the owner's share and the fee are together the net amount. */
  lemma SplitConserves(v: Charge, token: Token, cfg: FeeConfig)
    requires Divisible(token, cfg) && v.couponPrice.None?
    ensures PayoutSplit(v, token, cfg).fee.Some?
    ensures PayoutSplit(v, token, cfg).share + PayoutSplit(v, token, cfg).fee.value == v.amount - v.premiumAmount
  {
    hide CeilUnits, CouponMinPrice, ByRate;
    RatesAddUp(Net(v), cfg);
  }

  // ---------- the balance shown to the owner ----------

  function DisplayedInDollars(v: Charge, token: Token, cfg: FeeConfig): real
    requires Divisible(token, cfg)
  {
    var subFee := v.usdAmount - cfg.minPriceFee;
    if v.usdAmount > CouponMinPrice(v, cfg) then Net(v) * OwnerRate(cfg)
    else if subFee > 0.0 then RoundUnits(AboveMinimum(v, cfg), token)
    else if subFee == 0.0 then 0.0
    else Net(v) * OwnerRate(cfg)
  }

  function DisplayedInTokens(v: Charge, token: Token, cfg: FeeConfig): real
    requires Divisible(token, cfg)
  {
    var subFee := Net(v) - RoundUnits(MinimumFee(v, cfg), token);
    if v.amount > RoundUnits(CouponMinPrice(v, cfg), token) then Net(v) * OwnerRate(cfg)
    else if subFee > 0.0 then subFee
    else if subFee == 0.0 then 0.0
    else Net(v) * OwnerRate(cfg)
  }

  /** An order without an amount, such as one a coupon paid for in full, shows nothing. */
  function DisplayedShare(v: Charge, token: Token, cfg: FeeConfig): real
    requires Divisible(token, cfg)
  {
    if v.amount <= 0.0 then 0.0
    else if v.couponPrice.Some? then
      if v.usdAmount > v.couponPrice.value
      then RoundUnits(v.usdAmount - v.couponPrice.value, token) * OwnerRate(cfg)
      else Net(v)
    else if v.usdAmount > 0.0 then DisplayedInDollars(v, token, cfg)
    else DisplayedInTokens(v, token, cfg)
  }

  lemma UnitsAgree(usd: real, token: Token)
    requires token.price > 0.0
    ensures Abs(RoundUnits(usd, token) - BaseUnits(usd, token) / token.price) <= 0.5
    ensures -0.5 <= CeilUnits(usd, token) - BaseUnits(usd, token) / token.price < 1.5
  {
    hide DivRound, BaseUnits;
    DivRoundNear(BaseUnits(usd, token), token.price, token.decimals);
    DivRoundNear(BaseUnits(usd, token), token.price, 16);
  }

  /** For a dollar-priced order without a coupon, the payout is less than two base units off what is shown. */
  lemma SharesAgree(v: Charge, token: Token, cfg: FeeConfig)
    requires Divisible(token, cfg) && v.couponPrice.None? && v.usdAmount > 0.0 && v.amount > 0.0
    ensures Abs(PayoutSplit(v, token, cfg).share - DisplayedShare(v, token, cfg)) < 2.0
  {
    hide CeilUnits, RoundUnits, BaseUnits, CouponMinPrice, AboveMinimum;
    var net, rate := Net(v), OwnerRate(cfg);
    UnitsAgree(AboveMinimum(v, cfg), token);
    assert net - net * (1.0 - rate) == net * rate;
  }

  /** A coupon that leaves a part of the price: both are the owner's rate of that part, rounded differently. */
  lemma CouponSharesNear(v: Charge, token: Token, cfg: FeeConfig)
    requires Divisible(token, cfg) && v.couponPrice.Some? && v.usdAmount > v.couponPrice.value && v.amount > 0.0
    requires 0.0 <= OwnerRate(cfg) <= 1.0
    ensures Abs(PayoutSplit(v, token, cfg).share - DisplayedShare(v, token, cfg)) <= 2.0
  {
    hide CeilUnits, RoundUnits, BaseUnits, OwnerRate;
    var rest, rate := v.usdAmount - v.couponPrice.value, OwnerRate(cfg);
    UnitsAgree(rest, token);
    var a, b := CeilUnits(rest, token), RoundUnits(rest, token);
    ScaledNear(a, b, rate);
    assert PayoutSplit(v, token, cfg).share == a * rate && DisplayedShare(v, token, cfg) == b * rate;
  }

  lemma ScaledNear(a: real, b: real, rate: real)
    requires Abs(a - b) <= 2.0 && 0.0 <= rate <= 1.0
    ensures Abs(a * rate - b * rate) <= 2.0
  {
    var d := a - b;
    assert a * rate - b * rate == d * rate;
    if d >= 0.0 {
      ScaleDown(d, rate);
    } else {
      ScaleDown(-d, rate);
      assert -d * rate == -(d * rate);
    }
  }

  lemma ScaleDown(d: real, rate: real)
    requires d >= 0.0 && 0.0 <= rate <= 1.0
    ensures 0.0 <= d * rate <= d
  {
    assert d * (1.0 - rate) >= 0.0;
    assert d * (1.0 - rate) == d - d * rate;
  }

  /**
    A coupon that covers the price pays out nothing; the balance shows nothing either, unless a net amount was
    charged.
   */
  lemma CouponSharesAgreeIff(v: Charge, token: Token, cfg: FeeConfig)
    requires Divisible(token, cfg) && v.couponPrice.Some? && v.usdAmount <= v.couponPrice.value
    ensures PayoutSplit(v, token, cfg).share == DisplayedShare(v, token, cfg) <==>
            v.amount <= 0.0 || v.amount == v.premiumAmount
  {
  }

  // ---------- the sign of the fee ----------

  /** The branch that charges the minimum fee of an order for several years. */
  predicate MinimumFeeApplies(v: Charge, cfg: FeeConfig)
    requires cfg.platformFeeRatio + cfg.serviceFeeRatio > 0.0
  {
    && v.couponPrice.None?
    && 0.0 < v.usdAmount <= CouponMinPrice(v, cfg)
    && v.usdAmount > cfg.minPriceFee
  }

  lemma CeilUnitsMonotone(a: real, b: real, token: Token)
    requires a <= b && token.price > 0.0
    ensures CeilUnits(a, token) <= CeilUnits(b, token)
  {
    hide Div, Ceil, Pow10;
    ScaleMonotone(a, b, Pow10(token.decimals));
    DivMonotone(BaseUnits(a, token), BaseUnits(b, token), token.price);
    CeilMonotone(Div(BaseUnits(a, token), token.price), Div(BaseUnits(b, token), token.price));
  }

  lemma QuotientOfDifference(a: real, b: real, token: Token)
    requires token.price > 0.0
    ensures BaseUnits(a - b, token) / token.price
         == BaseUnits(a, token) / token.price - BaseUnits(b, token) / token.price
  {
  }

  /**
    The minimum-fee branch takes the price less the fee once per year out of the net amount. What is left for the
    fee is negative exactly when those years cost more than was charged; not when the order was charged at least its
    price and the years do not exceed it, and always when it was charged no more and they exceed it by two base units.
   */
  lemma MinimumFeeSign(v: Charge, token: Token, cfg: FeeConfig)
    requires Divisible(token, cfg) && MinimumFeeApplies(v, cfg)
    ensures PayoutSplit(v, token, cfg).fee.Some?
    ensures PayoutSplit(v, token, cfg).fee.value < 0.0 <==> Net(v) < CeilUnits(AboveMinimum(v, cfg), token)
    ensures Net(v) >= CeilUnits(v.usdAmount, token) && AboveMinimum(v, cfg) <= v.usdAmount ==>
              PayoutSplit(v, token, cfg).fee.value >= 0.0
    ensures Net(v) <= CeilUnits(v.usdAmount, token)
            && BaseUnits(AboveMinimum(v, cfg) - v.usdAmount, token) / token.price >= 2.0 ==>
              PayoutSplit(v, token, cfg).fee.value < 0.0
  {
    hide CeilUnits, RoundUnits, BaseUnits, CouponMinPrice, AboveMinimum;
    var usd, owed := v.usdAmount, AboveMinimum(v, cfg);
    if owed <= usd {
      CeilUnitsMonotone(owed, usd, token);
    }
    UnitsAgree(owed, token);
    UnitsAgree(usd, token);
    QuotientOfDifference(owed, usd, token);
  }

  /** An order for one year that was charged at least its price never has a negative fee. */
  lemma OneYearFeeSign(v: Charge, token: Token, cfg: FeeConfig)
    requires Divisible(token, cfg) && MinimumFeeApplies(v, cfg) && v.years <= 1 && cfg.minPriceFee >= 0.0
    requires Net(v) >= CeilUnits(v.usdAmount, token)
    ensures PayoutSplit(v, token, cfg).fee.Some? && PayoutSplit(v, token, cfg).fee.value >= 0.0
  {
    hide CeilUnits, PayoutSplit;
    MinimumFeeSign(v, token, cfg);
  }

  /** Three years at six dollars, a 0.99 dollar minimum, ratios of 12 and 3 per cent, a six-decimals stable coin. */
  lemma FeeCanBeNegative() returns (v: Charge, token: Token, cfg: FeeConfig)
    ensures v.couponPrice.None? && v.premiumAmount == 0.0 && v.years == 3 && v.usdAmount == 18.0
    ensures token.price == 1.0 && token.decimals == 6
    ensures Divisible(token, cfg) && v.amount == CeilUnits(v.usdAmount, token)
    ensures PayoutSplit(v, token, cfg).fee.Some? && PayoutSplit(v, token, cfg).fee.value < 0.0
  {
    hide CeilUnits, RoundUnits, Div, Pow10, PayoutSplit;
    token, cfg := Token(6, 1.0), FeeConfig(0.99, 0.12, 0.03);
    v := Charge(CeilUnits(18.0, token), 0.0, 18.0, 3, None);
    ThreeQuotients(0.99, 0.12 + 0.03);
    MillionUnits();
    MinimumFeeSign(v, token, cfg);
  }

  lemma ThreeQuotients(a: real, b: real)
    requires b > 0.0 && a / b >= 6.5
    ensures Div(a, b) * 3.0 >= 18.0
  {
    DivRoundNear(a, b, 16);
    hide DivRound;
  }

  lemma MillionUnits()
    ensures Pow10(6) == 1000000.0
  {
  }
}
