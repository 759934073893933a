/** Which price each record of an update pays, and what the totals come to, in years and configured prices. */
module PriceTotals {
  import opened UInt64
  import opened Wrappers
  import opened CellCapacity

  /** What some years cost at a yearly price: whole shannons a year, cut to 64 bits. */
  function Cost(price: nat, quote: nat, years: nat): nat
    requires quote > 0
  {
    Wrap(price * 1_0000_0000 / quote * years)
  }

  /**
    A record minted by default or by hand pays the new price to create and the renewal price to renew. One minted
    automatically pays its rule's price, but the renewal price if it renews and the distribution is the default one
    or no rule gives a price. The custom script charges nothing here.
   */
  lemma PriceOfRecord(v: PricedRecord, cfg: PriceConfig)
    requires cfg.quote > 0 && RecordPrice(v, cfg).Ok?
    ensures var price, years := RecordPrice(v, cfg).value, v.registerYears + v.renewYears;
            && (v.mintType in {DefaultMint, ManualMint} && v.subAction == Create ==>
                  price == Cost(cfg.newPrice, cfg.quote, years))
            && (v.mintType in {DefaultMint, ManualMint} && v.subAction == Renew ==>
                  price == Cost(cfg.renewPrice, cfg.quote, years))
            && (v.mintType == AutoMint && v.subAction == Create ==>
                  v.rule.Hit? && price == Cost(v.rule.price, cfg.quote, years))
            && (v.mintType == AutoMint && v.subAction == Renew && !cfg.autoDistributionDefault && v.rule.Hit? ==>
                  price == Cost(v.rule.price, cfg.quote, years))
            && (v.mintType == AutoMint && v.subAction == Renew && (cfg.autoDistributionDefault || !v.rule.Hit?) ==>
                  price == Cost(cfg.renewPrice, cfg.quote, years))
            && (v.mintType == CustomScriptMint || v.subAction == Other ==> price == 0)
  {
  }

  /** Only a record created automatically without a rule for it has no price; the others can only overflow. */
  lemma UnpricedIff(v: PricedRecord, cfg: PriceConfig)
    ensures RecordPrice(v, cfg) in {Err(ErrGetTransaction), Err(ErrNotHitPriceRule)} <==>
            v.mintType == AutoMint && v.subAction == Create && v.rule in {NoRuleTx, Miss}
    ensures RecordPrice(v, cfg).Err? && RecordPrice(v, cfg).error !in {ErrGetTransaction, ErrNotHitPriceRule} ==>
              && RecordPrice(v, cfg).error == ErrUint128Overflow && v.subAction != Other && cfg.quote > 0
              && exists price | price in {cfg.newPrice, cfg.renewPrice, (if v.rule.Hit? then v.rule.price else 0)} ::
                 price * 1_0000_0000 >= 0x1_0000_0000_0000_0000_0000_0000_0000_0000
                 || price * 1_0000_0000 / cfg.quote * (v.registerYears + v.renewYears)
                    >= 0x1_0000_0000_0000_0000_0000_0000_0000_0000
  {
  }

  /** The years of the records of one sub-action that were minted by default or by hand. */
  function ManualYears(list: seq<PricedRecord>, subAction: SubAction): nat
    decreases |list|
  {
    if list == [] then 0
    else
      var v := list[|list| - 1];
      ManualYears(list[..|list| - 1], subAction)
      + if v.mintType in {DefaultMint, ManualMint} && v.subAction == subAction then v.registerYears + v.renewYears
        else 0
  }

  function ManualCost(list: seq<PricedRecord>, cfg: PriceConfig): int
    requires cfg.quote > 0
  {
    cfg.newPrice * 1_0000_0000 / cfg.quote * ManualYears(list, Create)
    + cfg.renewPrice * 1_0000_0000 / cfg.quote * ManualYears(list, Renew)
  }

  lemma Distributes(price: nat, a: nat, b: nat)
    ensures price * (a + b) == price * a + price * b
  {
  }

  lemma ManualCostNext(init: seq<PricedRecord>, v: PricedRecord, cfg: PriceConfig)
    requires cfg.quote > 0
    ensures var years := v.registerYears + v.renewYears;
            ManualCost(init + [v], cfg) == ManualCost(init, cfg)
              + if v.mintType !in {DefaultMint, ManualMint} || v.subAction == Other then 0
                else if v.subAction == Create then cfg.newPrice * 1_0000_0000 / cfg.quote * years
                else cfg.renewPrice * 1_0000_0000 / cfg.quote * years
  {
    var first, next := cfg.newPrice * 1_0000_0000 / cfg.quote, cfg.renewPrice * 1_0000_0000 / cfg.quote;
    var list, years := init + [v], v.registerYears + v.renewYears;
    assert list[..|list| - 1] == init;
    var created, renewed := ManualYears(init, Create), ManualYears(init, Renew);
    var paid := v.mintType in {DefaultMint, ManualMint};
    assert ManualYears(list, Create) == if paid && v.subAction == Create then created + years else created;
    assert ManualYears(list, Renew) == if paid && v.subAction == Renew then renewed + years else renewed;
    Distributes(first, created, years);
    Distributes(next, renewed, years);
    hide ManualYears;
  }

  lemma WrapBoth(a: int, b: int, price: int, cost: int)
    requires Wrap(a) == Wrap(b) && price == Wrap(cost)
    ensures Wrap(a + price) == Wrap(b + cost)
  {
    hide Wrap;
    WrapSum(a, price);
    WrapSum(b, price);
    WrapSum(cost, b);
  }

  lemma NoManualCost(cfg: PriceConfig)
    requires cfg.quote > 0
    ensures ManualCost([], cfg) == 0
  {
  }

  lemma ManualRecord(init: seq<PricedRecord>, v: PricedRecord, cfg: PriceConfig)
    requires cfg.quote > 0 && RecordPrice(v, cfg).Ok?
    ensures var more := ManualCost(init + [v], cfg) - ManualCost(init, cfg);
            if Counts(v, false) then RecordPrice(v, cfg).value == Wrap(more) else more == 0
  {
    PriceOfRecord(v, cfg);
    ManualCostNext(init, v, cfg);
    hide RecordPrice, ManualCost, Wrap;
  }

  /**
    The total for the parent's manager: the new price for the years created and the renewal price for those renewed.
   */
  lemma {:induction false} ManualTotal(list: seq<PricedRecord>, cfg: PriceConfig)
    requires cfg.quote > 0 && AllPriced(list, cfg)
    ensures Wrap(PriceSum(list, cfg, false)) == Wrap(ManualCost(list, cfg))
    decreases |list|
  {
    hide ManualCost, RecordPrice, Wrap;
    if list == [] {
      NoManualCost(cfg);
    } else {
      var init, v := list[..|list| - 1], list[|list| - 1];
      assert list == init + [v] && v in list && forall u | u in init :: u in list;
      ManualTotal(init, cfg);
      ManualRecord(init, v, cfg);
      hide AllPriced, ManualYears, Counts;
      var more := ManualCost(list, cfg) - ManualCost(init, cfg);
      if Counts(v, false) {
        WrapBoth(PriceSum(init, cfg, false), ManualCost(init, cfg), RecordPrice(v, cfg).value, more);
      }
    }
  }

  /** With register years on creates only and renewal years on renewals only, these are the years the totals report. */
  lemma {:induction false} ManualYearsAre(list: seq<PricedRecord>)
    requires forall v | v in list :: v.subAction == Create ==> v.renewYears == 0
    requires forall v | v in list :: v.subAction == Renew ==> v.registerYears == 0
    ensures ManualYears(list, Create) == YearSum(list, true) && ManualYears(list, Renew) == YearSum(list, false)
    decreases |list|
  {
    if list != [] {
      var init, v := list[..|list| - 1], list[|list| - 1];
      assert v in list && forall u | u in init :: u in list;
      ManualYearsAre(init);
    }
  }

  /** The yearly price of a record minted automatically. */
  function AutoYearly(v: PricedRecord, cfg: PriceConfig): nat {
    if v.rule.Hit? && !(v.subAction == Renew && cfg.autoDistributionDefault) then v.rule.price else cfg.renewPrice
  }

  function AutoCost(list: seq<PricedRecord>, cfg: PriceConfig): nat
    requires cfg.quote > 0
    decreases |list|
  {
    if list == [] then 0
    else
      var v := list[|list| - 1];
      AutoCost(list[..|list| - 1], cfg)
      + if v.mintType == AutoMint && v.subAction in {Create, Renew}
        then Cost(AutoYearly(v, cfg), cfg.quote, v.registerYears + v.renewYears) else 0
  }

  lemma {:induction false} AutoTotal(list: seq<PricedRecord>, cfg: PriceConfig)
    requires cfg.quote > 0 && AllPriced(list, cfg)
    ensures PriceSum(list, cfg, true) == AutoCost(list, cfg)
    decreases |list|
  {
    if list != [] {
      var init, v := list[..|list| - 1], list[|list| - 1];
      assert v in list && forall u | u in init :: u in list;
      AutoTotal(init, cfg);
      PriceOfRecord(v, cfg);
      hide RecordPrice, Cost;
    }
  }

  predicate Prices(v: PricedRecord, accountId: string) {
    v.accountId == accountId && v.mintType == AutoMint && v.subAction in {Create, Renew}
  }

  ghost predicate LastPriced(list: seq<PricedRecord>, i: nat, accountId: string) {
    i < |list| && Prices(list[i], accountId) && forall j | i < j < |list| :: !Prices(list[j], accountId)
  }

  lemma LastPricedBefore(init: seq<PricedRecord>, v: PricedRecord, i: nat, accountId: string)
    requires LastPriced(init + [v], i, accountId)
    ensures if Prices(v, accountId) then i == |init| else LastPriced(init, i, accountId) && init[i] == (init + [v])[i]
  {
    assert (init + [v])[|init|] == v;
    assert forall j | 0 <= j < |init| :: (init + [v])[j] == init[j];
  }

  lemma PriceMapNext(list: seq<PricedRecord>, cfg: PriceConfig, accountId: string)
    requires list != [] && AllPriced(list, cfg)
    ensures var init, v := list[..|list| - 1], list[|list| - 1];
            && AllPriced(init, cfg) && v in list
            && (accountId in PriceMap(list, cfg) <==> accountId in PriceMap(init, cfg) || Prices(v, accountId))
            && (accountId in PriceMap(list, cfg) ==>
                  PriceMap(list, cfg)[accountId]
                  == if Prices(v, accountId) then RecordPrice(v, cfg).value else PriceMap(init, cfg)[accountId])
  {
    hide RecordPrice;
    assert list[|list| - 1] in list && forall u | u in list[..|list| - 1] :: u in list;
  }

  lemma {:induction false} PriceMapKeys(list: seq<PricedRecord>, cfg: PriceConfig, accountId: string)
    requires AllPriced(list, cfg)
    ensures accountId in PriceMap(list, cfg) <==> exists v :: v in list && Prices(v, accountId)
    decreases |list|
  {
    if list != [] {
      PriceMapNext(list, cfg, accountId);
      var init, v := list[..|list| - 1], list[|list| - 1];
      PriceMapKeys(init, cfg, accountId);
      hide RecordPrice, PriceMap, Prices;
      assert list == init + [v];
      assert forall u :: u in list <==> u in init || u == v;
    }
  }

  /** The price map holds for each account the cost of its last record minted automatically. */
  lemma {:induction false} PriceMapIs(list: seq<PricedRecord>, cfg: PriceConfig, accountId: string, i: nat)
    requires cfg.quote > 0 && AllPriced(list, cfg) && LastPriced(list, i, accountId)
    ensures accountId in PriceMap(list, cfg)
    ensures PriceMap(list, cfg)[accountId]
         == Cost(AutoYearly(list[i], cfg), cfg.quote, list[i].registerYears + list[i].renewYears)
    decreases |list|
  {
    PriceMapNext(list, cfg, accountId);
    var init, v := list[..|list| - 1], list[|list| - 1];
    assert list == init + [v];
    LastPricedBefore(init, v, i, accountId);
    if Prices(v, accountId) {
      PriceOfRecord(v, cfg);
    } else {
      hide RecordPrice, Cost, PriceMap, AutoYearly;
      PriceMapIs(init, cfg, accountId, i);
    }
  }

  /** So an update adds to capacity and recorded profit what the manager's years and the automatic records cost. */
  lemma UpdateAdds(c: Cell, list: seq<PricedRecord>, cfg: PriceConfig)
    requires cfg.quote > 0 && AllPriced(list, cfg)
    ensures var total := ManualCost(list, cfg) + AutoCost(list, cfg);
            AddProfit(c, Growth(list, cfg)) == Cell(Wrap(c.capacity + total), Wrap(c.dasProfit + total), c.ownerProfit)
  {
    ManualTotal(list, cfg);
    AutoTotal(list, cfg);
    var manual, auto, priced := ManualCost(list, cfg), AutoCost(list, cfg), PriceSum(list, cfg, false);
    assert Growth(list, cfg) == priced + auto;
    hide Wrap, ManualCost, AutoCost, PriceSum, Growth;
    WrapMinus(priced, manual, -(c.capacity + auto));
    WrapMinus(priced, manual, -(c.dasProfit + auto));
  }

  /**
    What a provider gets of one income: the rate's share of a price above the minimum fee of its years, unless the
    service minted it with a coupon; else what the price exceeds the minimum price of its years by, if anything.
   */
  lemma ProvidersShare(v: Statement, cfg: ProviderConfig)
    requires v.quote > 0 && StatementShare(v, cfg).Ok?
    ensures var fee, least := Cost(cfg.minFeePrice, v.quote, v.years) as real,
            Cost(cfg.minPrice, v.quote, v.years) as real;
            StatementShare(v, cfg).value ==
            if v.price > fee && (!v.own || !v.coupon) then v.price * cfg.feeRate
            else if v.price > least then v.price - least
            else 0.0
  {
  }
}
