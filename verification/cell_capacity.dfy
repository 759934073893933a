/**
  The sub-account cell's capacity against the profits recorded in its data: mints and renewals add to
  both, withdrawals take from both, and only the transaction fee of a profit withdrawal comes out of
  the rest. Amounts are shannons in 64-bit words.
 */
module CellCapacity {
  import opened UInt64
  import opened Wrappers

  const ONE_CKB: nat := 1_0000_0000
  const UINT128_MODULUS: nat := 0x1_0000_0000_0000_0000_0000_0000_0000_0000

  datatype Error =
    | ErrUint128Overflow | ErrNotHitPriceRule | ErrGetTransaction | ErrProfitNotEnough | ErrTransferTooSmall

  // ---------- PriceToCKB ----------

  /** The price of one year in shannons, rounded down. */
  function YearInShannons(price: nat, quote: nat): nat
    requires quote > 0
  {
    price * ONE_CKB / quote
  }

  /** A 128-bit product, cut to 64 bits; the 128-bit library panics on overflow. */
  function PriceToCKB(price: nat, quote: nat, years: nat): Result<nat, Error> {
    if quote == 0 then Ok(0)
    else if price * ONE_CKB >= UINT128_MODULUS || YearInShannons(price, quote) * years >= UINT128_MODULUS
    then Err(ErrUint128Overflow)
    else Ok(Wrap(YearInShannons(price, quote) * years))
  }

  /** Additive in years: always modulo 2^64, and as plain numbers exactly when the sum fits. */
  lemma PriceAdditive(price: nat, quote: nat, a: nat, b: nat)
    requires PriceToCKB(price, quote, a + b).Ok?
    ensures PriceToCKB(price, quote, a).Ok? && PriceToCKB(price, quote, b).Ok?
    ensures var pa, pb, pab := PriceToCKB(price, quote, a).value, PriceToCKB(price, quote, b).value,
            PriceToCKB(price, quote, a + b).value;
            && pab == Wrap(pa + pb)
            && (pab == pa + pb <==> pa + pb < MODULUS)
  {
    if quote > 0 {
      var year := YearInShannons(price, quote);
      assert year * (a + b) == year * a + year * b;
      assert year * a >= 0 && year * b >= 0;
      WrapSum(year * a, Wrap(year * b));
      WrapSum(year * b, year * a);
    }
  }

  /** At most the exact quotient `price * 10^8 * years / quote`, and less than `years` shannons below it. */
  lemma PriceRounding(price: nat, quote: nat, years: nat)
    requires quote > 0 && years > 0 && YearInShannons(price, quote) * years < MODULUS
             && price * ONE_CKB < UINT128_MODULUS
    ensures PriceToCKB(price, quote, years).Ok?
    ensures 0 <= price * ONE_CKB * years - PriceToCKB(price, quote, years).value * quote < years * quote
  {
  }

  // ---------- getAccountPrice ----------

  datatype MintType = DefaultMint | ManualMint | CustomScriptMint | AutoMint

  datatype SubAction = Create | Renew | Other

  /** What the parent's price rules say: none on chain, no rule hit, or a yearly price. */
  datatype RuleLookup = NoRuleTx | Miss | Hit(price: nat)

  datatype PricedRecord = PricedRecord(
    accountId: string, mintType: MintType, subAction: SubAction, registerYears: nat, renewYears: nat, rule: RuleLookup)

  datatype PriceConfig = PriceConfig(newPrice: nat, renewPrice: nat, quote: nat, autoDistributionDefault: bool)

  function YearlyPrice(v: PricedRecord, cfg: PriceConfig): Result<nat, Error> {
    match v.mintType
    case CustomScriptMint => Ok(0)
    case DefaultMint => Ok(if v.subAction.Create? then cfg.newPrice else cfg.renewPrice)
    case ManualMint => Ok(if v.subAction.Create? then cfg.newPrice else cfg.renewPrice)
    case AutoMint =>
      if v.subAction.Renew? && (cfg.autoDistributionDefault || !v.rule.Hit?) then Ok(cfg.renewPrice)
      else if v.rule.NoRuleTx? then Err(ErrGetTransaction)
      else if v.rule.Miss? then Err(ErrNotHitPriceRule)
      else Ok(v.rule.price)
  }

  /** What a record adds to the cell. */
  function RecordPrice(v: PricedRecord, cfg: PriceConfig): Result<nat, Error> {
    if v.subAction.Other? then Ok(0)
    else
      var yearly := YearlyPrice(v, cfg);
      if yearly.Err? then yearly else PriceToCKB(yearly.value, cfg.quote, v.registerYears + v.renewYears)
  }

  predicate AllPriced(list: seq<PricedRecord>, cfg: PriceConfig) {
    forall v | v in list :: RecordPrice(v, cfg).Ok?
  }

  /** The plain sum of the prices of the records chosen by `auto`. */
  function PriceSum(list: seq<PricedRecord>, cfg: PriceConfig, auto: bool): nat
    requires AllPriced(list, cfg)
    decreases |list|
  {
    if list == [] then 0
    else
      var init, v := list[..|list| - 1], list[|list| - 1];
      PriceSum(init, cfg, auto) + (if Counts(v, auto) then RecordPrice(v, cfg).value else 0)
  }

  predicate Counts(v: PricedRecord, auto: bool) {
    if auto then v.mintType.AutoMint? else v.mintType.DefaultMint? || v.mintType.ManualMint?
  }

  /** The years bought by creates, or by renewals, that the parent's manager pays for. */
  function YearSum(list: seq<PricedRecord>, creates: bool): nat
    decreases |list|
  {
    if list == [] then 0
    else
      var init, v := list[..|list| - 1], list[|list| - 1];
      YearSum(init, creates) + (if !Counts(v, false) || v.subAction.Other? || v.subAction.Create? != creates then 0
                                else if creates then v.registerYears else v.renewYears)
  }

  /** The price of each account minted automatically. */
  function PriceMap(list: seq<PricedRecord>, cfg: PriceConfig): map<string, nat>
    requires AllPriced(list, cfg)
    decreases |list|
  {
    if list == [] then map[]
    else
      var init, v := list[..|list| - 1], list[|list| - 1];
      if v.mintType.AutoMint? && !v.subAction.Other? then PriceMap(init, cfg)[v.accountId := RecordPrice(v, cfg).value]
      else PriceMap(init, cfg)
  }

  datatype PriceResp = PriceResp(
    registerTotalYears: nat, renewTotalYears: nat, autoTotalCapacity: nat, manualTotalCapacity: nat,
    subAccountPriceMap: map<string, nat>)

  lemma PriceSumNext(list: seq<PricedRecord>, cfg: PriceConfig, i: nat)
    requires i < |list| && AllPriced(list[..i], cfg) && RecordPrice(list[i], cfg).Ok?
    ensures AllPriced(list[..i + 1], cfg)
    ensures forall auto ::
              Wrap(PriceSum(list[..i + 1], cfg, auto))
              == if Counts(list[i], auto)
                then Wrap(Wrap(PriceSum(list[..i], cfg, auto)) + RecordPrice(list[i], cfg).value)
                 else Wrap(PriceSum(list[..i], cfg, auto))
  {
    hide RecordPrice;
    assert list[..i + 1] == list[..i] + [list[i]] && list[..i + 1][..i] == list[..i];
    forall auto
      ensures Wrap(Wrap(PriceSum(list[..i], cfg, auto)) + RecordPrice(list[i], cfg).value)
           == Wrap(PriceSum(list[..i], cfg, auto) + RecordPrice(list[i], cfg).value)
    {
      WrapSum(PriceSum(list[..i], cfg, auto), RecordPrice(list[i], cfg).value);
    }
  }

  lemma YearSumNext(list: seq<PricedRecord>, i: nat)
    requires i < |list|
    ensures Wrap(YearSum(list[..i + 1], true))
         == if Counts(list[i], false) && list[i].subAction.Create?
           then Wrap(Wrap(YearSum(list[..i], true)) + list[i].registerYears)
            else Wrap(YearSum(list[..i], true))
    ensures Wrap(YearSum(list[..i + 1], false))
         == if Counts(list[i], false) && list[i].subAction.Renew?
           then Wrap(Wrap(YearSum(list[..i], false)) + list[i].renewYears)
            else Wrap(YearSum(list[..i], false))
  {
    assert list[..i + 1][..i] == list[..i];
    WrapSum(YearSum(list[..i], true), list[i].registerYears);
    WrapSum(YearSum(list[..i], false), list[i].renewYears);
  }

  /** The totals after one more record. */
  ghost predicate Added(resp: PriceResp, v: PricedRecord, price: nat, next: PriceResp) {
    && next.manualTotalCapacity
       == (if Counts(v, false) then Wrap(resp.manualTotalCapacity + price) else resp.manualTotalCapacity)
    && next.autoTotalCapacity
       == (if Counts(v, true) then Wrap(resp.autoTotalCapacity + price) else resp.autoTotalCapacity)
    && next.subAccountPriceMap
       == (if v.mintType.AutoMint? && !v.subAction.Other? then resp.subAccountPriceMap[v.accountId := price]
                                   else resp.subAccountPriceMap)
    && next.registerTotalYears
       == (if Counts(v, false) && v.subAction.Create? then Wrap(resp.registerTotalYears + v.registerYears)
                                   else resp.registerTotalYears)
    && next.renewTotalYears == (if Counts(v, false) && v.subAction.Renew? then Wrap(resp.renewTotalYears + v.renewYears)
                                else resp.renewTotalYears)
  }

  ghost predicate Totals(resp: PriceResp, list: seq<PricedRecord>, cfg: PriceConfig)
    requires AllPriced(list, cfg)
  {
    && resp.manualTotalCapacity == Wrap(PriceSum(list, cfg, false))
       && resp.autoTotalCapacity == Wrap(PriceSum(list, cfg, true))
    && resp.registerTotalYears == Wrap(YearSum(list, true)) && resp.renewTotalYears == Wrap(YearSum(list, false))
    && resp.subAccountPriceMap == PriceMap(list, cfg)
  }

  lemma TotalsNext(resp: PriceResp, next: PriceResp, list: seq<PricedRecord>, cfg: PriceConfig, i: nat)
    requires i < |list| && AllPriced(list[..i], cfg) && RecordPrice(list[i], cfg).Ok?
    requires Totals(resp, list[..i], cfg) && Added(resp, list[i], RecordPrice(list[i], cfg).value, next)
    ensures AllPriced(list[..i + 1], cfg) && Totals(next, list[..i + 1], cfg)
  {
    PriceSumNext(list, cfg, i);
    YearSumNext(list, i);
    hide RecordPrice, PriceSum, YearSum, Wrap;
    assert list[..i + 1][..i] == list[..i];
  }

  /** The loop body's updates. */
  method AddRecord(resp: PriceResp, v: PricedRecord, price: nat) returns (next: PriceResp)
    requires resp.autoTotalCapacity < MODULUS && resp.manualTotalCapacity < MODULUS
    requires v.subAction.Other? ==> price == 0
    ensures Added(resp, v, price, next)
  {
    next := resp;
    if v.subAction.Other? {
      return;
    }
    if v.mintType.AutoMint? {
      next := next.(autoTotalCapacity := Wrap(next.autoTotalCapacity + price));
      next := next.(subAccountPriceMap := next.subAccountPriceMap[v.accountId := price]);
    } else if !v.mintType.CustomScriptMint? {
      if v.subAction.Create? {
        next := next.(registerTotalYears := Wrap(next.registerTotalYears + v.registerYears));
      } else {
        next := next.(renewTotalYears := Wrap(next.renewTotalYears + v.renewYears));
      }
      next := next.(manualTotalCapacity := Wrap(next.manualTotalCapacity + price));
    }
  }

  method GetAccountPrice(list: seq<PricedRecord>, cfg: PriceConfig) returns (r: Result<PriceResp, Error>)
    ensures r.Ok? <==> AllPriced(list, cfg)
    ensures r.Ok? ==> Totals(r.value, list, cfg)
    ensures r.Err? ==> exists v :: v in list && RecordPrice(v, cfg).Err? && RecordPrice(v, cfg).error == r.error
  {
    var resp := PriceResp(0, 0, 0, 0, map[]);
    for i := 0 to |list|
      invariant AllPriced(list[..i], cfg) && Totals(resp, list[..i], cfg)
    {
      var price := RecordPrice(list[i], cfg);
      if price.Err? {
        assert list[i] in list;
        return Err(price.error);
      }
      ghost var before := resp;
      resp := AddRecord(resp, list[i], price.value);
      TotalsNext(before, resp, list, cfg, i);
    }
    assert list[..|list|] == list;
    return Ok(resp);
  }

  // ---------- the cell ----------

  datatype Cell = Cell(capacity: nat, dasProfit: nat, ownerProfit: nat) {
    /** Every field is a 64-bit word. */
    predicate Words() {
      capacity < MODULUS && dasProfit < MODULUS && ownerProfit < MODULUS
    }

    /** What the cell holds beyond its recorded profits. */
    function Rest(): int { capacity - dasProfit - ownerProfit }
  }

  datatype Limits = Limits(minCellOccupied: nat, minBalanceCell: nat)

  function AddProfit(c: Cell, growth: nat): Cell {
    Cell(Wrap(c.capacity + growth), Wrap(c.dasProfit + growth), c.ownerProfit)
  }

  function TakeDas(c: Cell): Cell {
    Cell(Wrap(c.capacity - c.dasProfit), 0, c.ownerProfit)
  }

  function TakeOwner(c: Cell, limits: Limits): Cell {
    var paid := Cell(Wrap(c.capacity - c.ownerProfit), c.dasProfit, 0);
    if c.dasProfit >= limits.minCellOccupied then TakeDas(paid) else paid
  }

  function PayFee(c: Cell, sizeInBlock: nat): Cell {
    c.(capacity := Wrap(c.capacity - sizeInBlock - 1000))
  }

  function TakeProvider(c: Cell, amount: nat): Cell {
    Cell(Wrap(c.capacity - amount), Wrap(c.dasProfit - amount), c.ownerProfit)
  }

  /** The cell of subAccountCellInOutput. */
  method SubAccountCellOutput(c: Cell, prices: PriceResp) returns (output: Cell)
    ensures output == AddProfit(c, prices.manualTotalCapacity + prices.autoTotalCapacity)
  {
    var capacity := Wrap(Wrap(c.capacity + prices.manualTotalCapacity) + prices.autoTotalCapacity);
    WrapSum(c.capacity + prices.manualTotalCapacity, prices.autoTotalCapacity);
    WrapSum(prices.manualTotalCapacity + prices.autoTotalCapacity, c.dasProfit);
    var dasProfit := Wrap(c.dasProfit + Wrap(prices.manualTotalCapacity + prices.autoTotalCapacity));
    output := Cell(capacity, dasProfit, c.ownerProfit);
  }

  /** What an update adds to the cell: the prices of all its records. */
  function Growth(list: seq<PricedRecord>, cfg: PriceConfig): nat
    requires AllPriced(list, cfg)
  {
    PriceSum(list, cfg, false) + PriceSum(list, cfg, true)
  }

  lemma SameGrowth(c: Cell, manual: nat, auto: nat)
    ensures AddProfit(c, Wrap(manual) + Wrap(auto)) == AddProfit(c, manual + auto)
  {
    hide Wrap;
    WrapSum(manual, Wrap(auto));
    WrapSum(auto, manual);
    WrapSum(Wrap(manual) + Wrap(auto), c.capacity);
    WrapSum(Wrap(manual) + Wrap(auto), c.dasProfit);
    WrapSum(manual + auto, c.capacity);
    WrapSum(manual + auto, c.dasProfit);
  }

  /**
    Building the cell of an update: its records are priced, and capacity and recorded profit grow by all the prices.
   */
  method UpdateCell(c: Cell, list: seq<PricedRecord>, cfg: PriceConfig) returns (r: Result<Cell, Error>)
    ensures r.Ok? <==> AllPriced(list, cfg)
    ensures r.Ok? ==> r.value == AddProfit(c, Growth(list, cfg))
    ensures r.Err? ==> exists v :: v in list && RecordPrice(v, cfg).Err? && RecordPrice(v, cfg).error == r.error
  {
    var prices := GetAccountPrice(list, cfg);
    if prices.Err? {
      return Err(prices.error);
    }
    var output := SubAccountCellOutput(c, prices.value);
    SameGrowth(c, PriceSum(list, cfg, false), PriceSum(list, cfg, true));
    return Ok(output);
  }

  function Sum(capacities: seq<nat>): nat
    decreases |capacities|
  {
    if capacities == [] then 0 else Sum(capacities[..|capacities| - 1]) + capacities[|capacities| - 1]
  }

  /** doProfitWithdraw with buildProfitWithdrawTx: output 0 is the new cell, the others pay the profits out. */
  method ProfitWithdraw(c: Cell, isWithdrawDotBit: bool, limits: Limits, sizeInBlock: nat)
    returns (r: Result<(Cell, seq<nat>), Error>)
    ensures r.Err? <==>
            if isWithdrawDotBit then c.dasProfit < limits.minCellOccupied else c.ownerProfit < limits.minBalanceCell
    ensures r.Ok? ==> r.value.0 == PayFee(if isWithdrawDotBit then TakeDas(c) else TakeOwner(c, limits), sizeInBlock)
    ensures r.Ok? ==> r.value.1 == if isWithdrawDotBit then [c.dasProfit]
                                   else if c.dasProfit >= limits.minCellOccupied then [c.ownerProfit, c.dasProfit]
                                   else [c.ownerProfit]
  {
    if isWithdrawDotBit {
      if c.dasProfit < limits.minCellOccupied {
        return Err(ErrProfitNotEnough);
      }
    } else if c.ownerProfit < limits.minBalanceCell {
      return Err(ErrProfitNotEnough);
    }
    var cell, payouts := c, [];
    if isWithdrawDotBit {
      payouts := payouts + [cell.dasProfit];
      cell := cell.(capacity := Wrap(cell.capacity - cell.dasProfit));
      cell := cell.(dasProfit := 0);
    } else {
      payouts := payouts + [cell.ownerProfit];
      cell := cell.(capacity := Wrap(cell.capacity - cell.ownerProfit));
      cell := cell.(ownerProfit := 0);
      if cell.dasProfit >= limits.minCellOccupied {
        payouts := payouts + [cell.dasProfit];
        cell := cell.(capacity := Wrap(cell.capacity - cell.dasProfit));
        cell := cell.(dasProfit := 0);
      }
    }
    cell := cell.(capacity := Wrap(cell.capacity - sizeInBlock - 1000));
    return Ok((cell, payouts));
  }

  /** A profit withdrawal pays out, with its fee, exactly what the cell loses. */
  lemma WithdrawalBalances(c: Cell, limits: Limits, sizeInBlock: nat)
    requires c.Words() && c.Rest() >= sizeInBlock + 1000
    ensures c.capacity == PayFee(TakeDas(c), sizeInBlock).capacity + Sum([c.dasProfit]) + (sizeInBlock + 1000)
    ensures c.dasProfit >= limits.minCellOccupied ==>
              c.capacity == PayFee(TakeOwner(c, limits), sizeInBlock).capacity
                            + Sum([c.ownerProfit, c.dasProfit]) + (sizeInBlock + 1000)
    ensures c.dasProfit < limits.minCellOccupied ==>
              c.capacity == PayFee(TakeOwner(c, limits), sizeInBlock).capacity + Sum([c.ownerProfit])
                + (sizeInBlock + 1000)
  {
  }

  // ---------- every sequence of updates and withdrawals ----------

  datatype Operation =
    | Update(list: seq<PricedRecord>, cfg: PriceConfig)
    | WithdrawDas(sizeInBlock: nat)
    | WithdrawOwner(sizeInBlock: nat)
    | WithdrawProvider(amount: nat)

  function Step(c: Cell, op: Operation, limits: Limits): Cell {
    match op
    case Update(list, cfg) => if AllPriced(list, cfg) then AddProfit(c, Growth(list, cfg)) else c
    case WithdrawDas(size) => if c.dasProfit < limits.minCellOccupied then c else PayFee(TakeDas(c), size)
    case WithdrawOwner(size) => if c.ownerProfit < limits.minBalanceCell then c else PayFee(TakeOwner(c, limits), size)
    case WithdrawProvider(amount) => TakeProvider(c, amount)
  }

  /** The fee a step deducts from the cell. */
  function Fee(c: Cell, op: Operation, limits: Limits): nat {
    match op
    case WithdrawDas(size) => if c.dasProfit < limits.minCellOccupied then 0 else size + 1000
    case WithdrawOwner(size) => if c.ownerProfit < limits.minBalanceCell then 0 else size + 1000
    case _ => 0
  }

  function Run(c: Cell, ops: seq<Operation>, limits: Limits): Cell
    decreases |ops|
  {
    if ops == [] then c else Run(Step(c, ops[0], limits), ops[1..], limits)
  }

  function Fees(c: Cell, ops: seq<Operation>, limits: Limits): nat
    decreases |ops|
  {
    if ops == [] then 0 else Fee(c, ops[0], limits) + Fees(Step(c, ops[0], limits), ops[1..], limits)
  }

  lemma WrapShift(a: int, b: int, c: int, k: int)
    ensures Wrap(Wrap(a + k) - Wrap(b + k) - c) == Wrap(a - b - c)
  {
  }

  lemma FeeConserves(capacity: int, paid: int, kept: int, fee: int)
    ensures Wrap(Wrap(Wrap(capacity - paid) - fee) - kept) == Wrap(capacity - paid - kept - fee)
  {
  }

  lemma OwnerConserves(c: Cell, limits: Limits, size: nat)
    ensures Wrap(PayFee(TakeOwner(c, limits), size).Rest()) == Wrap(c.Rest() - size - 1000)
  {
    hide Wrap;
    if c.dasProfit < limits.minCellOccupied {
      FeeConserves(c.capacity, c.ownerProfit, c.dasProfit, size + 1000);
    } else {
      BothConserve(c, size + 1000);
    }
  }

  lemma BothConserve(c: Cell, fee: int)
    ensures Wrap(Wrap(Wrap(Wrap(c.capacity - c.ownerProfit) - c.dasProfit) - fee)) == Wrap(c.Rest() - fee)
  {
    hide Wrap;
    WrapSum(c.capacity - c.ownerProfit, 0 - c.dasProfit as int);
    FeeConserves(c.capacity, c.ownerProfit + c.dasProfit, 0, fee);
  }

  lemma StepConserves(c: Cell, op: Operation, limits: Limits)
    ensures Wrap(Step(c, op, limits).Rest()) == Wrap(c.Rest() - Fee(c, op, limits))
  {
    hide Wrap;
    match op
    case Update(list, cfg) =>
      if AllPriced(list, cfg) {
        WrapShift(c.capacity, c.dasProfit, c.ownerProfit, Growth(list, cfg));
      }
    case WithdrawProvider(amount) => WrapShift(c.capacity, c.dasProfit, c.ownerProfit, 0 - amount as int);
    case WithdrawDas(size) => FeeConserves(c.capacity, c.dasProfit, c.ownerProfit, size + 1000);
    case WithdrawOwner(size) => OwnerConserves(c, limits, size);
  }

  /** In 64-bit arithmetic no run of updates and withdrawals changes the rest by anything but its fees. */
  lemma {:induction false} RunConserves(c: Cell, ops: seq<Operation>, limits: Limits)
    ensures Wrap(Run(c, ops, limits).Rest()) == Wrap(c.Rest() - Fees(c, ops, limits))
    decreases |ops|
  {
    hide Step, Fee, Wrap;
    if ops != [] {
      var d := Step(c, ops[0], limits);
      StepConserves(c, ops[0], limits);
      RunConserves(d, ops[1..], limits);
      WrapMinus(d.Rest(), c.Rest() - Fee(c, ops[0], limits), Fees(d, ops[1..], limits));
    }
  }

  lemma WrapMinus(a: int, b: int, x: int)
    requires Wrap(a) == Wrap(b)
    ensures Wrap(a - x) == Wrap(b - x)
  {
    hide Wrap;
    WrapSum(a, -x);
    WrapSum(b, -x);
  }

  /** The bounds under which a step neither overflows nor underflows. */
  predicate Fits(c: Cell, op: Operation, limits: Limits) {
    match op
    case Update(list, cfg) => AllPriced(list, cfg) ==> c.capacity + Growth(list, cfg) < MODULUS
    case WithdrawProvider(amount) => amount <= c.dasProfit
    case _ => Fee(c, op, limits) <= c.Rest()
  }

  predicate FitsAll(c: Cell, ops: seq<Operation>, limits: Limits)
    decreases |ops|
  {
    ops == [] || (Fits(c, ops[0], limits) && FitsAll(Step(c, ops[0], limits), ops[1..], limits))
  }

  lemma FitStepConserves(c: Cell, op: Operation, limits: Limits)
    requires c.Words() && c.Rest() >= 0 && Fits(c, op, limits)
    ensures Step(c, op, limits).Words() && Step(c, op, limits).Rest() == c.Rest() - Fee(c, op, limits) >= 0
  {
  }

  /** Within the bounds the same holds of the plain numbers, and the capacity always covers the profits. */
  lemma {:induction false} RunConservesExactly(c: Cell, ops: seq<Operation>, limits: Limits)
    requires c.Words() && c.Rest() >= 0 && FitsAll(c, ops, limits)
    ensures Run(c, ops, limits).Words() && Run(c, ops, limits).Rest() == c.Rest() - Fees(c, ops, limits) >= 0
    decreases |ops|
  {
    if ops != [] {
      FitStepConserves(c, ops[0], limits);
      hide Step, Fits, Fee;
      RunConservesExactly(Step(c, ops[0], limits), ops[1..], limits);
    }
  }

  // ---------- the provider's withdrawal ----------

  /** One income statement: the price charged, whether this service minted it and whether with a coupon. */
  datatype Statement = Statement(price: real, quote: nat, years: nat, own: bool, coupon: bool)

  datatype ProviderConfig = ProviderConfig(feeRate: real, minFeePrice: nat, minPrice: nat)

  /** The fee rate's share above the minimum fee, else what exceeds the minimum price. */
  function ShareOf(price: real, feeRate: real, minCkbFee: real, minCkb: real, noCoupon: bool): real {
    if noCoupon && price > minCkbFee then price * feeRate
    else if price - minCkb > 0.0 then price - minCkb
    else 0.0
  }

  function StatementShare(v: Statement, cfg: ProviderConfig): Result<real, Error> {
    var minCkbFee, minCkb := PriceToCKB(cfg.minFeePrice, v.quote, v.years), PriceToCKB(cfg.minPrice, v.quote, v.years);
    if minCkbFee.Err? || minCkb.Err? then Err(ErrUint128Overflow)
    else Ok(ShareOf(v.price, cfg.feeRate, minCkbFee.value as real, minCkb.value as real, !v.own || !v.coupon))
  }

  predicate AllShared(list: seq<Statement>, cfg: ProviderConfig) {
    forall v | v in list :: StatementShare(v, cfg).Ok?
  }

  function ShareSum(list: seq<Statement>, cfg: ProviderConfig): real
    requires AllShared(list, cfg)
    decreases |list|
  {
    if list == [] then 0.0 else ShareSum(list[..|list| - 1], cfg) + StatementShare(list[|list| - 1], cfg).value
  }

  function Income(list: seq<Statement>): real
    decreases |list|
  {
    if list == [] then 0.0 else Income(list[..|list| - 1]) + list[|list| - 1].price
  }

  method ProviderAmount(list: seq<Statement>, cfg: ProviderConfig, limits: Limits) returns (r: Result<real, Error>)
    ensures r.Ok? <==> AllShared(list, cfg) && ShareSum(list, cfg) > limits.minCellOccupied as real
    ensures r.Ok? ==> r.value == ShareSum(list, cfg)
  {
    var amount := 0.0;
    for i := 0 to |list|
      invariant AllShared(list[..i], cfg) && amount == ShareSum(list[..i], cfg)
    {
      var share := StatementShare(list[i], cfg);
      assert list[..i + 1] == list[..i] + [list[i]] && list[..i + 1][..i] == list[..i];
      if share.Err? {
        return Err(share.error);
      }
      amount := amount + share.value;
    }
    assert list[..|list|] == list;
    if amount <= limits.minCellOccupied as real {
      return Err(ErrTransferTooSmall);
    }
    return Ok(amount);
  }

  /** A provider never withdraws more than the income it is paid for. */
  lemma {:induction false} ShareWithinIncome(list: seq<Statement>, cfg: ProviderConfig)
    requires AllShared(list, cfg) && 0.0 <= cfg.feeRate <= 1.0 && forall v | v in list :: v.price >= 0.0
    ensures 0.0 <= ShareSum(list, cfg) <= Income(list)
    decreases |list|
  {
    if list != [] {
      var v := list[|list| - 1];
      assert v in list;
      ShareWithinIncome(list[..|list| - 1], cfg);
      StatementShareBound(v, cfg);
    }
  }

  lemma StatementShareBound(v: Statement, cfg: ProviderConfig)
    requires StatementShare(v, cfg).Ok? && 0.0 <= cfg.feeRate <= 1.0 && v.price >= 0.0
    ensures 0.0 <= StatementShare(v, cfg).value <= v.price
  {
    hide PriceToCKB, ShareOf;
    var minCkbFee, minCkb := PriceToCKB(cfg.minFeePrice, v.quote, v.years).value,
      PriceToCKB(cfg.minPrice, v.quote, v.years).value;
    NatAsReal(minCkb);
    ShareBound(v.price, cfg.feeRate, minCkbFee as real, minCkb as real, !v.own || !v.coupon);
  }

  lemma NatAsReal(n: nat)
    ensures n as real >= 0.0
  {
  }

  lemma ShareBound(price: real, feeRate: real, minCkbFee: real, minCkb: real, noCoupon: bool)
    requires 0.0 <= feeRate <= 1.0 && price >= 0.0 && minCkb >= 0.0
    ensures 0.0 <= ShareOf(price, feeRate, minCkbFee, minCkb, noCoupon) <= price
  {
    assert price * (1.0 - feeRate) == price - price * feeRate;
    assert price * (1.0 - feeRate) >= 0.0;
  }

  /**
    The subtraction from the recorded profit is not guarded. The plain rest is kept exactly when the profit
    covers the amount (or when even the capacity does not, and both words wrap).
   */
  lemma ProviderKeepsRestIff(c: Cell, amount: nat)
    requires c.Words() && c.dasProfit <= c.capacity && amount < MODULUS
    ensures TakeProvider(c, amount).Rest() == c.Rest() <==> amount <= c.dasProfit || amount > c.capacity
  {
  }

  /** A withdrawal of 200 CKB from a cell with a recorded profit of 150: the recorded profit wraps around. */
  lemma ProviderCanWrapProfit() returns (c: Cell, amount: nat)
    ensures c.Words() && 0 <= c.Rest() && c.dasProfit < amount <= c.capacity
    ensures var d := TakeProvider(c, amount);
            d.capacity == c.capacity - amount && d.dasProfit == c.dasProfit - amount + MODULUS && d.Rest() < 0
  {
    c, amount := Cell(400 * ONE_CKB, 150 * ONE_CKB, 0), 200 * ONE_CKB;
  }
}
