/**
  Payout runs: paid orders are grouped by parent account and token, the owner's shares of a group are summed
  into one payment, and the orders that were summed are stamped with it.
 */
module Payouts {
  import opened Decimals
  import opened Fees
  import opened Tables
  import opened Wrappers

  /** A row of the order table; the stamp is the index of the payment that paid the owner. */
  datatype Order = Order(parentAccountId: string, tokenId: string, charge: Charge, actionType: ActionType,
                         paid: bool, status: OrderStatus, timestamp: int, autoPaymentId: Option<nat>)

  type Key = (string, string)

  datatype AutoPayment = AutoPayment(key: Key, amount: real, fee: real, address: string)

  datatype Ledger = Ledger(orders: seq<Order>, payments: seq<AutoPayment>)

  /** What a run reads besides the orders: configuration, token prices and the owners' address records. */
  datatype EnvData = EnvData(cfg: FeeConfig, tokens: map<string, Token>, mainNet: bool, paymentMinPrice: real,
                             recordKeys: map<string, string>, addresses: map<(string, string), string>)

  ghost predicate Sound(e: EnvData) {
    && e.cfg.platformFeeRatio + e.cfg.serviceFeeRatio > 0.0
    && forall t | t in e.tokens :: e.tokens[t].price > 0.0
  }

  /** No divisor of the computation is zero. */
  type Env = e: EnvData | Sound(e) witness EnvData(FeeConfig(0.0, 1.0, 0.0), map[], false, 0.0, map[], map[])

  function KeyOf(o: Order): Key {
    (o.parentAccountId, o.tokenId)
  }

  function SplitOf(o: Order, env: Env): Split {
    if o.tokenId in env.tokens then PayoutSplit(o.charge, env.tokens[o.tokenId], env.cfg) else Split(0.0, None)
  }

  predicate Eligible(o: Order, end: int, accountId: string) {
    && o.autoPaymentId.None? && o.paid && o.status == Success && o.timestamp < end
    && (accountId == "" || o.parentAccountId == accountId)
  }

  /** Row numbers that fit the table. */
  ghost predicate Rows(list: seq<nat>, orders: seq<Order>) {
    forall j | 0 <= j < |list| :: list[j] < |orders|
  }

  function Select(orders: seq<Order>, n: nat, f: Order -> bool): (list: seq<nat>)
    requires n <= |orders|
    ensures forall i: nat :: i in list <==> i < n && f(orders[i])
    ensures forall j | 0 <= j < |list| :: list[j] < n
    ensures forall i, j | 0 <= i < j < |list| :: list[i] < list[j]
  {
    if n == 0 then []
    else
      var rest := Select(orders, n - 1, f);
      if f(orders[n - 1]) then rest + [n - 1] else rest
  }

  // ---------- one group ----------

  predicate Counts(o: Order, key: Key, env: Env) {
    KeyOf(o) == key && SplitOf(o, env).share > 0.0
  }

  function IdsOf(orders: seq<Order>, list: seq<nat>, key: Key, env: Env): (ids: seq<nat>)
    requires Rows(list, orders)
    ensures Rows(ids, orders)
    decreases |list|
  {
    if list == [] then []
    else
      var rest, i := IdsOf(orders, list[..|list| - 1], key, env), list[|list| - 1];
      if Counts(orders[i], key, env) then rest + [i] else rest
  }

  function SumShares(orders: seq<Order>, ids: seq<nat>, env: Env): real
    requires Rows(ids, orders)
    decreases |ids|
  {
    if ids == [] then 0.0
    else SumShares(orders, ids[..|ids| - 1], env) + SplitOf(orders[ids[|ids| - 1]], env).share
  }

  /** The fee column keeps the fee of the group's last order that has one. */
  function LastFee(orders: seq<Order>, list: seq<nat>, key: Key, env: Env): real
    requires Rows(list, orders)
    decreases |list|
  {
    if list == [] then 0.0
    else
      var o := orders[list[|list| - 1]];
      if KeyOf(o) == key && SplitOf(o, env).fee.Some? then SplitOf(o, env).fee.value
      else LastFee(orders, list[..|list| - 1], key, env)
  }

  function Keys(orders: seq<Order>, list: seq<nat>): set<Key>
    requires Rows(list, orders)
    decreases |list|
  {
    if list == [] then {} else Keys(orders, list[..|list| - 1]) + {KeyOf(orders[list[|list| - 1]])}
  }

  datatype CsvRecord = CsvRecord(amount: real, fee: real, ids: seq<nat>, address: string)

  const EMPTY := CsvRecord(0.0, 0.0, [], "")

  type Groups = map<Key, CsvRecord>

  /** What the loop over the orders does to the record of the order's group. */
  function AddOrder(r: CsvRecord, i: nat, split: Split): CsvRecord {
    var fee := if split.fee.Some? then split.fee.value else r.fee;
    if split.share > 0.0 then CsvRecord(r.amount + split.share, fee, r.ids + [i], r.address) else r.(fee := fee)
  }

  function Group(orders: seq<Order>, list: seq<nat>, key: Key, env: Env): CsvRecord
    requires Rows(list, orders)
  {
    var ids := IdsOf(orders, list, key, env);
    CsvRecord(SumShares(orders, ids, env), LastFee(orders, list, key, env), ids, "")
  }

  function AllGroups(orders: seq<Order>, list: seq<nat>, env: Env): Groups
    requires Rows(list, orders)
  {
    map k | k in Keys(orders, list) :: Group(orders, list, k, env)
  }

  // ---------- which groups are paid ----------

  function Address(key: Key, env: Env): Option<string> {
    if key.1 !in env.recordKeys then None
    else
      var recordKey := (key.0, env.recordKeys[key.1]);
      if recordKey in env.addresses then Some(env.addresses[recordKey]) else None
  }

  predicate Payable(r: CsvRecord, key: Key, env: Env)
    requires key.1 in env.tokens
  {
    var token := env.tokens[key.1];
    && r.amount > 0.0
    && !(Div(r.amount, Pow10(token.decimals)) * token.price < env.paymentMinPrice && env.mainNet)
    && Address(key, env).Some?
  }

  function PayableGroups(groups: Groups, env: Env): Groups
    requires forall k | k in groups :: k.1 in env.tokens
  {
    map k | k in groups && Payable(groups[k], k, env) :: groups[k].(address := Address(k, env).value)
  }

  // ---------- paying ----------

  function Stamp(orders: seq<Order>, ids: seq<nat>, payment: nat): seq<Order> {
    seq(|orders|, i requires 0 <= i < |orders| =>
      if i in ids then orders[i].(autoPaymentId := Some(payment)) else orders[i])
  }

  function PayOne(l: Ledger, key: Key, r: CsvRecord): Ledger {
    Ledger(Stamp(l.orders, r.ids, |l.payments|), l.payments + [AutoPayment(key, r.amount, r.fee, r.address)])
  }

  function PayAll(l: Ledger, groups: Groups, keys: seq<Key>): Ledger
    requires forall k | k in keys :: k in groups
    decreases |keys|
  {
    if keys == [] then l
    else
      var key := keys[|keys| - 1];
      PayOne(PayAll(l, groups, keys[..|keys| - 1]), key, groups[key])
  }

  ghost predicate Enumerates(keys: seq<Key>, all: set<Key>) {
    && (forall k :: k in keys <==> k in all)
    && (forall i, j | 0 <= i < j < |keys| :: keys[i] != keys[j])
  }

  // ---------- the balance shown to the owner ----------

  /** An order without a token or amount shows nothing; otherwise its token must have a price. */
  predicate Priced(o: Order, env: Env) {
    o.tokenId != "" && o.charge.amount > 0.0 ==> o.tokenId in env.tokens
  }

  function Shown(o: Order, env: Env): real
    requires Priced(o, env)
  {
    if o.tokenId != "" && o.charge.amount > 0.0 then DisplayedShare(o.charge, env.tokens[o.tokenId], env.cfg) else 0.0
  }

  predicate Listed(o: Order, accountId: string, onlyPaidOut: bool) {
    && o.parentAccountId == accountId && o.paid && o.status == Success && o.actionType in {Mint, Renew}
    && (onlyPaidOut ==> o.autoPaymentId.Some?)
  }

  /** The sum of what is shown for the listed orders in one token, among the first n; None if there are none. */
  function ShownTotal(orders: seq<Order>, n: nat, accountId: string, onlyPaidOut: bool, tokenId: string,
      env: Env): Option<real>
    requires n <= |orders| && forall i | 0 <= i < n && Listed(orders[i], accountId, onlyPaidOut) ::
             Priced(orders[i], env)
  {
    if n == 0 then None
    else
      var rest, o := ShownTotal(orders, n - 1, accountId, onlyPaidOut, tokenId, env), orders[n - 1];
      if Listed(o, accountId, onlyPaidOut) && o.tokenId == tokenId
      then Some((if rest.Some? then rest.value else 0.0) + Shown(o, env))
      else rest
  }

  datatype RunError = TokenNotExist

  class SubAccountTxTool {
    var orders: seq<Order>
    var payments: seq<AutoPayment>

    ghost function Db(): Ledger
      reads this
    {
      Ledger(orders, payments)
    }

    method FindOrderByPayment(end: int, accountId: string) returns (list: seq<nat>)
      ensures list == Select(orders, |orders|, o => Eligible(o, end, accountId))
      ensures forall i: nat ::
                i in list <==>
                && i < |orders| && orders[i].paid && orders[i].status == Success && orders[i].autoPaymentId == None
                && orders[i].timestamp < end && accountId in {"", orders[i].parentAccountId}
    {
      list := [];
      for i := 0 to |orders|
        invariant list == Select(orders, i, o => Eligible(o, end, accountId))
      {
        var o := orders[i];
        if o.autoPaymentId.None? && o.paid && o.status == Success && o.timestamp < end {
          if accountId == "" || o.parentAccountId == accountId {
            list := list + [i];
          }
        }
      }
    }

    method GroupOrders(list: seq<nat>, env: Env) returns (r: Result<Groups, RunError>)
      requires Rows(list, orders)
      ensures r.Ok? <==> forall i | i in list :: orders[i].tokenId in env.tokens
      ensures r.Ok? ==> r.value == AllGroups(orders, list, env)
    {
      hide AllGroups, PayoutSplit, SumShares;
      var records: Groups := map[];
      NoGroups(orders, env);
      for i := 0 to |list|
        invariant forall j | j in list[..i] :: orders[j].tokenId in env.tokens
        invariant Rows(list[..i], orders) && records == AllGroups(orders, list[..i], env)
      {
        var v := orders[list[i]];
        assert list[i] in list;
        assert list[..i + 1][..i] == list[..i];
        if v.tokenId !in env.tokens {
          return Err(TokenNotExist);
        }
        var csvRecord := if KeyOf(v) in records then records[KeyOf(v)] else EMPTY;
        GroupsNext(orders, list, i, env);
        var split := PayoutSplit(v.charge, env.tokens[v.tokenId], env.cfg);
        if split.fee.Some? {
          csvRecord := csvRecord.(fee := split.fee.value);
        }
        if split.share > 0.0 {
          csvRecord := csvRecord.(amount := csvRecord.amount + split.share, ids := csvRecord.ids + [list[i]]);
        }
        records := records[KeyOf(v) := csvRecord];
      }
      assert list[..|list|] == list;
      return Ok(records);
    }

    method SelectPayable(records: Groups, env: Env) returns (recordsNew: Groups)
      requires forall k | k in records :: k.1 in env.tokens
      ensures recordsNew == PayableGroups(records, env)
    {
      hide Div, Pow10;
      recordsNew := map[];
      var todo := records.Keys;
      while todo != {}
        invariant todo <= records.Keys
        invariant recordsNew.Keys == set k | k in records && k !in todo && Payable(records[k], k, env)
        invariant forall k | k in recordsNew :: recordsNew[k] == records[k].(address := Address(k, env).value)
      {
        var k :| k in todo;
        todo := todo - {k};
        var record, token := records[k], env.tokens[k.1];
        if record.amount <= 0.0 {
          continue;
        }
        var price := Div(record.amount, Pow10(token.decimals)) * token.price;
        if price < env.paymentMinPrice && env.mainNet {
          continue;
        }
        if k.1 !in env.recordKeys {
          continue;
        }
        if (k.0, env.recordKeys[k.1]) !in env.addresses {
          continue;
        }
        recordsNew := recordsNew[k := record.(address := env.addresses[(k.0, env.recordKeys[k.1])])];
      }
    }

    /** The closing transaction of a run, in the order in which the map is walked. */
    method PayRecords(recordsNew: Groups) returns (keys: seq<Key>)
      modifies this
      ensures Enumerates(keys, recordsNew.Keys)
      ensures Db() == PayAll(old(Db()), recordsNew, keys)
    {
      hide Stamp;
      keys := [];
      var todo := recordsNew.Keys;
      while todo != {}
        invariant todo <= recordsNew.Keys && Enumerates(keys, recordsNew.Keys - todo)
        invariant Db() == PayAll(old(Db()), recordsNew, keys)
      {
        var k :| k in todo;
        todo := todo - {k};
        var record := recordsNew[k];
        assert (keys + [k])[..|keys|] == keys;
        keys := keys + [k];
        payments := payments + [AutoPayment(k, record.amount, record.fee, record.address)];
        if |record.ids| > 0 {
          orders := Stamp(orders, record.ids, |payments| - 1);
        } else {
          StampNone(orders, |payments| - 1);
        }
      }
    }

    /** One run; `keys` is the order in which the map of groups was walked. */
    method StatisticsParentAccountPayment(accountId: string, payment: bool, end: int, env: Env)
      returns (r: Result<Groups, RunError>, keys: seq<Key>)
      modifies this
      ensures var list := Select(old(orders), |old(orders)|, o => Eligible(o, end, accountId));
              && (r.Ok? <==> forall i | i in list :: old(orders)[i].tokenId in env.tokens)
              && (r.Ok? ==> GroupsHaveTokens(old(orders), list, env)
                            && r.value == PayableGroups(AllGroups(old(orders), list, env), env))
      ensures if r.Ok? && payment
              then Enumerates(keys, r.value.Keys) && Db() == PayAll(old(Db()), r.value, keys)
              else Db() == old(Db())
    {
      hide Stamp, Payable, Keys, Group, Select;
      keys := [];
      var list := FindOrderByPayment(end, accountId);
      var records := GroupOrders(list, env);
      if records.Err? {
        return Err(records.error), keys;
      }
      KeysOfList(orders, list);
      var recordsNew := SelectPayable(records.value, env);
      r := Ok(recordsNew);
      if !payment {
        return;
      }
      keys := PayRecords(recordsNew);
    }

    /** The loop body of GetOrderAmount. */
    static method AmountOfOrder(v: Order, env: Env) returns (amount: real)
      requires Priced(v, env)
      ensures amount == Shown(v, env)
      ensures v.tokenId == "" || v.charge.amount <= 0.0 ==> amount == 0.0
    {
      hide RoundUnits, CouponMinPrice, OwnerRate, AboveMinimum;
      amount := 0.0;
      if v.tokenId != "" && v.charge.amount > 0.0 {
        var token, charge, cfg := env.tokens[v.tokenId], v.charge, env.cfg;
        amount := charge.amount - charge.premiumAmount;
        var feeRate, couponMinPrice := OwnerRate(cfg), CouponMinPrice(charge, cfg);
        var tokenMinPrice, minTokenFee := RoundUnits(couponMinPrice, token), RoundUnits(MinimumFee(charge, cfg), token);
        if charge.couponPrice.None? {
          if charge.usdAmount > 0.0 {
            if charge.usdAmount > couponMinPrice {
              amount := amount * feeRate;
            } else {
              var subFee := charge.usdAmount - cfg.minPriceFee;
              if subFee > 0.0 {
                amount := RoundUnits(AboveMinimum(charge, cfg), token);
              } else if subFee == 0.0 {
                amount := 0.0;
              } else {
                amount := amount * feeRate;
              }
            }
          } else {
            if charge.amount > tokenMinPrice {
              amount := amount * feeRate;
            } else {
              var subFee := amount - minTokenFee;
              if subFee > 0.0 {
                amount := amount - minTokenFee;
              } else if subFee == 0.0 {
                amount := 0.0;
              } else {
                amount := amount * feeRate;
              }
            }
          }
        } else {
          if charge.usdAmount > charge.couponPrice.value {
            amount := RoundUnits(charge.usdAmount - charge.couponPrice.value, token);
            amount := amount * feeRate;
          }
        }
      }
    }

    method GetOrderAmount(accountId: string, onlyPaidOut: bool, env: Env) returns (result: map<string, real>)
      requires forall i | 0 <= i < |orders| && Listed(orders[i], accountId, onlyPaidOut) :: Priced(orders[i], env)
      ensures forall t :: ShownTotal(orders, |orders|, accountId, onlyPaidOut, t, env)
                == if t in result then Some(result[t]) else None
    {
      hide Shown;
      result := map[];
      for i := 0 to |orders|
        invariant forall t :: ShownTotal(orders, i, accountId, onlyPaidOut, t, env)
                    == if t in result then Some(result[t]) else None
      {
        var v := orders[i];
        if !Listed(v, accountId, onlyPaidOut) {
          continue;
        }
        var amount := AmountOfOrder(v, env);
        result := result[v.tokenId := (if v.tokenId in result then result[v.tokenId] else 0.0) + amount];
      }
    }
  }

  ghost predicate GroupsHaveTokens(orders: seq<Order>, list: seq<nat>, env: Env)
    requires Rows(list, orders)
  {
    forall k | k in AllGroups(orders, list, env) :: k.1 in env.tokens
  }

  lemma {:induction false} KeysOfList(orders: seq<Order>, list: seq<nat>)
    requires Rows(list, orders)
    ensures forall k :: k in Keys(orders, list) <==> exists i :: i in list && KeyOf(orders[i]) == k
    decreases |list|
  {
    if list != [] {
      var init, last := list[..|list| - 1], list[|list| - 1];
      KeysOfList(orders, init);
      assert last in list && forall i :: i in list <==> i in init || i == last;
    }
  }

  lemma GroupNext(orders: seq<Order>, list: seq<nat>, i: nat, env: Env)
    requires Rows(list, orders) && i < |list|
    ensures Rows(list[..i], orders) && Rows(list[..i + 1], orders)
    ensures var o := orders[list[i]];
            && Group(orders, list[..i + 1], KeyOf(o), env)
               == AddOrder(Group(orders, list[..i], KeyOf(o), env), list[i], SplitOf(o, env))
            && Keys(orders, list[..i + 1]) == Keys(orders, list[..i]) + {KeyOf(o)}
            && (forall k | k != KeyOf(o) :: Group(orders, list[..i + 1], k, env) == Group(orders, list[..i], k, env))
  {
    hide SplitOf;
    assert list[..i + 1][..i] == list[..i];
    var ids := IdsOf(orders, list[..i], KeyOf(orders[list[i]]), env);
    assert (ids + [list[i]])[..|ids|] == ids;
  }

  lemma {:induction false} NewGroupIsEmpty(orders: seq<Order>, list: seq<nat>, key: Key, env: Env)
    requires Rows(list, orders)
    ensures key !in Keys(orders, list) ==> Group(orders, list, key, env) == EMPTY
    decreases |list|
  {
    if list != [] {
      NewGroupIsEmpty(orders, list[..|list| - 1], key, env);
    }
  }

  lemma NoGroups(orders: seq<Order>, env: Env)
    ensures AllGroups(orders, [], env) == map[]
  {
  }

  lemma GroupsNext(orders: seq<Order>, list: seq<nat>, i: nat, env: Env)
    requires Rows(list, orders) && i < |list|
    ensures Rows(list[..i], orders) && Rows(list[..i + 1], orders)
    ensures var o, before := orders[list[i]], AllGroups(orders, list[..i], env);
            AllGroups(orders, list[..i + 1], env)
            == before[KeyOf(o) :=
              AddOrder(if KeyOf(o) in before then before[KeyOf(o)] else EMPTY, list[i], SplitOf(o, env))]
  {
    GroupNext(orders, list, i, env);
    hide SplitOf, Group;
    NewGroupIsEmpty(orders, list[..i], KeyOf(orders[list[i]]), env);
  }

  lemma StampNone(orders: seq<Order>, payment: nat)
    ensures Stamp(orders, [], payment) == orders
  {
  }

  // ---------- paid and shown ----------

  ghost predicate DollarPriced(o: Order, env: Env) {
    && o.tokenId != "" && o.charge.amount > 0.0 && o.charge.usdAmount > 0.0 && o.charge.couponPrice.None?
  }

  function SumShown(orders: seq<Order>, ids: seq<nat>, env: Env): real
    requires Rows(ids, orders) && forall j | 0 <= j < |ids| :: Priced(orders[ids[j]], env)
    decreases |ids|
  {
    if ids == [] then 0.0
    else
      SumShown(orders, ids[..|ids| - 1], env) + Shown(orders[ids[|ids| - 1]], env)
  }

  /** A payment over dollar-priced orders is less than two base units per order off what their owner was shown. */
  lemma {:induction false} PaymentNearShown(orders: seq<Order>, ids: seq<nat>, env: Env)
    requires Rows(ids, orders)
    requires forall j | 0 <= j < |ids| :: Priced(orders[ids[j]], env) && DollarPriced(orders[ids[j]], env)
    ensures Abs(SumShares(orders, ids, env) - SumShown(orders, ids, env)) <= 2.0 * (|ids| as real)
    decreases |ids|
  {
    if ids != [] {
      var last := ids[|ids| - 1];
      PaymentNearShown(orders, ids[..|ids| - 1], env);
      SharesAgree(orders[last].charge, env.tokens[orders[last].tokenId], env.cfg);
      hide PayoutSplit, DisplayedShare;
    }
  }
}
