/** Which orders and groups a payout run reads and pays, and what a payment row says, in the columns themselves. */
module PayoutTerms {
  import opened Decimals
  import opened Fees
  import opened Tables
  import opened Wrappers
  import opened Payouts

  /** What the group's amount is worth in dollars, not rounded. */
  function Dollars(amount: real, token: Token): real {
    amount / Pow10(token.decimals) * token.price
  }

  /**
    A group is paid only with an amount and to an address of its owner, and on the main net only from the minimum on;
    with those it always is. The worth compared is rounded in the sixteenth digit, times the price.
   */
  lemma GroupsPaid(groups: Groups, env: Env, k: Key)
    requires k in groups && forall j | j in groups :: j.1 in env.tokens
    ensures var amount, token := groups[k].amount, env.tokens[k.1];
            var hasAddress := k.1 in env.recordKeys && (k.0, env.recordKeys[k.1]) in env.addresses;
            && (k in PayableGroups(groups, env) ==>
                  && amount > 0.0 && hasAddress
                  && (env.mainNet ==> Dollars(amount, token) >= env.paymentMinPrice - HALF * token.price)
                  && PayableGroups(groups, env)[k] == groups[k].(address := env.addresses[(k.0, env.recordKeys[k.1])]))
            && (amount > 0.0 && hasAddress
                && (env.mainNet ==> Dollars(amount, token) >= env.paymentMinPrice + HALF * token.price) ==>
                  k in PayableGroups(groups, env))
  {
    assert k in PayableGroups(groups, env) <==> Payable(groups[k], k, env);
    assert Payable(groups[k], k, env) ==>
        PayableGroups(groups, env)[k] == groups[k].(address := Address(k, env).value);
    PayableIs(groups[k], k, env);
    hide PayableGroups, Payable, Dollars;
  }

  lemma PayableIs(r: CsvRecord, k: Key, env: Env)
    requires k.1 in env.tokens
    ensures var amount, token := r.amount, env.tokens[k.1];
            && (Payable(r, k, env) ==>
                  && amount > 0.0 && Address(k, env).Some?
                  && (env.mainNet ==> Dollars(amount, token) >= env.paymentMinPrice - HALF * token.price))
            && (amount > 0.0 && Address(k, env).Some?
                && (env.mainNet ==> Dollars(amount, token) >= env.paymentMinPrice + HALF * token.price) ==>
                  Payable(r, k, env))
  {
    WorthNear(r.amount, env.tokens[k.1]);
    hide Div, Pow10, Dollars, Address;
  }

  lemma WorthNear(amount: real, token: Token)
    requires token.price > 0.0
    ensures var worth := Div(amount, Pow10(token.decimals)) * token.price;
            Dollars(amount, token) - HALF * token.price <= worth <= Dollars(amount, token) + HALF * token.price
  {
    var p := Pow10(token.decimals);
    DivWithin(amount, p);
    var q, exact := Div(amount, p), amount / p;
    assert Dollars(amount, token) == exact * token.price;
    hide Dollars, Div, Pow10;
    ScaleNear(q, exact, HALF, token.price);
  }

  /** The row of the payment of the j-th group walked: its owner and token, and the group's amount, fee and address. */
  lemma {:induction false} PaymentRow(l: Ledger, groups: Groups, keys: seq<Key>, j: nat)
    requires (forall k | k in keys :: k in groups) && j < |keys|
    ensures |PayAll(l, groups, keys).payments| == |l.payments| + |keys|
    ensures var r := groups[keys[j]];
            PayAll(l, groups, keys).payments[|l.payments| + j] == AutoPayment(keys[j], r.amount, r.fee, r.address)
    decreases |keys|
  {
    var init := keys[..|keys| - 1];
    hide Stamp;
    if j < |init| {
      PaymentRow(l, groups, init, j);
    } else {
      PaymentCount(l, groups, init);
    }
  }

  lemma {:induction false} PaymentCount(l: Ledger, groups: Groups, keys: seq<Key>)
    requires forall k | k in keys :: k in groups
    ensures |PayAll(l, groups, keys).payments| == |l.payments| + |keys|
    decreases |keys|
  {
    if keys != [] {
      hide Stamp;
      PaymentCount(l, groups, keys[..|keys| - 1]);
    }
  }

  predicate HasFee(o: Order, key: Key, env: Env) {
    (o.parentAccountId, o.tokenId) == key && SplitOf(o, env).fee.Some?
  }

  /** The group's fee is that of the last of its orders that has one, not the sum of their fees. */
  lemma {:induction false} LastFeeIs(orders: seq<Order>, list: seq<nat>, key: Key, env: Env, j: nat)
    requires Rows(list, orders) && j < |list| && HasFee(orders[list[j]], key, env)
    requires forall i | j < i < |list| :: !HasFee(orders[list[i]], key, env)
    ensures Group(orders, list, key, env).fee == SplitOf(orders[list[j]], env).fee.value
    decreases |list|
  {
    hide SplitOf;
    if j < |list| - 1 {
      var init := list[..|list| - 1];
      assert forall i | 0 <= i < |init| :: init[i] == list[i];
      LastFeeIs(orders, init, key, env, j);
    }
  }

  ghost predicate AllPriced(orders: seq<Order>, ids: seq<nat>, env: Env)
    requires Rows(ids, orders)
  {
    forall j | 0 <= j < |ids| :: Priced(orders[ids[j]], env)
  }

  /** The owner's paid, successful mints and renewals in a token, or those of them paid out, among the first n rows. */
  function BalanceIds(orders: seq<Order>, n: nat, accountId: string, onlyPaidOut: bool,
      tokenId: string): (ids: seq<nat>)
    requires n <= |orders|
    ensures Rows(ids, orders)
  {
    if n == 0 then []
    else
      var rest, o := BalanceIds(orders, n - 1, accountId, onlyPaidOut, tokenId), orders[n - 1];
      if o.parentAccountId == accountId && o.tokenId == tokenId && o.paid && o.status == Success
         && o.actionType in {Mint, Renew} && (onlyPaidOut ==> o.autoPaymentId != None)
      then rest + [n - 1] else rest
  }

  /** The balance in one token is the sum of what is shown for exactly those orders; without one it has no entry. */
  lemma {:induction false} BalanceIsSum(orders: seq<Order>, n: nat, accountId: string, onlyPaidOut: bool,
                                        tokenId: string, env: Env)
    requires n <= |orders| && forall i | 0 <= i < n && Listed(orders[i], accountId, onlyPaidOut) ::
               Priced(orders[i], env)
    ensures var ids := BalanceIds(orders, n, accountId, onlyPaidOut, tokenId);
            && AllPriced(orders, ids, env)
            && ShownTotal(orders, n, accountId, onlyPaidOut, tokenId, env)
               == if ids == [] then None else Some(SumShown(orders, ids, env))
    decreases n
  {
    hide Shown, Priced, Listed, BalanceIds, ShownTotal, AllPriced, SumShown;
    if n == 0 {
      NoBalance(orders, accountId, onlyPaidOut, tokenId, env);
    } else {
      BalanceIsSum(orders, n - 1, accountId, onlyPaidOut, tokenId, env);
      var before := BalanceIds(orders, n - 1, accountId, onlyPaidOut, tokenId);
      var listed := BalanceNext(orders, n, accountId, onlyPaidOut, tokenId, env);
      if listed {
        SumShownNext(orders, before, n - 1, env);
      }
    }
  }

  lemma NoBalance(orders: seq<Order>, accountId: string, onlyPaidOut: bool, tokenId: string, env: Env)
    ensures BalanceIds(orders, 0, accountId, onlyPaidOut, tokenId) == [] && AllPriced(orders, [], env)
    ensures ShownTotal(orders, 0, accountId, onlyPaidOut, tokenId, env) == None
  {
  }

  lemma BalanceNext(orders: seq<Order>, n: nat, accountId: string, onlyPaidOut: bool, tokenId: string, env: Env)
      returns (listed: bool)
    requires 0 < n <= |orders| && forall i | 0 <= i < n && Listed(orders[i], accountId, onlyPaidOut) ::
               Priced(orders[i], env)
    ensures var before := BalanceIds(orders, n - 1, accountId, onlyPaidOut, tokenId);
            BalanceIds(orders, n, accountId, onlyPaidOut, tokenId) == if listed then before + [n - 1] else before
    ensures listed ==> Priced(orders[n - 1], env)
    ensures var rest := ShownTotal(orders, n - 1, accountId, onlyPaidOut, tokenId, env);
            ShownTotal(orders, n, accountId, onlyPaidOut, tokenId, env)
            == if listed then Some((if rest.Some? then rest.value else 0.0) + Shown(orders[n - 1], env)) else rest
  {
    listed := Listed(orders[n - 1], accountId, onlyPaidOut) && orders[n - 1].tokenId == tokenId;
    hide Priced, Shown;
  }

  lemma SumShownNext(orders: seq<Order>, ids: seq<nat>, i: nat, env: Env)
    requires Rows(ids, orders) && i < |orders| && Priced(orders[i], env)
    requires AllPriced(orders, ids, env)
    ensures SumShown(orders, [], env) == 0.0 && AllPriced(orders, ids + [i], env)
    ensures SumShown(orders, ids + [i], env) == SumShown(orders, ids, env) + Shown(orders[i], env)
  {
    hide Shown, Priced;
    assert (ids + [i])[..|ids|] == ids;
  }
}
