/** Two ways a paid-out order loses its stamp: overlapping payout runs, and a replaced order saved with its old row. */
module LostStamps {
  import opened Decimals
  import opened Fees
  import opened Payouts
  import opened PayoutRuns
  import opened Tables
  import opened Wrappers

  const KEY: Key := ("parent", "token")
  const TOKEN := Token(0, 1.0)
  const CONFIG := FeeConfig(0.0, 0.5, 0.0)
  const ENV: Env :=
    EnvData(CONFIG, map["token" := TOKEN], false, 0.0, map["token" := "key"], map[("parent", "key") := "address"])

  /** An order of ten base units at one dollar, half of which are the owner's. */
  function Row(status: OrderStatus, stamp: Option<nat>): Order {
    Order("parent", "token", Charge(10.0, 0.0, 1.0, 1, None), Mint, true, status, 0, stamp)
  }

  const GROUP := CsvRecord(5.0, 5.0, [0], "address")
  const GROUPS: Groups := map[KEY := GROUP]
  const PAYMENT := AutoPayment(KEY, 5.0, 5.0, "address")

  lemma RowSplit(status: OrderStatus, stamp: Option<nat>)
    ensures SplitOf(Row(status, stamp), ENV) == Split(5.0, Some(5.0))
  {
    var v := Row(status, stamp).charge;
    assert CouponMinPrice(v, CONFIG) < 1.0 by {
      DivRoundNear(0.0, 0.5, 16);
      hide DivRound;
    }
    hide CouponMinPrice;
  }

  lemma OneRead()
    ensures ReadList([Row(Success, None)], 1, "") == [0]
  {
    var list := ReadList([Row(Success, None)], 1, "");
    assert 0 in list && forall j | 0 <= j < |list| :: list[j] in list && list[j] == 0;
  }

  lemma OneRecord()
    ensures var orders := [Row(Success, None)];
            Keys(orders, [0]) == {KEY} && Group(orders, [0], KEY, ENV) == CsvRecord(5.0, 5.0, [0], "")
  {
    var orders := [Row(Success, None)];
    RowSplit(Success, None);
    hide SplitOf, Sound;
    assert [0][..0] == [];
    assert IdsOf(orders, [], KEY, ENV) == [] && IdsOf(orders, [0], KEY, ENV) == [0];
    assert SumShares(orders, [], ENV) == 0.0 && SumShares(orders, [0], ENV) == 5.0;
  }

  lemma OnePayable(groups: Groups)
    requires groups == map[KEY := CsvRecord(5.0, 5.0, [0], "")]
    ensures PayableGroups(groups, ENV) == GROUPS
  {
    hide Div, Pow10;
  }

  /** A run that reads the one order finds one group to pay. */
  lemma OneGroup()
    ensures RunSucceeds(Ledger([Row(Success, None)], []), "", 1, ENV)
    ensures RunGroups(Ledger([Row(Success, None)], []), "", 1, ENV) == GROUPS
  {
    var orders := [Row(Success, None)];
    OneRead();
    OneRecord();
    hide Group, Keys, ReadList, SplitOf, PayableGroups;
    assert AllGroups(orders, [0], ENV) == map[KEY := CsvRecord(5.0, 5.0, [0], "")];
    OnePayable(AllGroups(orders, [0], ENV));
  }

  /** Paying the group stamps the order, whatever stamp it has. */
  lemma Pays(orders: seq<Order>, payments: seq<AutoPayment>, stamp: Option<nat>)
    requires orders == [Row(Success, stamp)]
    ensures PayAll(Ledger(orders, payments), GROUPS, [KEY])
         == Ledger([Row(Success, Some(|payments|))], payments + [PAYMENT])
    ensures Enumerates([KEY], GROUPS.Keys)
  {
    assert [KEY][..0] == [];
    assert Stamp(orders, [0], |payments|) == [Row(Success, Some(|payments|))];
  }

  ghost predicate Goes(w: World, step: Step, v: World) {
    Enabled(w, step) && Apply(w, step) == v
  }

  lemma Onward(w: World, step: Step, v: World, rest: seq<Step>)
    requires Goes(w, step, v) && ValidRun(v, rest)
    ensures ValidRun(w, [step] + rest) && Run(w, [step] + rest) == Run(v, rest)
  {
    assert ([step] + rest)[0] == step && ([step] + rest)[1..] == rest;
    hide Enabled, Apply;
  }

  lemma Arrives(status: OrderStatus)
    ensures var w := START.(ledger := Ledger([Row(status, None)], []));
            Goes(START, OrdersProgress([Row(status, None)]), w)
  {
  }

  lemma {:induction false} SelectNone(orders: seq<Order>, n: nat, f: Order -> bool)
    requires n <= |orders| && forall i | 0 <= i < n :: !f(orders[i])
    ensures Select(orders, n, f) == []
  {
    if n > 0 {
      SelectNone(orders, n - 1, f);
    }
  }

  lemma Unaccounted(l: Ledger, p: nat)
    requires p < |l.payments| && forall i | 0 <= i < |l.orders| :: l.orders[i].autoPaymentId != Some(p)
    ensures forall envs :: !Accounted(l, envs)
  {
    SelectNone(l.orders, |l.orders|, (o: Order) => o.autoPaymentId == Some(p));
    forall envs ensures !Accounted(l, envs) {
      if |envs| == |l.payments| {
        assert !PaymentAccounted(l, p, envs[p]);
      }
    }
  }

  /** The ledger with the one order, after the given payments. */
  ghost function At(status: OrderStatus, stamp: Option<nat>, payments: seq<AutoPayment>, read: bool,
      saves: set<(nat, Order)>): World {
    World(Ledger([Row(status, stamp)], payments), if read then {(GROUPS, ENV)} else {},
          if saves == {} then {} else {0}, saves)
  }

  lemma ReadsOnce(saves: set<(nat, Order)>)
    ensures Goes(At(Success, None, [], false, saves), RunRead("", 1, ENV), At(Success, None, [], true, saves))
  {
    OneGroup();
    hide RunGroups, RunSucceeds;
    assert {} + {(GROUPS, ENV)} == {(GROUPS, ENV)};
  }

  lemma PaysOnce(stamp: Option<nat>, payments: seq<AutoPayment>, saves: set<(nat, Order)>)
    ensures Goes(At(Success, stamp, payments, true, saves), RunPay(GROUPS, ENV, [KEY]),
                 At(Success, Some(|payments|), payments + [PAYMENT], true, saves))
  {
    Pays([Row(Success, stamp)], payments, stamp);
    hide PayAll, Enumerates;
  }

  /** Two requests read the same order and both pay it: the owner gets two payments, and the first has no order left. */
  lemma OverlappingRunsPayTwice() returns (steps: seq<Step>)
    ensures ValidRun(START, steps)
    ensures var l := Run(START, steps).ledger;
            l.payments == [PAYMENT, PAYMENT] && |l.orders| == 1 && l.orders[0].autoPaymentId == Some(1)
            && forall envs :: !Accounted(l, envs)
  {
    var end := At(Success, Some(1), [PAYMENT, PAYMENT], true, {});
    Unaccounted(end.ledger, 0);
    Arrives(Success);
    assert [] + [PAYMENT] == [PAYMENT] && [PAYMENT] + [PAYMENT] == [PAYMENT, PAYMENT];
    assert ValidRun(end, []) && Run(end, []) == end;
    assert At(Success, None, [], false, {}) == START.(ledger := Ledger([Row(Success, None)], []));
    assert end.ledger == Ledger([Row(Success, Some(1))], [PAYMENT, PAYMENT]);
    hide *;
    ReadsOnce({}); PaysOnce(None, [], {}); PaysOnce(Some(0), [PAYMENT], {});
    var pay := RunPay(GROUPS, ENV, [KEY]);
    steps := [];
    Onward(At(Success, Some(0), [PAYMENT], true, {}), pay, end, steps);
    steps := [pay] + steps;
    Onward(At(Success, None, [], true, {}), pay, At(Success, Some(0), [PAYMENT], true, {}), steps);
    steps := [pay] + steps;
    Onward(At(Success, None, [], false, {}), RunRead("", 1, ENV), At(Success, None, [], true, {}), steps);
    steps := [RunRead("", 1, ENV)] + steps;
    Onward(START, OrdersProgress([Row(Success, None)]), At(Success, None, [], false, {}), steps);
    steps := [OrdersProgress([Row(Success, None)])] + steps;
  }

  lemma Replacing()
    ensures var row := Row(Default, None);
            var order := START.(ledger := Ledger([row], []));
            var passed := order.(passed := {0});
            && Goes(order, ReplaceCheck(0), passed)
            && Goes(passed, ReplaceRead(0), At(Default, None, [], false, {(0, row)}))
            && Goes(At(Default, None, [], false, {(0, row)}), OrdersProgress([Row(Success, None)]),
                    At(Success, None, [], false, {(0, row)}))
            && Goes(At(Success, Some(0), [PAYMENT], true, {(0, row)}), ReplaceSave(0, row),
                    At(Closed, None, [PAYMENT], true, {(0, row)}))
  {
    assert {} + {0} == {0} && {} + {(0, Row(Default, None))} == {(0, Row(Default, None))};
  }

  /**
    A request to replace an order reads its row before it succeeds; a run pays it out; then the row is written back.
    The payment is left without an order.
   */
  lemma SaveErasesStamp() returns (steps: seq<Step>)
    ensures ValidRun(START, steps)
    ensures var l := Run(START, steps).ledger;
            l.payments == [PAYMENT] && |l.orders| == 1 && l.orders[0].autoPaymentId == None
            && forall envs :: !Accounted(l, envs)
  {
    var row := Row(Default, None);
    var saves := {(0, row)};
    var end := At(Closed, None, [PAYMENT], true, saves);
    var order := START.(ledger := Ledger([row], []));
    Unaccounted(end.ledger, 0);
    Arrives(Default);
    assert [] + [PAYMENT] == [PAYMENT];
    assert ValidRun(end, []) && Run(end, []) == end && end.ledger == Ledger([Row(Closed, None)], [PAYMENT]);
    hide *;
    Replacing(); ReadsOnce(saves); PaysOnce(None, [], saves);
    steps := [];
    Onward(At(Success, Some(0), [PAYMENT], true, saves), ReplaceSave(0, row), end, steps);
    steps := [ReplaceSave(0, row)] + steps;
    Onward(At(Success, None, [], true, saves), RunPay(GROUPS, ENV, [KEY]), At(Success, Some(0), [PAYMENT], true, saves),
      steps);
    steps := [RunPay(GROUPS, ENV, [KEY])] + steps;
    Onward(At(Success, None, [], false, saves), RunRead("", 1, ENV), At(Success, None, [], true, saves), steps);
    steps := [RunRead("", 1, ENV)] + steps;
    Onward(At(Default, None, [], false, saves), OrdersProgress([Row(Success, None)]),
      At(Success, None, [], false, saves), steps);
    steps := [OrdersProgress([Row(Success, None)])] + steps;
    Onward(order.(passed := {0}), ReplaceRead(0), At(Default, None, [], false, saves), steps);
    steps := [ReplaceRead(0)] + steps;
    Onward(order, ReplaceCheck(0), order.(passed := {0}), steps);
    steps := [ReplaceCheck(0)] + steps;
    Onward(START, OrdersProgress([row]), order, steps);
    steps := [OrdersProgress([row])] + steps;
  }
}
