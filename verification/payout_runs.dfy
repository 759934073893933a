/**
  Payout runs over time. A run reads the orders first and pays in a later transaction, any number of requests can be
  between the two, and a coupon order that replaces another writes the row it read earlier back whole.
 */
module PayoutRuns {
  import opened Decimals
  import opened Fees
  import opened Payouts
  import opened Tables
  import opened Wrappers

  // ---------- payments and stamps ----------

  function StampedWith(orders: seq<Order>, payment: nat): seq<nat> {
    Select(orders, |orders|, (o: Order) => o.autoPaymentId == Some(payment))
  }

  /** Payment p is the sum of the shares, under p's environment, of exactly the orders stamped with p. */
  ghost predicate PaymentAccounted(l: Ledger, p: nat, env: Env)
    requires p < |l.payments|
  {
    var ids := StampedWith(l.orders, p);
    && ids != [] && l.payments[p].amount == SumShares(l.orders, ids, env)
    && forall i | i in ids :: Counts(l.orders[i], l.payments[p].key, env)
  }

  /** `envs` remembers, for each payment, what the run that made it read. */
  ghost predicate Accounted(l: Ledger, envs: seq<Env>) {
    && |envs| == |l.payments|
    && (forall i | 0 <= i < |l.orders| && l.orders[i].autoPaymentId.Some? ::
       l.orders[i].autoPaymentId.value < |l.payments|)
    && (forall p | 0 <= p < |l.payments| :: PaymentAccounted(l, p, envs[p]))
  }

  /** What else happens to the table: orders are added unstamped, and change only their progress. */
  ghost predicate Progress(before: seq<Order>, after: seq<Order>) {
    && |before| <= |after|
    && (forall i | 0 <= i < |before| ::
          after[i] == before[i].(paid := after[i].paid, status := after[i].status, timestamp := after[i].timestamp))
    && (forall i | |before| <= i < |after| :: after[i].autoPaymentId.None?)
  }

  /** One entry for each payment of a run. */
  function Times(env: Env, n: nat): seq<Env> {
    seq(n, i => env)
  }

  /** The orders of both tables agree in what a share depends on. */
  ghost predicate SameCharges(a: seq<Order>, b: seq<Order>) {
    && |a| <= |b|
    && forall i | 0 <= i < |a| :: KeyOf(a[i]) == KeyOf(b[i]) && a[i].charge == b[i].charge
  }

  lemma {:induction false} SumSharesFrame(a: seq<Order>, b: seq<Order>, ids: seq<nat>, env: Env)
    requires SameCharges(a, b) && Rows(ids, a)
    ensures Rows(ids, b) && SumShares(a, ids, env) == SumShares(b, ids, env)
    decreases |ids|
  {
    if ids != [] {
      SumSharesFrame(a, b, ids[..|ids| - 1], env);
      hide PayoutSplit;
      var last := ids[|ids| - 1];
      assert SplitOf(a[last], env) == SplitOf(b[last], env);
    }
  }

  ghost predicate Increasing(s: seq<nat>) {
    forall i, j | 0 <= i < j < |s| :: s[i] < s[j]
  }

  lemma {:induction false} IncreasingUnique(a: seq<nat>, b: seq<nat>)
    requires Increasing(a) && Increasing(b) && forall i :: i in a <==> i in b
    ensures a == b
    decreases |a|
  {
    var least := if a != [] then a[0] else if b != [] then b[0] else 0;
    assert least in a <==> least in b;
    if a != [] && b != [] {
      var x, y := a[|a| - 1], b[|b| - 1];
      assert x in b && y in a && x == y;
      var a0, b0 := a[..|a| - 1], b[..|b| - 1];
      assert forall i :: i in a <==> i in a0 || i == x;
      assert forall i :: i in b <==> i in b0 || i == x;
      assert x !in a0 && x !in b0;
      IncreasingUnique(a0, b0);
    }
  }

  lemma {:induction false} IdsOfMember(orders: seq<Order>, list: seq<nat>, key: Key, env: Env, i: nat)
    requires Rows(list, orders)
    ensures i in IdsOf(orders, list, key, env) <==> i in list && Counts(orders[i], key, env)
    decreases |list|
  {
    if list != [] {
      hide Counts;
      var init, last := list[..|list| - 1], list[|list| - 1];
      IdsOfMember(orders, init, key, env, i);
      assert list == init + [last];
    }
  }

  lemma {:induction false} IdsOfProperties(orders: seq<Order>, list: seq<nat>, key: Key, env: Env)
    requires Rows(list, orders) && Increasing(list)
    ensures var ids := IdsOf(orders, list, key, env);
            Increasing(ids) && forall i :: i in ids <==> i in list && Counts(orders[i], key, env)
    decreases |list|
  {
    hide Counts;
    if list != [] {
      var init, last := list[..|list| - 1], list[|list| - 1];
      IdsOfProperties(orders, init, key, env);
      var rest := IdsOf(orders, init, key, env);
      forall k | 0 <= k < |rest| ensures rest[k] < last {
        assert rest[k] in init;
      }
    }
    forall i: nat ensures i in IdsOf(orders, list, key, env) <==> i in list && Counts(orders[i], key, env) {
      IdsOfMember(orders, list, key, env, i);
    }
  }

  /** A group's record as a run read it. */
  ghost predicate ReadAs(l: Ledger, key: Key, r: CsvRecord, env: Env) {
    && Rows(r.ids, l.orders) && Increasing(r.ids) && r.ids != []
    && r.amount == SumShares(l.orders, r.ids, env)
    && (forall i | i in r.ids :: i < |l.orders| && Counts(l.orders[i], key, env))
  }

  /** And none of its orders has been paid out since. */
  ghost predicate Ready(l: Ledger, key: Key, r: CsvRecord, env: Env) {
    ReadAs(l, key, r, env) && forall i | i in r.ids :: l.orders[i].autoPaymentId.None?
  }

  lemma CountsFrame(a: Order, b: Order, key: Key, env: Env)
    requires KeyOf(a) == KeyOf(b) && a.charge == b.charge
    ensures Counts(a, key, env) == Counts(b, key, env)
  {
  }

  /** Payments whose orders and charges did not change stay accounted. */
  lemma AccountedFrame(l: Ledger, m: Ledger, p: nat, env: Env)
    requires p < |l.payments| && l.payments <= m.payments && SameCharges(l.orders, m.orders)
    requires forall i | 0 <= i < |m.orders| :: m.orders[i].autoPaymentId == Some(p) <==>
               i < |l.orders| && l.orders[i].autoPaymentId == Some(p)
    requires PaymentAccounted(l, p, env)
    ensures PaymentAccounted(m, p, env)
  {
    hide Counts, SumShares;
    var a, b := StampedWith(l.orders, p), StampedWith(m.orders, p);
    IncreasingUnique(a, b);
    SumSharesFrame(l.orders, m.orders, a, env);
    forall i | i in b ensures Counts(m.orders[i], m.payments[p].key, env) {
      CountsFrame(l.orders[i], m.orders[i], m.payments[p].key, env);
    }
  }

  lemma PayOneKeepsAccounted(l: Ledger, envs: seq<Env>, key: Key, r: CsvRecord, env: Env)
    requires Accounted(l, envs) && Ready(l, key, r, env)
    ensures Accounted(PayOne(l, key, r), envs + [env])
    ensures StampedWith(PayOne(l, key, r).orders, |l.payments|) == r.ids
  {
    hide Counts, SumShares, PaymentAccounted;
    var m, n := PayOne(l, key, r), |l.payments|;
    forall p | 0 <= p < n ensures PaymentAccounted(m, p, (envs + [env])[p]) {
      assert (envs + [env])[p] == envs[p];
      AccountedFrame(l, m, p, envs[p]);
    }
    NewPaymentAccounted(l, key, r, env);
  }

  lemma NewPaymentAccounted(l: Ledger, key: Key, r: CsvRecord, env: Env)
    requires Ready(l, key, r, env)
    requires forall i | 0 <= i < |l.orders| :: l.orders[i].autoPaymentId != Some(|l.payments|)
    ensures StampedWith(PayOne(l, key, r).orders, |l.payments|) == r.ids
    ensures PaymentAccounted(PayOne(l, key, r), |l.payments|, env)
  {
    hide Counts, SumShares;
    var m := PayOne(l, key, r);
    var ids := StampedWith(m.orders, |l.payments|);
    forall i ensures i in ids <==> i in r.ids {
    }
    IncreasingUnique(ids, r.ids);
    SumSharesFrame(l.orders, m.orders, r.ids, env);
    forall i | i in ids ensures Counts(m.orders[i], key, env) {
      CountsFrame(l.orders[i], m.orders[i], key, env);
    }
  }

  lemma ReadyFrame(l: Ledger, m: Ledger, key: Key, r: CsvRecord, env: Env)
    requires Ready(l, key, r, env) && SameCharges(l.orders, m.orders)
    requires forall i | i in r.ids :: i < |m.orders| && m.orders[i].autoPaymentId == l.orders[i].autoPaymentId
    ensures Ready(m, key, r, env)
  {
    hide Counts, SumShares;
    SumSharesFrame(l.orders, m.orders, r.ids, env);
    forall i | i in r.ids ensures Counts(m.orders[i], key, env) {
      CountsFrame(l.orders[i], m.orders[i], key, env);
    }
  }

  /** Which payment stamps row i when the groups are paid in the order of `keys`. */
  ghost predicate StampedBy(groups: Groups, keys: seq<Key>, i: nat)
    requires forall k | k in keys :: k in groups
  {
    exists k :: k in keys && i in groups[k].ids
  }

  lemma {:induction false} PayAllEffect(l: Ledger, groups: Groups, keys: seq<Key>)
    requires forall k | k in keys :: k in groups
    ensures var m := PayAll(l, groups, keys);
            && SameCharges(l.orders, m.orders) && |m.orders| == |l.orders|
            && |m.payments| == |l.payments| + |keys|
            && (forall i | 0 <= i < |l.orders| :: !StampedBy(groups, keys, i) ==> m.orders[i] == l.orders[i])
            && (forall i | 0 <= i < |l.orders| :: StampedBy(groups, keys, i) ==>
                  m.orders[i].autoPaymentId.Some? && m.orders[i].autoPaymentId.value >= |l.payments|)
    decreases |keys|
  {
    if keys != [] {
      var init, last := keys[..|keys| - 1], keys[|keys| - 1];
      PayAllEffect(l, groups, init);
      assert forall k :: k in keys <==> k in init || k == last;
    }
  }

  lemma OneMore(envs: seq<Env>, env: Env, n: nat)
    ensures envs + Times(env, n) + [env] == envs + Times(env, n + 1) && envs + Times(env, 0) == envs
  {
  }

  lemma {:induction false} PayAllKeepsAccounted(l: Ledger, envs: seq<Env>, groups: Groups, keys: seq<Key>, env: Env)
    requires Accounted(l, envs)
    requires forall k | k in keys :: k in groups && Ready(l, k, groups[k], env)
    requires forall i, j | 0 <= i < j < |keys| :: keys[i] != keys[j]
    ensures Accounted(PayAll(l, groups, keys), envs + Times(env, |keys|))
    decreases |keys|
  {
    hide Accounted, Ready, PayOne, Sound, Times;
    OneMore(envs, env, if keys == [] then 0 else |keys| - 1);
    if keys != [] {
      var init, last := keys[..|keys| - 1], keys[|keys| - 1];
      PayAllKeepsAccounted(l, envs, groups, init, env);
      LaterGroupsReady(l, groups, init, last, env);
      PayOneKeepsAccounted(PayAll(l, groups, init), envs + Times(env, |init|), last, groups[last], env);
    }
  }

  lemma LaterGroupsReady(l: Ledger, groups: Groups, keys: seq<Key>, next: Key, env: Env)
    requires next !in keys && next in groups && Ready(l, next, groups[next], env)
    requires forall k | k in keys :: k in groups && Ready(l, k, groups[k], env)
    ensures Ready(PayAll(l, groups, keys), next, groups[next], env)
  {
    PayAllEffect(l, groups, keys);
    hide SplitOf, SumShares;
    var m := PayAll(l, groups, keys);
    assert forall k, i | k in keys && i in groups[k].ids :: KeyOf(l.orders[i]) == k;
    forall i | i in groups[next].ids ensures i < |m.orders| && m.orders[i].autoPaymentId == l.orders[i].autoPaymentId {
      assert KeyOf(l.orders[i]) == next;
      assert !StampedBy(groups, keys, i);
    }
    ReadyFrame(l, m, next, groups[next], env);
  }

  lemma {:induction false} PaymentsKept(l: Ledger, groups: Groups, keys: seq<Key>)
    requires forall k | k in keys :: k in groups
    ensures l.payments <= PayAll(l, groups, keys).payments
    decreases |keys|
  {
    if keys != [] {
      PaymentsKept(l, groups, keys[..|keys| - 1]);
    }
  }

  /** The rows a run reads. */
  function ReadList(orders: seq<Order>, end: int, accountId: string): (list: seq<nat>)
    ensures Rows(list, orders) && Increasing(list)
    ensures forall i: nat :: i in list <==> i < |orders| && Eligible(orders[i], end, accountId)
  {
    Select(orders, |orders|, o => Eligible(o, end, accountId))
  }

  function RunGroups(l: Ledger, accountId: string, end: int, env: Env): Groups
    requires RunSucceeds(l, accountId, end, env)
  {
    var list := ReadList(l.orders, end, accountId);
    PayableGroups(AllGroups(l.orders, list, env), env)
  }

  ghost predicate RunSucceeds(l: Ledger, accountId: string, end: int, env: Env) {
    GroupsHaveTokens(l.orders, ReadList(l.orders, end, accountId), env)
  }

  lemma RunGroupsReady(l: Ledger, accountId: string, end: int, env: Env, key: Key)
    requires RunSucceeds(l, accountId, end, env) && key in RunGroups(l, accountId, end, env)
    ensures Ready(l, key, RunGroups(l, accountId, end, env)[key], env)
    ensures forall i | i in RunGroups(l, accountId, end, env)[key].ids :: Eligible(l.orders[i], end, accountId)
  {
    hide Counts;
    var list := ReadList(l.orders, end, accountId);
    IdsOfProperties(l.orders, list, key, env);
  }

  // ---------- a stamp lost or gained ----------

  lemma {:induction false} FewerSumLess(orders: seq<Order>, a: seq<nat>, b: seq<nat>, env: Env)
    requires Rows(a, orders) && Rows(b, orders) && Increasing(a) && Increasing(b) && forall i | i in b :: i in a
    requires forall i | i in a :: i < |orders| && SplitOf(orders[i], env).share > 0.0
    ensures SumShares(orders, b, env) <= SumShares(orders, a, env)
    ensures (exists i :: i in a && i !in b) ==> SumShares(orders, b, env) < SumShares(orders, a, env)
    decreases |a|
  {
    hide SplitOf;
    assert b == [] || b[0] in b;
    if a != [] {
      var a0, x := a[..|a| - 1], a[|a| - 1];
      assert x in a && forall i :: i in a <==> i in a0 || i == x;
      if b != [] && b[|b| - 1] == x {
        var b0 := b[..|b| - 1];
        assert forall i :: i in b <==> i in b0 || i == x;
        assert forall i | i in b0 :: i != x;
        FewerSumLess(orders, a0, b0, env);
      } else {
        forall i | i in b ensures i in a0 {
          var j :| 0 <= j < |b| && b[j] == i;
          assert i <= b[|b| - 1] && b[|b| - 1] in b;
        }
        FewerSumLess(orders, a0, b, env);
      }
    }
  }

  /** A payment that loses one of its orders and gains none is not accounted any more. */
  lemma LostStamp(l: Ledger, m: Ledger, p: nat, i: nat, env: Env)
    requires p < |l.payments| && p < |m.payments| && m.payments[p] == l.payments[p] && PaymentAccounted(l, p, env)
    requires SameCharges(l.orders, m.orders) && |m.orders| == |l.orders| && i < |l.orders|
    requires forall j | 0 <= j < |m.orders| && m.orders[j].autoPaymentId == Some(p) ::
             l.orders[j].autoPaymentId == Some(p)
    requires l.orders[i].autoPaymentId == Some(p) && m.orders[i].autoPaymentId != Some(p)
    ensures !PaymentAccounted(m, p, env)
  {
    hide SplitOf, SumShares;
    var a, b := StampedWith(l.orders, p), StampedWith(m.orders, p);
    assert i in a && i !in b;
    forall j | j in b ensures j in a {}
    FewerSumLess(l.orders, a, b, env);
    SumSharesFrame(l.orders, m.orders, b, env);
  }

  // ---------- the pay step ----------

  /** No order of the groups has been paid out since the run read it. */
  ghost predicate Unstamped(l: Ledger, groups: Groups, keys: seq<Key>)
    requires forall k | k in keys :: k in groups
  {
    forall k, i | k in keys && i in groups[k].ids :: i < |l.orders| && l.orders[i].autoPaymentId.None?
  }

  /** Stamping an order again takes it from the payment it was stamped with. */
  lemma StampedAgain(l: Ledger, p: nat, groups: Groups, keys: seq<Key>, i: nat, env: Env)
    requires p < |l.payments| && PaymentAccounted(l, p, env) && i < |l.orders| && l.orders[i].autoPaymentId == Some(p)
    requires (forall k | k in keys :: k in groups) && StampedBy(groups, keys, i)
    ensures p < |PayAll(l, groups, keys).payments| && !PaymentAccounted(PayAll(l, groups, keys), p, env)
  {
    hide Counts, SumShares, PaymentAccounted, PayAll;
    PayAllEffect(l, groups, keys);
    PaymentsKept(l, groups, keys);
    LostStamp(l, PayAll(l, groups, keys), p, i, env);
  }

  /** Paying groups read earlier keeps payments accounted exactly when none of their orders has a stamp. */
  lemma PayKeepsAccountedIff(l: Ledger, envs: seq<Env>, groups: Groups, keys: seq<Key>, env: Env)
    requires Accounted(l, envs)
    requires forall k | k in keys :: k in groups && ReadAs(l, k, groups[k], env)
    requires forall i, j | 0 <= i < j < |keys| :: keys[i] != keys[j]
    ensures Accounted(PayAll(l, groups, keys), envs + Times(env, |keys|)) <==> Unstamped(l, groups, keys)
  {
    if Unstamped(l, groups, keys) {
      hide Accounted, SumShares, Counts, Increasing;
      PayAllKeepsAccounted(l, envs, groups, keys, env);
    } else {
      hide Counts, SumShares, PaymentAccounted, PayAll, Increasing, Times;
      var k, i :| k in keys && i in groups[k].ids && !(i < |l.orders| && l.orders[i].autoPaymentId.None?);
      assert ReadAs(l, k, groups[k], env);
      var p := l.orders[i].autoPaymentId.value;
      StampedAgain(l, p, groups, keys, i, envs[p]);
      assert (envs + Times(env, |keys|))[p] == envs[p];
    }
  }

  // ---------- the save ----------

  function SaveRow(l: Ledger, i: nat, row: Order): Ledger
    requires i < |l.orders|
  {
    l.(orders := l.orders[i := row.(status := Closed)])
  }

  lemma SaveTakesStamp(l: Ledger, i: nat, row: Order, p: nat, env: Env)
    requires i < |l.orders| && KeyOf(row) == KeyOf(l.orders[i]) && row.charge == l.orders[i].charge
    requires l.orders[i].autoPaymentId == Some(p) != row.autoPaymentId
    requires p < |l.payments| && PaymentAccounted(l, p, env)
    ensures !PaymentAccounted(SaveRow(l, i, row), p, env)
  {
    hide PaymentAccounted;
    LostStamp(l, SaveRow(l, i, row), p, i, env);
  }

  lemma SaveGivesStamp(l: Ledger, i: nat, row: Order, q: nat, env: Env)
    requires i < |l.orders| && KeyOf(row) == KeyOf(l.orders[i]) && row.charge == l.orders[i].charge
    requires row.autoPaymentId == Some(q) != l.orders[i].autoPaymentId
    requires q < |l.payments| && PaymentAccounted(l, q, env)
    ensures !PaymentAccounted(SaveRow(l, i, row), q, env)
  {
    hide PaymentAccounted;
    if PaymentAccounted(SaveRow(l, i, row), q, env) {
      LostStamp(SaveRow(l, i, row), l, q, i, env);
    }
  }

  lemma SaveBreaks(l: Ledger, envs: seq<Env>, i: nat, row: Order)
    requires Accounted(l, envs) && i < |l.orders| && KeyOf(row) == KeyOf(l.orders[i])
             && row.charge == l.orders[i].charge
    requires row.autoPaymentId != l.orders[i].autoPaymentId
    ensures !Accounted(SaveRow(l, i, row), envs)
  {
    var m, was, becomes := SaveRow(l, i, row), l.orders[i].autoPaymentId, row.autoPaymentId;
    assert m.orders[i].autoPaymentId == becomes;
    hide PaymentAccounted;
    if was.Some? {
      SaveTakesStamp(l, i, row, was.value, envs[was.value]);
    } else if becomes.value < |l.payments| {
      SaveGivesStamp(l, i, row, becomes.value, envs[becomes.value]);
    }
  }

  /** Writing back a row read earlier keeps payments accounted exactly when the row has the stamp the order has now. */
  lemma SaveKeepsAccountedIff(l: Ledger, envs: seq<Env>, i: nat, row: Order)
    requires Accounted(l, envs) && i < |l.orders| && KeyOf(row) == KeyOf(l.orders[i])
             && row.charge == l.orders[i].charge
    ensures Accounted(SaveRow(l, i, row), envs) <==> row.autoPaymentId == l.orders[i].autoPaymentId
  {
    var m := SaveRow(l, i, row);
    if row.autoPaymentId != l.orders[i].autoPaymentId {
      hide Accounted;
      SaveBreaks(l, envs, i, row);
    } else {
      hide PaymentAccounted;
      forall p | 0 <= p < |l.payments| ensures PaymentAccounted(m, p, envs[p]) {
        AccountedFrame(l, m, p, envs[p]);
      }
    }
  }

  // ---------- the protocol ----------

  /**
    `found`: what runs have read and are to pay; `passed`: orders for which a request to replace them passed its
    check; `saves`: the rows such requests read. Any number of requests can be at any of these points.
   */
  datatype World = World(ledger: Ledger, found: set<(Groups, Env)>, passed: set<nat>, saves: set<(nat, Order)>)

  datatype Step =
    | RunRead(accountId: string, end: int, env: Env)
    | RunPay(groups: Groups, env: Env, keys: seq<Key>)
    | OrdersProgress(orders: seq<Order>)
    | ReplaceCheck(i: nat)
    | ReplaceRead(i: nat)
    | ReplaceSave(i: nat, row: Order)

  const START := World(Ledger([], []), {}, {}, {})

  ghost predicate Enabled(w: World, step: Step) {
    match step
    case RunRead(accountId, end, env) => RunSucceeds(w.ledger, accountId, end, env)
    case RunPay(groups, env, keys) => (groups, env) in w.found && Enumerates(keys, groups.Keys)
    case OrdersProgress(orders) => Progress(w.ledger.orders, orders)
    case ReplaceCheck(i) => i < |w.ledger.orders| && w.ledger.orders[i].status == Default
    case ReplaceRead(i) => i in w.passed && i < |w.ledger.orders|
    case ReplaceSave(i, row) => (i, row) in w.saves && i < |w.ledger.orders|
  }

  ghost function Apply(w: World, step: Step): World
    requires Enabled(w, step)
  {
    match step
    case RunRead(accountId, end, env) => w.(found := w.found + {(RunGroups(w.ledger, accountId, end, env), env)})
    case RunPay(groups, env, keys) => w.(ledger := PayAll(w.ledger, groups, keys))
    case OrdersProgress(orders) => w.(ledger := w.ledger.(orders := orders))
    case ReplaceCheck(i) => w.(passed := w.passed + {i})
    case ReplaceRead(i) => w.(saves := w.saves + {(i, w.ledger.orders[i])})
    case ReplaceSave(i, row) => w.(ledger := SaveRow(w.ledger, i, row))
  }

  function Envs(step: Step): seq<Env> {
    if step.RunPay? then Times(step.env, |step.keys|) else []
  }

  ghost predicate ValidRun(w: World, steps: seq<Step>)
    decreases |steps|
  {
    steps == [] || (Enabled(w, steps[0]) && ValidRun(Apply(w, steps[0]), steps[1..]))
  }

  ghost function Run(w: World, steps: seq<Step>): World
    requires ValidRun(w, steps)
    decreases |steps|
  {
    if steps == [] then w else Run(Apply(w, steps[0]), steps[1..])
  }

  function RunEnvs(envs: seq<Env>, steps: seq<Step>): seq<Env>
    decreases |steps|
  {
    if steps == [] then envs else RunEnvs(envs + Envs(steps[0]), steps[1..])
  }

  /** What was read is still true of the orders, but for their stamps. */
  ghost predicate Kept(w: World) {
    && (forall r, k | r in w.found && k in r.0 :: ReadAs(w.ledger, k, r.0[k], r.1))
    && (forall r | r in w.saves ::
          r.0 < |w.ledger.orders| && KeyOf(r.1) == KeyOf(w.ledger.orders[r.0])
            && r.1.charge == w.ledger.orders[r.0].charge)
  }

  lemma ReadAsFrame(l: Ledger, m: Ledger, key: Key, r: CsvRecord, env: Env)
    requires ReadAs(l, key, r, env) && SameCharges(l.orders, m.orders)
    ensures ReadAs(m, key, r, env)
  {
    hide Counts, SumShares;
    SumSharesFrame(l.orders, m.orders, r.ids, env);
    forall i | i in r.ids ensures Counts(m.orders[i], key, env) {
      CountsFrame(l.orders[i], m.orders[i], key, env);
    }
  }

  lemma StepKeepsCharges(w: World, step: Step)
    requires Kept(w) && Enabled(w, step)
    ensures SameCharges(w.ledger.orders, Apply(w, step).ledger.orders)
  {
    if step.RunPay? {
      PayAllEffect(w.ledger, step.groups, step.keys);
    } else if step.ReplaceSave? {
      assert (step.i, step.row).0 == step.i && (step.i, step.row).1 == step.row;
    }
  }

  lemma StepKeepsKept(w: World, step: Step)
    requires Kept(w) && Enabled(w, step)
    ensures Kept(Apply(w, step))
  {
    var v := Apply(w, step);
    StepKeepsCharges(w, step);
    hide ReadAs, RunGroups;
    forall r, k | r in v.found && k in r.0 ensures ReadAs(v.ledger, k, r.0[k], r.1) {
      if r in w.found {
        ReadAsFrame(w.ledger, v.ledger, k, r.0[k], r.1);
      } else {
        RunGroupsReady(w.ledger, step.accountId, step.end, step.env, k);
        ReadyIsRead(w.ledger, k, r.0[k], step.env);
      }
    }
  }

  lemma ReadyIsRead(l: Ledger, key: Key, r: CsvRecord, env: Env)
    requires Ready(l, key, r, env)
    ensures ReadAs(l, key, r, env)
  {
  }

  /** The orders to be stamped have no stamp, and a saved row has the stamp its order has now. */
  ghost predicate Safe(w: World, step: Step)
    requires Enabled(w, step)
  {
    match step
    case RunPay(groups, env, keys) => Unstamped(w.ledger, groups, keys)
    case ReplaceSave(i, row) => row.autoPaymentId == w.ledger.orders[i].autoPaymentId
    case _ => true
  }

  /** A step keeps payments accounted exactly when it is safe. */
  lemma StepKeepsAccountedIff(w: World, envs: seq<Env>, step: Step)
    requires Accounted(w.ledger, envs) && Kept(w) && Enabled(w, step)
    ensures Accounted(Apply(w, step).ledger, envs + Envs(step)) <==> Safe(w, step)
  {
    match step
    case RunPay(groups, env, keys) =>
      forall k | k in keys ensures ReadAs(w.ledger, k, groups[k], env) {
        assert (groups, env).0 == groups && (groups, env).1 == env;
      }
      hide Accounted, ReadAs, Unstamped;
      PayKeepsAccountedIff(w.ledger, envs, groups, keys, env);
    case ReplaceSave(i, row) =>
      assert (i, row).0 == i && (i, row).1 == row && envs + [] == envs;
      hide Accounted;
      SaveKeepsAccountedIff(w.ledger, envs, i, row);
    case _ =>
      hide PaymentAccounted;
      var l, m := w.ledger, Apply(w, step).ledger;
      forall p | 0 <= p < |l.payments| ensures PaymentAccounted(m, p, (envs + Envs(step))[p]) {
        AccountedFrame(l, m, p, envs[p]);
      }
  }

  ghost predicate SafeRun(w: World, steps: seq<Step>)
    requires ValidRun(w, steps)
    decreases |steps|
  {
    steps == [] || (Safe(w, steps[0]) && SafeRun(Apply(w, steps[0]), steps[1..]))
  }

  ghost predicate AccountedThroughout(w: World, envs: seq<Env>, steps: seq<Step>)
    requires ValidRun(w, steps)
    decreases |steps|
  {
    && Accounted(w.ledger, envs)
    && (steps == [] || AccountedThroughout(Apply(w, steps[0]), envs + Envs(steps[0]), steps[1..]))
  }

  /** Over a run, payments stay accounted throughout exactly when each of its steps is safe. */
  lemma {:induction false} RunKeepsAccountedIff(w: World, envs: seq<Env>, steps: seq<Step>)
    requires Accounted(w.ledger, envs) && Kept(w) && ValidRun(w, steps)
    ensures AccountedThroughout(w, envs, steps) <==> SafeRun(w, steps)
    ensures SafeRun(w, steps) ==> Accounted(Run(w, steps).ledger, RunEnvs(envs, steps))
    decreases |steps|
  {
    if steps != [] {
      hide Accounted, Kept, Enabled, Apply, Envs, Safe;
      var v, more := Apply(w, steps[0]), envs + Envs(steps[0]);
      StepKeepsKept(w, steps[0]);
      StepKeepsAccountedIff(w, envs, steps[0]);
      if Accounted(v.ledger, more) {
        RunKeepsAccountedIff(v, more, steps[1..]);
      }
    }
  }

  /**
    In every state reached by safe steps, each payment's amount is the sum of the shares, computed from what its run
    read, of exactly the orders stamped with it.
   */
  lemma PaymentsAddUp(steps: seq<Step>)
    requires ValidRun(START, steps) && SafeRun(START, steps)
    ensures Accounted(Run(START, steps).ledger, RunEnvs([], steps))
  {
    assert Accounted(START.ledger, []) && Kept(START);
    RunKeepsAccountedIff(START, [], steps);
  }

  lemma StepKeepsStamp(w: World, step: Step, i: nat)
    requires Enabled(w, step) && Safe(w, step) && i < |w.ledger.orders| && w.ledger.orders[i].autoPaymentId.Some?
    ensures var m := Apply(w, step).ledger;
            && |m.orders| >= |w.ledger.orders| && w.ledger.payments <= m.payments
            && m.orders[i].autoPaymentId == w.ledger.orders[i].autoPaymentId
  {
    if step.RunPay? {
      PayAllEffect(w.ledger, step.groups, step.keys);
      PaymentsKept(w.ledger, step.groups, step.keys);
      assert !StampedBy(step.groups, step.keys, i);
    }
  }

  /** Over safe steps no order is paid out twice: a stamp, once set, never changes, and no payment is altered. */
  lemma {:induction false} NeverPaidTwice(w: World, steps: seq<Step>, i: nat)
    requires ValidRun(w, steps) && SafeRun(w, steps) && i < |w.ledger.orders| && w.ledger.orders[i].autoPaymentId.Some?
    ensures var l := Run(w, steps).ledger;
            && |l.orders| >= |w.ledger.orders| && w.ledger.payments <= l.payments
            && l.orders[i].autoPaymentId == w.ledger.orders[i].autoPaymentId
    decreases |steps|
  {
    if steps != [] {
      hide Enabled, Apply, Safe;
      StepKeepsStamp(w, steps[0], i);
      NeverPaidTwice(Apply(w, steps[0]), steps[1..], i);
    }
  }

  /**
    Paying what a run read from `l`, on orders that may have moved on to those of `m`: exactly the orders that were
    eligible, had a share, and were in a group to be paid get a new stamp, whatever stamp they have by then.
   */
  lemma StampedIff(l: Ledger, m: Ledger, accountId: string, end: int, env: Env, keys: seq<Key>, i: nat)
    requires RunSucceeds(l, accountId, end, env) && Enumerates(keys, RunGroups(l, accountId, end, env).Keys)
    requires |l.orders| <= |m.orders| && i < |m.orders|
    ensures var groups := RunGroups(l, accountId, end, env);
            var n := PayAll(m, groups, keys);
            && |n.orders| == |m.orders|
            && (if i < |l.orders| && Eligible(l.orders[i], end, accountId) && SplitOf(l.orders[i], env).share > 0.0
                   && KeyOf(l.orders[i]) in groups
                then n.orders[i].autoPaymentId.Some? && n.orders[i].autoPaymentId.value >= |m.payments|
                else n.orders[i] == m.orders[i])
  {
    var groups := RunGroups(l, accountId, end, env);
    PayAllEffect(m, groups, keys);
    var list := ReadList(l.orders, end, accountId);
    hide SplitOf;
    if i < |l.orders| {
      IdsOfProperties(l.orders, list, KeyOf(l.orders[i]), env);
      if KeyOf(l.orders[i]) in groups {
        assert KeyOf(l.orders[i]) in keys;
      }
    }
    if StampedBy(groups, keys, i) {
      var k :| k in keys && i in groups[k].ids;
      IdsOfProperties(l.orders, list, k, env);
    }
  }
}
