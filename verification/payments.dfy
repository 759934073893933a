/**
  Orders, pay hashes and refunds. Notices from the payment service, polling, the order check and the refund
  loop race on guarded row updates; each transaction is one step here.
 */
module Payments {
  import opened Tables
  import opened Wrappers

  /** `valid` is whether the order's address, account name or coupon request converts when it is confirmed. */
  datatype Order = Order(action: ActionType, accountId: string, valid: bool, paid: bool, status: OrderStatus)

  datatype Payment = Payment(orderId: string, hashStatus: PayHashStatus, refund: RefundStatus)

  /** Payments by pay hash; records by their unique key, each with the order it was created for, or "". */
  datatype Db = Db(orders: map<string, Order>, payments: map<string, Payment>, records: map<RecordKey, string>)

  // ---------- the transactions ----------

  function CreateOrder(db: Db, orderId: string, action: ActionType, accountId: string, valid: bool,
      payHash: string): Db {
    if orderId in db.orders || (payHash != "" && payHash in db.payments) then db
    else
      db.(orders := db.orders[orderId := Order(action, accountId, valid, false, Default)],
          payments := if payHash == "" then db.payments
                      else db.payments[payHash := Payment(orderId, Pending, NoRefund)])
  }

  function CreatePaymentInfo(db: Db, orderId: string, payHash: string): Db {
    if orderId !in db.orders || payHash in db.payments then db
    else db.(payments := db.payments[payHash := Payment(orderId, Pending, NoRefund)])
  }

  /** The pay hash is inserted unless it exists, set confirmed, and the order's other pending hashes are rejected. */
  function ConfirmHash(payments: map<string, Payment>, orderId: string, payHash: string): map<string, Payment> {
    var inserted := if payHash in payments then payments
      else payments[payHash := Payment(orderId, Confirmed, NoRefund)];
    map h | h in inserted ::
      var p := inserted[h];
      if h == payHash then p.(hashStatus := Confirmed)
      else if p.orderId == orderId && p.hashStatus == Pending then p.(hashStatus := Rejected)
      else p
  }

  function PayOrder(orders: map<string, Order>, orderId: string): map<string, Order>
    requires orderId in orders
  {
    var o := orders[orderId];
    if o.paid then orders
    else orders[orderId := o.(paid := true, status := if o.action.CouponCreate? then Success else o.status)]
  }

  /** The record a confirmed order asks for: a mint starts at nonce 0, a renewal follows the account's nonce. */
  function RecordOf(o: Order, accounts: map<string, nat>): Option<RecordKey> {
    match o.action
    case Mint => Some(RecordKey(o.accountId, 0, RecordDefault, 0))
    case Renew => if o.accountId in accounts
      then Some(RecordKey(o.accountId, accounts[o.accountId] + 1, RecordDefault, 0)) else None
    case CouponCreate => None
  }

  /** Whether the confirmation gets as far as its transaction. */
  predicate Confirmable(db: Db, orderId: string, accounts: map<string, nat>) {
    && orderId in db.orders
    && var o := db.orders[orderId];
       if o.action.Renew? then o.accountId in accounts else o.valid
  }

  predicate CreatesRecord(db: Db, orderId: string, accounts: map<string, nat>) {
    && Confirmable(db, orderId, accounts) && !db.orders[orderId].paid
    && var key := RecordOf(db.orders[orderId], accounts);
       key.Some? && key.value !in db.records
  }

  function ConfirmPayment(db: Db, orderId: string, payHash: string, accounts: map<string, nat>): Db {
    if !Confirmable(db, orderId, accounts) then db
    else
      Db(PayOrder(db.orders, orderId),
         ConfirmHash(db.payments, orderId, payHash),
         if CreatesRecord(db, orderId, accounts)
         then db.records[RecordOf(db.orders[orderId], accounts).value := orderId]
         else db.records)
  }

  function MarkDisputed(db: Db, payHash: string, orderId: string): Db {
    var orders := if orderId in db.orders && db.orders[orderId].paid
                  then db.orders[orderId := db.orders[orderId].(status := Fail)] else db.orders;
    var payments := if payHash in db.payments && db.payments[payHash].orderId == orderId
      && db.payments[payHash].hashStatus == Confirmed
                    then db.payments[payHash := db.payments[payHash].(hashStatus := FailByDispute)] else db.payments;
    db.(orders := orders, payments := payments)
  }

  predicate Refundable(p: Payment, orderId: string) {
    p.orderId == orderId && p.hashStatus == Confirmed && p.refund == NoRefund
  }

  function DecideOrder(db: Db, orderId: string, newStatus: OrderStatus): Db {
    var orders := if orderId in db.orders && db.orders[orderId].status == Default
                  then db.orders[orderId := db.orders[orderId].(status := newStatus)] else db.orders;
    var payments := if newStatus == Fail
                    then map h | h in db.payments ::
                           if Refundable(db.payments[h], orderId) then db.payments[h].(refund := UnRefund)
                             else db.payments[h]
                    else db.payments;
    db.(orders := orders, payments := payments)
  }

  function MarkRefunding(db: Db, hashes: set<string>): Db {
    db.(payments := map h | h in db.payments ::
                      var p := db.payments[h];
                      if h in hashes && p.hashStatus == Confirmed && p.refund == UnRefund then p.(refund := Refunding)
                        else p)
  }

  function MarkRefunded(db: Db, payHash: string, orderId: string): Db {
    if payHash in db.payments && db.payments[payHash].orderId == orderId
       && db.payments[payHash].hashStatus == Confirmed && db.payments[payHash].refund == Refunding
    then db.(payments := db.payments[payHash := db.payments[payHash].(refund := Refunded)])
    else db
  }

  /** Closing the order a coupon order replaces: the row read earlier is written back whole. */
  function SaveOldOrder(db: Db, orderId: string, row: Order): Db {
    db.(orders := db.orders[orderId := row.(status := Closed)])
  }

  /** The rest of the service changes a record's key in place, or deletes the row. */
  function MoveRecord(db: Db, key: RecordKey, newKey: Option<RecordKey>): Db {
    if key !in db.records || (newKey.Some? && newKey.value in db.records) then db
    else
      var rest := db.records - {key};
      db.(records := if newKey.Some? then rest[newKey.value := db.records[key]] else rest)
  }

  function InsertOwnRecord(db: Db, key: RecordKey): Db {
    if key in db.records then db else db.(records := db.records[key := ""])
  }

  // ---------- the protocol ----------

  /**
    `checking`: orders the order check has read and not yet decided; `created`: an order id per record created;
    `passed`: orders for which a request to replace them passed its check; `replacing`: the rows such
    requests read, to be written back closed. Any number of requests can be at any of these points.
   */
  datatype World = World(db: Db, checking: set<string>, created: seq<string>, passed: set<string>,
                         replacing: set<(string, Order)>)

  datatype Event =
    | CreateOrderEvent(orderId: string, action: ActionType, accountId: string, valid: bool, payHash: string)
    | PaymentInfoEvent(orderId: string, payHash: string)
    | ConfirmEvent(orderId: string, payHash: string, accounts: map<string, nat>)
    | DisputeEvent(payHash: string, orderId: string)
    | CheckRead(list: set<string>)
    | CheckWrite(orderId: string, newStatus: OrderStatus)
    | CheckSkip(orderId: string)
    | RefundingEvent(hashes: set<string>)
    | RefundedEvent(payHash: string, orderId: string)
    | ReplaceCheck(orderId: string)
    | ReplaceRead(orderId: string)
    | ReplaceSave(orderId: string, row: Order)
    | MoveRecordEvent(key: RecordKey, newKey: Option<RecordKey>)
    | OwnRecordEvent(key: RecordKey)

  predicate NeedCheck(o: Order) {
    o.paid && o.status == Default
  }

  /** One order check at a time: it lists only when it has decided its last list. */
  ghost predicate Enabled(w: World, e: Event) {
    match e
    case CreateOrderEvent(orderId, _, _, _, _) => orderId != ""
    case CheckRead(list) => w.checking == {} && forall o | o in list :: o in w.db.orders && NeedCheck(w.db.orders[o])
    case CheckWrite(orderId, newStatus) => orderId in w.checking && newStatus in {Success, Fail}
    case ReplaceCheck(orderId) => orderId in w.db.orders && w.db.orders[orderId].status == Default
    case ReplaceRead(orderId) => orderId in w.passed && orderId in w.db.orders
    case ReplaceSave(orderId, row) => (orderId, row) in w.replacing
    case _ => true
  }

  function ApplyDb(db: Db, e: Event): Db {
    match e
    case CreateOrderEvent(orderId, action, accountId, valid, payHash) => CreateOrder(db, orderId, action, accountId,
      valid, payHash)
    case PaymentInfoEvent(orderId, payHash) => CreatePaymentInfo(db, orderId, payHash)
    case ConfirmEvent(orderId, payHash, accounts) => ConfirmPayment(db, orderId, payHash, accounts)
    case DisputeEvent(payHash, orderId) => MarkDisputed(db, payHash, orderId)
    case CheckRead(list) => db
    case CheckWrite(orderId, newStatus) => DecideOrder(db, orderId, newStatus)
    case CheckSkip(orderId) => db
    case RefundingEvent(hashes) => MarkRefunding(db, hashes)
    case RefundedEvent(payHash, orderId) => MarkRefunded(db, payHash, orderId)
    case ReplaceCheck(orderId) => db
    case ReplaceRead(orderId) => db
    case ReplaceSave(orderId, row) => SaveOldOrder(db, orderId, row)
    case MoveRecordEvent(key, newKey) => MoveRecord(db, key, newKey)
    case OwnRecordEvent(key) => InsertOwnRecord(db, key)
  }

  function Apply(w: World, e: Event): World {
    var created := if e.ConfirmEvent? && CreatesRecord(w.db, e.orderId, e.accounts) then w.created + [e.orderId]
      else w.created;
    var checking := match e
      case CheckRead(list) => list
      case CheckWrite(orderId, newStatus) => w.checking - {orderId}
      case CheckSkip(orderId) => w.checking - {orderId}
      case _ => w.checking;
    var passed := if e.ReplaceCheck? then w.passed + {e.orderId} else w.passed;
    var replacing := if e.ReplaceRead? && e.orderId in w.db.orders
                     then w.replacing + {(e.orderId, w.db.orders[e.orderId])} else w.replacing;
    World(ApplyDb(w.db, e), checking, created, passed, replacing)
  }

  ghost predicate ValidRun(w: World, events: seq<Event>)
    decreases |events|
  {
    events == [] || (Enabled(w, events[0]) && ValidRun(Apply(w, events[0]), events[1..]))
  }

  function Run(w: World, events: seq<Event>): World
    decreases |events|
  {
    if events == [] then w else Run(Apply(w, events[0]), events[1..])
  }

  const START := World(Db(map[], map[], map[]), {}, [], {}, {})

  // ---------- safety ----------

  /** Money on its way back belongs to a paid order that failed. */
  ghost predicate RefundsJustified(db: Db) {
    forall h | h in db.payments && db.payments[h].refund != NoRefund ::
      db.payments[h].orderId in db.orders && db.orders[db.payments[h].orderId].paid
      && db.orders[db.payments[h].orderId].status == Fail
  }

  /** At most one record is ever created for an order, none before it is paid, and no order has two rows. */
  ghost predicate RecordsJustified(w: World) {
    && (forall i, j | 0 <= i < j < |w.created| :: w.created[i] != w.created[j])
    && (forall o | o in w.created :: o in w.db.orders && w.db.orders[o].paid)
    && (forall k | k in w.db.records && w.db.records[k] != "" :: w.db.records[k] in w.created)
    && (forall j, k | j in w.db.records && k in w.db.records && w.db.records[j] == w.db.records[k] != "" :: j == k)
  }

  ghost predicate ChecksJustified(w: World) {
    && (forall o | o in w.checking ::
       o in w.db.orders && w.db.orders[o].paid && w.db.orders[o].status in {Default, Fail})
    && (forall o | o in w.db.orders && w.db.orders[o].status == Fail :: w.db.orders[o].paid)
  }

  ghost predicate ReplacementsKnown(w: World) {
    forall r | r in w.replacing :: r.0 in w.db.orders
  }

  ghost predicate Inv(w: World) {
    RefundsJustified(w.db) && ChecksJustified(w) && RecordsJustified(w) && ReplacementsKnown(w) && "" !in w.db.orders
  }

  /**
    No check has listed the order, none of its money is on its way back, and the row does not undo a payment that
    created a record.
   */
  ghost predicate SaveIsSound(w: World, orderId: string, row: Order) {
    && orderId !in w.checking
    && (forall h | h in w.db.payments && w.db.payments[h].orderId == orderId :: w.db.payments[h].refund == NoRefund)
    && (orderId in w.created ==> row.paid)
  }

  /** The row undoes no payment, and the order has not failed. */
  predicate SaveIsFinal(db: Db, orderId: string, row: Order) {
    orderId in db.orders ==> (db.orders[orderId].paid ==> row.paid) && db.orders[orderId].status != Fail
  }

  /** Every save of the run is sound. */
  ghost predicate SoundRun(w: World, events: seq<Event>)
    decreases |events|
  {
    events == []
    || ((events[0].ReplaceSave? ==> SaveIsSound(w, events[0].orderId, events[0].row))
       && SoundRun(Apply(w, events[0]), events[1..]))
  }

  ghost predicate FinalRun(w: World, events: seq<Event>)
    decreases |events|
  {
    events == []
    || ((events[0].ReplaceSave? ==> SaveIsFinal(w.db, events[0].orderId, events[0].row))
       && FinalRun(Apply(w, events[0]), events[1..]))
  }

  function RefundRank(r: RefundStatus): nat {
    match r
    case NoRefund => 0
    case UnRefund => 1
    case Refunding => 2
    case Refunded => 3
  }

  /** Orders stay, paid orders stay paid, failed orders stay failed. */
  ghost predicate OrdersAdvance(a: Db, b: Db) {
    forall o | o in a.orders ::
      && o in b.orders
      && (a.orders[o].paid ==> b.orders[o].paid)
      && (a.orders[o].status == Fail ==> b.orders[o].status == Fail)
  }

  /** Refunds move one stage at a time, and only while the pay hash is confirmed. */
  ghost predicate RefundsAdvance(a: Db, b: Db) {
    forall h | h in a.payments ::
      && h in b.payments && b.payments[h].orderId == a.payments[h].orderId
      && (b.payments[h].refund == a.payments[h].refund
          || (RefundRank(b.payments[h].refund) == RefundRank(a.payments[h].refund) + 1
              && a.payments[h].hashStatus == b.payments[h].hashStatus == Confirmed))
  }

  lemma StepAdvances(w: World, e: Event)
    requires Enabled(w, e) && Inv(w) && (e.ReplaceSave? ==> SaveIsFinal(w.db, e.orderId, e.row))
    ensures OrdersAdvance(w.db, Apply(w, e).db) && RefundsAdvance(w.db, Apply(w, e).db)
  {
    if e.ConfirmEvent? {
      ConfirmAdvances(w.db, e.orderId, e.payHash, e.accounts);
    } else if e.DisputeEvent? || e.CheckWrite? || e.ReplaceSave? {
      DecisionsAdvance(w, e);
    } else {
      hide ConfirmPayment, RecordsJustified, RefundsJustified, MarkDisputed, DecideOrder, SaveOldOrder;
    }
  }

  lemma DecisionsAdvance(w: World, e: Event)
    requires Enabled(w, e) && ChecksJustified(w) && (e.ReplaceSave? ==> SaveIsFinal(w.db, e.orderId, e.row))
    requires e.DisputeEvent? || e.CheckWrite? || e.ReplaceSave?
    ensures OrdersAdvance(w.db, Apply(w, e).db) && RefundsAdvance(w.db, Apply(w, e).db)
  {
  }

  lemma ConfirmAdvances(db: Db, orderId: string, payHash: string, accounts: map<string, nat>)
    requires forall o | o in db.orders && db.orders[o].status == Fail :: db.orders[o].paid
    ensures OrdersAdvance(db, ConfirmPayment(db, orderId, payHash, accounts))
    ensures RefundsAdvance(db, ConfirmPayment(db, orderId, payHash, accounts))
  {
  }

  /**
    A coupon order that replaces another writes the whole row of the replaced one back, closed. That keeps what is
    claimed of orders, refunds and records exactly when the save is sound.
   */
  lemma SaveKeepsInvIff(w: World, orderId: string, row: Order)
    requires Inv(w) && Enabled(w, ReplaceSave(orderId, row))
    ensures Inv(Apply(w, ReplaceSave(orderId, row))) <==> SaveIsSound(w, orderId, row)
  {
    var v := Apply(w, ReplaceSave(orderId, row));
    assert (orderId, row) in w.replacing && (orderId, row).0 in w.db.orders;
    assert RecordsJustified(v) <==> (orderId in w.created ==> row.paid);
    assert ChecksJustified(v) <==> orderId !in w.checking;
    hide RecordsJustified;
  }

  lemma StepKeepsInv(w: World, e: Event)
    requires Enabled(w, e) && Inv(w) && (e.ReplaceSave? ==> SaveIsSound(w, e.orderId, e.row))
    ensures Inv(Apply(w, e))
  {
    if e.ReplaceSave? {
      SaveKeepsInvIff(w, e.orderId, e.row);
      return;
    }
    StepKeepsRecords(w, e);
    if e.ConfirmEvent? {
      ConfirmKeepsJustified(w, e);
    } else if e.DisputeEvent? || e.CheckWrite? {
      DecisionsKeepJustified(w, e);
    } else {
      hide ConfirmPayment, RecordsJustified, MarkDisputed, DecideOrder, SaveOldOrder;
    }
  }

  lemma DecisionsKeepJustified(w: World, e: Event)
    requires Enabled(w, e) && Inv(w) && (e.DisputeEvent? || e.CheckWrite?)
    ensures RefundsJustified(Apply(w, e).db) && ChecksJustified(Apply(w, e)) && ReplacementsKnown(Apply(w, e))
    ensures "" !in Apply(w, e).db.orders
  {
    hide RecordsJustified;
  }

  lemma ConfirmKeepsJustified(w: World, e: Event)
    requires Enabled(w, e) && e.ConfirmEvent?
    requires RefundsJustified(w.db) && ChecksJustified(w)
    ensures RefundsJustified(Apply(w, e).db) && ChecksJustified(Apply(w, e))
    ensures Apply(w, e).db.orders.Keys == w.db.orders.Keys
  {
    hide RecordOf;
  }

  lemma StepKeepsRecords(w: World, e: Event)
    requires Enabled(w, e) && Inv(w) && !e.ReplaceSave?
    ensures RecordsJustified(Apply(w, e))
  {
    if e.ConfirmEvent? {
      ConfirmKeepsRecords(w, e);
    } else {
      hide ConfirmPayment, RefundsJustified;
    }
  }

  lemma ConfirmKeepsRecords(w: World, e: Event)
    requires Enabled(w, e) && e.ConfirmEvent? && RecordsJustified(w) && "" !in w.db.orders
    ensures RecordsJustified(Apply(w, e))
  {
    hide ConfirmHash;
  }

  lemma {:induction false} RunKeepsInv(w: World, events: seq<Event>)
    requires Inv(w) && ValidRun(w, events) && SoundRun(w, events)
    ensures Inv(Run(w, events))
    decreases |events|
  {
    if events != [] {
      StepKeepsInv(w, events[0]);
      RunKeepsInv(Apply(w, events[0]), events[1..]);
    }
  }

  /**
    Whatever the interleaving, if every replaced order is saved soundly: money on its way back belongs to a paid
    order that failed, and at most one record is created for an order, none while it is unpaid.
   */
  lemma Safety(events: seq<Event>)
    requires ValidRun(START, events) && SoundRun(START, events)
    ensures RefundsJustified(Run(START, events).db)
    ensures RecordsJustified(Run(START, events))
  {
    RunKeepsInv(START, events);
  }

  /** Over a run, orders and refunds only move forward: payment and failure are final. */
  lemma {:induction false} RunAdvances(w: World, events: seq<Event>)
    requires Inv(w) && ValidRun(w, events) && SoundRun(w, events) && FinalRun(w, events)
    ensures OrdersAdvance(w.db, Run(w, events).db)
    ensures forall h | h in w.db.payments ::
              && h in Run(w, events).db.payments
              && Run(w, events).db.payments[h].orderId == w.db.payments[h].orderId
              && RefundRank(w.db.payments[h].refund) <= RefundRank(Run(w, events).db.payments[h].refund)
    decreases |events|
  {
    if events != [] {
      hide Apply;
      StepAdvances(w, events[0]);
      StepKeepsInv(w, events[0]);
      RunAdvances(Apply(w, events[0]), events[1..]);
    }
  }

  /** Right after a confirmation goes through, its hash is confirmed and no other hash of the order is pending. */
  lemma NothingPendingAfterConfirm(db: Db, orderId: string, payHash: string, accounts: map<string, nat>)
    requires Confirmable(db, orderId, accounts)
    ensures var after := ConfirmPayment(db, orderId, payHash, accounts);
            && after.orders[orderId].paid
            && payHash in after.payments && after.payments[payHash].hashStatus == Confirmed
            && forall h | h in after.payments && after.payments[h].orderId == orderId ::
               after.payments[h].hashStatus != Pending
  {
  }

  ghost predicate Settled(w: World, h: string) {
    && h in w.db.payments && w.db.payments[h].refund == NoRefund
    && var o := w.db.payments[h].orderId;
       o in w.db.orders && w.db.orders[o].status != Default && o !in w.checking
  }

  lemma StepKeepsSettled(w: World, e: Event, h: string)
    requires Enabled(w, e) && Settled(w, h)
    ensures Settled(Apply(w, e), h)
  {
    if e.ConfirmEvent? {
      hide RecordOf;
    } else {
      hide ConfirmPayment;
    }
  }

  /** A hash confirmed after its order was decided, whatever the decision, is never put up for refund. */
  lemma {:induction false} LateConfirmIsNeverRefunded(w: World, events: seq<Event>, h: string)
    requires ValidRun(w, events) && Settled(w, h)
    ensures h in Run(w, events).db.payments && Run(w, events).db.payments[h].refund == NoRefund
    decreases |events|
  {
    if events != [] {
      StepKeepsSettled(w, events[0], h);
      LateConfirmIsNeverRefunded(Apply(w, events[0]), events[1..], h);
    }
  }

  // ---------- where the protocol needs its assumptions ----------

  /**
    The check's write marks refunds even when its status update finds the order already decided. It keeps
    refunds justified exactly when the order is still undecided or failed, or has nothing to refund.
   */
  lemma CheckKeepsRefundsJustifiedIff(db: Db, orderId: string)
    requires RefundsJustified(db) && orderId in db.orders && db.orders[orderId].paid
    ensures RefundsJustified(DecideOrder(db, orderId, Fail)) <==>
            db.orders[orderId].status in {Default, Fail}
            || forall h | h in db.payments :: !Refundable(db.payments[h], orderId)
  {
    var after := DecideOrder(db, orderId, Fail);
    if db.orders[orderId].status in {Success, Closed} {
      forall h | h in db.payments && Refundable(db.payments[h], orderId)
        ensures !RefundsJustified(after)
      {
        assert h in after.payments && after.payments[h].refund == UnRefund;
      }
    }
  }

  /** Two checks that list the same order can decide it both ways: it succeeds, and its payment is refunded. */
  lemma TwoChecksCanDisagree() returns (db: Db, after: Db)
    ensures RefundsJustified(db) && "order" in db.orders && NeedCheck(db.orders["order"])
    ensures after == DecideOrder(DecideOrder(db, "order", Success), "order", Fail)
    ensures "order" in after.orders && after.orders["order"].status == Success
    ensures "hash" in after.payments && after.payments["hash"].refund == UnRefund && !RefundsJustified(after)
  {
    db := Db(map["order" := Order(Mint, "account", true, true, Default)],
             map["hash" := Payment("order", Confirmed, NoRefund)], map[]);
    after := DecideOrder(DecideOrder(db, "order", Success), "order", Fail);
    assert after.payments["hash"].refund == UnRefund;
  }

  /**
    Writing back the whole row of a replaced order lets orders only advance exactly when it undoes no payment and no
    failure.
   */
  lemma SaveKeepsOrdersIff(db: Db, orderId: string, row: Order)
    requires orderId in db.orders
    ensures OrdersAdvance(db, SaveOldOrder(db, orderId, row)) <==> SaveIsFinal(db, orderId, row)
  {
  }

  const PAID := Order(Mint, "account", true, true, Default)
  const PAYMENT := Payment("order", Confirmed, NoRefund)
  const RECORD := RecordKey("account", 0, RecordDefault, 0)

  ghost predicate Steps(w: World, e: Event, v: World) {
    Enabled(w, e) && Apply(w, e) == v
  }

  /** An order is created, and its payment confirmed. */
  lemma PaidOrder() returns (unpaid: World, paid: World)
    ensures unpaid == START.(db :=
            Db(map["order" := PAID.(paid := false)], map["hash" := PAYMENT.(hashStatus := Pending)], map[]))
    ensures Steps(START, CreateOrderEvent("order", Mint, "account", true, "hash"), unpaid)
    ensures paid == START.(db := Db(map["order" := PAID], map["hash" := PAYMENT], map[RECORD := "order"]),
            created := ["order"])
    ensures Steps(unpaid, ConfirmEvent("order", "hash", map[]), paid)
  {
    unpaid :=
      START.(db := Db(map["order" := PAID.(paid := false)], map["hash" := PAYMENT.(hashStatus := Pending)], map[]));
    paid := START.(db := Db(map["order" := PAID], map["hash" := PAYMENT], map[RECORD := "order"]),
      created := ["order"]);
  }

  lemma RunOn(w: World, e: Event, v: World, rest: seq<Event>)
    requires Steps(w, e, v) && ValidRun(v, rest)
    ensures ValidRun(w, [e] + rest) && Run(w, [e] + rest) == Run(v, rest)
  {
    assert ([e] + rest)[0] == e && ([e] + rest)[1..] == rest;
  }

  lemma ListedAndReplaced(paid: World) returns (listed: World, granted: World, read: World, saved: World)
    requires paid == START.(db := Db(map["order" := PAID], map["hash" := PAYMENT], map[RECORD := "order"]),
             created := ["order"])
    ensures Steps(paid, CheckRead({"order"}), listed) && Steps(listed, ReplaceCheck("order"), granted)
    ensures Steps(granted, ReplaceRead("order"), read) && Steps(read, ReplaceSave("order", PAID), saved)
    ensures saved.checking == {"order"} && saved.db.orders == map["order" := PAID.(status := Closed)]
    ensures saved.db.payments == map["hash" := PAYMENT]
  {
    listed := paid.(checking := {"order"});
    granted := listed.(passed := {"order"});
    read := granted.(replacing := {("order", PAID)});
    saved := read.(db := read.db.(orders := map["order" := PAID.(status := Closed)]));
  }

  lemma DecidedAfterAll(saved: World) returns (end: World)
    requires saved.checking == {"order"} && saved.db.orders == map["order" := PAID.(status := Closed)]
    requires saved.db.payments == map["hash" := PAYMENT]
    ensures Steps(saved, CheckWrite("order", Fail), end) && !RefundsJustified(end.db)
  {
    end := saved.(db := saved.db.(payments := map["hash" := PAYMENT.(refund := UnRefund)]), checking := {});
    assert DecideOrder(saved.db, "order", Fail) == end.db;
    assert saved.checking - {"order"} == {};
    assert end.db.payments["hash"].refund == UnRefund;
  }

  /** A paid order is listed by the check and then replaced: it ends closed, with its payment put up for refund. */
  lemma SaveUndoesCheck() returns (events: seq<Event>)
    ensures ValidRun(START, events) && !RefundsJustified(Run(START, events).db)
  {
    var unpaid, paid := PaidOrder();
    var listed, granted, read, saved := ListedAndReplaced(paid);
    var end := DecidedAfterAll(saved);
    assert ValidRun(end, []) && Run(end, []) == end;
    hide *;
    events := [];
    RunOn(saved, CheckWrite("order", Fail), end, events);
    events := [CheckWrite("order", Fail)] + events;
    RunOn(read, ReplaceSave("order", PAID), saved, events);
    events := [ReplaceSave("order", PAID)] + events;
    RunOn(granted, ReplaceRead("order"), read, events);
    events := [ReplaceRead("order")] + events;
    RunOn(listed, ReplaceCheck("order"), granted, events);
    events := [ReplaceCheck("order")] + events;
    RunOn(paid, CheckRead({"order"}), listed, events);
    events := [CheckRead({"order"})] + events;
    RunOn(unpaid, ConfirmEvent("order", "hash", map[]), paid, events);
    events := [ConfirmEvent("order", "hash", map[])] + events;
    RunOn(START, CreateOrderEvent("order", Mint, "account", true, "hash"), unpaid, events);
    events := [CreateOrderEvent("order", Mint, "account", true, "hash")] + events;
  }

  /** An order is read to be replaced, paid, and then replaced: it ends unpaid, with a record created for it. */
  lemma SaveUndoesPayment() returns (events: seq<Event>)
    ensures ValidRun(START, events) && !RecordsJustified(Run(START, events))
  {
    var unpaid, _ := PaidOrder();
    var row := PAID.(paid := false);
    var granted := unpaid.(passed := {"order"});
    var read := granted.(replacing := {("order", row)});
    var paid :=
      read.(db := Db(map["order" := PAID], map["hash" := PAYMENT], map[RECORD := "order"]), created := ["order"]);
    var end := paid.(db := paid.db.(orders := map["order" := row.(status := Closed)]));
    assert Steps(unpaid, ReplaceCheck("order"), granted) && Steps(granted, ReplaceRead("order"), read);
    assert Steps(read, ConfirmEvent("order", "hash", map[]), paid) && Steps(paid, ReplaceSave("order", row), end);
    assert ValidRun(end, []) && Run(end, []) == end && end.created[0] == "order" && !RecordsJustified(end);
    hide *;
    events := [];
    RunOn(paid, ReplaceSave("order", row), end, events);
    events := [ReplaceSave("order", row)] + events;
    RunOn(read, ConfirmEvent("order", "hash", map[]), paid, events);
    events := [ConfirmEvent("order", "hash", map[])] + events;
    RunOn(granted, ReplaceRead("order"), read, events);
    events := [ReplaceRead("order")] + events;
    RunOn(unpaid, ReplaceCheck("order"), granted, events);
    events := [ReplaceCheck("order")] + events;
    RunOn(START, CreateOrderEvent("order", Mint, "account", true, "hash"), unpaid, events);
    events := [CreateOrderEvent("order", Mint, "account", true, "hash")] + events;
  }

  // ---------- the loops ----------

  function ApplyAll(db: Db, events: seq<Event>): Db
    decreases |events|
  {
    if events == [] then db else ApplyDb(ApplyAll(db, events[..|events| - 1]), events[|events| - 1])
  }

  lemma ApplyNext(db: Db, events: seq<Event>, e: Event)
    ensures ApplyAll(db, events + [e]) == ApplyDb(ApplyAll(db, events), e)
  {
  }

  datatype NoticeType = OrderPay | OrderRefund | PaymentDispute | Invalid

  datatype Notice = Notice(kind: NoticeType, orderId: string, payHash: string)

  function NoticeEvent(v: Notice, accounts: map<string, nat>): Option<Event> {
    match v.kind
    case OrderPay => Some(ConfirmEvent(v.orderId, v.payHash, accounts))
    case OrderRefund => Some(RefundedEvent(v.payHash, v.orderId))
    case PaymentDispute => Some(DisputeEvent(v.payHash, v.orderId))
    case Invalid => None
  }

  function NoticeEvents(list: seq<Notice>, accounts: map<string, nat>): seq<Event>
    decreases |list|
  {
    if list == [] then []
    else
      var rest, e := NoticeEvents(list[..|list| - 1], accounts), NoticeEvent(list[|list| - 1], accounts);
      if e.Some? then rest + [e.value] else rest
  }

  lemma NoticeNext(db: Db, list: seq<Notice>, i: nat, accounts: map<string, nat>)
    requires i < |list|
    ensures var e := NoticeEvent(list[i], accounts);
            var before := ApplyAll(db, NoticeEvents(list[..i], accounts));
            ApplyAll(db, NoticeEvents(list[..i + 1], accounts)) == if e.Some? then ApplyDb(before, e.value) else before
  {
    assert list[..i + 1][..i] == list[..i];
    var e := NoticeEvent(list[i], accounts);
    hide ApplyAll, ApplyDb, NoticeEvent;
    if e.Some? {
      ApplyNext(db, NoticeEvents(list[..i], accounts), e.value);
    }
  }

  /** A payment as the payment service reports it. */
  datatype Report = Report(orderId: string, payHash: string, hashStatus: PayHashStatus, refund: RefundStatus)

  function ReportsOf(orderId: string, reports: seq<Report>): seq<Report>
    decreases |reports|
  {
    if reports == [] then []
    else
      var rest, v := ReportsOf(orderId, reports[..|reports| - 1]), reports[|reports| - 1];
      if v.orderId == orderId then rest + [v] else rest
  }

  function ConfirmEvents(list: seq<Report>, accounts: map<string, nat>): seq<Event>
    decreases |list|
  {
    if list == [] then []
    else
      var rest, v := ConfirmEvents(list[..|list| - 1], accounts), list[|list| - 1];
      if v.hashStatus == Confirmed then rest + [ConfirmEvent(v.orderId, v.payHash, accounts)] else rest
  }

  lemma ConfirmNext(db: Db, done: seq<Event>, list: seq<Report>, i: nat, accounts: map<string, nat>)
    requires i < |list|
    ensures var before := ApplyAll(db, done + ConfirmEvents(list[..i], accounts));
            ApplyAll(db, done + ConfirmEvents(list[..i + 1], accounts))
            == if list[i].hashStatus == Confirmed
               then ConfirmPayment(before, list[i].orderId, list[i].payHash, accounts) else before
  {
    var v, before := list[i], ConfirmEvents(list[..i], accounts);
    var e := ConfirmEvent(v.orderId, v.payHash, accounts);
    assert list[..i + 1][..i] == list[..i];
    hide ConfirmPayment, ApplyAll;
    ApplyNext(db, done + before, e);
    assert done + before + [e] == done + (before + [e]);
  }

  function AllConfirmEvents(pending: seq<string>, reports: seq<Report>, accounts: map<string, nat>): seq<Event>
    decreases |pending|
  {
    if pending == [] then []
    else
      AllConfirmEvents(pending[..|pending| - 1], reports, accounts)
      + ConfirmEvents(ReportsOf(pending[|pending| - 1], reports), accounts)
  }

  lemma NextPending(pending: seq<string>, i: nat, reports: seq<Report>, accounts: map<string, nat>)
    requires i < |pending|
    ensures var reported := ReportsOf(pending[i], reports);
            && AllConfirmEvents(pending[..i + 1], reports, accounts)
               == AllConfirmEvents(pending[..i], reports, accounts) + ConfirmEvents(reported, accounts)
            && (reported == [] ==>
                  AllConfirmEvents(pending[..i + 1], reports, accounts)
                  == AllConfirmEvents(pending[..i], reports, accounts))
  {
    assert pending[..i + 1][..i] == pending[..i];
  }

  /** The last report about a pay hash. */
  function LastReport(payHash: string, reports: seq<Report>): Option<Report>
    decreases |reports|
  {
    if reports == [] then None
    else if reports[|reports| - 1].payHash == payHash then Some(reports[|reports| - 1])
    else LastReport(payHash, reports[..|reports| - 1])
  }

  function RefundedEvents(refunding: seq<string>, reports: seq<Report>): seq<Event>
    decreases |refunding|
  {
    if refunding == [] then []
    else
      var rest, r := RefundedEvents(refunding[..|refunding| - 1], reports),
        LastReport(refunding[|refunding| - 1], reports);
      if r.Some? && r.value.refund == Refunded then rest + [RefundedEvent(r.value.payHash, r.value.orderId)] else rest
  }

  /** The order ids of the given hashes that are pending; `recent` are the hashes a query's time window selects. */
  function PendingOrders(payments: map<string, Payment>, recent: seq<string>): seq<string>
    decreases |recent|
  {
    if recent == [] then []
    else
      var rest, h := PendingOrders(payments, recent[..|recent| - 1]), recent[|recent| - 1];
      if h in payments && payments[h].hashStatus == Pending then rest + [payments[h].orderId] else rest
  }

  function HashesWith(payments: map<string, Payment>, recent: seq<string>, refund: RefundStatus): seq<string>
    decreases |recent|
  {
    if recent == [] then []
    else
      var rest, h := HashesWith(payments, recent[..|recent| - 1], refund), recent[|recent| - 1];
      if h in payments && payments[h].hashStatus == Confirmed && payments[h].refund == refund then rest + [h] else rest
  }

  /** What the order check decides from the order's record and its account; None leaves the order waiting. */
  function Decision(action: ActionType, record: Option<RecordType>, accountExists: bool): Option<OrderStatus> {
    if !accountExists || action.CouponCreate? then None
    else if action.Mint? then Some(if record == None || record == Some(RecordClosed) then Fail else Success)
    else if record == None || record == Some(RecordDefault) then None
    else Some(if record == Some(RecordClosed) then Fail else Success)
  }

  /** The type of the record created for an order; an order has at most one row. */
  ghost function RecordTypeOf(records: map<RecordKey, string>, orderId: string): Option<RecordType> {
    if exists k :: k in records && records[k] == orderId
    then var k :| k in records && records[k] == orderId; Some(k.recordType)
    else None
  }

  ghost predicate OneRow(records: map<RecordKey, string>) {
    forall j, k | j in records && k in records && records[j] == records[k] != "" :: j == k
  }

  ghost predicate HasRow(records: map<RecordKey, string>, orderId: string) {
    exists k :: k in records && records[k] == orderId
  }

  ghost predicate HasRowOf(records: map<RecordKey, string>, orderId: string, t: RecordType) {
    exists k :: k in records && records[k] == orderId && k.recordType == t
  }

  /** A mint whose record is missing or closed fails; a renewal fails only with a closed one. */
  ghost predicate MustFail(v: Order, orderId: string, records: map<RecordKey, string>, accounts: map<string, nat>) {
    && v.accountId in accounts
    && (v.action.Mint? ==> !HasRow(records, orderId) || HasRowOf(records, orderId, RecordClosed))
    && (v.action.Renew? ==> HasRowOf(records, orderId, RecordClosed))
    && !v.action.CouponCreate?
  }

  /** A mint succeeds with a waiting record already; a renewal only with one on the chain. */
  ghost predicate MustSucceed(v: Order, orderId: string, records: map<RecordKey, string>, accounts: map<string, nat>) {
    && v.accountId in accounts
    && (v.action.Mint? ==> HasRowOf(records, orderId, RecordDefault) || HasRowOf(records, orderId, RecordChain))
    && (v.action.Renew? ==> HasRowOf(records, orderId, RecordChain))
    && !v.action.CouponCreate?
  }

  ghost predicate OrdersJudged(a: Db, b: Db, seen: map<string, Order>, accounts: map<string, nat>) {
    && a.orders.Keys == b.orders.Keys
    && forall o | o in a.orders ::
       b.orders[o] ==
         if o in seen && a.orders[o].status == Default && MustFail(seen[o], o, a.records, accounts)
         then a.orders[o].(status := Fail)
         else if o in seen && a.orders[o].status == Default && MustSucceed(seen[o], o, a.records, accounts)
         then a.orders[o].(status := Success)
         else a.orders[o]
  }

  ghost predicate PaymentsJudged(a: Db, b: Db, seen: map<string, Order>, accounts: map<string, nat>) {
    && a.payments.Keys == b.payments.Keys
    && forall h | h in a.payments ::
       var p := a.payments[h];
       b.payments[h] ==
         if p.orderId in seen && MustFail(seen[p.orderId], p.orderId, a.records, accounts)
            && p.hashStatus == Confirmed && p.refund == NoRefund
         then p.(refund := UnRefund) else p
  }

  /**
    What a check has done once it has decided the orders of `seen`, given the rows it read: an undecided order is
    decided, a failing one has its confirmed and untouched payments put up for refund, and nothing else changes.
   */
  ghost predicate Judged(a: Db, b: Db, seen: map<string, Order>, accounts: map<string, nat>) {
    a.records == b.records && OrdersJudged(a, b, seen, accounts) && PaymentsJudged(a, b, seen, accounts)
  }

  lemma DecisionRead(v: Order, orderId: string, records: map<RecordKey, string>, accounts: map<string, nat>)
    requires OneRow(records) && orderId != ""
    ensures var d := Decision(v.action, RecordTypeOf(records, orderId), v.accountId in accounts);
            && (MustFail(v, orderId, records, accounts) <==> d == Some(Fail))
            && (MustSucceed(v, orderId, records, accounts) <==> d == Some(Success))
            && d in {None, Some(Fail), Some(Success)}
  {
    assert HasRow(records, orderId) <==> RecordTypeOf(records, orderId).Some?;
    forall t: RecordType
      ensures HasRowOf(records, orderId, t) <==> RecordTypeOf(records, orderId) == Some(t)
    {
    }
  }

  lemma OrdersJudgedNext(a: Db, b: Db, seen: map<string, Order>, accounts: map<string, nat>, orderId: string, v: Order,
                         d: OrderStatus)
    requires OrdersJudged(a, b, seen, accounts) && (orderId in seen ==> seen[orderId] == v)
    requires d in {Success, Fail} && (MustFail(v, orderId, a.records, accounts) <==> d == Fail)
    requires MustSucceed(v, orderId, a.records, accounts) <==> d == Success
    ensures OrdersJudged(a, DecideOrder(b, orderId, d), seen[orderId := v], accounts)
  {
    hide MustFail, MustSucceed, Refundable;
    assert DecideOrder(b, orderId, d).orders
        == if orderId in b.orders && b.orders[orderId].status == Default
           then b.orders[orderId := b.orders[orderId].(status := d)] else b.orders;
    hide DecideOrder;
  }

  lemma OrdersNotJudged(a: Db, b: Db, seen: map<string, Order>, accounts: map<string, nat>, orderId: string, v: Order)
    requires OrdersJudged(a, b, seen, accounts) && (orderId in seen ==> seen[orderId] == v)
    requires !MustFail(v, orderId, a.records, accounts) && !MustSucceed(v, orderId, a.records, accounts)
    ensures OrdersJudged(a, b, seen[orderId := v], accounts)
  {
    hide MustFail, MustSucceed;
  }

  lemma PaymentsJudgedNext(a: Db, b: Db, seen: map<string, Order>, accounts: map<string, nat>, orderId: string,
                           v: Order)
    requires PaymentsJudged(a, b, seen, accounts) && (orderId in seen ==> seen[orderId] == v)
    ensures MustFail(v, orderId, a.records, accounts) ==>
              PaymentsJudged(a, DecideOrder(b, orderId, Fail), seen[orderId := v], accounts)
    ensures !MustFail(v, orderId, a.records, accounts) ==>
              && PaymentsJudged(a, DecideOrder(b, orderId, Success), seen[orderId := v], accounts)
              && PaymentsJudged(a, b, seen[orderId := v], accounts)
  {
    hide MustFail;
  }

  lemma JudgedNext(a: Db, b: Db, seen: map<string, Order>, accounts: map<string, nat>, orderId: string, v: Order)
    requires Judged(a, b, seen, accounts) && OneRow(a.records) && orderId != ""
    requires orderId in seen ==> seen[orderId] == v
    ensures var d := Decision(v.action, RecordTypeOf(b.records, orderId), v.accountId in accounts);
            Judged(a, if d.Some? then DecideOrder(b, orderId, d.value) else b, seen[orderId := v], accounts)
  {
    DecisionRead(v, orderId, a.records, accounts);
    var d := Decision(v.action, RecordTypeOf(b.records, orderId), v.accountId in accounts);
    if d.Some? {
      OrdersJudgedNext(a, b, seen, accounts, orderId, v, d.value);
    } else {
      OrdersNotJudged(a, b, seen, accounts, orderId, v);
    }
    PaymentsJudgedNext(a, b, seen, accounts, orderId, v);
    hide MustFail, MustSucceed, RecordTypeOf, Decision, OneRow, OrdersJudged, PaymentsJudged;
  }

  function Seen(list: seq<string>, orders: map<string, Order>): map<string, Order> {
    map o | o in list && o in orders :: orders[o]
  }

  lemma SeenNext(list: seq<string>, i: nat, orders: map<string, Order>)
    requires i < |list| && list[i] in orders
    ensures Seen(list[..i + 1], orders) == Seen(list[..i], orders)[list[i] := orders[list[i]]]
    ensures list[i] in Seen(list[..i], orders) ==> Seen(list[..i], orders)[list[i]] == orders[list[i]]
  {
  }

  /** The writes of the order check over a list, each decided from the record and account it reads. */
  ghost function CheckEvents(list: seq<string>, db: Db, accounts: map<string, nat>): seq<Event>
    requires forall i | 0 <= i < |list| :: list[i] in db.orders
    decreases |list|
  {
    if list == [] then []
    else
      var rest, orderId := CheckEvents(list[..|list| - 1], db, accounts), list[|list| - 1];
      var o := db.orders[orderId];
      var d := Decision(o.action, RecordTypeOf(db.records, orderId), o.accountId in accounts);
      if d.Some? then rest + [CheckWrite(orderId, d.value)] else rest
  }

  lemma NoneChecked(list: seq<string>, db: Db, accounts: map<string, nat>)
    ensures ApplyAll(db, CheckEvents(list[..0], db, accounts)) == db
    ensures Judged(db, db, Seen(list[..0], db.orders), accounts)
  {
  }

  lemma CheckNext(a: Db, b: Db, list: seq<string>, i: nat, accounts: map<string, nat>)
    requires i < |list| && list[i] != "" && OneRow(a.records)
    requires forall j | 0 <= j < |list| :: list[j] in a.orders
    requires b == ApplyAll(a, CheckEvents(list[..i], a, accounts)) && Judged(a, b, Seen(list[..i], a.orders), accounts)
    ensures var v := a.orders[list[i]];
            var d := Decision(v.action, RecordTypeOf(b.records, list[i]), v.accountId in accounts);
            var c := if d.Some? then DecideOrder(b, list[i], d.value) else b;
            && c == ApplyAll(a, CheckEvents(list[..i + 1], a, accounts))
            && Judged(a, c, Seen(list[..i + 1], a.orders), accounts)
  {
    var v := a.orders[list[i]];
    assert b.records == a.records;
    SeenNext(list, i, a.orders);
    CheckEventsNext(a, list, i, accounts);
    hide *;
    JudgedNext(a, b, Seen(list[..i], a.orders), accounts, list[i], v);
  }

  lemma CheckEventsNext(a: Db, list: seq<string>, i: nat, accounts: map<string, nat>)
    requires i < |list| && forall j | 0 <= j < |list| :: list[j] in a.orders
    ensures var v, before := a.orders[list[i]], ApplyAll(a, CheckEvents(list[..i], a, accounts));
            var d := Decision(v.action, RecordTypeOf(a.records, list[i]), v.accountId in accounts);
            ApplyAll(a, CheckEvents(list[..i + 1], a, accounts))
            == if d.Some? then DecideOrder(before, list[i], d.value) else before
  {
    assert list[..i + 1][..i] == list[..i];
    var v := a.orders[list[i]];
    var d := Decision(v.action, RecordTypeOf(a.records, list[i]), v.accountId in accounts);
    hide ApplyAll, DecideOrder, Decision, RecordTypeOf;
    if d.Some? {
      ApplyNext(a, CheckEvents(list[..i], a, accounts), CheckWrite(list[i], d.value));
    }
  }

  /** The transactions and the loops that issue them, on the tables themselves. */
  class DbDao {
    var orders: map<string, Order>
    var payments: map<string, Payment>
    var records: map<RecordKey, string>
    /** The parser's account table: each account's nonce. */
    var accounts: map<string, nat>

    ghost function Rows(): Db
      reads this
    {
      Db(orders, payments, records)
    }

    method UpdateOrderPayStatusOkWithSmtRecord(payHash: string, orderId: string, smtRecord: RecordKey)
        returns (rowsAffected: nat)
      requires Confirmable(Rows(), orderId, accounts) && Some(smtRecord) == RecordOf(orders[orderId], accounts)
      modifies this`orders, this`payments, this`records
      ensures Rows() == ConfirmPayment(old(Rows()), orderId, payHash, accounts)
      ensures rowsAffected == if old(orders)[orderId].paid then 0 else 1
    {
      rowsAffected := 0;
      if !orders[orderId].paid {
        orders := orders[orderId := orders[orderId].(paid := true)];
        rowsAffected := 1;
      }
      ConfirmPayHash(payHash, orderId);
      if rowsAffected == 0 {
        return;
      }
      if smtRecord !in records {
        records := records[smtRecord := orderId];
      }
    }

    method UpdateOrderPayStatusOkWithCoupon(payHash: string, orderId: string) returns (rowsAffected: nat)
      requires Confirmable(Rows(), orderId, accounts) && orders[orderId].action.CouponCreate?
      modifies this`orders, this`payments
      ensures Rows() == ConfirmPayment(old(Rows()), orderId, payHash, accounts)
      ensures rowsAffected == if old(orders)[orderId].paid then 0 else 1
    {
      rowsAffected := 0;
      if !orders[orderId].paid {
        orders := orders[orderId := orders[orderId].(paid := true, status := Success)];
        rowsAffected := 1;
      }
      ConfirmPayHash(payHash, orderId);
    }

    /** The payment table's part of both transactions. */
    method ConfirmPayHash(payHash: string, orderId: string)
      modifies this`payments
      ensures payments == ConfirmHash(old(payments), orderId, payHash)
    {
      if payHash !in payments {
        payments := payments[payHash := Payment(orderId, Confirmed, NoRefund)];
      }
      payments := payments[payHash := payments[payHash].(hashStatus := Confirmed)];
      payments := map h | h in payments ::
        if payments[h].orderId == orderId && h != payHash && payments[h].hashStatus == Pending
        then payments[h].(hashStatus := Rejected) else payments[h];
    }

    method DoPaymentConfirm(orderId: string, payHash: string) returns (ok: bool)
      modifies this`orders, this`payments, this`records
      ensures Rows() == ConfirmPayment(old(Rows()), orderId, payHash, accounts)
      ensures ok <==> Confirmable(old(Rows()), orderId, accounts)
    {
      if orderId !in orders {
        return false;
      }
      var order := orders[orderId];
      match order.action {
        case Mint =>
          if !order.valid {
            return false;
          }
          var rows :=
            UpdateOrderPayStatusOkWithSmtRecord(payHash, orderId, RecordKey(order.accountId, 0, RecordDefault, 0));
        case Renew =>
          if order.accountId !in accounts {
            return false;
          }
          var nonce := accounts[order.accountId] + 1;
          var rows :=
            UpdateOrderPayStatusOkWithSmtRecord(payHash, orderId, RecordKey(order.accountId, nonce, RecordDefault, 0));
        case CouponCreate =>
          if !order.valid {
            return false;
          }
          var rows := UpdateOrderPayStatusOkWithCoupon(payHash, orderId);
      }
      return true;
    }

    method UpdatePayHashStatusToFailByDispute(payHash: string, orderId: string)
      modifies this`orders, this`payments
      ensures Rows() == MarkDisputed(old(Rows()), payHash, orderId)
    {
      if orderId in orders && orders[orderId].paid {
        orders := orders[orderId := orders[orderId].(status := Fail)];
      }
      if payHash in payments && payments[payHash].orderId == orderId && payments[payHash].hashStatus == Confirmed {
        payments := payments[payHash := payments[payHash].(hashStatus := FailByDispute)];
      }
    }

    /** The same transaction decides mints and renewals. */
    method UpdateOrderStatusForCheck(orderId: string, newStatus: OrderStatus)
      modifies this`orders, this`payments
      ensures Rows() == DecideOrder(old(Rows()), orderId, newStatus)
    {
      if orderId in orders && orders[orderId].status == Default {
        orders := orders[orderId := orders[orderId].(status := newStatus)];
      }
      if newStatus == Fail {
        payments := map h | h in payments ::
          if Refundable(payments[h], orderId) then payments[h].(refund := UnRefund) else payments[h];
      }
    }

    method GetSmtRecordByOrderId(orderId: string) returns (r: Option<RecordType>)
      requires OneRow(records) && orderId != ""
      ensures r == RecordTypeOf(records, orderId)
    {
      var todo := records.Keys;
      while todo != {}
        invariant todo <= records.Keys && forall k | k in records && k !in todo :: records[k] != orderId
      {
        var k :| k in todo;
        if records[k] == orderId {
          return Some(k.recordType);
        }
        todo := todo - {k};
      }
      return None;
    }

    /** The loop body of the order check. */
    method CheckOrder(orderId: string, v: Order)
      requires OneRow(records) && orderId != ""
      modifies this`orders, this`payments
      ensures var d := Decision(v.action, RecordTypeOf(records, orderId), v.accountId in accounts);
              Rows() == if d.Some? then DecideOrder(old(Rows()), orderId, d.value) else old(Rows())
      ensures Judged(old(Rows()), Rows(), map[orderId := v], accounts)
    {
      JudgedNext(Rows(), Rows(), map[], accounts, orderId, v);
      hide DecideOrder, RecordTypeOf;
      match v.action {
        case Mint =>
          var smtRecord := GetSmtRecordByOrderId(orderId);
          if v.accountId !in accounts {
            return;
          }
          var newStatus := Success;
          if smtRecord == None || smtRecord == Some(RecordClosed) {
            newStatus := Fail;
          }
          UpdateOrderStatusForCheck(orderId, newStatus);
        case Renew =>
          if v.accountId !in accounts {
            return;
          }
          var smtRecord := GetSmtRecordByOrderId(orderId);
          if smtRecord == None {
            return;
          }
          if smtRecord == Some(RecordDefault) {
            return;
          }
          var newStatus := Success;
          if smtRecord == Some(RecordClosed) {
            newStatus := Fail;
          }
          UpdateOrderStatusForCheck(orderId, newStatus);
        case CouponCreate =>
      }
    }

    /** `list` is what the query returned: undecided paid orders, at most a hundred. */
    method DoOrderCheck(list: seq<string>)
      requires forall i | 0 <= i < |list| :: list[i] in orders && list[i] != "" && NeedCheck(orders[list[i]])
      requires OneRow(records)
      modifies this`orders, this`payments
      ensures Rows() == ApplyAll(old(Rows()), CheckEvents(list, old(Rows()), accounts))
      ensures Judged(old(Rows()), Rows(), Seen(list, old(orders)), accounts)
    {
      var rows := orders;
      NoneChecked(list, Rows(), accounts);
      hide ApplyAll, DecideOrder, Decision, RecordTypeOf, Judged, Seen, CheckEvents, OneRow, NeedCheck;
      for i := 0 to |list|
        invariant records == old(records)
        invariant Rows() == ApplyAll(old(Rows()), CheckEvents(list[..i], old(Rows()), accounts))
        invariant Judged(old(Rows()), Rows(), Seen(list[..i], old(orders)), accounts)
      {
        CheckNext(old(Rows()), Rows(), list, i, accounts);
        CheckOrder(list[i], rows[list[i]]);
      }
      assert list[..|list|] == list;
    }

    method UpdateRefundStatusToRefundIng(ids: set<string>)
      modifies this`payments
      ensures Rows() == MarkRefunding(old(Rows()), ids)
    {
      payments := map h | h in payments ::
        if h in ids && payments[h].hashStatus == Confirmed && payments[h].refund == UnRefund
        then payments[h].(refund := Refunding) else payments[h];
    }

    method UpdateRefundStatusToRefunded(payHash: string, orderId: string)
      modifies this`payments
      ensures Rows() == MarkRefunded(old(Rows()), payHash, orderId)
    {
      if payHash in payments && payments[payHash].orderId == orderId {
        if payments[payHash].hashStatus == Confirmed && payments[payHash].refund == Refunding {
          payments := payments[payHash := payments[payHash].(refund := Refunded)];
        }
      }
    }

    /** The loop body of the notice handler. */
    method HandleNotice(v: Notice)
      modifies this`orders, this`payments, this`records
      ensures var e := NoticeEvent(v, accounts);
              Rows() == if e.Some? then ApplyDb(old(Rows()), e.value) else old(Rows())
    {
      hide ConfirmPayment, MarkRefunded, MarkDisputed;
      match v.kind {
        case OrderPay => var ok := DoPaymentConfirm(v.orderId, v.payHash);
        case OrderRefund => UpdateRefundStatusToRefunded(v.payHash, v.orderId);
        case PaymentDispute => UpdatePayHashStatusToFailByDispute(v.payHash, v.orderId);
        case Invalid =>
      }
    }

    method DoUniPayNotice(eventList: seq<Notice>)
      modifies this`orders, this`payments, this`records
      ensures Rows() == ApplyAll(old(Rows()), NoticeEvents(eventList, accounts))
    {
      for i := 0 to |eventList|
        invariant Rows() == ApplyAll(old(Rows()), NoticeEvents(eventList[..i], accounts))
      {
        hide *;
        NoticeNext(old(Rows()), eventList, i, accounts);
        HandleNotice(eventList[i]);
      }
      assert eventList[..|eventList|] == eventList;
    }

    /** The rows of the wanted hashes whose status is pending, as the order ids asked about. */
    method GetPayHashStatusPendingList(recent: seq<string>) returns (orderIds: seq<string>)
      ensures orderIds == PendingOrders(payments, recent)
    {
      orderIds := [];
      for i := 0 to |recent|
        invariant orderIds == PendingOrders(payments, recent[..i])
      {
        assert recent[..i + 1][..i] == recent[..i];
        if recent[i] in payments && payments[recent[i]].hashStatus == Pending {
          orderIds := orderIds + [payments[recent[i]].orderId];
        }
      }
      assert recent[..|recent|] == recent;
    }

    /** The queries for payments to refund and for payments being refunded. */
    method GetListByRefundStatus(recent: seq<string>, refund: RefundStatus) returns (payHashes: seq<string>)
      ensures payHashes == HashesWith(payments, recent, refund)
    {
      payHashes := [];
      for i := 0 to |recent|
        invariant payHashes == HashesWith(payments, recent[..i], refund)
      {
        assert recent[..i + 1][..i] == recent[..i];
        if recent[i] in payments && payments[recent[i]].hashStatus == Confirmed
          && payments[recent[i]].refund == refund {
          payHashes := payHashes + [recent[i]];
        }
      }
      assert recent[..|recent|] == recent;
    }

    /** `recent` are the hashes inside the time windows of the two queries, `reports` the service's answer. */
    method DoConfirmStatus(recent: seq<string>, reports: seq<Report>)
      modifies this`orders, this`payments, this`records
      ensures Rows() == ApplyAll(old(Rows()),
                          AllConfirmEvents(PendingOrders(old(payments), recent), reports, accounts)
                          + RefundedEvents(HashesWith(old(payments), recent, Refunding), reports))
    {
      var pendingList := GetPayHashStatusPendingList(recent);
      var payHashList := GetListByRefundStatus(recent, Refunding);
      if |pendingList| == 0 && |payHashList| == 0 {
        return;
      }
      var orderIdMap, payHashMap := IndexReports(reports);
      ConfirmPending(pendingList, reports, orderIdMap);
      ghost var confirms := AllConfirmEvents(pendingList, reports, accounts);
      ConfirmRefunded(payHashList, reports, payHashMap, old(Rows()), confirms);
    }

    /** The loop over the pending list. */
    method ConfirmPending(pendingList: seq<string>, ghost reports: seq<Report>, orderIdMap: map<string, seq<Report>>)
      requires forall o :: ReportsOf(o, reports) == if o in orderIdMap then orderIdMap[o] else []
      modifies this`orders, this`payments, this`records
      ensures Rows() == ApplyAll(old(Rows()), AllConfirmEvents(pendingList, reports, accounts))
    {
      for i := 0 to |pendingList|
        invariant Rows() == ApplyAll(old(Rows()), AllConfirmEvents(pendingList[..i], reports, accounts))
      {
        hide ReportsOf, ApplyAll, ConfirmPayment, ConfirmEvents, AllConfirmEvents;
        NextPending(pendingList, i, reports, accounts);
        ghost var done := AllConfirmEvents(pendingList[..i], reports, accounts);
        if pendingList[i] in orderIdMap {
          ConfirmReported(orderIdMap[pendingList[i]], old(Rows()), done);
        }
      }
      assert pendingList[..|pendingList|] == pendingList;
    }

    /** The loop over the hashes being refunded. */
    method ConfirmRefunded(payHashList: seq<string>, ghost reports: seq<Report>, payHashMap: map<string, Report>,
                           ghost db: Db, ghost done: seq<Event>)
      requires forall h :: LastReport(h, reports) == if h in payHashMap then Some(payHashMap[h]) else None
      requires Rows() == ApplyAll(db, done)
      modifies this`payments
      ensures Rows() == ApplyAll(db, done + RefundedEvents(payHashList, reports))
    {
      hide MarkRefunded, ApplyAll, LastReport;
      assert done + [] == done;
      for i := 0 to |payHashList|
        invariant Rows() == ApplyAll(db, done + RefundedEvents(payHashList[..i], reports))
      {
        var v := payHashList[i];
        assert payHashList[..i + 1][..i] == payHashList[..i];
        ghost var before := RefundedEvents(payHashList[..i], reports);
        if v in payHashMap && payHashMap[v].refund == Refunded {
          ghost var e := RefundedEvent(payHashMap[v].payHash, payHashMap[v].orderId);
          ApplyNext(db, done + before, e);
          assert done + before + [e] == done + (before + [e]);
          UpdateRefundStatusToRefunded(payHashMap[v].payHash, payHashMap[v].orderId);
        }
      }
      assert payHashList[..|payHashList|] == payHashList;
    }

    /** The inner loop over the payments reported for one pending order. */
    method ConfirmReported(paymentInfoList: seq<Report>, ghost db: Db, ghost done: seq<Event>)
      requires Rows() == ApplyAll(db, done)
      modifies this`orders, this`payments, this`records
      ensures Rows() == ApplyAll(db, done + ConfirmEvents(paymentInfoList, accounts))
    {
      assert done + [] == done;
      for i := 0 to |paymentInfoList|
        invariant Rows() == ApplyAll(db, done + ConfirmEvents(paymentInfoList[..i], accounts))
      {
        hide *;
        var v := paymentInfoList[i];
        ConfirmNext(db, done, paymentInfoList, i, accounts);
        if v.hashStatus == Confirmed {
          var ok := DoPaymentConfirm(v.orderId, v.payHash);
        }
      }
      assert paymentInfoList[..|paymentInfoList|] == paymentInfoList;
    }

    static method IndexReports(reports: seq<Report>)
        returns (orderIdMap: map<string, seq<Report>>, payHashMap: map<string, Report>)
      ensures forall o :: ReportsOf(o, reports) == if o in orderIdMap then orderIdMap[o] else []
      ensures forall h :: LastReport(h, reports) == if h in payHashMap then Some(payHashMap[h]) else None
    {
      orderIdMap, payHashMap := map[], map[];
      for i := 0 to |reports|
        invariant forall o :: ReportsOf(o, reports[..i]) == if o in orderIdMap then orderIdMap[o] else []
        invariant forall h :: LastReport(h, reports[..i]) == if h in payHashMap then Some(payHashMap[h]) else None
      {
        var v := reports[i];
        assert reports[..i + 1][..i] == reports[..i];
        orderIdMap := orderIdMap[v.orderId := (if v.orderId in orderIdMap then orderIdMap[v.orderId] else []) + [v]];
        payHashMap := payHashMap[v.payHash := v];
      }
      assert reports[..|reports|] == reports;
    }

    /** `called` is whether the payment service took the refund request. */
    method DoRefund(recent: seq<string>, refundSwitch: bool, called: bool)
      modifies this`payments
      ensures Rows() == if refundSwitch && called
                        then MarkRefunding(old(Rows()), set h | h in HashesWith(old(payments), recent, UnRefund))
                        else old(Rows())
    {
      if !refundSwitch {
        return;
      }
      var list := GetListByRefundStatus(recent, UnRefund);
      var ids: set<string> := {};
      for i := 0 to |list|
        invariant ids == set h | h in list[..i]
      {
        ids := ids + {list[i]};
      }
      assert list[..|list|] == list;
      if !called {
        return;
      }
      UpdateRefundStatusToRefundIng(ids);
    }
  }
}
