/** What the transactions and loops over orders and payments do, read off the rows before and after. */
module PaymentEffects {
  import opened Tables
  import opened Wrappers
  import opened Payments

  /**
    A confirmation that goes through pays the order and confirms its hash; the order's other pending hashes are
    rejected, and no other row of either table changes.
   */
  lemma ConfirmationPays(db: Db, orderId: string, payHash: string, accounts: map<string, nat>)
    requires orderId in db.orders
    requires db.orders[orderId].action.Renew? ==> db.orders[orderId].accountId in accounts
    requires !db.orders[orderId].action.Renew? ==> db.orders[orderId].valid
    ensures var o, after := db.orders[orderId], ConfirmPayment(db, orderId, payHash, accounts);
            && after.orders == db.orders[orderId :=
                 o.(paid := true, status := if !o.paid && o.action == CouponCreate then Success else o.status)]
            && after.payments.Keys == db.payments.Keys + {payHash}
            && after.payments[payHash] == (if payHash in db.payments then db.payments[payHash].(hashStatus := Confirmed)
                                           else Payment(orderId, Confirmed, NoRefund))
            && forall h | h in db.payments && h != payHash ::
               after.payments[h] ==
                 if db.payments[h].orderId == orderId && db.payments[h].hashStatus == Pending
                 then Payment(orderId, Rejected, db.payments[h].refund) else db.payments[h]
  {
  }

  /**
    The first confirmation of a mint creates the account's record at nonce 0, that of a renewal the record one past
    the account's nonce; a later one, and one of a coupon order, creates none.
   */
  lemma ConfirmationRecords(db: Db, orderId: string, payHash: string, accounts: map<string, nat>)
    requires orderId in db.orders
    ensures var o, after := db.orders[orderId], ConfirmPayment(db, orderId, payHash, accounts);
            var mint := RecordKey(o.accountId, 0, RecordDefault, 0);
            && (o.action == Mint && !o.paid && o.valid ==>
                  after.records == if mint in db.records then db.records else db.records[mint := orderId])
            && (o.action == Renew && !o.paid && o.accountId in accounts ==>
                  var next := RecordKey(o.accountId, accounts[o.accountId] + 1, RecordDefault, 0);
                  after.records == if next in db.records then db.records else db.records[next := orderId])
            && (o.paid || o.action == CouponCreate ==> after.records == db.records)
            && (o.action == Renew && o.accountId !in accounts ==> after == db)
            && (o.action != Renew && !o.valid ==> after == db)
  {
    hide ConfirmHash;
  }

  // ---------- polling ----------

  /** A confirmed payment of the order is reported, and one of its pending hashes was asked about. */
  ghost predicate ReportedPaid(db: Db, recent: seq<string>, reports: seq<Report>, orderId: string) {
    && (exists h :: h in recent && h in db.payments && db.payments[h].hashStatus == Pending
                    && db.payments[h].orderId == orderId)
    && (exists r :: r in reports && r.orderId == orderId && r.hashStatus == Confirmed)
  }

  /** The last report about the hash says that it is refunded, for the order the payment is for. */
  ghost predicate ReportedRefunded(reports: seq<Report>, payHash: string, orderId: string) {
    exists i :: 0 <= i < |reports| && reports[i].payHash == payHash && reports[i].orderId == orderId
      && reports[i].refund == Refunded && forall j | i < j < |reports| :: reports[j].payHash != payHash
  }

  lemma {:induction false} PendingOrdersAre(payments: map<string, Payment>, recent: seq<string>, orderId: string)
    ensures orderId in PendingOrders(payments, recent) <==>
            exists h :: h in recent && h in payments && payments[h].hashStatus == Pending
              && payments[h].orderId == orderId
    decreases |recent|
  {
    if recent != [] {
      PendingOrdersAre(payments, recent[..|recent| - 1], orderId);
      assert recent == recent[..|recent| - 1] + [recent[|recent| - 1]];
    }
  }

  lemma {:induction false} HashesWithAre(payments: map<string, Payment>, recent: seq<string>, refund: RefundStatus,
                                         h: string)
    ensures h in HashesWith(payments, recent, refund) <==>
            h in recent && h in payments && payments[h].hashStatus == Confirmed && payments[h].refund == refund
    decreases |recent|
  {
    if recent != [] {
      HashesWithAre(payments, recent[..|recent| - 1], refund, h);
      assert recent == recent[..|recent| - 1] + [recent[|recent| - 1]];
    }
  }

  lemma {:induction false} ReportsOfAre(orderId: string, reports: seq<Report>, r: Report)
    ensures r in ReportsOf(orderId, reports) <==> r in reports && r.orderId == orderId
    decreases |reports|
  {
    if reports != [] {
      ReportsOfAre(orderId, reports[..|reports| - 1], r);
      assert reports == reports[..|reports| - 1] + [reports[|reports| - 1]];
    }
  }

  lemma {:induction false} ConfirmEventsAre(list: seq<Report>, accounts: map<string, nat>, e: Event)
    ensures e in ConfirmEvents(list, accounts) <==>
            exists r :: r in list && r.hashStatus == Confirmed && e == ConfirmEvent(r.orderId, r.payHash, accounts)
    decreases |list|
  {
    if list != [] {
      ConfirmEventsAre(list[..|list| - 1], accounts, e);
      assert list == list[..|list| - 1] + [list[|list| - 1]];
    }
  }

  lemma {:induction false} AllConfirmEventsAre(pending: seq<string>, reports: seq<Report>, accounts: map<string, nat>,
                                               e: Event)
    ensures e in AllConfirmEvents(pending, reports, accounts) <==>
            exists r :: r in reports && r.orderId in pending && r.hashStatus == Confirmed
              && e == ConfirmEvent(r.orderId, r.payHash, accounts)
    decreases |pending|
  {
    if pending != [] {
      var rest, o := pending[..|pending| - 1], pending[|pending| - 1];
      AllConfirmEventsAre(rest, reports, accounts, e);
      assert pending == rest + [o];
      ConfirmEventsAre(ReportsOf(o, reports), accounts, e);
      forall r: Report
        ensures r in ReportsOf(o, reports) <==> r in reports && r.orderId == o
      {
        ReportsOfAre(o, reports, r);
      }
    }
  }

  /** Whether a confirmation of the order gets as far as its transaction, from the order's columns. */
  ghost predicate CanConfirm(db: Db, orderId: string, accounts: map<string, nat>) {
    && orderId in db.orders
    && (db.orders[orderId].action == Renew ==> db.orders[orderId].accountId in accounts)
    && (db.orders[orderId].action in {Mint, CouponCreate} ==> db.orders[orderId].valid)
  }

  ghost predicate AllConfirm(events: seq<Event>, accounts: map<string, nat>) {
    forall e | e in events :: e.ConfirmEvent? && e.accounts == accounts
  }

  /** After a sequence of confirmations exactly the orders that were paid, or could be confirmed and were, are paid. */
  lemma {:induction false} ConfirmedArePaid(db: Db, events: seq<Event>, accounts: map<string, nat>, orderId: string)
    requires AllConfirm(events, accounts) && orderId in db.orders
    ensures var after := ApplyAll(db, events);
            && orderId in after.orders
            && after.orders[orderId].(paid := db.orders[orderId].paid, status := db.orders[orderId].status)
               == db.orders[orderId]
            && (after.orders[orderId].paid <==>
                  db.orders[orderId].paid
                  || (CanConfirm(db, orderId, accounts)
                      && exists e :: e in events && e.ConfirmEvent? && e.orderId == orderId))
    decreases |events|
  {
    if events != [] {
      var rest, last := events[..|events| - 1], events[|events| - 1];
      assert events == rest + [last];
      ConfirmedArePaid(db, rest, accounts, orderId);
      assert last.ConfirmEvent? && last.accounts == accounts;
      hide ApplyAll, ConfirmHash, RecordOf, CreatesRecord;
      var mid := ApplyAll(db, rest);
      ApplyNext(db, rest, last);
    }
  }

  /** A sequence of confirmations leaves every payment's order and refund, and no confirmed hash is unconfirmed. */
  lemma {:induction false} ConfirmedStay(db: Db, events: seq<Event>, accounts: map<string, nat>, h: string)
    requires AllConfirm(events, accounts) && h in db.payments
    ensures var before, after := db.payments[h], ApplyAll(db, events).payments;
            && h in after && after[h].orderId == before.orderId && after[h].refund == before.refund
            && (before.hashStatus == Confirmed ==> after[h].hashStatus == Confirmed)
    decreases |events|
  {
    if events != [] {
      var rest, last := events[..|events| - 1], events[|events| - 1];
      assert events == rest + [last];
      ConfirmedStay(db, rest, accounts, h);
      assert last.ConfirmEvent?;
      hide ApplyAll, PayOrder, RecordOf, CreatesRecord;
      ApplyNext(db, rest, last);
    }
  }

  lemma {:induction false} RefundedEventsAre(refunding: seq<string>, reports: seq<Report>, e: Event)
    ensures e in RefundedEvents(refunding, reports) <==>
            e.RefundedEvent? && e.payHash in refunding && ReportedRefunded(reports, e.payHash, e.orderId)
    decreases |refunding|
  {
    if refunding != [] {
      var rest, h := refunding[..|refunding| - 1], refunding[|refunding| - 1];
      RefundedEventsAre(rest, reports, e);
      assert refunding == rest + [h];
      forall o: string
        ensures ReportedRefunded(reports, h, o) <==>
                LastReport(h, reports).Some? && LastReport(h, reports).value.refund == Refunded
                && LastReport(h, reports).value.orderId == o
      {
        LastReportIs(h, o, reports);
      }
      LastReportHash(h, reports);
    }
  }

  lemma {:induction false} LastReportHash(h: string, reports: seq<Report>)
    ensures LastReport(h, reports).Some? ==> LastReport(h, reports).value.payHash == h
    decreases |reports|
  {
    if reports != [] {
      LastReportHash(h, reports[..|reports| - 1]);
    }
  }

  lemma {:induction false} LastReportIs(h: string, orderId: string, reports: seq<Report>)
    ensures ReportedRefunded(reports, h, orderId) <==>
            LastReport(h, reports).Some? && LastReport(h, reports).value.refund == Refunded
            && LastReport(h, reports).value.orderId == orderId
    decreases |reports|
  {
    if reports != [] {
      var n := |reports| - 1;
      LastReportIs(h, orderId, reports[..n]);
      if reports[n].payHash == h {
        assert reports[n].refund == Refunded && reports[n].orderId == orderId ==> ReportedRefunded(reports, h, orderId);
      } else {
        assert forall i | 0 <= i < n :: reports[..n][i] == reports[i];
        assert ReportedRefunded(reports, h, orderId) ==> ReportedRefunded(reports[..n], h, orderId);
        assert ReportedRefunded(reports[..n], h, orderId) ==> ReportedRefunded(reports, h, orderId);
      }
    }
  }

  ghost predicate AllRefunded(events: seq<Event>) {
    forall e | e in events :: e.RefundedEvent?
  }

  lemma RefundStep(db: Db, e: Event, h: string)
    requires e.RefundedEvent?
    ensures ApplyDb(db, e).orders == db.orders && ApplyDb(db, e).records == db.records
    ensures h in db.payments ==>
              var p := db.payments[h];
              && h in ApplyDb(db, e).payments
              && ApplyDb(db, e).payments[h] ==
                 if p.hashStatus == Confirmed && p.refund == Refunding && e == RefundedEvent(h, p.orderId)
                 then p.(refund := Refunded) else p
  {
  }

  lemma {:induction false} RefundedAre(db: Db, done: seq<Event>, events: seq<Event>, h: string)
    requires AllRefunded(events) && h in ApplyAll(db, done).payments
    ensures var mid, after := ApplyAll(db, done), ApplyAll(db, done + events);
            && after.orders == mid.orders && after.records == mid.records && h in after.payments
            && var p := mid.payments[h];
            after.payments[h] ==
                 if p.hashStatus == Confirmed && p.refund == Refunding && RefundedEvent(h, p.orderId) in events
                 then p.(refund := Refunded) else p
    decreases |events|
  {
    if events == [] {
      assert done + events == done;
    } else {
      var rest, last := events[..|events| - 1], events[|events| - 1];
      assert events == rest + [last] && done + events == done + rest + [last];
      RefundedAre(db, done, rest, h);
      assert last.RefundedEvent?;
      hide ApplyAll, ApplyDb;
      ApplyNext(db, done + rest, last);
      RefundStep(ApplyAll(db, done + rest), last, h);
    }
  }

  /** The rows after one polling, given the hashes in its time windows and the payment service's answer. */
  function Polled(db: Db, recent: seq<string>, reports: seq<Report>, accounts: map<string, nat>): Db {
    ApplyAll(db, AllConfirmEvents(PendingOrders(db.payments, recent), reports, accounts)
                 + RefundedEvents(HashesWith(db.payments, recent, Refunding), reports))
  }

  lemma PollingParts(db: Db, recent: seq<string>, reports: seq<Report>, accounts: map<string, nat>)
    ensures var confirms := AllConfirmEvents(PendingOrders(db.payments, recent), reports, accounts);
            var refunds := RefundedEvents(HashesWith(db.payments, recent, Refunding), reports);
            && AllConfirm(confirms, accounts) && AllRefunded(refunds)
            && (forall h, o :: RefundedEvent(h, o) in refunds <==>
                  && h in recent && h in db.payments && db.payments[h].hashStatus == Confirmed
                  && db.payments[h].refund == Refunding && ReportedRefunded(reports, h, o))
            && (forall o :: ReportedPaid(db, recent, reports, o) <==>
                  exists e :: e in confirms && e.ConfirmEvent? && e.orderId == o)
  {
    var pending, refunding := PendingOrders(db.payments, recent), HashesWith(db.payments, recent, Refunding);
    forall e: Event
      ensures e in AllConfirmEvents(pending, reports, accounts) <==>
              exists r :: r in reports && r.orderId in pending && r.hashStatus == Confirmed
                && e == ConfirmEvent(r.orderId, r.payHash, accounts)
      ensures e in RefundedEvents(refunding, reports) <==>
              e.RefundedEvent? && e.payHash in refunding && ReportedRefunded(reports, e.payHash, e.orderId)
    {
      AllConfirmEventsAre(pending, reports, accounts, e);
      RefundedEventsAre(refunding, reports, e);
    }
    forall o: string
      ensures o in pending <==>
              exists h :: h in recent && h in db.payments && db.payments[h].hashStatus == Pending
                && db.payments[h].orderId == o
      ensures o in refunding <==>
              o in recent && o in db.payments && db.payments[o].hashStatus == Confirmed
              && db.payments[o].refund == Refunding
    {
      PendingOrdersAre(db.payments, recent, o);
      HashesWithAre(db.payments, recent, Refunding, o);
    }
    hide PendingOrders, HashesWith, AllConfirmEvents, RefundedEvents, ReportedRefunded;
    var confirms := AllConfirmEvents(pending, reports, accounts);
    forall o: string
      ensures ReportedPaid(db, recent, reports, o) <==> exists e :: e in confirms && e.ConfirmEvent? && e.orderId == o
    {
      if ReportedPaid(db, recent, reports, o) {
        var r :| r in reports && r.orderId == o && r.hashStatus == Confirmed;
        assert ConfirmEvent(r.orderId, r.payHash, accounts) in confirms;
      }
    }
  }

  /**
    An order is paid after polling exactly when it was, or it can be confirmed, a pending hash of it was asked about
    and a confirmed payment of it was reported.
   */
  lemma PollingPaysIff(db: Db, recent: seq<string>, reports: seq<Report>, accounts: map<string, nat>, orderId: string)
    requires orderId in db.orders
    ensures var after := Polled(db, recent, reports, accounts);
            && orderId in after.orders
            && (after.orders[orderId].paid <==>
                  db.orders[orderId].paid
                  || (CanConfirm(db, orderId, accounts) && ReportedPaid(db, recent, reports, orderId)))
  {
    var confirms := AllConfirmEvents(PendingOrders(db.payments, recent), reports, accounts);
    var refunds := RefundedEvents(HashesWith(db.payments, recent, Refunding), reports);
    PollingParts(db, recent, reports, accounts);
    ConfirmedArePaid(db, confirms, accounts, orderId);
    RefundsLeaveOrders(db, confirms, refunds);
    hide ApplyAll, CanConfirm, ReportedPaid;
  }

  lemma {:induction false} RefundsLeaveOrders(db: Db, done: seq<Event>, events: seq<Event>)
    requires AllRefunded(events)
    ensures ApplyAll(db, done + events).orders == ApplyAll(db, done).orders
    decreases |events|
  {
    if events == [] {
      assert done + events == done;
    } else {
      var rest, last := events[..|events| - 1], events[|events| - 1];
      assert events == rest + [last] && done + events == done + rest + [last];
      RefundsLeaveOrders(db, done, rest);
      assert last.RefundedEvent?;
      hide ApplyAll, ApplyDb;
      ApplyNext(db, done + rest, last);
      RefundStep(ApplyAll(db, done + rest), last, "");
    }
  }

  /**
    A payment is newly refunded by polling exactly when it was confirmed, being refunded and asked about, and the last
    report about it says it is refunded for its order; every other refund stays at its stage.
   */
  lemma PollingRefundsIff(db: Db, recent: seq<string>, reports: seq<Report>, accounts: map<string, nat>, h: string)
    requires h in db.payments
    ensures var p, after := db.payments[h], Polled(db, recent, reports, accounts);
            && h in after.payments && after.payments[h].orderId == p.orderId
            && after.payments[h].refund ==
               if h in recent && p.hashStatus == Confirmed && p.refund == Refunding
                  && ReportedRefunded(reports, h, p.orderId)
               then Refunded else p.refund
  {
    var confirms := AllConfirmEvents(PendingOrders(db.payments, recent), reports, accounts);
    var refunds := RefundedEvents(HashesWith(db.payments, recent, Refunding), reports);
    PollingParts(db, recent, reports, accounts);
    ConfirmedStay(db, confirms, accounts, h);
    RefundedAre(db, confirms, refunds, h);
    hide ApplyAll, ReportedPaid, ReportedRefunded;
  }

  /** The refund loop marks exactly the confirmed payments in its window that wait for their refund. */
  lemma RefundLoopMarks(db: Db, recent: seq<string>, h: string)
    requires h in db.payments
    ensures var p := db.payments[h];
            var after := MarkRefunding(db, set x | x in HashesWith(db.payments, recent, UnRefund));
            && h in after.payments
            && after.payments[h] ==
               if h in recent && p.hashStatus == Confirmed && p.refund == UnRefund then p.(refund := Refunding) else p
  {
    HashesWithAre(db.payments, recent, UnRefund, h);
  }

  /**
    One notice: a payment pays its order and confirms its hash; a refund ends the refund under way of that hash and
    order; a dispute fails the order if it is paid and the hash if it is its and confirmed; others do nothing.
   */
  lemma NoticeEffects(db: Db, v: Notice, accounts: map<string, nat>)
    ensures var e := NoticeEvent(v, accounts);
            var after := if e.Some? then ApplyDb(db, e.value) else db;
            && (v.kind == OrderPay && CanConfirm(db, v.orderId, accounts) ==>
                  && after.orders[v.orderId].paid
                  && v.payHash in after.payments && after.payments[v.payHash].hashStatus == Confirmed)
            && (v.kind == OrderRefund ==>
                  && after.orders == db.orders
                  && after.payments ==
                       if v.payHash in db.payments && db.payments[v.payHash] == Payment(v.orderId, Confirmed, Refunding)
                       then db.payments[v.payHash := Payment(v.orderId, Confirmed, Refunded)] else db.payments)
            && (v.kind == PaymentDispute ==>
                  && after.orders ==
                       (if v.orderId in db.orders && db.orders[v.orderId].paid
                        then db.orders[v.orderId := db.orders[v.orderId].(status := Fail)] else db.orders)
                  && after.payments ==
                       if v.payHash in db.payments && db.payments[v.payHash].hashStatus == Confirmed
                          && db.payments[v.payHash].orderId == v.orderId
                       then db.payments[v.payHash := db.payments[v.payHash].(hashStatus := FailByDispute)]
                       else db.payments)
            && (v.kind == Invalid || (v.kind == OrderPay && !CanConfirm(db, v.orderId, accounts)) ==> after == db)
  {
    hide RecordOf, CreatesRecord;
  }
}
