/** Refund accounting under stale reads. */
module RefundProofs {
  import opened Rows
  import opened PaymentTransactions
  import opened Invariants
  import opened TableProofs
  import opened BookingProofs
  import PP = PaymentPolicy

  /**
   * What a caller about to open a refund still knows of the payment it read:
   * a requested refund targets collected money; a late one targets, in full, a
   * payment that was lost or that already has money held by refunds.
   */
  ghost predicate RefundReady(db: Db, p: Id, seen: PP.Status, amount: int, origin: PP.Origin) {
    && p in db.payments && db.payments[p].online
    && if origin.Automatic? then LateReady(db.payments[p], amount)
       else PP.Collected(db.payments[p].status) && PP.Refundable(seen)
  }

  ghost predicate LateReady(pay: Payment, amount: int) {
    amount == pay.amount && (PP.Lost(pay.status) || PP.Held(pay.refunds) > 0)
  }

  /** What a caller about to settle refund `i` still knows. */
  ghost predicate SettleReady(db: Db, p: Id, i: nat, skip: bool) {
    && p in db.payments && i < |db.payments[p].refunds|
    && (if skip then PP.Lost(db.payments[p].status) || db.payments[p].refunds[i].status != PP.Requested
        else PP.Collected(db.payments[p].status))
  }

  // ---------------------------------------------------------------------
  // One payment row
  // ---------------------------------------------------------------------

  /** A row as executeRefund leaves it. */
  function WithRefund(pay: Payment, status: PP.Status, amount: int, origin: PP.Origin, at: int): Payment {
    pay.(status := status, refunds := pay.refunds + [PP.Refund(PP.Requested, amount, origin, at)])
  }

  lemma RequestedRefundOpens(pay: Payment, seen: PP.Status, amount: int, origin: PP.Origin, at: int)
    requires PaymentOk(pay) && PP.Collected(pay.status) && PP.Refundable(seen)
    requires !PP.SomeRequested(pay.refunds) && 0 < amount <= PP.AvailableRefundable(pay.amount, pay.refunds)
    requires pay.online && origin.OnRequest?
    ensures PP.Refundable(pay.status)
    ensures PaymentOk(WithRefund(pay, PP.RefundPending, amount, origin, at))
    ensures PaymentEvolves(pay, WithRefund(pay, PP.RefundPending, amount, origin, at))
  {
    var q := WithRefund(pay, PP.RefundPending, amount, origin, at);
    PP.HeldSplits(pay.refunds);
    PP.HeldAppend(pay.refunds, PP.Refund(PP.Requested, amount, origin, at));
    assert forall i :: 0 <= i < |pay.refunds| ==> pay.refunds[i].status != PP.Requested;
    assert q.refunds[|pay.refunds|].status == PP.Requested;
  }

  /** Every refund row of a sound payment holds or has taken money. */
  lemma AllCount(pay: Payment)
    requires PaymentOk(pay)
    ensures forall i :: 0 <= i < |pay.refunds| ==> PP.Counting(pay.refunds[i]) && pay.refunds[i].amount > 0
  {
  }

  lemma LateRefundOpens(pay: Payment, amount: int, at: int)
    requires PaymentOk(pay) && LateReady(pay, amount) && pay.online
    requires !PP.SomeRequested(pay.refunds) && 0 < amount <= PP.AvailableRefundable(pay.amount, pay.refunds)
    ensures PP.Lost(pay.status) && pay.refunds == []
    ensures PaymentOk(WithRefund(pay, pay.status, amount, PP.Automatic, at))
    ensures PaymentEvolves(pay, WithRefund(pay, pay.status, amount, PP.Automatic, at))
  {
    PP.HeldNonNegative(pay.refunds);
    AllCount(pay);
    PP.HeldAppend([], PP.Refund(PP.Requested, amount, PP.Automatic, at));
  }

  /** Flagged for a late refund, a payment gets one exactly when it has no refund yet and something to give back. */
  lemma LateRefundOpensExactly(db: Db, p: Id, amount: int, seen: PP.Status, at: int)
    requires DbOk(db) && RefundReady(db, p, seen, amount, PP.Automatic)
    ensures ExecuteRefund(db, p, seen, amount, PP.Automatic, at).1.Opened? <==>
            db.payments[p].refunds == [] && db.payments[p].amount > 0
  {
    hide BookingsOk, ReservationsOk, LimitsOk, PaymentsOk, PaymentLinks, EntriesOk, EntryLinks, CountersOk;
    PaymentRow(db.bookings, db.payments, p);
    var pay := db.payments[p];
    AllCount(pay);
    PP.HeldNonNegative(pay.refunds);
    if pay.refunds != [] {
      assert PP.Counting(pay.refunds[0]);
    }
  }

  lemma RefundSettles(pay: Payment, i: nat, skip: bool, q: Payment)
    requires PaymentOk(pay) && i < |pay.refunds| && pay.refunds[i].status == PP.Requested
    requires if skip then PP.Lost(pay.status) else PP.Collected(pay.status)
    requires q == pay.(refunds := pay.refunds[i := pay.refunds[i].(status := PP.Done)], status := q.status)
    requires q.status == if skip then pay.status else PP.StatusAfterRefunds(pay.amount, q.refunds)
    ensures PaymentOk(q) && PaymentEvolves(pay, q)
    ensures !skip ==> PP.CanTransition(pay.status, q.status)
  {
    PP.SettledSums(pay.refunds, i);
    PP.HeldNonNegative(pay.refunds);
    assert PP.SomeRequested(pay.refunds);
    assert !PP.SomeRequested(q.refunds);
  }

  // ---------------------------------------------------------------------
  // Transactions
  // ---------------------------------------------------------------------

  lemma PaymentMoved(db: Db, p: Id, q: Payment)
    requires DbOk(db) && p in db.payments && PaymentOk(q) && PaymentEvolves(db.payments[p], q)
    requires Linked(db.bookings, q)
    ensures DbOk(db.(payments := db.payments[p := q])) && Evolves(db, db.(payments := db.payments[p := q]))
  {
    hide BookingsOk, ReservationsOk, LimitsOk, PaymentsOk, PaymentLinks, EntriesOk, EntryLinks, CountersOk;
    hide BookingsEvolve, PaymentsEvolve, EntriesEvolve;
    Unchanged(db);
    PaymentReplaced(db.payments, p, q);
    PaymentRelinked(db.bookings, db.payments, p, q);
  }

  lemma ExecuteRefundKeeps(db: Db, p: Id, seen: PP.Status, amount: int, origin: PP.Origin, at: int)
    requires DbOk(db) && RefundReady(db, p, seen, amount, origin)
    ensures var r := ExecuteRefund(db, p, seen, amount, origin, at);
            DbOk(r.0) && Evolves(db, r.0) && (r.1.Opened? ==> SettleReady(r.0, p, r.1.index, origin.Automatic?))
  {
    hide BookingsOk, ReservationsOk, LimitsOk, PaymentsOk, PaymentLinks, EntriesOk, EntryLinks, CountersOk;
    hide BookingsEvolve, PaymentsEvolve, EntriesEvolve, PaymentOk, PaymentEvolves;
    Unchanged(db);
    PaymentRow(db.bookings, db.payments, p);
    var pay := db.payments[p];
    if ExecuteRefund(db, p, seen, amount, origin, at).1.Opened? {
      if origin.Automatic? {
        LateRefundOpens(pay, amount, at);
        PaymentMoved(db, p, WithRefund(pay, pay.status, amount, PP.Automatic, at));
      } else {
        RequestedRefundOpens(pay, seen, amount, origin, at);
        PaymentMoved(db, p, WithRefund(pay, PP.RefundPending, amount, origin, at));
      }
    }
  }

  lemma SettleKeeps(db: Db, p: Id, i: nat, skip: bool)
    requires DbOk(db) && SettleReady(db, p, i, skip)
    ensures DbOk(Settle(db, p, i, skip)) && Evolves(db, Settle(db, p, i, skip))
  {
    hide BookingsOk, ReservationsOk, LimitsOk, PaymentsOk, PaymentLinks, EntriesOk, EntryLinks, CountersOk;
    hide BookingsEvolve, PaymentsEvolve, EntriesEvolve;
    Unchanged(db);
    PaymentRow(db.bookings, db.payments, p);
    var pay := db.payments[p];
    if pay.refunds[i].status == PP.Requested {
      assert !skip ==> PP.SomeRequested(pay.refunds);
      var q := Settle(db, p, i, skip).payments[p];
      RefundSettles(pay, i, skip, q);
      PaymentMoved(db, p, q);
    }
  }
}
