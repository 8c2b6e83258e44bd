/**
 * What one database transaction of the booking and payment services does to the
 * tables. Values the caller read before the transaction are parameters, so a
 * stale read is an argument that need not match the tables any more.
 */
module PaymentTransactions {
  import opened Wrappers
  import opened Rows
  import BP = BookingPolicy
  import PP = PaymentPolicy

  const MAX_ACTIVE_BOOKINGS := 3

  // ---------------------------------------------------------------------
  // Booking creation (bookings.service.ts, createBookingRun)
  // ---------------------------------------------------------------------

  datatype NewBooking = NewBooking(
    customer: Id, business: Id, outlet: Id, staff: Id, start: int, end: int,
    online: bool, amount: nat, expiresAt: int)

  datatype CreateOutcome = Created | ActiveLimitReached | SlotUnavailable | RowRejected

  function InitialStatus(online: bool): BP.Status {
    if online then BP.PendingPayment else BP.Confirmed
  }

  function NewBookingRow(n: NewBooking): Booking {
    Booking(Scheduled, n.online, InitialStatus(n.online), Some(n.customer), n.business, n.outlet,
            Some(n.staff), n.start, n.end, [BookingHop(None, InitialStatus(n.online))])
  }

  function NewPaymentRow(b: Id, n: NewBooking): Payment {
    Payment(b, n.online, PP.Pending, n.amount, if n.online then Some(n.expiresAt) else None, false, [])
  }

  function CreateBooking(db: Db, b: Id, p: Id, n: NewBooking): (Db, CreateOutcome) {
    if |ActiveBookings(db.bookings, n.customer, n.business)| >= MAX_ACTIVE_BOOKINGS then
      (db, ActiveLimitReached)
    // Primary keys and bookings_time_order_check.
    else if b in db.bookings || b in db.reservations || p in db.payments || n.start >= n.end then
      (db, RowRejected)
    else if SlotTaken(db.reservations, Reservation(n.staff, n.start, n.end)) then
      (db, SlotUnavailable)
    else
      (db.(bookings := db.bookings[b := NewBookingRow(n)],
           reservations := db.reservations[b := Reservation(n.staff, n.start, n.end)],
           payments := db.payments[p := NewPaymentRow(b, n)]),
       Created)
  }

  /** The provider accepted the payment: its reference is stored (finalizeProviderCreation). */
  function StoreReference(db: Db, p: Id): Db {
    if p in db.payments && db.payments[p].online then
      db.(payments := db.payments[p := db.payments[p].(referenced := true)])
    else db
  }

  // ---------------------------------------------------------------------
  // Provider events (payment-transition.service.ts)
  // ---------------------------------------------------------------------

  datatype ProviderStatus = Pending | Paid | Failed | Expired | Cancelled

  function Target(s: ProviderStatus): PP.Status {
    match s
    case Pending => PP.Pending
    case Paid => PP.Paid
    case Failed => PP.Failed
    case Expired => PP.Expired
    case Cancelled => PP.Cancelled
  }

  /** `payment` is the row the provider reference names, if any. */
  datatype ProviderEvent = ProviderEvent(id: Id, payment: Id, status: ProviderStatus, amount: int, rupiah: bool)

  datatype EventOutcome =
    | Duplicate | Ignored | Processed | ManualReview
    | LateSuccess(payment: Id, amount: int)
    | Threw

  function ApplyProviderEvent(db: Db, e: ProviderEvent): (Db, EventOutcome) {
    if e.id in db.events then (db, Duplicate)
    else
      var db1 := db.(events := db.events + {e.id});
      if !(e.payment in db.payments && db.payments[e.payment].online && db.payments[e.payment].referenced) then
        (db1, ManualReview)
      else if !e.rupiah || e.amount != db.payments[e.payment].amount then (db1, ManualReview)
      else
        var r := ApplyTransition(db1, e.payment, e.status);
        if r.1.Threw? then (db, Threw) else r
  }

  function ApplyTransition(db: Db, p: Id, target: ProviderStatus): (Db, EventOutcome)
    requires p in db.payments
  {
    var current := db.payments[p].status;
    var b := db.payments[p].booking;
    if target == Pending || current == Target(target) then (db, Ignored)
    else if target == Paid && !PP.CanTransition(current, PP.Paid) then
      // Late success: honoured only while the slot is still held.
      if b !in db.bookings then (db, Threw)
      else if HonoursLateSuccess(db, b) then (ApplyPaid(db, p), Processed)
      else (db, LateSuccess(p, db.payments[p].amount))
    else if !PP.CanTransition(current, Target(target)) then (db, Ignored)
    else if b !in db.bookings then (db, Threw)
    else if target == Paid then (ApplyPaid(db, p), Processed)
    else (CloseUnpaid(db, p, Target(target)), Processed)
  }

  predicate HonoursLateSuccess(db: Db, b: Id) {
    b in db.reservations && b in db.bookings && db.bookings[b].status == BP.PendingPayment
  }

  function ApplyPaid(db: Db, p: Id): Db
    requires p in db.payments && db.payments[p].booking in db.bookings
  {
    var b := db.payments[p].booking;
    db.(payments := db.payments[p := db.payments[p].(status := PP.Paid)],
        bookings := if db.bookings[b].status == BP.PendingPayment
                    then db.bookings[b := Moved(db.bookings[b], BP.PendingPayment, BP.Confirmed)]
                    else db.bookings)
  }

  /** The payment ends uncollected; a booking still waiting for it expires and frees its slot. */
  function CloseUnpaid(db: Db, p: Id, to: PP.Status): Db
    requires p in db.payments
  {
    var b := db.payments[p].booking;
    var paid := db.(payments := db.payments[p := db.payments[p].(status := to)]);
    if b in db.bookings && db.bookings[b].status == BP.PendingPayment then
      paid.(bookings := db.bookings[b := Moved(db.bookings[b], BP.PendingPayment, BP.Expired)],
            reservations := Without(db.reservations, b))
    else paid
  }

  /** payment-expiration.job.ts, expireOne. */
  function ExpireOne(db: Db, p: Id, now: int): (Db, bool) {
    if p !in db.payments || db.payments[p].status != PP.Pending
       || db.payments[p].expiresAt.None? || db.payments[p].expiresAt.value > now then (db, false)
    else (CloseUnpaid(db, p, PP.Expired), true)
  }

  // ---------------------------------------------------------------------
  // Cancellation (bookings.service.ts, cancelTransaction)
  // ---------------------------------------------------------------------

  function CancelPending(payments: map<Id, Payment>, b: Id): map<Id, Payment> {
    map p | p in payments ::
      if payments[p].booking == b && payments[p].status == PP.Pending
      then payments[p].(status := PP.Cancelled) else payments[p]
  }

  function CancelBooking(db: Db, b: Id, seen: BP.Status): (Db, bool) {
    if b !in db.bookings || db.bookings[b].status != seen then (db, false)
    else
      (db.(bookings := db.bookings[b := Moved(db.bookings[b], seen, BP.Cancelled)],
           reservations := Without(db.reservations, b),
           payments := CancelPending(db.payments, b)), true)
  }

  /** The transaction of markNoShowBooking, which has no guard on the booking's status. */
  function WriteNoShow(db: Db, b: Id): Db {
    if b !in db.bookings then db
    else
      db.(bookings := db.bookings[b := Moved(db.bookings[b], BP.Confirmed, BP.NoShow)],
          reservations := Without(db.reservations, b))
  }

  /** markNoShowBooking, with nothing between its check and its write. */
  function NoShowBooking(db: Db, b: Id): (Db, bool) {
    if b !in db.bookings || db.bookings[b].status != BP.Confirmed then (db, false)
    else (WriteNoShow(db, b), true)
  }

  // ---------------------------------------------------------------------
  // Refunds (refunds.service.ts)
  // ---------------------------------------------------------------------

  datatype RefundOutcome = Opened(index: nat) | AlreadyPending | AmountExceeds | RefundRejected

  /** executeRefund's first transaction; `seen` is the payment status read before it. */
  function ExecuteRefund(db: Db, p: Id, seen: PP.Status, amount: int, origin: PP.Origin, at: int): (Db, RefundOutcome) {
    if p !in db.payments then (db, RefundRejected)
    else
      var pay := db.payments[p];
      if PP.SomeRequested(pay.refunds) then (db, AlreadyPending)
      else if amount > PP.AvailableRefundable(pay.amount, pay.refunds) then (db, AmountExceeds)
      else if amount <= 0 then (db, RefundRejected)  // refunds_amount_check
      else
        var moves := !origin.Automatic? && PP.CanTransition(seen, PP.RefundPending);
        var refund := PP.Refund(PP.Requested, amount, origin, at);
        var status := if moves then PP.RefundPending else pay.status;
        (db.(payments := db.payments[p := pay.(status := status, refunds := pay.refunds + [refund])]),
         Opened(|pay.refunds|))
  }

  /** settleWithProvider's transaction, after the provider confirmed refund `i`. */
  function Settle(db: Db, p: Id, i: nat, skip: bool): Db {
    if p !in db.payments || i >= |db.payments[p].refunds|
       || db.payments[p].refunds[i].status != PP.Requested then db
    else
      var pay := db.payments[p];
      var refunds := pay.refunds[i := pay.refunds[i].(status := PP.Done)];
      var status :=
        if skip || !(pay.status.RefundPending? || pay.status.PartiallyRefunded? || pay.status.Paid?) then pay.status
        else PP.StatusAfterRefunds(pay.amount, refunds);
      db.(payments := db.payments[p := pay.(status := status, refunds := refunds)])
  }

  // ---------------------------------------------------------------------
  // Pay at location (payments.service.ts, confirmPayAtLocation)
  // ---------------------------------------------------------------------

  /** A pending receipt is confirmed, guarded by its status. */
  function ConfirmReceipt(db: Db, p: Id): (Db, bool) {
    if p !in db.payments || db.payments[p].online || db.payments[p].status != PP.Pending then (db, false)
    else (db.(payments := db.payments[p := db.payments[p].(status := PP.Paid)]), true)
  }

  /** The remainder of an online deposit is recorded as a receipt of its own. */
  function AddReceipt(db: Db, b: Id, p: Id, amount: nat): (Db, bool) {
    if b !in db.bookings || p in db.payments || amount == 0 then (db, false)
    else (db.(payments := db.payments[p := Payment(b, false, PP.Paid, amount, None, false, [])]), true)
  }
}
