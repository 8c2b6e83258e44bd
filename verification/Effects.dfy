/**
 * What each transaction of the booking core answers and leaves, field by field: when it
 * succeeds, which refusal every other case gives, the rows it writes, and that nothing else
 * changes. The lemmas show that the steps of the machine do exactly this on sound tables.
 */
module Effects {
  import opened Wrappers
  import opened Rows
  import opened PaymentTransactions
  import opened QueueTransactions
  import opened Invariants
  import opened BookingProofs
  import opened RefundProofs
  import opened QueueProofs
  import BP = BookingPolicy
  import PP = PaymentPolicy
  import QP = QueuePolicy

  // ---------------------------------------------------------------------
  // Rows
  // ---------------------------------------------------------------------

  /** The booking got another status, with one history row, and nothing else. */
  ghost predicate Hopped(x: Booking, y: Booking, to: BP.Status) {
    y == x.(status := to, history := x.history + [BookingHop(Some(x.status), to)])
  }

  /** Only this booking and this reservation may differ. */
  ghost predicate OnlyBooking(a: Db, b: Db, k: Id) {
    && k in b.bookings && b.bookings == a.bookings[k := b.bookings[k]]
    && (forall x :: x != k ==> (x in b.reservations <==> x in a.reservations))
    && (forall x :: x in b.reservations && x in a.reservations ==> b.reservations[x] == a.reservations[x])
  }

  ghost predicate OnlyPayment(a: Db, b: Db, p: Id) {
    p in b.payments && b.payments == a.payments[p := b.payments[p]]
  }

  // ---------------------------------------------------------------------
  // Booking creation
  // ---------------------------------------------------------------------

  /** The slot is taken by a blocking booking of the staff member. */
  ghost predicate Taken(db: Db, n: NewBooking) {
    exists x :: x in db.bookings && Clashes(db.bookings[x], n)
  }

  predicate Clashes(x: Booking, n: NewBooking) {
    x.kind == Scheduled && BP.Blocking(x.status) && x.staff == Some(n.staff) && x.start < n.end && n.start < x.end
  }

  ghost predicate Creates(a: Db, k: Id, p: Id, n: NewBooking, b: Db, out: CreateOutcome) {
    var full := |ActiveBookings(a.bookings, n.customer, n.business)| >= 3;
    var rejected := k in a.bookings || p in a.payments || n.start >= n.end;
    && (out == ActiveLimitReached <==> full)
    && (out == CreateOutcome.RowRejected <==> !full && rejected)
    && (out == SlotUnavailable <==> !full && !rejected && Taken(a, n))
    && (out == Created <==> !full && !rejected && !Taken(a, n))
    && (out != Created ==> b == a)
    && (out == Created ==>
          && OnlyBooking(a, b, k) && OnlyPayment(a, b, p)
          && b == a.(bookings := b.bookings, reservations := b.reservations, payments := b.payments)
          && NewBookingFields(b.bookings[k], n)
          && k in b.reservations && NewSlotFields(b.reservations[k], n)
          && NewPaymentFields(b.payments[p], k, n))
  }

  ghost predicate NewBookingFields(x: Booking, n: NewBooking) {
    && x.kind == Scheduled && x.online == n.online && x.customer == Some(n.customer)
    && x.business == n.business && x.outlet == n.outlet && x.staff == Some(n.staff)
    && x.start == n.start && x.end == n.end
    && x.status == (if n.online then BP.PendingPayment else BP.Confirmed)
    && |x.history| == 1 && x.history[0].from == None && x.history[0].to == x.status
  }

  ghost predicate NewSlotFields(r: Reservation, n: NewBooking) {
    r.staff == n.staff && r.start == n.start && r.end == n.end
  }

  ghost predicate NewPaymentFields(x: Payment, k: Id, n: NewBooking) {
    && x.booking == k && x.online == n.online && x.status == PP.Pending && x.amount == n.amount
    && (if n.online then x.expiresAt == Some(n.expiresAt) else x.expiresAt == None)
    && !x.referenced && x.refunds == []
  }

  lemma CreateBookingCreates(db: Db, k: Id, p: Id, n: NewBooking)
    requires DbOk(db)
    ensures var r := CreateBooking(db, k, p, n); Creates(db, k, p, n, r.0, r.1)
  {
    hide DbOk;
    TakenExactly(db, n);
    hide Taken, SlotTaken, ActiveBookings;
    if CreateBooking(db, k, p, n).1 == Created {
      CreatedRows(db, k, p, n);
    }
  }

  lemma CreatedRows(db: Db, k: Id, p: Id, n: NewBooking)
    requires CreateBooking(db, k, p, n).1 == Created
    ensures var b := CreateBooking(db, k, p, n).0;
            && OnlyBooking(db, b, k) && OnlyPayment(db, b, p)
            && b == db.(bookings := b.bookings, reservations := b.reservations, payments := b.payments)
            && NewBookingFields(b.bookings[k], n)
            && k in b.reservations && NewSlotFields(b.reservations[k], n)
            && NewPaymentFields(b.payments[p], k, n)
  {
    hide SlotTaken, ActiveBookings;
  }

  lemma TakenExactly(db: Db, n: NewBooking)
    requires DbOk(db)
    ensures Taken(db, n) <==> SlotTaken(db.reservations, Reservation(n.staff, n.start, n.end))
    ensures forall k :: k in db.reservations ==> k in db.bookings
  {
    hide LimitsOk, PaymentsOk, PaymentLinks, EntriesOk, EntryLinks, CountersOk, BookingPath;
    var r := Reservation(n.staff, n.start, n.end);
    forall x ensures x in db.reservations && Overlapping(db.reservations[x], r)
                     <==> x in db.bookings && Clashes(db.bookings[x], n)
    {
      if x in db.bookings {
        BookingRow(db.bookings, x);
      }
    }
  }

  // ---------------------------------------------------------------------
  // Provider events, expiry and references
  // ---------------------------------------------------------------------

  /** The event names a stored reference of this provider, with its currency and exact amount. */
  ghost predicate Trusted(a: Db, e: ProviderEvent) {
    && e.payment in a.payments && a.payments[e.payment].online && a.payments[e.payment].referenced
    && e.rupiah && e.amount == a.payments[e.payment].amount
  }

  /** The payment and its waiting booking ended without money; the slot is free. */
  ghost predicate Ended(a: Db, b: Db, p: Id, to: PP.Status) {
    && p in a.payments && OnlyPayment(a, b, p) && b.payments[p] == a.payments[p].(status := to)
    && var k := a.payments[p].booking;
       && k in a.bookings && OnlyBooking(a, b, k) && a.bookings[k].status == BP.PendingPayment
       && Hopped(a.bookings[k], b.bookings[k], BP.Expired)
       && k in a.reservations && k !in b.reservations
       && b == a.(bookings := b.bookings, reservations := b.reservations, payments := b.payments)
  }

  /** The payment is collected and its waiting booking confirmed, in its slot. */
  ghost predicate Collects(a: Db, b: Db, p: Id) {
    && p in a.payments && OnlyPayment(a, b, p) && b.payments[p] == a.payments[p].(status := PP.Paid)
    && var k := a.payments[p].booking;
       && k in a.bookings && OnlyBooking(a, b, k) && a.bookings[k].status == BP.PendingPayment
       && Hopped(a.bookings[k], b.bookings[k], BP.Confirmed)
       && k in a.reservations && b == a.(bookings := b.bookings, payments := b.payments)
  }

  /** What a trusted event does to its payment, by the status it reports. */
  ghost predicate Transitions(a: Db, p: Id, status: ProviderStatus, b: Db, out: EventOutcome)
    requires p in a.payments
  {
    var pay := a.payments[p];
    && (out == Processed <==> pay.status == PP.Pending && status != Pending)
    && (out == LateSuccess(p, pay.amount) <==> status == Paid && pay.status != PP.Pending && pay.status != PP.Paid)
    && (out == Ignored <==>
          status == Pending || (pay.status != PP.Pending && (status != Paid || pay.status == PP.Paid)))
    && (out == Processed || out == LateSuccess(p, pay.amount) || out == Ignored)
    && (out != Processed ==> b == a)
    && (out == Processed && status == Paid ==> Collects(a, b, p))
    && (out == Processed && status == Failed ==> Ended(a, b, p, PP.Failed))
    && (out == Processed && status == ProviderStatus.Expired ==> Ended(a, b, p, PP.Expired))
    && (out == Processed && status == ProviderStatus.Cancelled ==> Ended(a, b, p, PP.Cancelled))
  }

  /** A new event is logged; only one that can be trusted goes further. */
  ghost predicate Applies(a: Db, e: ProviderEvent, b: Db, out: EventOutcome) {
    var seen := e.id in a.events;
    var logged := a.(events := a.events + {e.id});
    && (out == Duplicate <==> seen)
    && (out == ManualReview <==> !seen && !Trusted(a, e))
    && (out == Duplicate ==> b == a)
    && (out == ManualReview ==> b == logged)
    && (!seen && Trusted(a, e) ==> Transitions(logged, e.payment, e.status, b, out))
  }

  /** A pending payment's booking waits for it in its slot. */
  ghost predicate Awaited(db: Db, p: Id) {
    && p in db.payments && db.payments[p].booking in db.bookings
    && db.bookings[db.payments[p].booking].status == BP.PendingPayment
    && db.payments[p].booking in db.reservations
  }

  lemma PendingAwaited(db: Db, p: Id)
    requires DbOk(db) && p in db.payments && db.payments[p].online && db.payments[p].status == PP.Pending
    ensures Awaited(db, p)
  {
    hide LimitsOk, EntriesOk, EntryLinks, CountersOk, PaymentsOk, BookingPath;
    PaymentLinked(db.bookings, db.payments, p);
    PendingPair(db, p);
  }

  lemma PaymentLinked(bookings: map<Id, Booking>, payments: map<Id, Payment>, p: Id)
    requires PaymentLinks(bookings, payments) && p in payments
    ensures Linked(bookings, payments[p])
  {
  }

  lemma UnpaidEnds(db: Db, p: Id, to: PP.Status)
    requires Awaited(db, p)
    ensures Ended(db, CloseUnpaid(db, p, to), p, to)
  {
  }

  lemma PaidCollects(db: Db, p: Id)
    requires Awaited(db, p)
    ensures Collects(db, ApplyPaid(db, p), p)
  {
  }

  lemma ProviderEventApplies(db: Db, e: ProviderEvent)
    requires DbOk(db)
    ensures var r := ApplyProviderEvent(db, e); Applies(db, e, r.0, r.1)
  {
    hide DbOk, ApplyTransition, Transitions;
    if Trusted(db, e) {
      TrustedTransitions(db, e);
    }
  }

  lemma TrustedTransitions(db: Db, e: ProviderEvent)
    requires DbOk(db) && Trusted(db, e)
    ensures var logged := db.(events := db.events + {e.id});
            var r := ApplyTransition(logged, e.payment, e.status);
            && Transitions(logged, e.payment, e.status, r.0, r.1)
            && r.1 != Threw && r.1 != Duplicate && r.1 != ManualReview
  {
    hide DbOk, ApplyTransition, Transitions;
    var logged := db.(events := db.events + {e.id});
    LinkedBooking(db, e.payment);
    if db.payments[e.payment].status == PP.Pending {
      PendingAwaited(db, e.payment);
    } else {
      NeverHonoured(db, e.payment);
    }
    TransitionTransitions(logged, e.payment, e.status);
    TransitionCompletes(logged, e.payment, e.status);
  }

  lemma TransitionTransitions(db: Db, p: Id, status: ProviderStatus)
    requires p in db.payments && db.payments[p].booking in db.bookings
    requires db.payments[p].status == PP.Pending ==> Awaited(db, p)
    requires db.payments[p].status != PP.Pending ==> !HonoursLateSuccess(db, db.payments[p].booking)
    ensures var r := ApplyTransition(db, p, status); Transitions(db, p, status, r.0, r.1)
  {
    if db.payments[p].status == PP.Pending {
      PaidCollects(db, p);
      UnpaidEnds(db, p, PP.Failed);
      UnpaidEnds(db, p, PP.Expired);
      UnpaidEnds(db, p, PP.Cancelled);
    }
    hide ApplyPaid, CloseUnpaid, Collects, Ended, HonoursLateSuccess, Awaited;
  }

  lemma TransitionCompletes(db: Db, p: Id, status: ProviderStatus)
    requires p in db.payments && db.payments[p].booking in db.bookings
    ensures var out := ApplyTransition(db, p, status).1; out != Threw && out != Duplicate && out != ManualReview
  {
    hide ApplyPaid, CloseUnpaid, HonoursLateSuccess;
  }

  lemma LinkedBooking(db: Db, p: Id)
    requires DbOk(db) && p in db.payments
    ensures db.payments[p].booking in db.bookings
  {
    hide LimitsOk, EntriesOk, EntryLinks, CountersOk, PaymentsOk, BookingsOk, ReservationsOk;
    PaymentLinked(db.bookings, db.payments, p);
  }

  /** A payment is due when it is pending and its window is over. */
  ghost predicate Expires(a: Db, p: Id, now: int, b: Db, done: bool) {
    && (done <==> p in a.payments && a.payments[p].status == PP.Pending
                  && a.payments[p].expiresAt.Some? && a.payments[p].expiresAt.value <= now)
    && (if done then Ended(a, b, p, PP.Expired) else b == a)
  }

  lemma ExpireOneExpires(db: Db, p: Id, now: int)
    requires DbOk(db)
    ensures var r := ExpireOne(db, p, now); Expires(db, p, now, r.0, r.1)
  {
    if ExpireOne(db, p, now).1 {
      OnlyOnlineExpires(db, p);
      hide DbOk;
      PendingAwaited(db, p);
      UnpaidEnds(db, p, PP.Expired);
    }
    hide DbOk, CloseUnpaid, Ended;
  }

  lemma OnlyOnlineExpires(db: Db, p: Id)
    requires DbOk(db) && p in db.payments && db.payments[p].expiresAt.Some?
    ensures db.payments[p].online
  {
    hide LimitsOk, EntriesOk, EntryLinks, CountersOk, BookingsOk, ReservationsOk, PaymentLinks;
    assert PaymentOk(db.payments[p]);
  }

  /** An online payment is marked as referenced; nothing else changes. */
  ghost predicate Refers(a: Db, p: Id, b: Db) {
    && (p in a.payments && a.payments[p].online ==>
          && OnlyPayment(a, b, p) && b.payments[p] == a.payments[p].(referenced := true)
          && b == a.(payments := b.payments))
    && (!(p in a.payments && a.payments[p].online) ==> b == a)
  }

  lemma StoreReferenceRefers(db: Db, p: Id)
    ensures Refers(db, p, StoreReference(db, p))
  {
  }

  // ---------------------------------------------------------------------
  // Cancellation and no-show
  // ---------------------------------------------------------------------

  /** The booking is cancelled if it is as it was read; its pending payments are, and no other. */
  ghost predicate Cancels(a: Db, k: Id, seen: BP.Status, b: Db, done: bool) {
    && (done <==> k in a.bookings && a.bookings[k].status == seen)
    && (!done ==> b == a)
    && (done ==>
          && OnlyBooking(a, b, k) && Hopped(a.bookings[k], b.bookings[k], BP.Cancelled) && k !in b.reservations
          && b.payments.Keys == a.payments.Keys
          && (forall p :: p in a.payments ==>
                b.payments[p] ==
                if a.payments[p].booking == k && a.payments[p].status == PP.Pending
                then a.payments[p].(status := PP.Cancelled) else a.payments[p])
          && b == a.(bookings := b.bookings, reservations := b.reservations, payments := b.payments))
  }

  lemma CancelBookingCancels(db: Db, k: Id, seen: BP.Status)
    ensures var r := CancelBooking(db, k, seen); Cancels(db, k, seen, r.0, r.1)
  {
  }

  ghost predicate MarksAbsent(a: Db, k: Id, b: Db, done: bool) {
    && (done <==> k in a.bookings && a.bookings[k].status == BP.Confirmed)
    && (!done ==> b == a)
    && (done ==>
          && OnlyBooking(a, b, k) && Hopped(a.bookings[k], b.bookings[k], BP.NoShow) && k !in b.reservations
          && b == a.(bookings := b.bookings, reservations := b.reservations))
  }

  lemma NoShowBookingMarks(db: Db, k: Id)
    ensures var r := NoShowBooking(db, k); MarksAbsent(db, k, r.0, r.1)
  {
  }

  // ---------------------------------------------------------------------
  // Refunds
  // ---------------------------------------------------------------------

  /**
   * A refund is opened exactly when none is pending and its positive amount is within what
   * completed refunds have left; it records that amount, and a requested one makes the
   * payment refund_pending.
   */
  ghost predicate OpensRefund(a: Db, p: Id, amount: int, origin: PP.Origin, at: int, b: Db, out: RefundOutcome)
    requires p in a.payments
  {
    var pay := a.payments[p];
    var pending := exists i :: 0 <= i < |pay.refunds| && pay.refunds[i].status == PP.Requested;
    var left := pay.amount - PP.SumCompleted(pay.refunds);
    && (out == AlreadyPending <==> pending)
    && (out == AmountExceeds <==> !pending && amount > left)
    && (out == RefundRejected <==> !pending && amount <= left && amount <= 0)
    && (out.Opened? <==> !pending && 0 < amount <= left)
    && (!out.Opened? ==> b == a)
    && (out.Opened? ==>
          && out.index == |pay.refunds|
          && OnlyPayment(a, b, p) && b == a.(payments := b.payments)
          && b.payments[p] == pay.(status := b.payments[p].status, refunds := b.payments[p].refunds)
          && b.payments[p].status == (if origin == PP.Automatic then pay.status else PP.RefundPending)
          && |b.payments[p].refunds| == |pay.refunds| + 1 && b.payments[p].refunds[..|pay.refunds|] == pay.refunds
          && NewRefundFields(b.payments[p].refunds[|pay.refunds|], amount, origin, at))
  }

  ghost predicate NewRefundFields(r: PP.Refund, amount: int, origin: PP.Origin, at: int) {
    r.status == PP.Requested && r.amount == amount && r.origin == origin && r.requestedAt == at
  }

  lemma ExecuteRefundOpens(db: Db, p: Id, seen: PP.Status, amount: int, origin: PP.Origin, at: int)
    requires DbOk(db) && RefundReady(db, p, seen, amount, origin)
    ensures var r := ExecuteRefund(db, p, seen, amount, origin, at); OpensRefund(db, p, amount, origin, at, r.0, r.1)
  {
    hide BookingsOk, ReservationsOk, LimitsOk, PaymentsOk, PaymentLinks, EntriesOk, EntryLinks, CountersOk;
    PaymentRow(db.bookings, db.payments, p);
    var pay := db.payments[p];
    if !PP.SomeRequested(pay.refunds) {
      PP.HeldSplits(pay.refunds);
    }
  }

  /**
   * A pending refund is settled: it alone becomes refunded. Unless the status is to be
   * skipped, the payment is then refunded in full or in part, by the sum of what is refunded.
   */
  ghost predicate Settles(a: Db, p: Id, i: nat, skip: bool, b: Db)
    requires p in a.payments && i < |a.payments[p].refunds|
  {
    var pay := a.payments[p];
    var refund := pay.refunds[i];
    var sum := PP.SumCompleted(pay.refunds) + refund.amount;
    && (refund.status != PP.Requested ==> b == a)
    && (refund.status == PP.Requested ==>
          && OnlyPayment(a, b, p) && b == a.(payments := b.payments)
          && b.payments[p].refunds == pay.refunds[i := refund.(status := PP.Done)]
          && b.payments[p] == pay.(status := b.payments[p].status, refunds := b.payments[p].refunds)
          && b.payments[p].status ==
             if skip then pay.status else if sum < pay.amount then PP.PartiallyRefunded else PP.Refunded)
  }

  lemma SettleSettles(db: Db, p: Id, i: nat, skip: bool)
    requires DbOk(db) && SettleReady(db, p, i, skip)
    ensures Settles(db, p, i, skip, Settle(db, p, i, skip))
  {
    hide BookingsOk, ReservationsOk, LimitsOk, PaymentsOk, PaymentLinks, EntriesOk, EntryLinks, CountersOk;
    PaymentRow(db.bookings, db.payments, p);
    var pay := db.payments[p];
    if pay.refunds[i].status == PP.Requested {
      PP.SettledSums(pay.refunds, i);
      PP.HeldNonNegative(pay.refunds);
      assert PP.SomeRequested(pay.refunds);
      assert !PP.SomeRequested(pay.refunds[i := pay.refunds[i].(status := PP.Done)]);
    }
  }

  // ---------------------------------------------------------------------
  // Check-in and walk-in
  // ---------------------------------------------------------------------

  /** The next number of the queue, taken from its counter. */
  ghost predicate Numbers(a: Db, b: Db, k: QueueKey, number: int) {
    && k in b.counters && b.counters == a.counters[k := b.counters[k]]
    && number == (if k in a.counters then a.counters[k].last + 1 else 1)
    && b.counters[k].last == number
    && b.counters[k].version == (if k in a.counters then a.counters[k].version + 1 else 1)
  }

  ghost predicate NewEntryFields(x: Entry, booking: Id, k: QueueKey, staff: Option<Id>, at: int) {
    && x.booking == booking && x.queue == k && x.staff == staff && x.sortOrder == x.number && x.checkedInAt == at
    && x.status == QP.Waiting && x.version == 1 && x.history == [QueueHop(None, QP.Waiting)]
  }

  /** A confirmed scheduled booking waits in the queue of its outlet, under its staff, with the next number. */
  ghost predicate ChecksIn(a: Db, k: Id, e: Id, day: int, at: int, b: Db, out: CheckInOutcome) {
    var confirmed := k in a.bookings && a.bookings[k].kind == Scheduled && a.bookings[k].status == BP.Confirmed;
    && (out == NotConfirmed <==> !confirmed)
    && (out == CheckInOutcome.RowRejected <==> confirmed && e in a.entries)
    && (out == CheckedIn <==> confirmed && e !in a.entries)
    && (out != CheckedIn ==> b == a)
    && (out == CheckedIn ==>
          && e in b.entries && b.entries == a.entries[e := b.entries[e]]
          && k in b.bookings && b.bookings == a.bookings[k := b.bookings[k]]
          && var queue := QueueKey(a.bookings[k].outlet, day);
             && NewEntryFields(b.entries[e], k, queue, a.bookings[k].staff, at)
             && Numbers(a, b, queue, b.entries[e].number)
             && b.bookings[k] == a.bookings[k].(status := BP.Waiting, history := b.bookings[k].history)
             && b.bookings[k].history == a.bookings[k].history
                + [BookingHop(Some(BP.Confirmed), BP.CheckedIn), BookingHop(Some(BP.CheckedIn), BP.Waiting)]
             && b == a.(bookings := b.bookings, entries := b.entries, counters := b.counters))
  }

  lemma CheckInChecksIn(db: Db, k: Id, e: Id, day: int, at: int)
    requires DbOk(db)
    ensures var r := CheckIn(db, k, e, day, at); ChecksIn(db, k, e, day, at, r.0, r.1)
  {
    hide BookingsOk, ReservationsOk, LimitsOk, PaymentsOk, PaymentLinks, EntriesOk, CountersOk;
    forall x | x in db.entries
      ensures k in db.bookings && db.bookings[k].status == BP.Confirmed ==> db.entries[x].booking != k
    {
    }
    assert k in db.bookings && db.bookings[k].status == BP.Confirmed ==> !HasEntry(db.entries, k);
    hide EntryLinks;
  }

  /** A walk-in waits at once, without customer or slot, and owes the price at the location. */
  ghost predicate WalksIn(a: Db, k: Id, p: Id, e: Id, w: NewWalkIn, b: Db, done: bool) {
    && (done <==> k !in a.bookings && p !in a.payments && e !in a.entries)
    && (!done ==> b == a)
    && (done ==>
          && OnlyBooking(a, b, k) && b.reservations == a.reservations && OnlyPayment(a, b, p)
          && e in b.entries && b.entries == a.entries[e := b.entries[e]]
          && WalkInFields(b.bookings[k], w)
          && NewEntryFields(b.entries[e], k, QueueKey(w.outlet, w.day), w.staff, w.at)
          && Numbers(a, b, QueueKey(w.outlet, w.day), b.entries[e].number)
          && var pay := b.payments[p];
             && pay.booking == k && !pay.online && pay.status == PP.Pending && pay.amount == w.price
             && pay.expiresAt == None && pay.refunds == [] && !pay.referenced
             && b.events == a.events)
  }

  ghost predicate WalkInFields(x: Booking, w: NewWalkIn) {
    && x.kind == WalkIn && !x.online && x.customer == None && x.status == BP.Waiting
    && x.business == w.business && x.outlet == w.outlet && x.staff == w.staff && x.start == x.end == w.at
    && |x.history| == 1 && x.history[0].from == None && x.history[0].to == BP.Waiting
  }

  lemma CreateWalkInWalksIn(db: Db, k: Id, p: Id, e: Id, w: NewWalkIn)
    requires DbOk(db)
    ensures var r := CreateWalkIn(db, k, p, e, w); WalksIn(db, k, p, e, w, r.0, r.1)
  {
    hide BookingsOk, ReservationsOk, LimitsOk, PaymentsOk, PaymentLinks, EntriesOk, CountersOk;
    assert k !in db.bookings ==> !HasEntry(db.entries, k);
    hide EntryLinks;
  }

  // ---------------------------------------------------------------------
  // Versioned queue commands, on an entry as it stands
  // ---------------------------------------------------------------------

  /**
   * The entry moves on by one version and one history row, its booking gets the status that
   * goes with it, and nothing else changes but sort key and reservation, which are stated
   * with each command.
   */
  ghost predicate Advances(a: Db, e: Id, to: QP.Status, mirror: BP.Status, staff: Option<Id>, b: Db) {
    && e in a.entries && e in b.entries && b.entries == a.entries[e := b.entries[e]]
    && var x, y := a.entries[e], b.entries[e];
       && y.status == to && y.version == x.version + 1 && y.staff == staff
       && y.history == x.history + [QueueHop(Some(x.status), to)]
       && y.booking == x.booking && y.queue == x.queue && y.number == x.number && y.checkedInAt == x.checkedInAt
       && x.booking in a.bookings && x.booking in b.bookings
       && b.bookings == a.bookings[x.booking := b.bookings[x.booking]]
       && Mirrors(a.bookings[x.booking], b.bookings[x.booking], mirror)
       && b == a.(bookings := b.bookings, entries := b.entries, reservations := b.reservations)
  }

  /** The booking has the status, reached by one hop if it was another. */
  ghost predicate Mirrors(x: Booking, y: Booking, to: BP.Status) {
    if x.status == to then y == x else Hopped(x, y, to)
  }

  ghost predicate KeepsPlace(a: Db, e: Id, b: Db) {
    e in a.entries && e in b.entries && b.entries[e].sortOrder == a.entries[e].sortOrder
  }

  /** The entry goes behind the last of the active ones, itself among them. */
  ghost predicate GoesLast(a: Db, e: Id, b: Db) {
    && e in a.entries && e in b.entries
    && (forall x :: x in a.entries && InQueue(a.entries[x], a.entries[e].queue) ==>
          a.entries[x].sortOrder < b.entries[e].sortOrder)
    && exists x :: x in a.entries && InQueue(a.entries[x], a.entries[e].queue)
                   && a.entries[x].sortOrder == b.entries[e].sortOrder - 1
  }

  predicate InQueue(x: Entry, k: QueueKey) {
    x.queue == k && (x.status.Waiting? || x.status.Called? || x.status.InService? || x.status.Skipped?)
  }

  /** The booking's slot is free, and no other changes. */
  ghost predicate Frees(a: Db, k: Id, b: Db) {
    b.reservations.Keys == a.reservations.Keys - {k}
    && forall x :: x in b.reservations ==> b.reservations[x] == a.reservations[x]
  }

  ghost predicate OtherCalled(a: Db, e: Id) {
    e in a.entries &&
    exists x :: x in a.entries && x != e && a.entries[x].queue == a.entries[e].queue && a.entries[x].status == QP.Called
  }

  ghost predicate StaffBusy(a: Db, e: Id, staff: Id) {
    exists x :: x in a.entries && x != e && a.entries[x].staff == Some(staff) && a.entries[x].status == QP.InService
  }

  ghost predicate Calls(a: Db, e: Id, b: Db, out: CommandOutcome)
    requires e in a.entries
  {
    var x := a.entries[e];
    && (out == WrongStatus <==> x.status != QP.Waiting)
    && (out == QueueHasCalled <==> x.status == QP.Waiting && OtherCalled(a, e))
    && (out == Done <==> x.status == QP.Waiting && !OtherCalled(a, e))
    && (out != Done ==> b == a)
    && (out == Done ==>
          Advances(a, e, QP.Called, BP.Called, x.staff, b) && KeepsPlace(a, e, b) && b.reservations == a.reservations)
  }

  ghost predicate Recalls(a: Db, e: Id, b: Db, out: CommandOutcome)
    requires e in a.entries
  {
    var x := a.entries[e];
    && (out == WrongStatus <==> x.status != QP.Called)
    && (out == Done <==> x.status == QP.Called)
    && (out != Done ==> b == a)
    && (out == Done ==>
          Advances(a, e, QP.Called, BP.Called, x.staff, b) && KeepsPlace(a, e, b) && b.reservations == a.reservations)
  }

  ghost predicate Skips(a: Db, e: Id, b: Db, out: CommandOutcome)
    requires e in a.entries
  {
    var x := a.entries[e];
    && (out == WrongStatus <==> x.status != QP.Called)
    && (out == Done <==> x.status == QP.Called)
    && (out != Done ==> b == a)
    && (out == Done ==>
          Advances(a, e, QP.Skipped, BP.Waiting, x.staff, b) && KeepsPlace(a, e, b) && b.reservations == a.reservations)
  }

  ghost predicate Returns(a: Db, e: Id, b: Db, out: CommandOutcome)
    requires e in a.entries
  {
    var x := a.entries[e];
    && (out == WrongStatus <==> x.status != QP.Skipped)
    && (out == Done <==> x.status == QP.Skipped)
    && (out != Done ==> b == a)
    && (out == Done ==>
          Advances(a, e, QP.Waiting, BP.Waiting, x.staff, b) && GoesLast(a, e, b) && b.reservations == a.reservations)
  }

  /** The staff is the chosen one, else the entry's own; there must be one, active and free. */
  ghost predicate Starts(a: Db, e: Id, chosen: Option<Id>, active: bool, b: Db, out: CommandOutcome)
    requires e in a.entries
  {
    var x := a.entries[e];
    var staff := if chosen.Some? then chosen else x.staff;
    var free := staff.Some? && active && !StaffBusy(a, e, staff.value);
    && (out == WrongStatus <==> x.status != QP.Called)
    && (out == StaffUnavailable <==> x.status == QP.Called && !free)
    && (out == Done <==> x.status == QP.Called && free)
    && (out != Done ==> b == a)
    && (out == Done ==>
          && Advances(a, e, QP.InService, BP.InService, staff, b) && KeepsPlace(a, e, b)
          && b.reservations == a.reservations)
  }

  ghost predicate Completes(a: Db, e: Id, b: Db, out: CommandOutcome)
    requires e in a.entries
  {
    var x := a.entries[e];
    && (out == WrongStatus <==> x.status != QP.InService)
    && (out == Done <==> x.status == QP.InService)
    && (out != Done ==> b == a)
    && (out == Done ==>
          Advances(a, e, QP.Completed, BP.Completed, x.staff, b) && KeepsPlace(a, e, b) && Frees(a, x.booking, b))
  }

  ghost predicate EndsAbsent(a: Db, e: Id, b: Db, out: CommandOutcome)
    requires e in a.entries
  {
    var x := a.entries[e];
    && (out == WrongStatus <==> x.status != QP.Called && x.status != QP.Skipped)
    && (out == Done <==> x.status == QP.Called || x.status == QP.Skipped)
    && (out != Done ==> b == a)
    && (out == Done ==>
          Advances(a, e, QP.NoShow, BP.NoShow, x.staff, b) && KeepsPlace(a, e, b) && Frees(a, x.booking, b))
  }

  /** What the named command does. */
  ghost predicate Commands(a: Db, e: Id, c: Command, b: Db, out: CommandOutcome)
    requires e in a.entries
  {
    match c
    case Call => Calls(a, e, b, out)
    case Recall => Recalls(a, e, b, out)
    case Skip => Skips(a, e, b, out)
    case ReturnToWaiting => Returns(a, e, b, out)
    case StartService(staff, active) => Starts(a, e, staff, active, b, out)
    case Complete => Completes(a, e, b, out)
    case MarkNoShow => EndsAbsent(a, e, b, out)
  }

  /** The booking of an entry, as sound tables have it. */
  ghost predicate Mirrored?(db: Db, e: Id) {
    && e in db.entries && db.entries[e].booking in db.bookings
    && db.bookings[db.entries[e].booking].status == QP.BookingStatusFor(db.entries[e].status)
  }

  lemma EntryMirrored(db: Db, e: Id)
    requires DbOk(db) && e in db.entries
    ensures Mirrored?(db, e)
  {
    hide BookingsOk, ReservationsOk, LimitsOk, PaymentsOk, PaymentLinks, EntriesOk, CountersOk;
  }

  /** A command that commits moves its entry and the booking. */
  lemma DoneAdvances(db: Db, e: Id, c: Command)
    requires Mirrored?(db, e)
    requires var x := db.entries[e]; Verdict(db, e, x, x.version, c) == Done
    ensures var x := db.entries[e]; var b := RunCommand(db, e, x, x.version, c).0;
            && Advances(db, e, b.entries[e].status, b.bookings[x.booking].status, b.entries[e].staff, b)
            && b.entries[e].status == TargetOf(c)
            && b.bookings[x.booking].status == QP.BookingStatusFor(TargetOf(c))
            && b.entries[e].staff == (if c.StartService? then StaffFor(x, c) else x.staff)
  {
    hide Verdict, SortAfter, TargetOf, QP.BookingStatusFor;
  }

  lemma DoneSlots(db: Db, e: Id, c: Command)
    requires Mirrored?(db, e)
    requires var x := db.entries[e]; Verdict(db, e, x, x.version, c) == Done
    ensures var x := db.entries[e]; var b := RunCommand(db, e, x, x.version, c).0;
            && (c == Complete || c == MarkNoShow ==> Frees(db, x.booking, b))
            && (c != Complete && c != MarkNoShow ==> b.reservations == db.reservations)
            && (c != ReturnToWaiting ==> KeepsPlace(db, e, b))
  {
    hide Verdict, TargetOf, QP.BookingStatusFor;
  }

  lemma ReturnedLast(db: Db, e: Id)
    requires Mirrored?(db, e) && db.entries[e].status == QP.Skipped
    requires var x := db.entries[e]; Verdict(db, e, x, x.version, ReturnToWaiting) == Done
    ensures var x := db.entries[e]; GoesLast(db, e, RunCommand(db, e, x, x.version, ReturnToWaiting).0)
  {
    var x := db.entries[e];
    var ids := ActiveEntries(db.entries, x.queue);
    assert e in ids;
    var b := RunCommand(db, e, x, x.version, ReturnToWaiting).0;
    assert IsMaxSort(db.entries, ids, b.entries[e].sortOrder - 1);
    forall y ensures y in ids <==> y in db.entries && InQueue(db.entries[y], x.queue) {
    }
  }

  ghost predicate Answers(db: Db, e: Id, c: Command, out: CommandOutcome)
    requires e in db.entries
  {
    var x := db.entries[e];
    match c
    case Call =>
      out == if x.status != QP.Waiting then WrongStatus else if OtherCalled(db, e) then QueueHasCalled else Done
    case Recall => out == if x.status == QP.Called then Done else WrongStatus
    case Skip => out == if x.status == QP.Called then Done else WrongStatus
    case ReturnToWaiting => out == if x.status == QP.Skipped then Done else WrongStatus
    case StartService(chosen, active) =>
      var staff := if chosen.Some? then chosen else x.staff;
      out == (if x.status != QP.Called then WrongStatus
              else if staff.None? || !active || StaffBusy(db, e, staff.value) then StaffUnavailable else Done)
    case Complete => out == if x.status == QP.InService then Done else WrongStatus
    case MarkNoShow => out == if x.status == QP.Called || x.status == QP.Skipped then Done else WrongStatus
  }

  lemma VerdictAnswers(db: Db, e: Id, c: Command)
    requires Mirrored?(db, e)
    ensures var x := db.entries[e]; Answers(db, e, c, Verdict(db, e, x, x.version, c))
  {
  }

  lemma Assembled(a: Db, e: Id, c: Command, b: Db, out: CommandOutcome)
    requires e in a.entries && Answers(a, e, c, out) && (out != Done ==> b == a)
    requires out == Done ==>
               && Advances(a, e, TargetOf(c), QP.BookingStatusFor(TargetOf(c)),
                           if c.StartService? then StaffFor(a.entries[e], c) else a.entries[e].staff, b)
               && (c == Complete || c == MarkNoShow ==> Frees(a, a.entries[e].booking, b))
               && (c != Complete && c != MarkNoShow ==> b.reservations == a.reservations)
               && (if c == ReturnToWaiting then GoesLast(a, e, b) else KeepsPlace(a, e, b))
    ensures Commands(a, e, c, b, out)
  {
    hide Advances, Frees, GoesLast, KeepsPlace, OtherCalled, StaffBusy;
  }

  /**
   * On sound tables a command with the entry as it stands and its current version succeeds
   * exactly under its own conditions, and does exactly this.
   */
  lemma CommandCommands(db: Db, e: Id, c: Command)
    requires DbOk(db) && e in db.entries
    ensures var x := db.entries[e]; var r := RunCommand(db, e, x, x.version, c); Commands(db, e, c, r.0, r.1)
  {
    var x := db.entries[e];
    var r := RunCommand(db, e, x, x.version, c);
    EntryMirrored(db, e);
    VerdictAnswers(db, e, c);
    assert r.1 == Verdict(db, e, x, x.version, c) && (r.1 != Done ==> r.0 == db);
    hide *;
    if r.1 == Done {
      DoneAdvances(db, e, c);
      DoneSlots(db, e, c);
      if c == ReturnToWaiting {
        ReturnAccepts(db, e);
        ReturnedLast(db, e);
      }
    }
    Assembled(db, e, c, r.0, r.1);
  }

  lemma ReturnAccepts(db: Db, e: Id)
    requires e in db.entries
    ensures var x := db.entries[e];
            Verdict(db, e, x, x.version, ReturnToWaiting) == Done ==> x.status == QP.Skipped
  {
  }
}
