/** The booking and payment transactions keep the invariants, whatever stale values they act on. */
module BookingProofs {
  import opened Wrappers
  import opened Rows
  import opened PaymentTransactions
  import opened Invariants
  import opened TableProofs
  import BP = BookingPolicy
  import PP = PaymentPolicy

  // ---------------------------------------------------------------------
  // Single rows. The assembly lemmas below hide the table predicates, so they
  // take what they need of one row from here.
  // ---------------------------------------------------------------------

  lemma BookingRow(bookings: map<Id, Booking>, b: Id)
    requires BookingsOk(bookings) && b in bookings
    ensures BookingOk(bookings[b])
  {
  }

  lemma PaymentRow(bookings: map<Id, Booking>, payments: map<Id, Payment>, p: Id)
    requires PaymentsOk(payments) && PaymentLinks(bookings, payments) && p in payments
    ensures PaymentOk(payments[p]) && Linked(bookings, payments[p])
  {
  }

  // ---------------------------------------------------------------------
  // Creation
  // ---------------------------------------------------------------------

  lemma CreateBookingKeeps(db: Db, b: Id, p: Id, n: NewBooking)
    requires DbOk(db)
    ensures DbOk(CreateBooking(db, b, p, n).0) && Evolves(db, CreateBooking(db, b, p, n).0)
  {
    hide BookingsOk, ReservationsOk, LimitsOk, PaymentsOk, PaymentLinks, EntriesOk, EntryLinks, CountersOk;
    hide BookingsEvolve, PaymentsEvolve, EntriesEvolve;
    Unchanged(db);
    if CreateBooking(db, b, p, n).1 == Created {
      var c, q := NewBookingRow(n), NewPaymentRow(b, n);
      BookingAdded(db.bookings, b, c);
      SlotTakenBy(db.bookings, db.reservations, b, c, Reservation(n.staff, n.start, n.end));
      LimitChecked(db.bookings, b, c, n.customer);
      FreshPaymentOk(q);
      PaymentAdded(db.payments, p, q);
      PairLinked(db.bookings, db.payments, b, c, p, q);
      UnqueuedAdded(db.bookings, db.entries, b, c);
    }
  }

  lemma StoreReferenceKeeps(db: Db, p: Id)
    requires DbOk(db)
    ensures DbOk(StoreReference(db, p)) && Evolves(db, StoreReference(db, p))
  {
    hide BookingsOk, ReservationsOk, LimitsOk, PaymentsOk, PaymentLinks, EntriesOk, EntryLinks, CountersOk;
    hide BookingsEvolve, PaymentsEvolve, EntriesEvolve;
    Unchanged(db);
    if p in db.payments {
      PaymentRow(db.bookings, db.payments, p);
      var q := db.payments[p].(referenced := true);
      PaymentReplaced(db.payments, p, q);
      PaymentRelinked(db.bookings, db.payments, p, q);
    }
  }

  // ---------------------------------------------------------------------
  // Provider events and expiry
  // ---------------------------------------------------------------------

  /** The late-success branch that would revive a payment never fires. */
  lemma NeverHonoured(db: Db, p: Id)
    requires DbOk(db) && p in db.payments && db.payments[p].online && db.payments[p].status != PP.Pending
    ensures !HonoursLateSuccess(db, db.payments[p].booking)
  {
    assert Linked(db.bookings, db.payments[p]);
  }

  /** A pending online payment belongs to a scheduled booking that waits for it. */
  lemma PendingPair(db: Db, p: Id)
    requires DbOk(db) && p in db.payments && db.payments[p].online && db.payments[p].status == PP.Pending
    ensures var b := db.payments[p].booking;
            b in db.bookings && db.bookings[b].status == BP.PendingPayment && db.bookings[b].online
            && db.bookings[b].kind == Scheduled && db.payments[p].refunds == []
  {
    hide BookingsOk, ReservationsOk, LimitsOk, PaymentsOk, PaymentLinks, EntriesOk, EntryLinks, CountersOk;
    PaymentRow(db.bookings, db.payments, p);
    BookingRow(db.bookings, db.payments[p].booking);
  }

  lemma ApplyPaidKeeps(db: Db, p: Id)
    requires DbOk(db) && p in db.payments && db.payments[p].online && db.payments[p].status == PP.Pending
    ensures DbOk(ApplyPaid(db, p)) && Evolves(db, ApplyPaid(db, p))
  {
    hide BookingsOk, ReservationsOk, LimitsOk, PaymentsOk, PaymentLinks, EntriesOk, EntryLinks, CountersOk;
    hide BookingsEvolve, PaymentsEvolve, EntriesEvolve;
    Unchanged(db);
    PendingPair(db, p);
    var b := db.payments[p].booking;
    var c := Moved(db.bookings[b], BP.PendingPayment, BP.Confirmed);
    var q := db.payments[p].(status := PP.Paid);
    BookingRow(db.bookings, b);
    PathExtends(db.bookings[b], BP.Confirmed);
    BookingReplaced(db.bookings, b, c);
    SlotKept(db.bookings, db.reservations, b, c);
    LimitKept(db.bookings, b, c);
    FreshPaymentOk(q);
    PaymentReplaced(db.payments, p, q);
    BothRelinked(db.bookings, db.payments, p, q, c);
    OutsideQueue(db.bookings, db.entries, b, c);
  }

  lemma CloseUnpaidKeeps(db: Db, p: Id, to: PP.Status)
    requires DbOk(db) && p in db.payments && db.payments[p].online && db.payments[p].status == PP.Pending
    requires PP.Lost(to)
    ensures DbOk(CloseUnpaid(db, p, to)) && Evolves(db, CloseUnpaid(db, p, to))
  {
    hide BookingsOk, ReservationsOk, LimitsOk, PaymentsOk, PaymentLinks, EntriesOk, EntryLinks, CountersOk;
    hide BookingsEvolve, PaymentsEvolve, EntriesEvolve;
    Unchanged(db);
    PendingPair(db, p);
    var b := db.payments[p].booking;
    var c := Moved(db.bookings[b], BP.PendingPayment, BP.Expired);
    var q := db.payments[p].(status := to);
    BookingRow(db.bookings, b);
    PathExtends(db.bookings[b], BP.Expired);
    BookingReplaced(db.bookings, b, c);
    SlotReleased(db.bookings, db.reservations, b, c);
    LimitKept(db.bookings, b, c);
    FreshPaymentOk(q);
    PaymentReplaced(db.payments, p, q);
    BothRelinked(db.bookings, db.payments, p, q, c);
    OutsideQueue(db.bookings, db.entries, b, c);
  }

  lemma ApplyTransitionKeeps(db: Db, p: Id, t: ProviderStatus)
    requires DbOk(db) && p in db.payments && db.payments[p].online
    ensures var r := ApplyTransition(db, p, t); DbOk(r.0) && Evolves(db, r.0) && r.1 != Threw
  {
    hide BookingsOk, ReservationsOk, LimitsOk, PaymentsOk, PaymentLinks, EntriesOk, EntryLinks, CountersOk;
    hide BookingsEvolve, PaymentsEvolve, EntriesEvolve;
    Unchanged(db);
    var current := db.payments[p].status;
    PaymentRow(db.bookings, db.payments, p);
    if t == Pending || current == Target(t) {
    } else if current != PP.Pending {
      NeverHonoured(db, p);
    } else if t == Paid {
      ApplyPaidKeeps(db, p);
    } else {
      CloseUnpaidKeeps(db, p, Target(t));
    }
  }

  lemma EventRecorded(db: Db, id: Id)
    requires DbOk(db)
    ensures DbOk(db.(events := db.events + {id})) && Evolves(db, db.(events := db.events + {id}))
  {
    hide BookingsOk, ReservationsOk, LimitsOk, PaymentsOk, PaymentLinks, EntriesOk, EntryLinks, CountersOk;
    hide BookingsEvolve, PaymentsEvolve, EntriesEvolve;
    Unchanged(db);
  }

  lemma ApplyProviderEventKeeps(db: Db, e: ProviderEvent)
    requires DbOk(db)
    ensures var r := ApplyProviderEvent(db, e); DbOk(r.0) && Evolves(db, r.0) && r.1 != Threw
  {
    hide BookingsOk, ReservationsOk, LimitsOk, PaymentsOk, PaymentLinks, EntriesOk, EntryLinks, CountersOk;
    hide BookingsEvolve, PaymentsEvolve, EntriesEvolve;
    Unchanged(db);
    EventRecorded(db, e.id);
    var db1 := db.(events := db.events + {e.id});
    if e.payment in db.payments && db.payments[e.payment].online {
      ApplyTransitionKeeps(db1, e.payment, e.status);
    }
  }

  lemma ExpireOneKeeps(db: Db, p: Id, now: int)
    requires DbOk(db)
    ensures DbOk(ExpireOne(db, p, now).0) && Evolves(db, ExpireOne(db, p, now).0)
  {
    hide BookingsOk, ReservationsOk, LimitsOk, PaymentsOk, PaymentLinks, EntriesOk, EntryLinks, CountersOk;
    hide BookingsEvolve, PaymentsEvolve, EntriesEvolve;
    Unchanged(db);
    if ExpireOne(db, p, now).1 {
      PaymentRow(db.bookings, db.payments, p);
      CloseUnpaidKeeps(db, p, PP.Expired);
    }
  }

  // ---------------------------------------------------------------------
  // Cancellation and no-show
  // ---------------------------------------------------------------------

  lemma PendingCancelled(bookings: map<Id, Booking>, payments: map<Id, Payment>, b: Id, c: Booking)
    requires PaymentLinks(bookings, payments) && b in bookings
    requires bookings[b].status.PendingPayment? || bookings[b].status.Confirmed?
    requires c.status == BP.Cancelled && c.online == bookings[b].online
    ensures PaymentLinks(bookings[b := c], CancelPending(payments, b))
  {
    var after := CancelPending(payments, b);
    var moved := bookings[b := c];
    forall p | p in after ensures Linked(moved, after[p]) {
      assert Linked(bookings, payments[p]);
    }
    assert forall x, y :: PaysFor(after, x, y) <==> PaysFor(payments, x, y);
    forall y | y in moved && moved[y].online ensures exists x :: PaysFor(after, x, y) {
      assert y in bookings && bookings[y].online;
      var x :| PaysFor(payments, x, y);
      assert PaysFor(after, x, y);
    }
    assert PaymentLinks(moved, after);
  }

  lemma PendingCancelledRows(payments: map<Id, Payment>, b: Id)
    requires PaymentsOk(payments)
    ensures PaymentsOk(CancelPending(payments, b)) && PaymentsEvolve(payments, CancelPending(payments, b))
  {
    var after := CancelPending(payments, b);
    forall p | p in payments ensures PaymentOk(after[p]) && PaymentEvolves(payments[p], after[p]) {
      assert PaymentOk(payments[p]);
      if payments[p].status == PP.Pending {
        FreshPaymentOk(after[p]);
      }
    }
  }

  lemma CancelBookingKeeps(db: Db, b: Id, seen: BP.Status)
    requires DbOk(db) && BP.Cancellable(seen)
    ensures DbOk(CancelBooking(db, b, seen).0) && Evolves(db, CancelBooking(db, b, seen).0)
  {
    hide BookingsOk, ReservationsOk, LimitsOk, PaymentsOk, PaymentLinks, EntriesOk, EntryLinks, CountersOk;
    hide BookingsEvolve, PaymentsEvolve, EntriesEvolve;
    Unchanged(db);
    if CancelBooking(db, b, seen).1 {
      var c := Moved(db.bookings[b], seen, BP.Cancelled);
      BookingRow(db.bookings, b);
      PathExtends(db.bookings[b], BP.Cancelled);
      BookingReplaced(db.bookings, b, c);
      SlotReleased(db.bookings, db.reservations, b, c);
      LimitKept(db.bookings, b, c);
      PendingCancelledRows(db.payments, b);
      PendingCancelled(db.bookings, db.payments, b, c);
      OutsideQueue(db.bookings, db.entries, b, c);
    }
  }

  lemma NoShowBookingKeeps(db: Db, b: Id)
    requires DbOk(db)
    ensures DbOk(NoShowBooking(db, b).0) && Evolves(db, NoShowBooking(db, b).0)
  {
    hide BookingsOk, ReservationsOk, LimitsOk, PaymentsOk, PaymentLinks, EntriesOk, EntryLinks, CountersOk;
    hide BookingsEvolve, PaymentsEvolve, EntriesEvolve;
    Unchanged(db);
    if NoShowBooking(db, b).1 {
      var c := Moved(db.bookings[b], BP.Confirmed, BP.NoShow);
      BookingRow(db.bookings, b);
      PathExtends(db.bookings[b], BP.NoShow);
      BookingReplaced(db.bookings, b, c);
      SlotReleased(db.bookings, db.reservations, b, c);
      LimitKept(db.bookings, b, c);
      BookingRelinked(db.bookings, db.payments, b, c);
      OutsideQueue(db.bookings, db.entries, b, c);
    }
  }

  // ---------------------------------------------------------------------
  // Pay at location
  // ---------------------------------------------------------------------

  lemma ConfirmReceiptKeeps(db: Db, p: Id)
    requires DbOk(db)
    ensures DbOk(ConfirmReceipt(db, p).0) && Evolves(db, ConfirmReceipt(db, p).0)
  {
    hide BookingsOk, ReservationsOk, LimitsOk, PaymentsOk, PaymentLinks, EntriesOk, EntryLinks, CountersOk;
    hide BookingsEvolve, PaymentsEvolve, EntriesEvolve;
    Unchanged(db);
    if ConfirmReceipt(db, p).1 {
      var q := db.payments[p].(status := PP.Paid);
      PaymentRow(db.bookings, db.payments, p);
      FreshPaymentOk(q);
      PaymentReplaced(db.payments, p, q);
      PaymentRelinked(db.bookings, db.payments, p, q);
    }
  }

  lemma AddReceiptKeeps(db: Db, b: Id, p: Id, amount: nat)
    requires DbOk(db)
    ensures DbOk(AddReceipt(db, b, p, amount).0) && Evolves(db, AddReceipt(db, b, p, amount).0)
  {
    hide BookingsOk, ReservationsOk, LimitsOk, PaymentsOk, PaymentLinks, EntriesOk, EntryLinks, CountersOk;
    hide BookingsEvolve, PaymentsEvolve, EntriesEvolve;
    Unchanged(db);
    if AddReceipt(db, b, p, amount).1 {
      var q := Payment(b, false, PP.Paid, amount, None, false, []);
      FreshPaymentOk(q);
      PaymentAdded(db.payments, p, q);
      ReceiptLinked(db.bookings, db.payments, p, q);
    }
  }
}
