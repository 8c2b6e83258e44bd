/** How one changed row affects the invariant of a whole table, and of the links between tables. */
module TableProofs {
  import opened Wrappers
  import opened Rows
  import opened PaymentTransactions
  import opened Invariants
  import BP = BookingPolicy
  import PP = PaymentPolicy

  // ---------------------------------------------------------------------
  // Unchanged tables
  // ---------------------------------------------------------------------

  lemma Unchanged(db: Db)
    ensures BookingsEvolve(db.bookings, db.bookings)
    ensures PaymentsEvolve(db.payments, db.payments)
    ensures EntriesEvolve(db.entries, db.entries)
  {
  }

  // ---------------------------------------------------------------------
  // Bookings and reservations
  // ---------------------------------------------------------------------

  /** Extending a path by an edge from its end keeps it a path. */
  lemma PathExtends(b: Booking, to: BP.Status)
    requires BookingOk(b) && BP.CanTransition(b.status, to)
    ensures BookingPath(Moved(b, b.status, to).history)
    ensures BookingEvolves(b, Moved(b, b.status, to))
  {
  }

  lemma BookingReplaced(bookings: map<Id, Booking>, b: Id, c: Booking)
    requires BookingsOk(bookings) && b in bookings && BookingOk(c) && BookingEvolves(bookings[b], c)
    ensures BookingsOk(bookings[b := c]) && BookingsEvolve(bookings, bookings[b := c])
  {
  }

  lemma BookingAdded(bookings: map<Id, Booking>, b: Id, c: Booking)
    requires BookingsOk(bookings) && b !in bookings && BookingOk(c)
    ensures BookingsOk(bookings[b := c]) && BookingsEvolve(bookings, bookings[b := c])
  {
  }

  lemma SlotReleased(bookings: map<Id, Booking>, reservations: map<Id, Reservation>, b: Id, c: Booking)
    requires ReservationsOk(bookings, reservations) && b in bookings && !Holds(c)
    ensures ReservationsOk(bookings[b := c], Without(reservations, b))
  {
  }

  lemma SlotKept(bookings: map<Id, Booking>, reservations: map<Id, Reservation>, b: Id, c: Booking)
    requires ReservationsOk(bookings, reservations) && b in bookings && BookingEvolves(bookings[b], c)
    requires Holds(c) <==> Holds(bookings[b])
    ensures ReservationsOk(bookings[b := c], reservations)
  {
  }

  lemma SlotTakenBy(bookings: map<Id, Booking>, reservations: map<Id, Reservation>, b: Id, c: Booking, r: Reservation)
    requires ReservationsOk(bookings, reservations) && b !in bookings && b !in reservations
    requires Holds(c) && c.staff == Some(r.staff) && c.start == r.start && c.end == r.end
    requires !SlotTaken(reservations, r)
    ensures ReservationsOk(bookings[b := c], reservations[b := r])
  {
    forall x | x in reservations ensures !Overlapping(reservations[x], r) && !Overlapping(r, reservations[x]) {
    }
  }

  lemma SlotlessAdded(bookings: map<Id, Booking>, reservations: map<Id, Reservation>, b: Id, c: Booking)
    requires ReservationsOk(bookings, reservations) && b !in bookings && !Holds(c)
    ensures ReservationsOk(bookings[b := c], reservations)
  {
  }

  lemma SubsetSize<T>(a: set<T>, b: set<T>)
    requires a <= b
    ensures |a| <= |b|
  {
    assert b == a + (b - a);
  }

  /** A booking that does not start to block cannot raise anyone's active count. */
  lemma LimitKept(bookings: map<Id, Booking>, b: Id, c: Booking)
    requires LimitsOk(bookings)
    requires b in bookings ==> c.customer == bookings[b].customer && c.business == bookings[b].business
    requires BP.Blocking(c.status) && b in bookings ==> BP.Blocking(bookings[b].status)
    requires b in bookings || c.customer == None
    ensures LimitsOk(bookings[b := c])
  {
    var after := bookings[b := c];
    forall x, z ensures WithinLimit(after, x, z) {
      assert WithinLimit(bookings, x, z);
      SubsetSize(ActiveBookings(after, x, z), ActiveBookings(bookings, x, z));
    }
  }

  lemma LimitChecked(bookings: map<Id, Booking>, b: Id, c: Booking, customer: Id)
    requires LimitsOk(bookings) && b !in bookings && c.customer == Some(customer)
    requires |ActiveBookings(bookings, customer, c.business)| < MAX_ACTIVE_BOOKINGS
    ensures LimitsOk(bookings[b := c])
  {
    var after := bookings[b := c];
    forall x, z ensures WithinLimit(after, x, z) {
      assert WithinLimit(bookings, x, z);
      if x == customer && z == c.business {
        SubsetSize(ActiveBookings(after, x, z), ActiveBookings(bookings, x, z) + {b});
      } else {
        SubsetSize(ActiveBookings(after, x, z), ActiveBookings(bookings, x, z));
      }
    }
  }

  // ---------------------------------------------------------------------
  // Payments
  // ---------------------------------------------------------------------

  lemma PaymentReplaced(payments: map<Id, Payment>, p: Id, q: Payment)
    requires PaymentsOk(payments) && p in payments && PaymentOk(q) && PaymentEvolves(payments[p], q)
    ensures PaymentsOk(payments[p := q])
    ensures PaymentsEvolve(payments, payments[p := q])
  {
    PaymentsAdvance(payments, p, q);
  }

  lemma PaymentsAdvance(payments: map<Id, Payment>, p: Id, q: Payment)
    requires p in payments && PaymentEvolves(payments[p], q)
    ensures PaymentsEvolve(payments, payments[p := q])
  {
  }

  lemma PaymentAdded(payments: map<Id, Payment>, p: Id, q: Payment)
    requires PaymentsOk(payments) && p !in payments && PaymentOk(q)
    ensures PaymentsOk(payments[p := q]) && PaymentsEvolve(payments, payments[p := q])
  {
  }

  /** A payment without refunds that is in one of its first statuses. */
  lemma FreshPaymentOk(p: Payment)
    requires p.refunds == [] && (p.online || p.expiresAt == None)
    requires p.status.Pending? || p.status.Paid? || p.status.Cancelled? || (p.online && PP.Lost(p.status))
    ensures PaymentOk(p)
  {
  }

  /** Replacing one payment by a later version of itself keeps the links of all others. */
  lemma PaymentRelinked(bookings: map<Id, Booking>, payments: map<Id, Payment>, p: Id, q: Payment)
    requires PaymentLinks(bookings, payments) && p in payments
    requires q.booking == payments[p].booking && q.online == payments[p].online && Linked(bookings, q)
    ensures PaymentLinks(bookings, payments[p := q])
  {
    var after := payments[p := q];
    assert forall x, b :: PaysFor(after, x, b) <==> PaysFor(payments, x, b);
  }

  /** A booking and its online payment change together. */
  lemma BothRelinked(bookings: map<Id, Booking>, payments: map<Id, Payment>, p: Id, q: Payment, c: Booking)
    requires PaymentLinks(bookings, payments) && p in payments && payments[p].online
    requires q.booking == payments[p].booking && q.online
    requires c.online && Agree(c.status, q.status)
    ensures PaymentLinks(bookings[q.booking := c], payments[p := q])
  {
    var after := payments[p := q];
    assert forall x, b :: PaysFor(after, x, b) <==> PaysFor(payments, x, b);
    assert PaysFor(payments, p, q.booking);
    forall x | x in payments && x != p ensures Linked(bookings[q.booking := c], payments[x]) {
      assert payments[x].booking != q.booking || !PaysFor(payments, x, q.booking);
    }
  }

  /** A booking moves on while its online payment, if any, still agrees with it. */
  lemma BookingRelinked(bookings: map<Id, Booking>, payments: map<Id, Payment>, b: Id, c: Booking)
    requires PaymentLinks(bookings, payments) && b in bookings && c.online == bookings[b].online
    requires forall s :: Agree(bookings[b].status, s) ==> Agree(c.status, s)
    ensures PaymentLinks(bookings[b := c], payments)
  {
  }

  /** A new booking arrives with one payment of its own. */
  lemma PairLinked(bookings: map<Id, Booking>, payments: map<Id, Payment>, b: Id, c: Booking, p: Id, q: Payment)
    requires PaymentLinks(bookings, payments) && b !in bookings && p !in payments
    requires q.booking == b && q.online == c.online && (q.online ==> Agree(c.status, q.status))
    ensures PaymentLinks(bookings[b := c], payments[p := q])
  {
    var after := payments[p := q];
    assert forall x, y :: PaysFor(after, x, y) <==> PaysFor(payments, x, y) || (q.online && x == p && y == b);
    assert q.online ==> PaysFor(after, p, b);
  }

  /** A receipt for an existing booking leaves the online payments alone. */
  lemma ReceiptLinked(bookings: map<Id, Booking>, payments: map<Id, Payment>, p: Id, q: Payment)
    requires PaymentLinks(bookings, payments) && p !in payments && !q.online && q.booking in bookings
    ensures PaymentLinks(bookings, payments[p := q])
  {
    var after := payments[p := q];
    assert forall x, b :: PaysFor(after, x, b) <==> PaysFor(payments, x, b);
  }

  // ---------------------------------------------------------------------
  // Queue entries
  // ---------------------------------------------------------------------

  /** A booking outside the queue changes to another status outside the queue. */
  lemma OutsideQueue(bookings: map<Id, Booking>, entries: map<Id, Entry>, b: Id, c: Booking)
    requires EntryLinks(bookings, entries) && b in bookings
    requires bookings[b].status.PendingPayment? || bookings[b].status.Confirmed?
    requires !Queued(c.status)
    ensures EntryLinks(bookings[b := c], entries)
  {
  }

  lemma UnqueuedAdded(bookings: map<Id, Booking>, entries: map<Id, Entry>, b: Id, c: Booking)
    requires EntryLinks(bookings, entries) && b !in bookings && !Queued(c.status)
    ensures EntryLinks(bookings[b := c], entries)
  {
  }
}
