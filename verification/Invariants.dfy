/** What every committed state of the booking core satisfies, table by table. */
module Invariants {
  import opened Wrappers
  import opened Rows
  import opened PaymentTransactions
  import opened QueueTransactions
  import BP = BookingPolicy
  import PP = PaymentPolicy
  import QP = QueuePolicy

  // ---------------------------------------------------------------------
  // Rows
  // ---------------------------------------------------------------------

  /** The history is a path in the booking transition table. */
  ghost predicate BookingPath(h: seq<BookingHop>) {
    && |h| > 0 && h[0].from == None && (h[0].to.PendingPayment? || h[0].to.Confirmed? || h[0].to.Waiting?)
    && forall i, j :: 0 <= i < j == i + 1 < |h| ==> h[j].from == Some(h[i].to) && BP.CanTransition(h[i].to, h[j].to)
  }

  ghost predicate BookingOk(b: Booking) {
    && BookingPath(b.history)
    && b.status == b.history[|b.history| - 1].to
    && !(b.status.Draft? || b.status.CheckedIn?)
    && (b.kind == Scheduled ==> b.staff.Some? && b.customer.Some? && b.start < b.end)
    && (b.kind == WalkIn ==>
          && !b.online && b.customer.None?
          && !(b.status.PendingPayment? || b.status.Confirmed? || b.status.Cancelled? || b.status.Expired?))
    && (!b.online ==> !(b.status.PendingPayment? || b.status.Expired?))
  }

  /** Accounting of one payment and its refunds. */
  ghost predicate PaymentOk(p: Payment) {
    && (forall i :: 0 <= i < |p.refunds| ==>
          p.refunds[i].amount > 0 && (p.refunds[i].status.Requested? || p.refunds[i].status.Done?))
    && (forall i, j :: 0 <= i < j < |p.refunds| ==> p.refunds[i].status == PP.Done || p.refunds[j].status == PP.Done)
    && PP.Held(p.refunds) <= p.amount
    && (p.status == PP.Pending ==> p.refunds == [])
    && (PP.Collected(p.status) ==>
          p.status == PP.StatusAfterRefunds(p.amount, p.refunds)
          && forall i :: 0 <= i < |p.refunds| ==> !p.refunds[i].origin.Automatic?)
    && (PP.Lost(p.status) ==>
          |p.refunds| <= 1 &&
          forall i :: 0 <= i < |p.refunds| ==> p.refunds[i].origin.Automatic? && p.refunds[i].amount == p.amount)
    && (!p.online ==>
          && p.refunds == [] && p.expiresAt == None
          && (p.status.Pending? || p.status.Paid? || p.status.Cancelled?))
  }

  /** How the status of an online booking and of its online payment correspond. */
  ghost predicate Agree(b: BP.Status, p: PP.Status) {
    && (b == BP.PendingPayment <==> p == PP.Pending)
    && (!(b.PendingPayment? || b.Expired? || b.Cancelled?) ==> PP.Collected(p))
    && (b == BP.Expired ==> PP.Lost(p))
  }

  /** The history is a path in the queue transition table, recalls being loops. */
  ghost predicate QueuePath(h: seq<QueueHop>) {
    && |h| > 0 && h[0] == QueueHop(None, QP.Waiting)
    && forall i, j :: 0 <= i < j == i + 1 < |h| ==>
         h[j].from == Some(h[i].to)
         && (QP.CanTransition(h[i].to, h[j].to) || h[i].to == h[j].to == QP.Called)
  }

  ghost predicate EntryOk(e: Entry) {
    && QueuePath(e.history)
    && e.status == e.history[|e.history| - 1].to
    && e.version == |e.history|
    && e.status != QP.Cancelled
  }

  // ---------------------------------------------------------------------
  // Tables
  // ---------------------------------------------------------------------

  ghost predicate BookingsOk(bookings: map<Id, Booking>) {
    forall b :: b in bookings ==> BookingOk(bookings[b])
  }

  /** A scheduled booking that blocks its slot. */
  ghost predicate Holds(b: Booking) {
    b.kind == Scheduled && BP.Blocking(b.status)
  }

  ghost predicate ReservationsOk(bookings: map<Id, Booking>, reservations: map<Id, Reservation>) {
    && (forall b :: b in reservations ==> b in bookings)
    && (forall b :: b in bookings ==> (b in reservations <==> Holds(bookings[b])))
    && (forall b :: b in reservations && bookings[b].staff.Some? ==>
          reservations[b] == Reservation(bookings[b].staff.value, bookings[b].start, bookings[b].end))
    && (forall a, b :: a in reservations && b in reservations && a != b ==>
          !Overlapping(reservations[a], reservations[b]))
  }

  ghost predicate PaymentsOk(payments: map<Id, Payment>) {
    forall p :: p in payments ==> PaymentOk(payments[p])
  }

  ghost predicate Linked(bookings: map<Id, Booking>, p: Payment) {
    && p.booking in bookings
    && (p.online ==> bookings[p.booking].online && Agree(bookings[p.booking].status, p.status))
  }

  /** Payment `p` is the online payment of booking `b`. */
  ghost predicate PaysFor(payments: map<Id, Payment>, p: Id, b: Id) {
    p in payments && payments[p].online && payments[p].booking == b
  }

  ghost predicate PaymentLinks(bookings: map<Id, Booking>, payments: map<Id, Payment>) {
    && (forall p :: p in payments ==> Linked(bookings, payments[p]))
    && (forall p, q, b :: PaysFor(payments, p, b) && PaysFor(payments, q, b) ==> p == q)
    && (forall b :: b in bookings && bookings[b].online ==> exists p :: PaysFor(payments, p, b))
  }

  ghost predicate EntriesOk(entries: map<Id, Entry>) {
    && (forall e :: e in entries ==> EntryOk(entries[e]))
    && (forall d, e :: d in entries && e in entries && d != e ==> entries[d].booking != entries[e].booking)
  }

  /** Booking statuses only a queue entry can give. */
  predicate Queued(s: BP.Status) { s.Waiting? || s.Called? || s.InService? }

  /** The booking mirrors its entry, and a queued booking has one. */
  ghost predicate EntryLinks(bookings: map<Id, Booking>, entries: map<Id, Entry>) {
    && (forall e :: e in entries ==>
          entries[e].booking in bookings
          && bookings[entries[e].booking].status == QP.BookingStatusFor(entries[e].status))
    && (forall b :: b in bookings && Queued(bookings[b].status) ==> HasEntry(entries, b))
  }

  /** An entry of queue `k` carries number `n`. */
  ghost predicate Numbered(entries: map<Id, Entry>, k: QueueKey, n: int) {
    exists e :: e in entries && entries[e].queue == k && entries[e].number == n
  }

  /** The numbers of each queue are exactly 1..last, each used once. */
  ghost predicate CountersOk(entries: map<Id, Entry>, counters: map<QueueKey, Counter>) {
    && (forall e :: e in entries ==>
          entries[e].queue in counters && 1 <= entries[e].number <= counters[entries[e].queue].last)
    && (forall d, e :: d in entries && e in entries && d != e ==>
          entries[d].queue != entries[e].queue || entries[d].number != entries[e].number)
    && (forall k, n :: k in counters && 1 <= n <= counters[k].last ==> Numbered(entries, k, n))
    && (forall k :: k in counters ==> counters[k].last >= 0)
  }

  /** Customer `c` is within the active limit at business `z`. */
  ghost predicate WithinLimit(bookings: map<Id, Booking>, c: Id, z: Id) {
    |ActiveBookings(bookings, c, z)| <= MAX_ACTIVE_BOOKINGS
  }

  ghost predicate LimitsOk(bookings: map<Id, Booking>) {
    forall c, z :: WithinLimit(bookings, c, z)
  }

  ghost predicate DbOk(db: Db) {
    && BookingsOk(db.bookings)
    && ReservationsOk(db.bookings, db.reservations)
    && PaymentsOk(db.payments)
    && PaymentLinks(db.bookings, db.payments)
    && EntriesOk(db.entries)
    && EntryLinks(db.bookings, db.entries)
    && CountersOk(db.entries, db.counters)
    && LimitsOk(db.bookings)
  }

  // ---------------------------------------------------------------------
  // How rows may change from one commit to the next
  // ---------------------------------------------------------------------

  ghost predicate BookingEvolves(b: Booking, c: Booking) {
    && c.(status := b.status, history := b.history) == b
    && b.history <= c.history
  }

  ghost predicate RefundEvolves(r: PP.Refund, s: PP.Refund) {
    s == r || (r.status == PP.Requested && s == r.(status := PP.Done))
  }

  ghost predicate PaymentEvolves(p: Payment, q: Payment) {
    && q.(status := p.status, refunds := p.refunds, referenced := p.referenced) == p
    && (q.status == p.status || PP.CanTransition(p.status, q.status))
    && |p.refunds| <= |q.refunds|
    && (forall i :: 0 <= i < |p.refunds| ==> RefundEvolves(p.refunds[i], q.refunds[i]))
    && PP.Held(p.refunds) <= PP.Held(q.refunds)
  }

  /** `f` is the row `e` at some later time; only a reorder changes it without a new version. */
  ghost predicate EntryLater(e: Entry, f: Entry) {
    && f.booking == e.booking && f.queue == e.queue && f.number == e.number && f.checkedInAt == e.checkedInAt
    && e.history <= f.history
    && e.version <= f.version
    && (f.version == e.version ==> f == e.(sortOrder := f.sortOrder))
  }

  ghost predicate EntryEvolves(e: Entry, f: Entry) {
    EntryLater(e, f) && (f.status == e.status || QP.CanTransition(e.status, f.status))
  }

  ghost predicate BookingsEvolve(a: map<Id, Booking>, b: map<Id, Booking>) {
    forall x :: x in a ==> x in b && BookingEvolves(a[x], b[x])
  }

  ghost predicate PaymentsEvolve(a: map<Id, Payment>, b: map<Id, Payment>) {
    forall x :: x in a ==> x in b && PaymentEvolves(a[x], b[x])
  }

  ghost predicate EntriesEvolve(a: map<Id, Entry>, b: map<Id, Entry>) {
    forall x :: x in a ==> x in b && EntryEvolves(a[x], b[x])
  }

  ghost predicate Evolves(a: Db, b: Db) {
    && BookingsEvolve(a.bookings, b.bookings)
    && PaymentsEvolve(a.payments, b.payments)
    && EntriesEvolve(a.entries, b.entries)
    && a.events <= b.events
  }

  lemma EmptyOk()
    ensures DbOk(EMPTY)
  {
    forall c, z ensures WithinLimit(EMPTY.bookings, c, z) {
      assert ActiveBookings(EMPTY.bookings, c, z) == {};
    }
  }
}
