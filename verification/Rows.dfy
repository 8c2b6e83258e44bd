/** The tables of the booking core, one map per table, keyed by primary key. */
module Rows {
  import opened Wrappers
  import BP = BookingPolicy
  import PP = PaymentPolicy
  import QP = QueuePolicy

  type Id = nat

  datatype Kind = Scheduled | WalkIn

  /** One row of booking_status_history. */
  datatype BookingHop = BookingHop(from: Option<BP.Status>, to: BP.Status)

  /** A booking with its status history in insertion order. */
  datatype Booking = Booking(
    kind: Kind, online: bool, status: BP.Status,
    customer: Option<Id>, business: Id, outlet: Id, staff: Option<Id>,
    start: int, end: int, history: seq<BookingHop>)

  /** booking_reservations: a half-open range of one staff member's time. */
  datatype Reservation = Reservation(staff: Id, start: int, end: int)

  /** A payment with its refund rows; a refund is named by its payment and its position. */
  datatype Payment = Payment(
    booking: Id, online: bool, status: PP.Status, amount: nat,
    expiresAt: Option<int>, referenced: bool, refunds: seq<PP.Refund>)

  /** One outlet's queue on one business date. */
  datatype QueueKey = QueueKey(outlet: Id, day: int)

  /** One row of queue_status_history. */
  datatype QueueHop = QueueHop(from: Option<QP.Status>, to: QP.Status)

  datatype Entry = Entry(
    booking: Id, queue: QueueKey, staff: Option<Id>, number: int,
    sortOrder: int, checkedInAt: int, status: QP.Status, version: int, history: seq<QueueHop>)

  datatype Counter = Counter(last: int, version: int)

  datatype Db = Db(
    bookings: map<Id, Booking>,
    reservations: map<Id, Reservation>,
    payments: map<Id, Payment>,
    entries: map<Id, Entry>,
    counters: map<QueueKey, Counter>,
    events: set<Id>)

  const EMPTY := Db(map[], map[], map[], map[], map[], {})

  /** The booking after a status change recorded with the given origin. */
  function Moved(b: Booking, from: BP.Status, to: BP.Status): Booking {
    b.(status := to, history := b.history + [BookingHop(Some(from), to)])
  }

  /** All rows of a map keep their key but one. */
  function Without<V>(m: map<Id, V>, k: Id): map<Id, V> {
    map x | x in m && x != k :: m[x]
  }

  /** Bookings of one customer at one business that count against the active limit. */
  function ActiveBookings(bookings: map<Id, Booking>, customer: Id, business: Id): set<Id> {
    set b | b in bookings && bookings[b].customer == Some(customer)
            && bookings[b].business == business && BP.Blocking(bookings[b].status)
  }

  /** Two half-open ranges share an instant. */
  predicate Overlapping(a: Reservation, b: Reservation) {
    a.staff == b.staff && a.start < b.end && b.start < a.end
  }

  predicate SlotTaken(reservations: map<Id, Reservation>, r: Reservation) {
    exists b :: b in reservations && Overlapping(reservations[b], r)
  }
}
