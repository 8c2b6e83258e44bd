/**
 * The combined machine. A world is the tables plus the commands in flight, each
 * with what it read and how far it got. An event is one atomic step: a
 * transaction, a read that starts a command, the next step of a command in
 * flight, or a crash of its caller. A run is any sequence of events, so a
 * statement about all sequences is a statement about all interleavings.
 */
module Machine {
  import opened Wrappers
  import opened Rows
  import opened PaymentTransactions
  import opened QueueTransactions
  import BP = BookingPolicy
  import PP = PaymentPolicy

  /** A command in flight: its program counter and the values it remembers. */
  datatype Flight =
    /** cancelCustomerBooking / cancelBusinessBooking after requireBooking */
    | Cancelling(booking: Id, seenBooking: BP.Status, refund: int, lateCode: bool)
    /** the same command after its transaction, about to look for the payment */
    | CancelRefunding(booking: Id, amount: int, lateCode: bool)
    /** a caller of applyProviderEvent that got a late success back */
    | LateFlagged(payment: Id, amount: int)
    /** refundLatePayment after its existence check found nothing */
    | LateUnseen(payment: Id, amount: int)
    /** executeRefund with the payment as read before its transaction */
    | Refunding(payment: Id, seenPayment: PP.Status, amount: int, origin: PP.Origin)
    /** reconcilePendingRefunds with one stale refund in hand */
    | Sweeping(payment: Id, index: nat)
    /** settleWithProvider, waiting for the provider */
    | Settling(payment: Id, index: nat, skip: bool)
    /** markNoShowBooking after it read the booking as confirmed */
    | Absenting(booking: Id)
    /** a queue command with the entry as read before its transaction */
    | Commanding(entry: Id, seenEntry: Entry, expected: int, command: Command)

  datatype World = World(db: Db, flights: map<Id, Flight>)

  const START := World(EMPTY, map[])

  /** Transactions that act on no remembered read. */
  datatype Transaction =
    | Book(b: Id, p: Id, n: NewBooking)
    | Refer(p: Id)
    | Expire(p: Id, now: int)
    | Receipt(p: Id)
    | Remainder(b: Id, p: Id, amount: nat)
    | Arrive(b: Id, e: Id, day: int, at: int)
    | Walk(b: Id, p: Id, e: Id, w: NewWalkIn)
    | Absent(b: Id)
    | Resort(k: QueueKey, expected: int, requested: seq<Id>)

  /** The first read of a command. */
  datatype Opening =
    | ForCancel(b: Id, now: int, refund: int, lateCode: bool)
    | ForRefund(p: Id, amount: int, lateCode: bool)
    | ForSweep(p: Id, i: nat)
    | ForNoShow(b: Id)
    | ForCommand(e: Id, expected: int, c: Command)

  /**
   * What a run may contain: versions up to `guess` past the one their command reads; if
   * `lateCode`, the reason code `late_payment` from a client; and, if `splitNoShow`, other
   * steps between the read and the write of markNoShowBooking.
   */
  datatype Setting = Setting(guess: int, lateCode: bool, splitNoShow: bool)

  /** Clients send versions they have really seen and any reason code; a no-show is one step. */
  const USUAL := Setting(0, true, false)

  /** What the outside world supplies to the next step of a command in flight. */
  datatype Answer = Answer(at: int, refunded: bool, payment: Id)

  datatype Event =
    | Commit(t: Transaction)
    | Deliver(e: ProviderEvent, f: Id)
    | Open(f: Id, o: Opening)
    | Advance(f: Id, a: Answer)
    | Crash(f: Id)

  function RunTransaction(db: Db, t: Transaction): Db {
    match t
    case Book(b, p, n) => CreateBooking(db, b, p, n).0
    case Refer(p) => StoreReference(db, p)
    case Expire(p, now) => ExpireOne(db, p, now).0
    case Receipt(p) => ConfirmReceipt(db, p).0
    case Remainder(b, p, amount) => AddReceipt(db, b, p, amount).0
    case Arrive(b, e, day, at) => CheckIn(db, b, e, day, at).0
    case Walk(b, p, e, w) => CreateWalkIn(db, b, p, e, w).0
    case Absent(b) => NoShowBooking(db, b).0
    case Resort(k, expected, requested) => Reorder(db, k, expected, requested).0
  }

  /** assertCancellable (bookings.service.ts) on the booking as read. */
  predicate MayCancel(b: Booking, now: int) {
    BP.Cancellable(b.status) && !(b.kind == Scheduled && b.start <= now)
    && BP.CanTransition(b.status, BP.Cancelled)
  }

  function FirstRead(db: Db, o: Opening, how: Setting): Option<Flight> {
    match o
    case ForCancel(b, now, refund, lateCode) =>
      if (lateCode ==> how.lateCode) && b in db.bookings && MayCancel(db.bookings[b], now)
      then Some(Cancelling(b, db.bookings[b].status, refund, lateCode)) else None
    case ForRefund(p, amount, lateCode) =>
      if (lateCode ==> how.lateCode) && p in db.payments && db.payments[p].online && amount > 0
          && PP.Refundable(db.payments[p].status)
      then Some(Refunding(p, db.payments[p].status, amount, PP.OnRequest(lateCode))) else None
    case ForSweep(p, i) =>
      if p in db.payments && i < |db.payments[p].refunds| && db.payments[p].refunds[i].status == PP.Requested
      then Some(Sweeping(p, i)) else None
    case ForNoShow(b) =>
      if how.splitNoShow && b in db.bookings && db.bookings[b].status == BP.Confirmed
      then Some(Absenting(b)) else None
    case ForCommand(e, expected, c) =>
      if e in db.entries && expected <= db.entries[e].version + how.guess
      then Some(Commanding(e, db.entries[e], expected, c)) else None
  }

  /** One more step of a command in flight; None when it is over. */
  ghost function Continue(db: Db, f: Flight, a: Answer): (Db, Option<Flight>) {
    match f
    case Cancelling(b, seen, refund, lateCode) =>
      var r := CancelBooking(db, b, seen);
      (r.0, if r.1 then Some(CancelRefunding(b, refund, lateCode)) else None)
    case CancelRefunding(b, amount, lateCode) =>
      (db, if amount > 0 && a.payment in db.payments && db.payments[a.payment].booking == b
              && db.payments[a.payment].online && PP.Refundable(db.payments[a.payment].status)
           then Some(Refunding(a.payment, db.payments[a.payment].status, amount, PP.OnRequest(lateCode))) else None)
    case LateFlagged(p, amount) =>
      (db, if p in db.payments && !PP.SomeLateCoded(db.payments[p].refunds) then Some(LateUnseen(p, amount)) else None)
    case LateUnseen(p, amount) =>
      (db, if p in db.payments then Some(Refunding(p, db.payments[p].status, amount, PP.Automatic)) else None)
    case Refunding(p, seen, amount, origin) =>
      var r := ExecuteRefund(db, p, seen, amount, origin, a.at);
      (r.0, if r.1.Opened? then Some(Settling(p, r.1.index, origin.Automatic?)) else None)
    case Sweeping(p, i) =>
      (db, if p in db.payments then Some(Settling(p, i, db.payments[p].status != PP.RefundPending)) else None)
    case Settling(p, i, skip) =>
      (if a.refunded then Settle(db, p, i, skip) else db, None)
    case Absenting(b) => (WriteNoShow(db, b), None)
    case Commanding(e, seen, expected, c) =>
      (RunCommand(db, e, seen, expected, c).0, None)
  }

  ghost function StepBy(w: World, e: Event, how: Setting): World {
    match e
    case Commit(t) => w.(db := RunTransaction(w.db, t))
    case Deliver(ev, f) =>
      if f in w.flights then w
      else
        var r := ApplyProviderEvent(w.db, ev);
        World(r.0, if r.1.LateSuccess? then w.flights[f := LateFlagged(r.1.payment, r.1.amount)] else w.flights)
    case Open(f, o) =>
      if f in w.flights then w
      else
        var r := FirstRead(w.db, o, how);
        if r.None? then w else w.(flights := w.flights[f := r.value])
    case Advance(f, a) =>
      if f !in w.flights then w
      else
        var r := Continue(w.db, w.flights[f], a);
        World(r.0, if r.1.None? then Without(w.flights, f) else w.flights[f := r.1.value])
    case Crash(f) => w.(flights := Without(w.flights, f))
  }

  /** The world after a run of this setting that began with empty tables. */
  ghost function RunBy(es: seq<Event>, how: Setting): World {
    if es == [] then START else StepBy(RunBy(es[..|es| - 1], how), es[|es| - 1], how)
  }

  ghost function Step(w: World, e: Event): World { StepBy(w, e, USUAL) }

  ghost function Run(es: seq<Event>): World { RunBy(es, USUAL) }
}
