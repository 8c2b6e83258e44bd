/**
 * The services as they run: one object holding the tables, one method per
 * transaction, updating row after row. Each is proved against the function of
 * PaymentTransactions or QueueTransactions that the machine steps with.
 */
module Store {
  import opened Wrappers
  import opened Rows
  import opened Invariants
  import opened BookingProofs
  import opened RefundProofs
  import opened MachineProofs
  import BP = BookingPolicy
  import PP = PaymentPolicy
  import QP = QueuePolicy
  import T = PaymentTransactions
  import Q = QueueTransactions
  import E = Effects

  class Tables {
    var bookings: map<Id, Booking>
    var reservations: map<Id, Reservation>
    var payments: map<Id, Payment>
    var entries: map<Id, Entry>
    var counters: map<QueueKey, Counter>
    var events: set<Id>

    ghost function Rows(): Db
      reads this
    {
      Db(bookings, reservations, payments, entries, counters, events)
    }

    constructor ()
      ensures Rows() == EMPTY
    {
      bookings, reservations, payments, entries, counters, events := map[], map[], map[], map[], map[], {};
    }

    // -------------------------------------------------------------------
    // Row updates shared by the services
    // -------------------------------------------------------------------

    /** Status update and audit row of one booking. */
    method MoveBooking(b: Id, from: BP.Status, to: BP.Status)
      requires b in bookings
      modifies this`bookings
      ensures bookings == old(bookings)[b := Moved(old(bookings)[b], from, to)]
    {
      var row := bookings[b];
      bookings := bookings[b := row.(status := to)];
      bookings := bookings[b := bookings[b].(history := row.history + [BookingHop(Some(from), to)])];
    }

    method ReleaseReservation(b: Id)
      modifies this`reservations
      ensures reservations == Without(old(reservations), b)
    {
      if b in reservations {
        reservations := reservations - {b};
      }
    }

    method SetPaymentStatus(p: Id, to: PP.Status)
      requires p in payments
      modifies this`payments
      ensures payments == old(payments)[p := old(payments)[p].(status := to)]
    {
      payments := payments[p := payments[p].(status := to)];
    }

    // -------------------------------------------------------------------
    // Booking creation and cancellation
    // -------------------------------------------------------------------

    method CreateBooking(b: Id, p: Id, n: T.NewBooking) returns (out: T.CreateOutcome)
      modifies this
      ensures (Rows(), out) == T.CreateBooking(old(Rows()), b, p, n)
      ensures DbOk(old(Rows())) ==> E.Creates(old(Rows()), b, p, n, Rows(), out)
    {
      CreateSpecified(Rows(), b, p, n);
      hide DbOk, E.Creates;
      if |ActiveBookings(bookings, n.customer, n.business)| >= T.MAX_ACTIVE_BOOKINGS {
        return T.ActiveLimitReached;
      }
      if b in bookings || b in reservations || p in payments || n.start >= n.end {
        return T.RowRejected;
      }
      var before := bookings;
      bookings := bookings[b := T.NewBookingRow(n)];
      var slot := Reservation(n.staff, n.start, n.end);
      if SlotTaken(reservations, slot) {
        bookings := before;  // the exclusion constraint aborts the transaction
        return T.SlotUnavailable;
      }
      reservations := reservations[b := slot];
      payments := payments[p := T.NewPaymentRow(b, n)];
      out := T.Created;
    }

    method CancelBooking(b: Id, seen: BP.Status) returns (done: bool)
      modifies this
      ensures (Rows(), done) == T.CancelBooking(old(Rows()), b, seen)
      ensures E.Cancels(old(Rows()), b, seen, Rows(), done)
    {
      E.CancelBookingCancels(Rows(), b, seen);
      hide E.Cancels;
      if b !in bookings || bookings[b].status != seen {
        return false;
      }
      MoveBooking(b, seen, BP.Cancelled);
      ReleaseReservation(b);
      payments := T.CancelPending(payments, b);
      done := true;
    }

    /** The transaction of a no-show; without the booking it aborts. */
    method WriteNoShow(b: Id)
      modifies this`bookings, this`reservations
      ensures Rows() == T.WriteNoShow(old(Rows()), b)
    {
      if b in bookings {
        MoveBooking(b, BP.Confirmed, BP.NoShow);
        ReleaseReservation(b);
      }
    }

    method MarkNoShowBooking(b: Id) returns (done: bool)
      modifies this`bookings, this`reservations
      ensures (Rows(), done) == T.NoShowBooking(old(Rows()), b)
      ensures E.MarksAbsent(old(Rows()), b, Rows(), done)
    {
      E.NoShowBookingMarks(Rows(), b);
      hide E.MarksAbsent;
      if b !in bookings || bookings[b].status != BP.Confirmed {
        return false;
      }
      WriteNoShow(b);
      done := true;
    }

    // -------------------------------------------------------------------
    // Provider events and expiry
    // -------------------------------------------------------------------

    method ApplyProviderEvent(e: T.ProviderEvent) returns (out: T.EventOutcome)
      modifies this
      ensures (Rows(), out) == T.ApplyProviderEvent(old(Rows()), e)
      ensures DbOk(old(Rows())) ==> E.Applies(old(Rows()), e, Rows(), out)
    {
      EventSpecified(Rows(), e);
      hide DbOk, E.Applies;
      if e.id in events {
        return T.Duplicate;
      }
      var before := events;
      events := events + {e.id};
      var p := e.payment;
      if p !in payments || !payments[p].online || !payments[p].referenced {
        return T.ManualReview;
      }
      if e.amount != payments[p].amount || !e.rupiah {
        return T.ManualReview;
      }
      out := ApplyTransition(p, e.status);
      if out.Threw? {
        events := before;  // an exception rolls the event row back
      }
    }

    method ApplyTransition(p: Id, target: T.ProviderStatus) returns (out: T.EventOutcome)
      requires p in payments
      modifies this`bookings, this`payments, this`reservations
      ensures (Rows(), out) == T.ApplyTransition(old(Rows()), p, target)
    {
      var current := payments[p].status;
      var b := payments[p].booking;
      if target == T.Pending || current == T.Target(target) {
        return T.Ignored;
      }
      if target == T.Paid && !PP.CanTransition(current, PP.Paid) {
        if b !in bookings {
          return T.Threw;
        }
        if b in reservations && bookings[b].status == BP.PendingPayment {
          ApplyPaid(p);
          return T.Processed;
        }
        return T.LateSuccess(p, payments[p].amount);
      }
      if !PP.CanTransition(current, T.Target(target)) {
        return T.Ignored;
      }
      if b !in bookings {
        return T.Threw;
      }
      if target == T.Paid {
        ApplyPaid(p);
      } else {
        CloseUnpaid(p, T.Target(target));
      }
      out := T.Processed;
    }

    method ApplyPaid(p: Id)
      requires p in payments && payments[p].booking in bookings
      modifies this`bookings, this`payments
      ensures Rows() == T.ApplyPaid(old(Rows()), p)
    {
      SetPaymentStatus(p, PP.Paid);
      var b := payments[p].booking;
      if bookings[b].status == BP.PendingPayment {
        MoveBooking(b, BP.PendingPayment, BP.Confirmed);
      }
    }

    method CloseUnpaid(p: Id, to: PP.Status)
      requires p in payments
      modifies this`bookings, this`payments, this`reservations
      ensures Rows() == T.CloseUnpaid(old(Rows()), p, to)
    {
      SetPaymentStatus(p, to);
      var b := payments[p].booking;
      if b in bookings && bookings[b].status == BP.PendingPayment {
        MoveBooking(b, BP.PendingPayment, BP.Expired);
        ReleaseReservation(b);
      }
    }

    method ExpireOne(p: Id, now: int) returns (done: bool)
      modifies this`bookings, this`payments, this`reservations
      ensures (Rows(), done) == T.ExpireOne(old(Rows()), p, now)
      ensures DbOk(old(Rows())) ==> E.Expires(old(Rows()), p, now, Rows(), done)
    {
      ExpireSpecified(Rows(), p, now);
      hide DbOk, E.Expires;
      if p !in payments || payments[p].status != PP.Pending || payments[p].expiresAt.None?
         || payments[p].expiresAt.value > now
      {
        return false;
      }
      CloseUnpaid(p, PP.Expired);
      done := true;
    }

    /**
     * The expiry sweep over the listed payments. The list comes from an earlier
     * query, so it may name payments that are not due any more.
     */
    method ExpireDue(due: seq<Id>, now: int) returns (expired: nat)
      requires DbOk(Rows())
      modifies this`bookings, this`payments, this`reservations
      ensures DbOk(Rows())
      ensures payments == ExpiredIn(old(payments), DueAmong(old(payments), due, now))
      ensures expired == |DueAmong(old(payments), due, now)|
    {
      hide DbOk, Evolves;
      expired := 0;
      assert payments == ExpiredIn(payments, {});
      for i := 0 to |due|
        invariant DbOk(Rows())
        invariant payments == ExpiredIn(old(payments), DueAmong(old(payments), due[..i], now))
        invariant expired == |DueAmong(old(payments), due[..i], now)|
      {
        ExpireOneKeeps(Rows(), due[i], now);
        ExpireStep(old(payments), due[..i], due[i], now, Rows());
        assert due[..i + 1] == due[..i] + [due[i]];
        var done := ExpireOne(due[i], now);
        if done {
          expired := expired + 1;
        }
      }
      assert due[..|due|] == due;
    }

    // -------------------------------------------------------------------
    // Refunds
    // -------------------------------------------------------------------

    method ExecuteRefund(p: Id, seen: PP.Status, amount: int, origin: PP.Origin, at: int) returns (out: T.RefundOutcome)
      modifies this`payments
      ensures (Rows(), out) == T.ExecuteRefund(old(Rows()), p, seen, amount, origin, at)
      ensures DbOk(old(Rows())) && RefundReady(old(Rows()), p, seen, amount, origin) ==>
                E.OpensRefund(old(Rows()), p, amount, origin, at, Rows(), out)
    {
      RefundSpecified(Rows(), p, seen, amount, origin, at);
      hide DbOk, E.OpensRefund, RefundReady, PP.AvailableRefundable, PP.SomeRequested;
      if p !in payments {
        return T.RefundRejected;
      }
      var refunds := payments[p].refunds;
      if PP.SomeRequested(refunds) {
        return T.AlreadyPending;
      }
      if amount > PP.AvailableRefundable(payments[p].amount, refunds) {
        return T.AmountExceeds;
      }
      if amount <= 0 {
        return T.RefundRejected;
      }
      payments := payments[p := payments[p].(refunds := refunds + [PP.Refund(PP.Requested, amount, origin, at)])];
      if !origin.Automatic? && PP.CanTransition(seen, PP.RefundPending) {
        SetPaymentStatus(p, PP.RefundPending);
      }
      assert payments == T.ExecuteRefund(old(Rows()), p, seen, amount, origin, at).0.payments;
      out := T.Opened(|refunds|);
    }

    method Settle(p: Id, i: nat, skip: bool)
      modifies this`payments
      ensures Rows() == T.Settle(old(Rows()), p, i, skip)
      ensures DbOk(old(Rows())) && SettleReady(old(Rows()), p, i, skip) ==> E.Settles(old(Rows()), p, i, skip, Rows())
    {
      SettleSpecified(Rows(), p, i, skip);
      hide DbOk, E.Settles, SettleReady, PP.StatusAfterRefunds;
      if p !in payments || i >= |payments[p].refunds| || payments[p].refunds[i].status != PP.Requested {
        return;
      }
      var refunds := payments[p].refunds[i := payments[p].refunds[i].(status := PP.Done)];
      payments := payments[p := payments[p].(refunds := refunds)];
      if skip {
        return;
      }
      var locked := payments[p].status;
      if locked.RefundPending? || locked.PartiallyRefunded? || locked.Paid? {
        SetPaymentStatus(p, PP.StatusAfterRefunds(payments[p].amount, refunds));
      }
    }

    /**
     * reconcilePendingRefunds. `listed` names refunds in the order of the query, as far as it
     * looks; `confirmed` are those the provider reports as refunded when asked.
     */
    method ReconcilePendingRefunds(listed: seq<(Id, nat)>, confirmed: set<(Id, nat)>, now: int) returns (settled: nat)
      requires DbOk(Rows()) && Unrepeated(listed)
      modifies this`payments
      ensures DbOk(Rows())
      ensures var swept := set r | r in listed && Stale(old(payments), r, now) && r in confirmed;
              SettledIn(old(payments), payments, swept) && settled == |swept|
    {
      hide DbOk, Stale, StaleAmong, Named, Answered, SettledCount, SettledIn, Unrepeated;
      var stale: seq<(Id, nat)> := [];
      var answers: seq<bool> := [];
      NoneStale(payments, now);
      assert listed[..0] == [];
      for k := 0 to |listed|
        invariant DbOk(Rows()) && payments == old(payments)
        invariant |answers| == |stale| && stale == StaleAmong(payments, listed[..k], now)
        invariant forall j :: 0 <= j < |stale| ==> answers[j] == (stale[j] in confirmed)
      {
        StaleMore(payments, listed, k, now);
        if Stale(payments, listed[k], now) {
          stale, answers := stale + [listed[k]], answers + [listed[k] in confirmed];
        }
      }
      assert listed[..|listed|] == listed;
      SweptFacts(payments, listed, stale, answers, confirmed, now);
      settled := SweepRefunds(stale, answers);
    }

    /**
     * The loop of the refund sweep. `stale` lists refunds by payment and position as read
     * earlier, perhaps settled since; `answers` says which the provider reports as refunded.
     */
    method SweepRefunds(stale: seq<(Id, nat)>, answers: seq<bool>) returns (settled: nat)
      requires DbOk(Rows()) && |answers| == |stale|
      requires forall k :: 0 <= k < |stale| ==> Named(payments, stale[k])
      modifies this`payments
      ensures DbOk(Rows())
      ensures SettledIn(old(payments), payments, Answered(stale, answers))
      ensures settled == SettledCount(old(payments), stale, answers)
    {
      hide DbOk, Evolves, SettledIn, T.Settle;
      settled := 0;
      SettledNone(payments);
      assert Answered(stale[..0], answers[..0]) == {};
      for k := 0 to |stale|
        invariant DbOk(Rows())
        invariant SettledIn(old(payments), payments, Answered(stale[..k], answers[..k]))
        invariant settled == SettledCount(old(payments), stale[..k], answers[..k])
      {
        var (p, i) := stale[k];
        StillNamed(old(payments), payments, Answered(stale[..k], answers[..k]), stale[k]);
        var skip := payments[p].status != PP.RefundPending;
        AnsweredMore(stale, answers, k);
        if answers[k] {
          SweepSettles(Rows(), p, i);
          SettledMore(old(payments), payments, Answered(stale[..k], answers[..k]), p, i, Rows());
          Settle(p, i, skip);
        }
        StillNamed(old(payments), payments, Answered(stale[..k + 1], answers[..k + 1]), stale[k]);
        assert stale[..k + 1][..k] == stale[..k] && answers[..k + 1][..k] == answers[..k];
        if payments[p].refunds[i].status == PP.Done {
          settled := settled + 1;
        }
      }
      assert stale[..|stale|] == stale && answers[..|stale|] == answers;
    }

    /**
     * refundLatePayment by a caller that nobody interrupts. A payment that has any refund
     * already is left alone; otherwise the full amount is refunded.
     */
    method RefundLatePayment(p: Id, amount: int, at: int, refunded: bool)
      requires DbOk(Rows()) && RefundReady(Rows(), p, PP.Paid, amount, PP.Automatic)
      modifies this`payments
      ensures DbOk(Rows())
      ensures payments == old(payments)[p := LateRefunded(old(payments)[p], at, refunded)]
    {
      hide DbOk, Evolves;
      LateRow(Rows(), p, amount, at);
      ExecuteRefundKeeps(Rows(), p, payments[p].status, amount, PP.Automatic, at);
      if PP.SomeLateCoded(payments[p].refunds) {
        return;
      }
      var out := ExecuteRefund(p, payments[p].status, amount, PP.Automatic, at);
      if out.Opened? && refunded {
        var pending := payments[p];
        SettleKeeps(Rows(), p, out.index, true);
        Settle(p, out.index, true);
        assert pending.refunds[0 := pending.refunds[0].(status := PP.Done)] == [pending.refunds[0].(status := PP.Done)];
      }
    }

    /**
     * The payment sweep. A report is what the provider answered about one listed payment,
     * if it answered; `settles` says whether it confirms a refund that the report causes.
     */
    method ReconcilePayments(reports: seq<Option<T.ProviderEvent>>, settles: seq<bool>, at: int)
      returns (processed: nat)
      requires DbOk(Rows()) && |settles| == |reports|
      modifies this
      ensures DbOk(Rows()) && payments.Keys == old(payments.Keys)
      ensures processed == |LeftPending(old(payments), payments)|
      ensures forall p :: p in payments && old(payments)[p].status != PP.Pending ==>
              payments[p].status == old(payments)[p].status
    {
      hide DbOk, Evolves;
      processed := 0;
      assert LeftPending(payments, payments) == {};
      for k := 0 to |reports|
        invariant DbOk(Rows()) && payments.Keys == old(payments.Keys)
        invariant forall p :: p in payments && old(payments)[p].status != PP.Pending ==>
                payments[p].status == old(payments)[p].status
        invariant processed == |LeftPending(old(payments), payments)|
      {
        if reports[k].Some? {
          var e := reports[k].value;
          ghost var before := Rows();
          ApplyProviderEventKeeps(before, e);
          EventLeaves(old(payments), before, e);
          var out := ApplyProviderEvent(e);
          if out.LateSuccess? {
            LateSuccessReady(before, e);
            ghost var flagged := Rows();
            RefundLatePayment(out.payment, out.amount, at, settles[k]);
            SameLeft(old(payments), flagged.payments, payments);
          }
          if out == T.Processed {
            processed := processed + 1;
          }
        }
      }
    }

    // -------------------------------------------------------------------
    // Pay at location
    // -------------------------------------------------------------------

    method ConfirmReceipt(p: Id) returns (done: bool)
      modifies this`payments
      ensures (Rows(), done) == T.ConfirmReceipt(old(Rows()), p)
      ensures done <==> p in old(payments) && !old(payments)[p].online && old(payments)[p].status == PP.Pending
      ensures done ==> payments[p] == old(payments)[p].(status := PP.Paid)
      ensures payments.Keys == old(payments.Keys)
      ensures forall q :: q in payments && (q != p || !done) ==> payments[q] == old(payments)[q]
    {
      if p !in payments || payments[p].online || payments[p].status != PP.Pending {
        return false;
      }
      SetPaymentStatus(p, PP.Paid);
      done := true;
    }

    /** The receipt for what an online deposit left open. */
    method AddReceipt(b: Id, p: Id, amount: nat) returns (done: bool)
      modifies this`payments
      ensures (Rows(), done) == T.AddReceipt(old(Rows()), b, p, amount)
      ensures done <==> b in bookings && p !in old(payments) && amount > 0
      ensures done ==> p in payments && payments[p].booking == b && payments[p].status == PP.Paid
                       && payments[p].amount == amount && !payments[p].online
                       && payments[p].expiresAt == None && !payments[p].referenced && payments[p].refunds == []
      ensures forall q :: q in old(payments) ==> q in payments && payments[q] == old(payments)[q]
      ensures payments.Keys <= old(payments.Keys) + {p}
    {
      if b !in bookings || p in payments || amount == 0 {
        return false;
      }
      payments := payments[p := Payment(b, false, PP.Paid, amount, None, false, [])];
      done := true;
    }

    method StoreReference(p: Id)
      modifies this`payments
      ensures Rows() == T.StoreReference(old(Rows()), p)
      ensures E.Refers(old(Rows()), p, Rows())
    {
      E.StoreReferenceRefers(Rows(), p);
      hide E.Refers;
      if p in payments && payments[p].online {
        payments := payments[p := payments[p].(referenced := true)];
      }
    }

    // -------------------------------------------------------------------
    // Queue: shared row updates (queue-support.ts)
    // -------------------------------------------------------------------

    method NextQueueNumber(k: QueueKey) returns (number: int)
      modifies this`counters
      ensures counters == old(counters)[k := Q.Bumped(old(counters), k)]
      ensures number == Q.Bumped(old(counters), k).last
    {
      if k in counters {
        counters := counters[k := Counter(counters[k].last + 1, counters[k].version + 1)];
      } else {
        counters := counters[k := Counter(1, 1)];
      }
      number := counters[k].last;
    }

    /** Applies only while the stored version still matches. */
    method VersionedQueueUpdate(e: Id, expected: int, to: QP.Status, staff: Option<Id>, sortOrder: int)
      returns (applied: bool)
      requires e in entries
      modifies this`entries
      ensures applied == (old(entries)[e].version == expected)
      ensures entries == if applied
                         then old(entries)[e := old(entries)[e].(status := to, staff := staff, sortOrder := sortOrder,
                                                                 version := expected + 1)]
                         else old(entries)
    {
      var row := entries[e];
      if row.version != expected {
        return false;
      }
      entries := entries[e := row.(status := to, staff := staff, sortOrder := sortOrder, version := row.version + 1)];
      applied := true;
    }

    method InsertQueueHistory(e: Id, from: QP.Status, to: QP.Status)
      requires e in entries
      modifies this`entries
      ensures entries == old(entries)[e :=
              old(entries)[e].(history := old(entries)[e].history + [QueueHop(Some(from), to)])]
    {
      entries := entries[e := entries[e].(history := entries[e].history + [QueueHop(Some(from), to)])];
    }

    /** No write when the mapped status stays; otherwise the booking moves, or the transaction aborts. */
    method SyncBooking(seen: Entry, to: QP.Status) returns (out: Q.CommandOutcome)
      modifies this`bookings
      ensures out == Synced(old(bookings), seen, to)
      ensures bookings == if out == Q.Done then Q.SyncedBookings(old(bookings), seen, to) else old(bookings)
    {
      var from, next := QP.BookingStatusFor(seen.status), QP.BookingStatusFor(to);
      if from == next {
        return Q.Done;
      }
      if !BP.CanTransition(from, next) {
        return Q.TransitionRefused;
      }
      if seen.booking !in bookings {
        return Q.BookingMissing;
      }
      MoveBooking(seen.booking, from, next);
      out := Q.Done;
    }

    /** The largest sort key among the given entries. */
    method MaxSortOrder(ids: set<Id>) returns (m: int)
      requires ids != {} && ids <= entries.Keys
      ensures m == Q.MaxSort(entries, ids)
    {
      var e :| e in ids;
      m := entries[e].sortOrder;
      var rest := ids - {e};
      while rest != {}
        invariant rest <= ids
        invariant exists x :: x in ids - rest && entries[x].sortOrder == m
        invariant forall x :: x in ids - rest ==> entries[x].sortOrder <= m
        decreases |rest|
      {
        var x :| x in rest;
        if entries[x].sortOrder > m {
          m := entries[x].sortOrder;
        }
        rest := rest - {x};
      }
      assert ids - rest == ids;
      assert Q.IsMaxSort(entries, ids, Q.MaxSort(entries, ids));
    }

    // -------------------------------------------------------------------
    // Queue: check-in and walk-in
    // -------------------------------------------------------------------

    method CheckIn(b: Id, e: Id, day: int, at: int) returns (out: Q.CheckInOutcome)
      modifies this`bookings, this`entries, this`counters
      ensures (Rows(), out) == Q.CheckIn(old(Rows()), b, e, day, at)
      ensures DbOk(old(Rows())) ==> E.ChecksIn(old(Rows()), b, e, day, at, Rows(), out)
    {
      CheckInSpecified(Rows(), b, e, day, at);
      hide DbOk, E.ChecksIn;
      if b !in bookings || bookings[b].kind != Scheduled || bookings[b].status != BP.Confirmed {
        return Q.NotConfirmed;
      }
      var before := counters;
      var k := QueueKey(bookings[b].outlet, day);
      var number := NextQueueNumber(k);
      if Q.HasEntry(entries, b) {
        counters := before;  // a unique index aborts the transaction, counter included
        return Q.AlreadyQueued;
      }
      if e in entries {
        counters := before;
        return Q.RowRejected;
      }
      entries := entries[e := Q.NewEntry(b, k, bookings[b].staff, number, at)];
      var row := bookings[b];
      bookings := bookings[b := row.(status := BP.Waiting)];
      bookings := bookings[b := bookings[b].(history := row.history + [BookingHop(Some(BP.Confirmed), BP.CheckedIn)])];
      var mid := bookings[b];
      bookings := bookings[b := mid.(history := mid.history + [BookingHop(Some(BP.CheckedIn), BP.Waiting)])];
      assert bookings[b].history == Q.CheckedInBooking(row).history;
      assert bookings == old(bookings)[b := Q.CheckedInBooking(row)];
      out := Q.CheckedIn;
    }

    method CreateWalkIn(b: Id, p: Id, e: Id, w: Q.NewWalkIn) returns (done: bool)
      modifies this`bookings, this`payments, this`entries, this`counters
      ensures (Rows(), done) == Q.CreateWalkIn(old(Rows()), b, p, e, w)
      ensures DbOk(old(Rows())) ==> E.WalksIn(old(Rows()), b, p, e, w, Rows(), done)
    {
      WalkInSpecified(Rows(), b, p, e, w);
      hide DbOk, E.WalksIn;
      if b in bookings || p in payments || e in entries || Q.HasEntry(entries, b) {
        return false;
      }
      bookings := bookings[b := Q.WalkInBooking(w)];
      payments := payments[p := Payment(b, false, PP.Pending, w.price, None, false, [])];
      var k := QueueKey(w.outlet, w.day);
      var number := NextQueueNumber(k);
      entries := entries[e := Q.NewEntry(b, k, w.staff, number, w.at)];
      done := true;
    }

    // -------------------------------------------------------------------
    // Queue: versioned commands (queue-commands.service.ts)
    // -------------------------------------------------------------------

    /** Booking, reservation and history after the entry row was updated; undone when refused. */
    method FinishCommand(e: Id, seen: Entry, to: QP.Status, release: bool, before: map<Id, Entry>)
      returns (out: Q.CommandOutcome)
      requires e in entries
      modifies this`bookings, this`entries, this`reservations
      ensures out == Synced(old(bookings), seen, to)
      ensures if out != Q.Done then Rows() == old(Rows()).(entries := before)
              else
                Rows() == old(Rows()).(
                     entries := old(entries)[e :=
                         old(entries)[e].(history := old(entries)[e].history + [QueueHop(Some(seen.status), to)])],
                     bookings := Q.SyncedBookings(old(bookings), seen, to),
                     reservations := if release then Without(old(reservations), seen.booking) else old(reservations))
    {
      out := SyncBooking(seen, to);
      if out != Q.Done {
        entries := before;
        return;
      }
      if release {
        ReleaseReservation(seen.booking);
      }
      InsertQueueHistory(e, seen.status, to);
    }

    method Call(e: Id, seen: Entry, expected: int) returns (out: Q.CommandOutcome)
      modifies this`bookings, this`entries, this`reservations
      ensures (Rows(), out) == Q.RunCommand(old(Rows()), e, seen, expected, Q.Call)
      ensures Fresh(old(Rows()), e, seen, expected) ==> E.Calls(old(Rows()), e, Rows(), out)
    {
      CommandSpecified(Rows(), e, seen, expected, Q.Call);
      CommandCases(Rows(), e, seen, expected, Q.Call);
      hide Fresh, E.Calls, Q.RunCommand, Q.Verdict, Synced;
      hide BP.CanTransition, QP.BookingStatusFor, Q.SyncedBookings, Q.Mirrored;
      if e !in entries {
        return Q.Missing;
      }
      if seen.status != QP.Waiting {
        return Q.WrongStatus;
      }
      var before := entries;
      var applied := VersionedQueueUpdate(e, expected, QP.Called, entries[e].staff, entries[e].sortOrder);
      if !applied {
        return Q.VersionConflict;
      }
      // queue_entries_one_called_uq
      if exists x :: x in before && x != e && before[x].queue == seen.queue && before[x].status == QP.Called {
        entries := before;
        return Q.QueueHasCalled;
      }
      out := FinishCommand(e, seen, QP.Called, false, before);
      assert entries == Q.RunCommand(old(Rows()), e, seen, expected, Q.Call).0.entries;
    }

    method Recall(e: Id, seen: Entry, expected: int) returns (out: Q.CommandOutcome)
      modifies this`bookings, this`entries, this`reservations
      ensures (Rows(), out) == Q.RunCommand(old(Rows()), e, seen, expected, Q.Recall)
      ensures Fresh(old(Rows()), e, seen, expected) ==> E.Recalls(old(Rows()), e, Rows(), out)
    {
      CommandSpecified(Rows(), e, seen, expected, Q.Recall);
      CommandCases(Rows(), e, seen, expected, Q.Recall);
      hide Fresh, E.Recalls, Q.RunCommand, Q.Verdict, Synced;
      hide BP.CanTransition, QP.BookingStatusFor, Q.SyncedBookings, Q.Mirrored;
      if e !in entries {
        return Q.Missing;
      }
      if seen.status != QP.Called {
        return Q.WrongStatus;
      }
      var before := entries;
      var applied := VersionedQueueUpdate(e, expected, QP.Called, entries[e].staff, entries[e].sortOrder);
      if !applied {
        return Q.VersionConflict;
      }
      out := FinishCommand(e, seen, QP.Called, false, before);
      assert entries == Q.RunCommand(old(Rows()), e, seen, expected, Q.Recall).0.entries;
    }

    method Skip(e: Id, seen: Entry, expected: int) returns (out: Q.CommandOutcome)
      modifies this`bookings, this`entries, this`reservations
      ensures (Rows(), out) == Q.RunCommand(old(Rows()), e, seen, expected, Q.Skip)
      ensures Fresh(old(Rows()), e, seen, expected) ==> E.Skips(old(Rows()), e, Rows(), out)
    {
      CommandSpecified(Rows(), e, seen, expected, Q.Skip);
      CommandCases(Rows(), e, seen, expected, Q.Skip);
      hide Fresh, E.Skips, Q.RunCommand, Q.Verdict, Synced;
      hide BP.CanTransition, QP.BookingStatusFor, Q.SyncedBookings, Q.Mirrored;
      if e !in entries {
        return Q.Missing;
      }
      if seen.status != QP.Called {
        return Q.WrongStatus;
      }
      var before := entries;
      var applied := VersionedQueueUpdate(e, expected, QP.Skipped, entries[e].staff, entries[e].sortOrder);
      if !applied {
        return Q.VersionConflict;
      }
      out := FinishCommand(e, seen, QP.Skipped, false, before);
      assert entries == Q.RunCommand(old(Rows()), e, seen, expected, Q.Skip).0.entries;
    }

    /** The largest sort key of the active queue, or the entry's own when it is empty. */
    method LastSortOrder(seen: Entry) returns (last: int)
      ensures var active := Q.ActiveEntries(entries, seen.queue);
              last == if active == {} then seen.sortOrder else Q.MaxSort(entries, active)
    {
      var active := Q.ActiveEntries(entries, seen.queue);
      last := seen.sortOrder;
      if active != {} {
        last := MaxSortOrder(active);
      }
    }

    method ReturnToWaiting(e: Id, seen: Entry, expected: int) returns (out: Q.CommandOutcome)
      modifies this`bookings, this`entries, this`reservations
      ensures (Rows(), out) == Q.RunCommand(old(Rows()), e, seen, expected, Q.ReturnToWaiting)
      ensures Fresh(old(Rows()), e, seen, expected) ==> E.Returns(old(Rows()), e, Rows(), out)
    {
      CommandSpecified(Rows(), e, seen, expected, Q.ReturnToWaiting);
      CommandCases(Rows(), e, seen, expected, Q.ReturnToWaiting);
      hide Fresh, E.Returns, Q.RunCommand, Q.Verdict, Synced;
      hide BP.CanTransition, QP.BookingStatusFor, Q.SyncedBookings, Q.Mirrored;
      if e !in entries {
        return Q.Missing;
      }
      if seen.status != QP.Skipped {
        return Q.WrongStatus;
      }
      var before := entries;
      var last := LastSortOrder(seen);
      assert last + 1 == Q.SortAfter(Rows(), e, seen, Q.ReturnToWaiting);
      hide Q.SortAfter, Q.ActiveEntries, Q.MaxSort;
      var applied := VersionedQueueUpdate(e, expected, QP.Waiting, entries[e].staff, last + 1);
      if !applied {
        return Q.VersionConflict;
      }
      out := FinishCommand(e, seen, QP.Waiting, false, before);
      assert entries == Q.RunCommand(old(Rows()), e, seen, expected, Q.ReturnToWaiting).0.entries;
    }

    method StartService(e: Id, seen: Entry, expected: int, chosen: Option<Id>, active: bool)
      returns (out: Q.CommandOutcome)
      modifies this`bookings, this`entries, this`reservations
      ensures (Rows(), out) == Q.RunCommand(old(Rows()), e, seen, expected, Q.StartService(chosen, active))
      ensures Fresh(old(Rows()), e, seen, expected) ==> E.Starts(old(Rows()), e, chosen, active, Rows(), out)
    {
      CommandSpecified(Rows(), e, seen, expected, Q.StartService(chosen, active));
      CommandCases(Rows(), e, seen, expected, Q.StartService(chosen, active));
      hide Fresh, E.Starts, Q.RunCommand, Q.Verdict, Synced;
      hide BP.CanTransition, QP.BookingStatusFor, Q.SyncedBookings, Q.Mirrored;
      if e !in entries {
        return Q.Missing;
      }
      if seen.status != QP.Called {
        return Q.WrongStatus;
      }
      var staff := if chosen.Some? then chosen else seen.staff;
      if staff.None? || !active {
        return Q.StaffUnavailable;
      }
      var before := entries;
      var applied := VersionedQueueUpdate(e, expected, QP.InService, staff, entries[e].sortOrder);
      if !applied {
        return Q.VersionConflict;
      }
      // queue_entries_one_in_service_per_staff_uq
      var busy := exists x :: x in before && x != e && before[x].staff == staff && before[x].status == QP.InService;
      assert busy == Q.Refused(before, e, seen, Q.StartService(chosen, active));
      hide Q.Refused;
      if busy {
        entries := before;
        return Q.StaffUnavailable;
      }
      out := FinishCommand(e, seen, QP.InService, false, before);
      assert entries == Q.RunCommand(old(Rows()), e, seen, expected, Q.StartService(chosen, active)).0.entries;
    }

    method Complete(e: Id, seen: Entry, expected: int) returns (out: Q.CommandOutcome)
      modifies this`bookings, this`entries, this`reservations
      ensures (Rows(), out) == Q.RunCommand(old(Rows()), e, seen, expected, Q.Complete)
      ensures Fresh(old(Rows()), e, seen, expected) ==> E.Completes(old(Rows()), e, Rows(), out)
    {
      CommandSpecified(Rows(), e, seen, expected, Q.Complete);
      CommandCases(Rows(), e, seen, expected, Q.Complete);
      hide Fresh, E.Completes, Q.RunCommand, Q.Verdict, Synced;
      hide BP.CanTransition, QP.BookingStatusFor, Q.SyncedBookings, Q.Mirrored;
      if e !in entries {
        return Q.Missing;
      }
      if seen.status != QP.InService {
        return Q.WrongStatus;
      }
      var before := entries;
      var applied := VersionedQueueUpdate(e, expected, QP.Completed, entries[e].staff, entries[e].sortOrder);
      if !applied {
        return Q.VersionConflict;
      }
      out := FinishCommand(e, seen, QP.Completed, true, before);
      assert entries == Q.RunCommand(old(Rows()), e, seen, expected, Q.Complete).0.entries;
    }

    method MarkNoShowEntry(e: Id, seen: Entry, expected: int) returns (out: Q.CommandOutcome)
      modifies this`bookings, this`entries, this`reservations
      ensures (Rows(), out) == Q.RunCommand(old(Rows()), e, seen, expected, Q.MarkNoShow)
      ensures Fresh(old(Rows()), e, seen, expected) ==> E.EndsAbsent(old(Rows()), e, Rows(), out)
    {
      CommandSpecified(Rows(), e, seen, expected, Q.MarkNoShow);
      CommandCases(Rows(), e, seen, expected, Q.MarkNoShow);
      hide Fresh, E.EndsAbsent, Q.RunCommand, Q.Verdict, Synced;
      hide BP.CanTransition, QP.BookingStatusFor, Q.SyncedBookings, Q.Mirrored;
      if e !in entries {
        return Q.Missing;
      }
      if seen.status != QP.Called && seen.status != QP.Skipped {
        return Q.WrongStatus;
      }
      var before := entries;
      var applied := VersionedQueueUpdate(e, expected, QP.NoShow, entries[e].staff, entries[e].sortOrder);
      if !applied {
        return Q.VersionConflict;
      }
      out := FinishCommand(e, seen, QP.NoShow, true, before);
      assert entries == Q.RunCommand(old(Rows()), e, seen, expected, Q.MarkNoShow).0.entries;
    }

    // -------------------------------------------------------------------
    // Queue: reorder
    // -------------------------------------------------------------------

    /** Writes 1, 2, … to the listed entries, one update after another. */
    method WriteSortOrders(requested: seq<Id>)
      requires forall e :: e in requested ==> e in entries
      modifies this`entries
      ensures entries == Q.Renumbered(old(entries), requested)
    {
      for i := 0 to |requested|
        invariant forall e :: e in requested ==> e in old(entries)
        invariant entries == Q.Renumbered(old(entries), requested[..i])
      {
        var e := requested[i];
        assert requested[..i + 1][..i] == requested[..i] && requested[..i + 1][i] == e;
        entries := entries[e := entries[e].(sortOrder := i + 1)];
      }
      assert requested[..|requested|] == requested;
    }

    method Reorder(k: QueueKey, expected: int, requested: seq<Id>) returns (out: Q.ReorderOutcome)
      modifies this`entries, this`counters
      ensures (Rows(), out) == Q.Reorder(old(Rows()), k, expected, requested)
    {
      if k !in counters || counters[k].version != expected {
        return Q.QueueVersionConflict;
      }
      var before := counters;
      counters := counters[k := counters[k].(version := expected + 1)];
      if !Q.ValidOrder(entries, k, requested) {
        counters := before;
        return Q.InvalidEntries;
      }
      assert forall e :: e in requested ==> e in Q.ReorderableEntries(entries, k);
      WriteSortOrders(requested);
      out := Q.Reordered;
    }
  }

  /** A payment after its late refund. */
  function LateRefunded(pay: Payment, at: int, refunded: bool): Payment {
    if pay.refunds != [] || pay.amount == 0 then pay
    else pay.(refunds := [PP.Refund(if refunded then PP.Done else PP.Requested, pay.amount, PP.Automatic, at)])
  }

  /** What executeRefund does to a payment flagged for a late refund. */
  lemma LateRow(db: Db, p: Id, amount: int, at: int)
    requires DbOk(db) && RefundReady(db, p, PP.Paid, amount, PP.Automatic)
    ensures var pay := db.payments[p]; var r := T.ExecuteRefund(db, p, pay.status, amount, PP.Automatic, at);
            && RefundReady(db, p, pay.status, amount, PP.Automatic)
            && (if pay.refunds == [] && pay.amount > 0
                then r == (db.(payments := db.payments[p := LateRefunded(pay, at, false)]), T.Opened(0))
                else r.0 == db && !r.1.Opened?)
  {
    hide DbOk;
    var pay := db.payments[p];
    LateRefundOpensExactly(db, p, amount, pay.status, at);
    var refund := PP.Refund(PP.Requested, amount, PP.Automatic, at);
    assert pay.refunds == [] ==> pay.refunds + [refund] == [refund];
  }

  /** The payments that were pending and are not any more. */
  ghost function LeftPending(a: map<Id, Payment>, b: map<Id, Payment>): set<Id> {
    set p | p in a && p in b && a[p].status == PP.Pending && b[p].status != PP.Pending
  }

  lemma SameLeft(a: map<Id, Payment>, b: map<Id, Payment>, c: map<Id, Payment>)
    requires b.Keys == c.Keys && forall p :: p in b ==> b[p].status == c[p].status
    ensures LeftPending(a, b) == LeftPending(a, c)
  {
  }

  /** Payment `p` leaves pending, and nothing else changes. */
  predicate TakesOut(a: map<Id, Payment>, b: map<Id, Payment>, p: Id) {
    && p in a && p in b && b == a[p := b[p]]
    && a[p].status == PP.Pending && b[p].status != PP.Pending
  }

  /** An event is reported as processed exactly when it takes its payment out of pending. */
  lemma EventMoves(db: Db, e: T.ProviderEvent)
    requires DbOk(db)
    ensures var r := T.ApplyProviderEvent(db, e);
            if r.1 == T.Processed then TakesOut(db.payments, r.0.payments, e.payment) else r.0.payments == db.payments
  {
    hide DbOk;
    if e.payment in db.payments && db.payments[e.payment].online && db.payments[e.payment].status != PP.Pending {
      NeverHonoured(db, e.payment);
    }
  }

  lemma EventLeaves(a: map<Id, Payment>, db: Db, e: T.ProviderEvent)
    requires DbOk(db) && a.Keys == db.payments.Keys
    requires forall p :: p in a && a[p].status != PP.Pending ==> db.payments[p].status == a[p].status
    ensures var r := T.ApplyProviderEvent(db, e);
            && r.0.payments.Keys == a.Keys
            && (forall p :: p in a && a[p].status != PP.Pending ==> r.0.payments[p].status == a[p].status)
            && |LeftPending(a, r.0.payments)| == |LeftPending(a, db.payments)| + if r.1 == T.Processed then 1 else 0
  {
    hide DbOk, T.ApplyProviderEvent;
    EventMoves(db, e);
    var r := T.ApplyProviderEvent(db, e);
    if r.1 == T.Processed {
      assert a[e.payment].status == PP.Pending;
      assert LeftPending(a, r.0.payments) == LeftPending(a, db.payments) + {e.payment};
    }
  }

  /** Sound tables, and a command that has read the entry and its version as they are. */
  ghost predicate Fresh(db: Db, e: Id, seen: Entry, expected: int) {
    DbOk(db) && e in db.entries && seen == db.entries[e] && expected == seen.version
  }

  /** A command by its guards, in their order. */
  lemma CommandCases(db: Db, e: Id, seen: Entry, expected: int, c: Q.Command)
    ensures var r := Q.RunCommand(db, e, seen, expected, c);
            if e !in db.entries then r == (db, Q.Missing)
            else if !Q.Accepts(c, seen.status) then r == (db, Q.WrongStatus)
            else if c.StartService? && (Q.StaffFor(seen, c).None? || !c.active) then r == (db, Q.StaffUnavailable)
            else if db.entries[e].version != expected then r == (db, Q.VersionConflict)
            else if Q.Refused(db.entries, e, seen, c) then
              r == (db, if c == Q.Call then Q.QueueHasCalled else Q.StaffUnavailable)
            else
              var out := Synced(db.bookings, seen, Q.TargetOf(c));
              r == (if out == Q.Done then Q.ApplyCommand(db, e, seen, c) else db, out)
  {
    hide Q.ApplyCommand, Q.Refused;
  }

  lemma CommandSpecified(db: Db, e: Id, seen: Entry, expected: int, c: Q.Command)
    ensures Fresh(db, e, seen, expected) ==>
              var r := Q.RunCommand(db, e, seen, expected, c); e in db.entries && E.Commands(db, e, c, r.0, r.1)
  {
    hide DbOk, E.Commands, Q.RunCommand;
    if Fresh(db, e, seen, expected) {
      E.CommandCommands(db, e, c);
    }
  }

  lemma CreateSpecified(db: Db, b: Id, p: Id, n: T.NewBooking)
    ensures DbOk(db) ==>
              var r := T.CreateBooking(db, b, p, n); E.Creates(db, b, p, n, r.0, r.1)
  {
    hide *;
    if DbOk(db) {
      E.CreateBookingCreates(db, b, p, n);
    }
  }

  lemma EventSpecified(db: Db, e: T.ProviderEvent)
    ensures DbOk(db) ==>
              var r := T.ApplyProviderEvent(db, e); E.Applies(db, e, r.0, r.1)
  {
    hide *;
    if DbOk(db) {
      E.ProviderEventApplies(db, e);
    }
  }

  lemma ExpireSpecified(db: Db, p: Id, now: int)
    ensures DbOk(db) ==>
              var r := T.ExpireOne(db, p, now); E.Expires(db, p, now, r.0, r.1)
  {
    hide *;
    if DbOk(db) {
      E.ExpireOneExpires(db, p, now);
    }
  }

  lemma RefundSpecified(db: Db, p: Id, seen: PP.Status, amount: int, origin: PP.Origin, at: int)
    ensures DbOk(db) && RefundReady(db, p, seen, amount, origin) ==>
              var r := T.ExecuteRefund(db, p, seen, amount, origin, at);
              p in db.payments && E.OpensRefund(db, p, amount, origin, at, r.0, r.1)
  {
    hide DbOk, T.ExecuteRefund, E.OpensRefund;
    if DbOk(db) && RefundReady(db, p, seen, amount, origin) {
      E.ExecuteRefundOpens(db, p, seen, amount, origin, at);
    }
  }

  lemma SettleSpecified(db: Db, p: Id, i: nat, skip: bool)
    ensures DbOk(db) && SettleReady(db, p, i, skip) ==>
              p in db.payments && i < |db.payments[p].refunds| && E.Settles(db, p, i, skip, T.Settle(db, p, i, skip))
  {
    hide DbOk, T.Settle, E.Settles;
    if DbOk(db) && SettleReady(db, p, i, skip) {
      E.SettleSettles(db, p, i, skip);
    }
  }

  lemma CheckInSpecified(db: Db, b: Id, e: Id, day: int, at: int)
    ensures DbOk(db) ==>
              var r := Q.CheckIn(db, b, e, day, at); E.ChecksIn(db, b, e, day, at, r.0, r.1)
  {
    hide *;
    if DbOk(db) {
      E.CheckInChecksIn(db, b, e, day, at);
    }
  }

  lemma WalkInSpecified(db: Db, b: Id, p: Id, e: Id, w: Q.NewWalkIn)
    ensures DbOk(db) ==>
              var r := Q.CreateWalkIn(db, b, p, e, w); E.WalksIn(db, b, p, e, w, r.0, r.1)
  {
    hide *;
    if DbOk(db) {
      E.CreateWalkInWalksIn(db, b, p, e, w);
    }
  }

  /** What becomes of the booking that mirrors an entry. */
  function Synced(bookings: map<Id, Booking>, seen: Entry, to: QP.Status): (out: Q.CommandOutcome)
    ensures out == Q.Done ==> Q.Mirrored(bookings, seen, to)
  {
    var from, next := QP.BookingStatusFor(seen.status), QP.BookingStatusFor(to);
    if from != next && !BP.CanTransition(from, next) then Q.TransitionRefused
    else if !Q.Mirrored(bookings, seen, to) then Q.BookingMissing
    else Q.Done
  }

  /** A payment the expiry job may close at `now`. */
  predicate Due(p: Payment, now: int) {
    p.status == PP.Pending && p.expiresAt.Some? && p.expiresAt.value <= now
  }

  /** The listed payments that are due. */
  ghost function DueAmong(payments: map<Id, Payment>, due: seq<Id>, now: int): set<Id> {
    set p | p in due && p in payments && Due(payments[p], now)
  }

  /** The payments with those in `s` expired. */
  ghost function ExpiredIn(payments: map<Id, Payment>, s: set<Id>): map<Id, Payment> {
    map p | p in payments :: if p in s then payments[p].(status := PP.Expired) else payments[p]
  }

  lemma ExpireStep(before: map<Id, Payment>, done: seq<Id>, p: Id, now: int, db: Db)
    requires db.payments == ExpiredIn(before, DueAmong(before, done, now))
    ensures var r := T.ExpireOne(db, p, now); var more := DueAmong(before, done + [p], now);
            && r.0.payments == ExpiredIn(before, more)
            && |more| == |DueAmong(before, done, now)| + if r.1 then 1 else 0
  {
    var some := DueAmong(before, done, now);
    DueMore(before, done, p, now);
    hide DueAmong;
    assert p in before && p !in some ==> db.payments[p] == before[p];
    assert p in some ==> p in before ==> db.payments[p].status == PP.Expired;
  }

  lemma DueMore(before: map<Id, Payment>, done: seq<Id>, p: Id, now: int)
    ensures var some := DueAmong(before, done, now);
            DueAmong(before, done + [p], now) == if p in before && Due(before[p], now) then some + {p} else some
    ensures p in DueAmong(before, done, now) ==> p in before && Due(before[p], now)
  {
  }

  /** A payment and the position of one of its refunds. */
  predicate Named(payments: map<Id, Payment>, r: (Id, nat)) {
    r.0 in payments && r.1 < |payments[r.0].refunds|
  }

  /** The refunds the provider reports as settled. */
  ghost function Answered(stale: seq<(Id, nat)>, answers: seq<bool>): set<(Id, nat)>
    requires |answers| == |stale|
  {
    set k | 0 <= k < |stale| && answers[k] :: stale[k]
  }

  lemma AnsweredMore(stale: seq<(Id, nat)>, answers: seq<bool>, k: nat)
    requires |answers| == |stale| && k < |stale|
    ensures var less := Answered(stale[..k], answers[..k]);
            Answered(stale[..k + 1], answers[..k + 1]) == if answers[k] then less + {stale[k]} else less
  {
    var less, more := Answered(stale[..k], answers[..k]), Answered(stale[..k + 1], answers[..k + 1]);
    forall r | r in less ensures r in more {
      var j :| 0 <= j < k && answers[..k][j] && stale[..k][j] == r;
      assert stale[..k + 1][j] == r && answers[..k + 1][j];
    }
    if answers[k] {
      assert stale[..k + 1][k] == stale[k] && answers[..k + 1][k];
    }
    forall r | r in more ensures r in less || (answers[k] && r == stale[k]) {
      var j :| 0 <= j < k + 1 && answers[..k + 1][j] && stale[..k + 1][j] == r;
      if j < k {
        assert stale[..k][j] == r && answers[..k][j];
      }
    }
  }

  /** How many of the listed refunds are done when the sweep looks again right after its turn with each. */
  ghost function SettledCount(payments: map<Id, Payment>, stale: seq<(Id, nat)>, answers: seq<bool>): nat
    requires |answers| == |stale| && forall k :: 0 <= k < |stale| ==> Named(payments, stale[k])
  {
    if stale == [] then 0
    else
      var n := |stale| - 1;
      var r := stale[n];
      assert Named(payments, stale[n]);
      SettledCount(payments, stale[..n], answers[..n])
      + if r in Answered(stale, answers) || payments[r.0].refunds[r.1].status == PP.Done then 1 else 0
  }

  const RECONCILE_MIN_AGE_MS := 60_000

  /** A pending refund old enough for the sweep. */
  predicate Stale(payments: map<Id, Payment>, r: (Id, nat), now: int) {
    Named(payments, r) &&
    var refund := payments[r.0].refunds[r.1];
    refund.status == PP.Requested && refund.requestedAt <= now - RECONCILE_MIN_AGE_MS
  }

  function StaleAmong(payments: map<Id, Payment>, listed: seq<(Id, nat)>, now: int): seq<(Id, nat)> {
    if listed == [] then []
    else
      var n := |listed| - 1;
      StaleAmong(payments, listed[..n], now) + if Stale(payments, listed[n], now) then [listed[n]] else []
  }

  ghost predicate Unrepeated(listed: seq<(Id, nat)>) {
    forall i, j :: 0 <= i < j < |listed| ==> listed[i] != listed[j]
  }

  lemma StaleMore(payments: map<Id, Payment>, listed: seq<(Id, nat)>, k: nat, now: int)
    requires k < |listed|
    ensures StaleAmong(payments, listed[..k + 1], now)
            == StaleAmong(payments, listed[..k], now) + if Stale(payments, listed[k], now) then [listed[k]] else []
  {
    assert listed[..k + 1][..k] == listed[..k];
  }

  lemma {:induction false} StaleFacts(payments: map<Id, Payment>, listed: seq<(Id, nat)>, now: int)
    requires Unrepeated(listed)
    ensures var stale := StaleAmong(payments, listed, now);
            && (forall r :: r in stale <==> r in listed && Stale(payments, r, now))
            && Unrepeated(stale)
  {
    if listed != [] {
      var n := |listed| - 1;
      StaleFacts(payments, listed[..n], now);
      assert listed == listed[..n] + [listed[n]];
      assert listed[n] !in listed[..n];
    }
  }

  /** Each confirmed refund of an unrepeated list of pending ones is counted once. */
  lemma {:induction false} CountsSwept(
      payments: map<Id, Payment>, stale: seq<(Id, nat)>, answers: seq<bool>, confirmed: set<(Id, nat)>)
    requires |answers| == |stale| && Unrepeated(stale)
    requires forall j :: 0 <= j < |stale| ==> answers[j] == (stale[j] in confirmed)
    requires forall k :: 0 <= k < |stale| ==>
               Named(payments, stale[k]) && payments[stale[k].0].refunds[stale[k].1].status == PP.Requested
    ensures SettledCount(payments, stale, answers) == |Answered(stale, answers)|
  {
    if stale != [] {
      var n := |stale| - 1;
      var front, known := stale[..n], answers[..n];
      assert forall k :: 0 <= k < n ==> front[k] == stale[k] && known[k] == answers[k];
      CountsSwept(payments, front, known, confirmed);
      AnsweredMore(stale, answers, n);
      assert stale[..n + 1] == stale && answers[..n + 1] == answers;
      LastUnseen(stale, answers);
      LastAnswered(stale, answers);
      assert Named(payments, stale[n]);
      hide Answered, Unrepeated, Named;
    }
  }

  lemma LastUnseen(stale: seq<(Id, nat)>, answers: seq<bool>)
    requires stale != [] && |answers| == |stale| && Unrepeated(stale)
    ensures var n := |stale| - 1; stale[n] !in Answered(stale[..n], answers[..n])
  {
  }

  lemma LastAnswered(stale: seq<(Id, nat)>, answers: seq<bool>)
    requires stale != [] && |answers| == |stale| && Unrepeated(stale)
    ensures var n := |stale| - 1; stale[n] in Answered(stale, answers) <==> answers[n]
  {
  }

  lemma NoneStale(payments: map<Id, Payment>, now: int)
    ensures StaleAmong(payments, [], now) == []
  {
  }

  lemma SweptFacts(
      payments: map<Id, Payment>, listed: seq<(Id, nat)>, stale: seq<(Id, nat)>, answers: seq<bool>,
      confirmed: set<(Id, nat)>, now: int)
    requires Unrepeated(listed) && stale == StaleAmong(payments, listed, now) && |answers| == |stale|
    requires forall j :: 0 <= j < |stale| ==> answers[j] == (stale[j] in confirmed)
    ensures forall k :: 0 <= k < |stale| ==> Named(payments, stale[k])
    ensures var swept := set r | r in listed && Stale(payments, r, now) && r in confirmed;
            swept == Answered(stale, answers) && SettledCount(payments, stale, answers) == |swept|
  {
    StaleFacts(payments, listed, now);
    hide StaleAmong;
    forall k | 0 <= k < |stale|
      ensures Named(payments, stale[k]) && payments[stale[k].0].refunds[stale[k].1].status == PP.Requested
    {
      assert stale[k] in stale;
    }
    CountsSwept(payments, stale, answers, confirmed);
    hide SettledCount, Stale, Named;
    var swept := set r | r in listed && Stale(payments, r, now) && r in confirmed;
    forall r ensures r in swept <==> r in Answered(stale, answers) {
      if r in stale {
        var k :| 0 <= k < |stale| && stale[k] == r;
      }
    }
  }

  /** Exactly the refunds in `s` are done on top of those done before; nothing else but aggregates may differ. */
  ghost predicate SettledIn(a: map<Id, Payment>, b: map<Id, Payment>, s: set<(Id, nat)>) {
    && b.Keys == a.Keys
    && forall p :: p in a ==>
         && SameButSettled(a[p], b[p])
         && forall i :: 0 <= i < |a[p].refunds| ==>
              b[p].refunds[i] == if (p, i) in s then a[p].refunds[i].(status := PP.Done) else a[p].refunds[i]
  }

  /** Only refund rows and the aggregate status may differ, and the money stays collected or lost. */
  ghost predicate SameButSettled(p: Payment, q: Payment) {
    && q.(status := p.status, refunds := p.refunds) == p
    && |q.refunds| == |p.refunds|
    && (PP.Collected(p.status) <==> PP.Collected(q.status)) && (PP.Lost(p.status) ==> q.status == p.status)
  }

  lemma SettledNone(a: map<Id, Payment>)
    ensures SettledIn(a, a, {})
  {
  }

  lemma StillNamed(a: map<Id, Payment>, b: map<Id, Payment>, s: set<(Id, nat)>, r: (Id, nat))
    requires SettledIn(a, b, s) && Named(a, r)
    ensures Named(b, r)
    ensures b[r.0].refunds[r.1].status == PP.Done <==> r in s || a[r.0].refunds[r.1].status == PP.Done
  {
    var i := r.1;
    assert r == (r.0, i);
  }

  lemma SettledMore(a: map<Id, Payment>, b: map<Id, Payment>, s: set<(Id, nat)>, p: Id, i: nat, db: Db)
    requires SettledIn(a, b, s) && db.payments == b && p in b && i < |b[p].refunds|
    requires var c := T.Settle(db, p, i, b[p].status != PP.RefundPending).payments;
             && c.Keys == b.Keys && (forall q :: q in b && q != p ==> c[q] == b[q])
             && SameButSettled(b[p], c[p])
             && c[p].refunds == b[p].refunds[i := b[p].refunds[i].(status := PP.Done)]
    ensures SettledIn(a, T.Settle(db, p, i, b[p].status != PP.RefundPending).payments, s + {(p, i)})
  {
    hide T.Settle;
  }

  /** One settlement of the sweep, with the skip flag chosen from the status it read. */
  lemma SweepSettles(db: Db, p: Id, i: nat)
    requires DbOk(db) && p in db.payments && i < |db.payments[p].refunds|
    ensures var after := T.Settle(db, p, i, db.payments[p].status != PP.RefundPending);
            && DbOk(after) && after == db.(payments := after.payments) && after.payments.Keys == db.payments.Keys
            && (forall q :: q in db.payments && q != p ==> after.payments[q] == db.payments[q])
            && SameButSettled(db.payments[p], after.payments[p])
            && after.payments[p].refunds == db.payments[p].refunds[i := db.payments[p].refunds[i].(status := PP.Done)]
  {
    hide BookingsOk, ReservationsOk, LimitsOk, PaymentsOk, PaymentLinks, EntriesOk, EntryLinks, CountersOk, PaymentOk;
    hide SettleReady, Evolves, PP.StatusAfterRefunds, SameButSettled, PP.CanTransition, PP.Lost, PP.Collected;
    SweepFlagSafe(db, p, i);
    SettleKeeps(db, p, i, db.payments[p].status != PP.RefundPending);
    PaymentRow(db.bookings, db.payments, p);
    SweptRow(db.payments[p], i);
  }

  lemma SweptRow(pay: Payment, i: nat)
    requires PaymentOk(pay) && i < |pay.refunds|
    ensures pay.refunds[i].status == PP.Requested || pay.refunds[i := pay.refunds[i].(status := PP.Done)] == pay.refunds
    ensures SameButSettled(pay, pay)
    ensures var refunds := pay.refunds[i := pay.refunds[i].(status := PP.Done)];
            SameButSettled(pay, pay.(refunds := refunds))
            && (pay.status == PP.RefundPending ==>
                  SameButSettled(pay, pay.(refunds := refunds, status := PP.StatusAfterRefunds(pay.amount, refunds))))
  {
  }
}
