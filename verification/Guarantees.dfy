/** What the booking core guarantees in every run: any number of commands, in any interleaving. */
module Guarantees {
  import opened Wrappers
  import opened Rows
  import opened PaymentTransactions
  import opened QueueTransactions
  import opened Invariants
  import opened BookingProofs
  import opened QueueProofs
  import opened Machine
  import opened MachineProofs
  import E = Effects
  import BP = BookingPolicy
  import PP = PaymentPolicy
  import QP = QueuePolicy

  // ---------------------------------------------------------------------
  // Runs
  // ---------------------------------------------------------------------

  lemma Reached(es: seq<Event>)
    ensures DbOk(Run(es).db) && FlightsOk(Run(es).db, Run(es).flights)
  {
    hide DbOk, FlightsOk, Run;
    RunKeeps(es);
  }

  lemma OneMore(es: seq<Event>, e: Event)
    ensures Run(es + [e]) == Step(Run(es), e)
    ensures Evolves(Run(es).db, Run(es + [e]).db)
  {
    hide DbOk, FlightsOk, StepBy, RunBy, Evolves;
    RunByOneMore(es, e, USUAL);
    RunKeeps(es);
    StepKeeps(Run(es), e);
  }

  /** The facts of one payment row in a reachable state. */
  lemma PaymentIn(es: seq<Event>, p: Id)
    requires p in Run(es).db.payments
    ensures var db := Run(es).db; PaymentOk(db.payments[p]) && Linked(db.bookings, db.payments[p])
  {
    hide Run, BookingsOk, ReservationsOk, LimitsOk, PaymentsOk, PaymentLinks, EntriesOk, EntryLinks;
    hide CountersOk, FlightsOk;
    Reached(es);
    PaymentRow(Run(es).db.bookings, Run(es).db.payments, p);
  }

  // ---------------------------------------------------------------------
  // The consistency job (consistency-check.job.ts)
  // ---------------------------------------------------------------------

  /** The job's own list of blocking statuses; it omits waiting and called. */
  predicate JobBlocking(s: BP.Status) {
    s.PendingPayment? || s.Confirmed? || s.CheckedIn? || s.InService?
  }

  function OrphanReservations(db: Db): set<Id> {
    set b | b in db.reservations && b in db.bookings && BP.Terminal(db.bookings[b].status)
  }

  function MissingReservations(db: Db): set<Id> {
    set b | b in db.bookings && db.bookings[b].kind != WalkIn && JobBlocking(db.bookings[b].status)
            && b !in db.reservations
  }

  function QueueMismatches(db: Db): set<Id> {
    set e | e in db.entries && QP.Active(db.entries[e].status) && db.entries[e].booking in db.bookings
            && BP.Terminal(db.bookings[db.entries[e].booking].status)
  }

  lemma ConsistencyCountersZero(es: seq<Event>)
    ensures |OrphanReservations(Run(es).db)| == 0
    ensures |MissingReservations(Run(es).db)| == 0
    ensures |QueueMismatches(Run(es).db)| == 0
  {
    hide Run, BookingsOk, LimitsOk, PaymentsOk, PaymentLinks, EntriesOk, CountersOk, FlightsOk;
    Reached(es);
    var db := Run(es).db;
    assert OrphanReservations(db) == {};
    assert MissingReservations(db) == {};
    assert QueueMismatches(db) == {};
  }

  /** A scheduled booking holds a reservation exactly while it blocks; a walk-in never does. */
  lemma ReservationExactlyWhileBlocking(es: seq<Event>, b: Id)
    ensures var db := Run(es).db;
            b in db.reservations <==>
            b in db.bookings && db.bookings[b].kind == Scheduled && BP.Blocking(db.bookings[b].status)
  {
    hide Run, BookingsOk, LimitsOk, PaymentsOk, PaymentLinks, EntriesOk, EntryLinks, CountersOk, FlightsOk;
    Reached(es);
  }

  /** No staff member is ever double-booked. */
  lemma NoDoubleBooking(es: seq<Event>, a: Id, b: Id)
    requires var m := Run(es).db.bookings;
             && a in m && b in m && a != b
             && m[a].kind == m[b].kind == Scheduled && BP.Blocking(m[a].status) && BP.Blocking(m[b].status)
             && m[a].staff == m[b].staff
    ensures var m := Run(es).db.bookings; m[a].end <= m[b].start || m[b].end <= m[a].start
  {
    hide Run, LimitsOk, PaymentsOk, PaymentLinks, EntriesOk, EntryLinks, CountersOk, FlightsOk;
    Reached(es);
    var db := Run(es).db;
    BookingRow(db.bookings, a);
    assert !Overlapping(db.reservations[a], db.reservations[b]);
  }

  /** No customer ever has more than three blocking bookings at one business. */
  lemma ActiveLimitHolds(es: seq<Event>, customer: Id, business: Id)
    ensures |ActiveBookings(Run(es).db.bookings, customer, business)| <= 3
  {
    hide Run, BookingsOk, ReservationsOk, PaymentsOk, PaymentLinks, EntriesOk, EntryLinks, CountersOk, FlightsOk;
    Reached(es);
    assert WithinLimit(Run(es).db.bookings, customer, business);
  }

  /** The booking's own time, taken by another booking of the staff member. */
  predicate Conflicts(x: Booking, n: NewBooking) {
    x.kind == Scheduled && BP.Blocking(x.status) && x.staff == Some(n.staff) && x.start < n.end && n.start < x.end
  }

  /**
   * Nothing but a real conflict stops a booking: with fresh ids it is created exactly when
   * the customer has fewer than three blocking bookings and no blocking booking of the staff
   * member overlaps it, so a cancelled, expired or finished booking leaves its slot free.
   */
  lemma BookingAcceptedExactly(es: seq<Event>, b: Id, p: Id, n: NewBooking)
    requires b !in Run(es).db.bookings && p !in Run(es).db.payments && n.start < n.end
    ensures var db := Run(es).db;
            CreateBooking(db, b, p, n).1 == Created <==>
            && |ActiveBookings(db.bookings, n.customer, n.business)| < 3
            && forall x :: x in db.bookings ==> !Conflicts(db.bookings[x], n)
  {
    hide Run, LimitsOk, PaymentsOk, PaymentLinks, EntriesOk, EntryLinks, CountersOk, FlightsOk, BookingPath;
    Reached(es);
    var db := Run(es).db;
    var r := Reservation(n.staff, n.start, n.end);
    forall x ensures x in db.reservations && Overlapping(db.reservations[x], r)
                     <==> x in db.bookings && Conflicts(db.bookings[x], n)
    {
      if x in db.bookings {
        BookingRow(db.bookings, x);
      }
    }
  }

  /** A confirmed booking has no queue entry yet, so the unique index never stops a check-in. */
  lemma CheckInAcceptedExactly(es: seq<Event>, b: Id, e: Id, day: int, at: int)
    requires e !in Run(es).db.entries
    ensures var db := Run(es).db;
            CheckIn(db, b, e, day, at).1 == CheckedIn <==>
            b in db.bookings && db.bookings[b].kind == Scheduled && db.bookings[b].status == BP.Confirmed
  {
    hide Run, BookingsOk, ReservationsOk, LimitsOk, PaymentsOk, PaymentLinks, EntriesOk, CountersOk, FlightsOk;
    Reached(es);
    var db := Run(es).db;
    forall x | x in db.entries
      ensures b in db.bookings && db.bookings[b].status == BP.Confirmed ==> db.entries[x].booking != b
    {
    }
  }

  // ---------------------------------------------------------------------
  // Payments and refunds
  // ---------------------------------------------------------------------

  /** Once collected, a payment's status is the aggregate of its refund rows at every commit. */
  lemma StatusMirrorsRefunds(es: seq<Event>, p: Id)
    requires p in Run(es).db.payments && PP.Collected(Run(es).db.payments[p].status)
    ensures var pay := Run(es).db.payments[p]; pay.status == PP.StatusAfterRefunds(pay.amount, pay.refunds)
  {
    hide Run;
    PaymentIn(es, p);
  }

  /** Refunds never exceed the payment, and at most one of them is pending. */
  lemma RefundsWithinAmount(es: seq<Event>, p: Id)
    requires p in Run(es).db.payments
    ensures var pay := Run(es).db.payments[p];
            && 0 <= PP.SumCompleted(pay.refunds) <= PP.Held(pay.refunds) <= pay.amount
            && forall i, j :: 0 <= i < j < |pay.refunds| ==>
                 pay.refunds[i].status != PP.Requested || pay.refunds[j].status != PP.Requested
  {
    hide Run;
    PaymentIn(es, p);
    PP.HeldNonNegative(Run(es).db.payments[p].refunds);
  }

  /** Every change of a payment status is an edge of the transition table. */
  lemma PaymentChangesAreEdges(es: seq<Event>, e: Event, p: Id)
    requires p in Run(es).db.payments
    ensures p in Run(es + [e]).db.payments
    ensures var from, to := Run(es).db.payments[p].status, Run(es + [e]).db.payments[p].status;
            from == to || PP.CanTransition(from, to)
  {
    hide Run, Step, BookingsEvolve, EntriesEvolve;
    OneMore(es, e);
    assert PaymentEvolves(Run(es).db.payments[p], Run(es + [e]).db.payments[p]);
  }

  /** A lost payment keeps its status for the rest of the run, and collected money stays collected. */
  lemma {:induction false} FateIsSealed(es: seq<Event>, more: seq<Event>, p: Id)
    requires p in Run(es).db.payments
    ensures p in Run(es + more).db.payments
    ensures var from, to := Run(es).db.payments[p].status, Run(es + more).db.payments[p].status;
            (PP.Lost(from) ==> to == from) && (PP.Collected(from) ==> PP.Collected(to))
  {
    hide Run, Step;
    if more == [] {
      assert es + more == es;
    } else {
      var n := |more| - 1;
      FateIsSealed(es, more[..n], p);
      assert es + more == (es + more[..n]) + [more[n]];
      PaymentChangesAreEdges(es + more[..n], more[n], p);
    }
  }

  /** The branch that would honour a late success is dead in every reachable state. */
  lemma LateSuccessNeverHonoured(es: seq<Event>, p: Id)
    requires p in Run(es).db.payments && Run(es).db.payments[p].online
    requires !PP.CanTransition(Run(es).db.payments[p].status, PP.Paid)
    ensures !HonoursLateSuccess(Run(es).db, Run(es).db.payments[p].booking)
  {
    hide Run, DbOk, FlightsOk;
    Reached(es);
    NeverHonoured(Run(es).db, p);
  }

  /**
   * An online booking has exactly one online payment; it waits exactly while that
   * payment is pending, is confirmed or later only with the money collected, and
   * expires only with the payment lost.
   */
  lemma OnlineBookingMirrorsPayment(es: seq<Event>, b: Id)
    requires b in Run(es).db.bookings && Run(es).db.bookings[b].online
    ensures var db := Run(es).db;
            exists p :: PaysFor(db.payments, p, b)
              && (forall q :: PaysFor(db.payments, q, b) ==> q == p)
              && (db.bookings[b].status == BP.PendingPayment <==> db.payments[p].status == PP.Pending)
              && (db.bookings[b].status !in {BP.PendingPayment, BP.Cancelled, BP.Expired} ==>
                    PP.Collected(db.payments[p].status))
              && (db.bookings[b].status == BP.Expired ==> PP.Lost(db.payments[p].status))
  {
    hide Run, BookingsOk, ReservationsOk, LimitsOk, PaymentsOk, EntriesOk, EntryLinks, CountersOk, FlightsOk;
    Reached(es);
    var db := Run(es).db;
    var p :| PaysFor(db.payments, p, b);
    assert Linked(db.bookings, db.payments[p]);
  }

  /** A commit that makes payment `p` paid. */
  ghost predicate BecomesPaid(a: Db, b: Db, p: Id) {
    p in b.payments && b.payments[p].status == PP.Paid && !(p in a.payments && a.payments[p].status == PP.Paid)
  }

  ghost function TimesPaid(es: seq<Event>, p: Id): nat {
    if es == [] then 0
    else TimesPaid(es[..|es| - 1], p) + if BecomesPaid(Run(es[..|es| - 1]).db, Run(es).db, p) then 1 else 0
  }

  /** However provider events interleave and repeat, a payment becomes paid at most once. */
  lemma {:induction false} PaidAtMostOnce(es: seq<Event>, p: Id)
    ensures TimesPaid(es, p) <= 1
    ensures TimesPaid(es, p) == 1 ==> p in Run(es).db.payments && PP.Collected(Run(es).db.payments[p].status)
  {
    hide Run, Step;
    if es != [] {
      var before, e := es[..|es| - 1], es[|es| - 1];
      PaidAtMostOnce(before, p);
      assert es == before + [e];
      if p in Run(before).db.payments {
        PaymentChangesAreEdges(before, e, p);
        FateIsSealed(before, [e], p);
      }
    }
  }

  /**
   * At most one automatic late refund per payment, for the full amount, and then it is the
   * payment's only refund, whatever reason codes clients give to theirs.
   */
  lemma LateRefundAtMostOnce(es: seq<Event>, p: Id, i: nat)
    requires p in Run(es).db.payments && i < |Run(es).db.payments[p].refunds|
            && Run(es).db.payments[p].refunds[i].origin.Automatic?
    ensures var pay := Run(es).db.payments[p];
            |pay.refunds| == 1 && pay.refunds[0].amount == pay.amount && PP.Lost(pay.status)
  {
    hide Run;
    PaymentIn(es, p);
  }

  /** One caller's steps from flagging a late success to settling its refund. */
  function LateSteps(e: ProviderEvent, f: Id, a: Answer): seq<Event> {
    [Deliver(e, f), Advance(f, a), Advance(f, a), Advance(f, a), Advance(f, a)]
  }

  ghost function Steps(w: World, es: seq<Event>): World
    decreases |es|
  {
    if es == [] then w else Steps(Step(w, es[0]), es[1..])
  }

  lemma {:induction false} RunSteps(es: seq<Event>, more: seq<Event>)
    ensures Run(es + more) == Steps(Run(es), more)
    decreases |more|
  {
    if more == [] {
      assert es + more == es;
    } else {
      hide Step;
      var next := es + [more[0]];
      assert next[..|next| - 1] == es;
      assert Run(next) == Step(Run(es), more[0]);
      hide Run;
      RunSteps(next, more[1..]);
      assert es + more == next + more[1..];
    }
  }

  /** An undisturbed step of a flight. */
  lemma FlightSteps(w: World, f: Id, a: Answer, db: Db, next: Flight)
    requires f in w.flights && Continue(w.db, w.flights[f], a) == (db, Some(next))
    ensures var after := Step(w, Advance(f, a)); after.db == db && f in after.flights && after.flights[f] == next
  {
    hide Continue;
  }

  lemma FlightEnds(w: World, f: Id, a: Answer, db: Db)
    requires f in w.flights && Continue(w.db, w.flights[f], a) == (db, None)
    ensures Step(w, Advance(f, a)).db == db
  {
    hide Continue;
  }

  /** The payment with one refund for its full amount. */
  function OnlyLateRefund(db: Db, p: Id, status: PP.RefundStatus, at: int): Db
    requires p in db.payments
  {
    var pay := db.payments[p];
    db.(payments := db.payments[p := pay.(refunds := [PP.Refund(status, pay.amount, PP.Automatic, at)])])
  }

  /** What each step of a late refund finds and leaves. */
  lemma LateFlow(db: Db, p: Id, a: Answer)
    requires p in db.payments && PP.Lost(db.payments[p].status) && db.payments[p].refunds == []
    requires db.payments[p].amount > 0 && a.refunded
    ensures var amount, seen := db.payments[p].amount, db.payments[p].status;
            && Continue(db, LateFlagged(p, amount), a) == (db, Some(LateUnseen(p, amount)))
            && Continue(db, LateUnseen(p, amount), a) == (db, Some(Refunding(p, seen, amount, PP.Automatic)))
            && Continue(db, Refunding(p, seen, amount, PP.Automatic), a)
               == (OnlyLateRefund(db, p, PP.Requested, a.at), Some(Settling(p, 0, true)))
            && Continue(OnlyLateRefund(db, p, PP.Requested, a.at), Settling(p, 0, true), a)
               == (OnlyLateRefund(db, p, PP.Done, a.at), None)
  {
    var pending := OnlyLateRefund(db, p, PP.Requested, a.at);
    assert db.payments[p].refunds + [PP.Refund(PP.Requested, db.payments[p].amount, PP.Automatic, a.at)]
        == pending.payments[p].refunds;
    assert ExecuteRefund(db, p, db.payments[p].status, db.payments[p].amount, PP.Automatic, a.at)
        == (pending, Opened(0));
    assert pending.payments[p].refunds[0 := pending.payments[p].refunds[0].(status := PP.Done)]
        == [PP.Refund(PP.Done, db.payments[p].amount, PP.Automatic, a.at)];
    var settled := OnlyLateRefund(db, p, PP.Done, a.at);
    assert pending.payments[p := settled.payments[p]] == settled.payments;
  }

  lemma LateFlagRaised(w: World, e: ProviderEvent, f: Id)
    requires e.payment in w.db.payments
    requires var pay := w.db.payments[e.payment];
             && pay.online && pay.referenced && PP.Lost(pay.status) && pay.booking in w.db.bookings
             && !HonoursLateSuccess(w.db, pay.booking)
             && e.status == PaymentTransactions.Paid && e.rupiah && e.amount == pay.amount
    requires e.id !in w.db.events && f !in w.flights
    ensures Step(w, Deliver(e, f))
            == World(w.db.(events := w.db.events + {e.id}), w.flights[f := LateFlagged(e.payment, e.amount)])
  {
    hide Continue;
  }

  /**
   * The late-refund branch is live: in every reachable state, an event that reports a lost
   * payment without refunds as paid, followed by its caller's own steps, ends with the full
   * amount refunded and every other row as it was.
   */
  lemma LateSuccessIsRefunded(es: seq<Event>, e: ProviderEvent, f: Id, a: Answer)
    requires var db := Run(es).db;
             && e.payment in db.payments && db.payments[e.payment].online && db.payments[e.payment].referenced
             && PP.Lost(db.payments[e.payment].status) && db.payments[e.payment].refunds == []
             && e.status == PaymentTransactions.Paid && e.rupiah && e.amount == db.payments[e.payment].amount > 0
             && e.id !in db.events && f !in Run(es).flights && a.refunded
    ensures var db := Run(es).db;
            Run(es + LateSteps(e, f, a)).db
                == OnlyLateRefund(db.(events := db.events + {e.id}), e.payment, PP.Done, a.at)
  {
    var p, w, steps := e.payment, Run(es), LateSteps(e, f, a);
    LateSuccessNeverHonoured(es, p);
    PaymentIn(es, p);
    RunSteps(es, steps);
    LateFlagRaised(w, e, f);
    hide *;
    var db := w.db.(events := w.db.events + {e.id});
    var w1 := Step(w, Deliver(e, f));
    LateFlow(db, p, a);
    FlightSteps(w1, f, a, db, LateUnseen(p, e.amount));
    var w2 := Step(w1, Advance(f, a));
    FlightSteps(w2, f, a, db, Refunding(p, db.payments[p].status, e.amount, PP.Automatic));
    var w3 := Step(w2, Advance(f, a));
    FlightSteps(w3, f, a, OnlyLateRefund(db, p, PP.Requested, a.at), Settling(p, 0, true));
    var w4 := Step(w3, Advance(f, a));
    FlightEnds(w4, f, a, OnlyLateRefund(db, p, PP.Done, a.at));
    StepsOfFive(w, e, f, a);
  }

  lemma StepsOfFive(w: World, e: ProviderEvent, f: Id, a: Answer)
    ensures var on := Advance(f, a);
            Steps(w, LateSteps(e, f, a)) == Step(Step(Step(Step(Step(w, Deliver(e, f)), on), on), on), on)
  {
    StepsFrom(w, Deliver(e, f), f, a);
  }

  lemma StepsFrom(w: World, e: Event, f: Id, a: Answer)
    ensures var on := Advance(f, a);
            Steps(w, [e, on, on, on, on]) == Step(Step(Step(Step(Step(w, e), on), on), on), on)
  {
    hide Step;
    var on := Advance(f, a);
    var s := [e, on, on, on, on];
    assert s[1..] == [on, on, on, on] && [on, on, on, on][1..] == [on, on, on];
    assert [on, on, on][1..] == [on, on] && [on, on][1..] == [on] && [on][1..] == [];
    var w1 := Step(w, s[0]);
    var w2 := Step(w1, on);
    assert Steps(w, s) == Steps(w1, [on, on, on, on]) == Steps(w2, [on, on, on]);
    assert Steps(w2, [on, on, on]) == Steps(Step(w2, on), [on, on]) == Steps(Step(Step(w2, on), on), [on]);
  }

  /**
   * When a command goes on after its first read, and what it remembers: a cancellation of a
   * booking that is not over and, if scheduled, not begun; a refund of a positive amount of
   * an online payment with money left; a queue command with a version the entry has reached.
   */
  lemma FirstReadExactly(db: Db, o: Opening)
    ensures var r := FirstRead(db, o, USUAL);
            match o
            case ForCancel(b, now, refund, lateCode) =>
              var open := b in db.bookings
                          && (db.bookings[b].status == BP.PendingPayment || db.bookings[b].status == BP.Confirmed)
                          && (db.bookings[b].kind == Scheduled ==> now < db.bookings[b].start);
              r == if open then Some(Cancelling(b, db.bookings[b].status, refund, lateCode)) else None
            case ForRefund(p, amount, lateCode) =>
              var open := p in db.payments && db.payments[p].online && amount > 0
                          && (db.payments[p].status == PP.Paid || db.payments[p].status == PP.PartiallyRefunded);
              r == if open then Some(Refunding(p, db.payments[p].status, amount, PP.OnRequest(lateCode))) else None
            case ForSweep(p, i) =>
              var open := p in db.payments && i < |db.payments[p].refunds|
                          && db.payments[p].refunds[i].status == PP.Requested;
              r == if open then Some(Sweeping(p, i)) else None
            case ForNoShow(b) => r == None
            case ForCommand(e, expected, c) =>
              var open := e in db.entries && expected <= db.entries[e].version;
              r == if open then Some(Commanding(e, db.entries[e], expected, c)) else None
  {
  }

  /** The steps of a cancellation that nobody interrupts, up to its settled refund. */
  function CancelSteps(f: Id, b: Id, now: int, refund: int, lateCode: bool, a: Answer): seq<Event> {
    [Open(f, ForCancel(b, now, refund, lateCode)), Advance(f, a), Advance(f, a), Advance(f, a), Advance(f, a)]
  }

  /** The payment with one settled refund of this amount. */
  function OneRefunded(pay: Payment, amount: int, lateCode: bool, at: int): Payment {
    pay.(status := if amount < pay.amount then PP.PartiallyRefunded else PP.Refunded,
         refunds := [PP.Refund(PP.Done, amount, PP.OnRequest(lateCode), at)])
  }

  /** What each step of a cancellation finds and leaves. */
  lemma CancelFlow(db: Db, b: Id, p: Id, refund: int, lateCode: bool, a: Answer)
    requires b in db.bookings && p in db.payments && db.payments[p].booking == b && db.payments[p].online
    requires db.payments[p].status == PP.Paid && db.payments[p].refunds == [] && 0 < refund <= db.payments[p].amount
    requires a.refunded && a.payment == p
    ensures var seen, mid := db.bookings[b].status, CancelBooking(db, b, db.bookings[b].status).0;
            var pay, asked := db.payments[p], PP.Refund(PP.Requested, refund, PP.OnRequest(lateCode), a.at);
            var open := mid.(payments := mid.payments[p := pay.(status := PP.RefundPending, refunds := [asked])]);
            && p in mid.payments && mid.payments[p] == pay
            && Continue(db, Cancelling(b, seen, refund, lateCode), a)
               == (mid, Some(CancelRefunding(b, refund, lateCode)))
            && Continue(mid, CancelRefunding(b, refund, lateCode), a)
               == (mid, Some(Refunding(p, PP.Paid, refund, PP.OnRequest(lateCode))))
            && Continue(mid, Refunding(p, PP.Paid, refund, PP.OnRequest(lateCode)), a)
               == (open, Some(Settling(p, 0, false)))
            && Continue(open, Settling(p, 0, false), a)
               == (mid.(payments := mid.payments[p := OneRefunded(pay, refund, lateCode, a.at)]), None)
  {
    var mid, pay := CancelBooking(db, b, db.bookings[b].status).0, db.payments[p];
    assert mid.payments[p] == pay;
    CancelRefundOpens(mid, p, refund, lateCode, a.at);
    CancelRefundSettles(mid, p, refund, lateCode, a.at);
    hide CancelBooking, ExecuteRefund, Settle;
  }

  lemma CancelRefundOpens(db: Db, p: Id, refund: int, lateCode: bool, at: int)
    requires p in db.payments && db.payments[p].refunds == [] && 0 < refund <= db.payments[p].amount
    ensures var pay, asked := db.payments[p], PP.Refund(PP.Requested, refund, PP.OnRequest(lateCode), at);
            ExecuteRefund(db, p, PP.Paid, refund, PP.OnRequest(lateCode), at)
            == (db.(payments := db.payments[p := pay.(status := PP.RefundPending, refunds := [asked])]), Opened(0))
  {
    var asked := PP.Refund(PP.Requested, refund, PP.OnRequest(lateCode), at);
    assert db.payments[p].refunds + [asked] == [asked];
  }

  lemma CancelRefundSettles(db: Db, p: Id, refund: int, lateCode: bool, at: int)
    requires p in db.payments && 0 < refund <= db.payments[p].amount
    ensures var pay, asked := db.payments[p], PP.Refund(PP.Requested, refund, PP.OnRequest(lateCode), at);
            var open := db.(payments := db.payments[p := pay.(status := PP.RefundPending, refunds := [asked])]);
            Settle(open, p, 0, false)
            == db.(payments := db.payments[p := OneRefunded(pay, refund, lateCode, at)])
  {
    var pay, asked := db.payments[p], PP.Refund(PP.Requested, refund, PP.OnRequest(lateCode), at);
    var done := PP.Refund(PP.Done, refund, PP.OnRequest(lateCode), at);
    var open := db.(payments := db.payments[p := pay.(status := PP.RefundPending, refunds := [asked])]);
    assert [asked][0 := asked.(status := PP.Done)] == [done];
    assert [done][..0] == [];
    assert PP.SumCompleted([done]) == PP.SumCompleted([done][..0]) + refund == refund;
    var refunded := OneRefunded(pay, refund, lateCode, at);
    assert open.payments[p := refunded] == db.payments[p := refunded];
  }

  /**
   * A cancellation refunds what it decided: from every reachable state in which the booking
   * may be cancelled and its online payment is collected without refunds, its own steps end
   * with the booking cancelled and exactly that amount refunded.
   */
  lemma CancellationIsRefunded(
      es: seq<Event>, f: Id, b: Id, p: Id, now: int, refund: int, lateCode: bool, a: Answer)
    requires var db := Run(es).db;
             && b in db.bookings && p in db.payments && db.payments[p].booking == b && db.payments[p].online
             && BP.Cancellable(db.bookings[b].status)
             && (db.bookings[b].kind == Scheduled ==> db.bookings[b].start > now)
             && db.payments[p].status == PP.Paid && db.payments[p].refunds == [] && 0 < refund <= db.payments[p].amount
             && f !in Run(es).flights && a.refunded && a.payment == p
    ensures var db := Run(es).db; var mid := CancelBooking(db, b, db.bookings[b].status).0;
            && p in mid.payments && mid.payments[p] == db.payments[p]
            && Run(es + CancelSteps(f, b, now, refund, lateCode, a)).db
               == mid.(payments := mid.payments[p := OneRefunded(db.payments[p], refund, lateCode, a.at)])
  {
    var w, steps := Run(es), CancelSteps(f, b, now, refund, lateCode, a);
    RunSteps(es, steps);
    CancelFlow(w.db, b, p, refund, lateCode, a);
    OpensCancel(w, f, b, now, refund, lateCode);
    var db, pay := w.db, w.db.payments[p];
    var mid := CancelBooking(db, b, db.bookings[b].status).0;
    var asked := PP.Refund(PP.Requested, refund, PP.OnRequest(lateCode), a.at);
    var open := mid.(payments := mid.payments[p := pay.(status := PP.RefundPending, refunds := [asked])]);
    hide *;
    var w1 := Step(w, Open(f, ForCancel(b, now, refund, lateCode)));
    FlightSteps(w1, f, a, mid, CancelRefunding(b, refund, lateCode));
    var w2 := Step(w1, Advance(f, a));
    FlightSteps(w2, f, a, mid, Refunding(p, PP.Paid, refund, PP.OnRequest(lateCode)));
    var w3 := Step(w2, Advance(f, a));
    FlightSteps(w3, f, a, open, Settling(p, 0, false));
    var w4 := Step(w3, Advance(f, a));
    FlightEnds(w4, f, a, mid.(payments := mid.payments[p := OneRefunded(pay, refund, lateCode, a.at)]));
    StepsFrom(w, Open(f, ForCancel(b, now, refund, lateCode)), f, a);
    CancelStepsAre(f, b, now, refund, lateCode, a);
  }

  lemma CancelStepsAre(f: Id, b: Id, now: int, refund: int, lateCode: bool, a: Answer)
    ensures CancelSteps(f, b, now, refund, lateCode, a)
            == [Open(f, ForCancel(b, now, refund, lateCode)),
                Advance(f, a), Advance(f, a), Advance(f, a), Advance(f, a)]
  {
  }

  lemma OpensCancel(w: World, f: Id, b: Id, now: int, refund: int, lateCode: bool)
    requires f !in w.flights && b in w.db.bookings && BP.Cancellable(w.db.bookings[b].status)
    requires w.db.bookings[b].kind == Scheduled ==> w.db.bookings[b].start > now
    ensures var after := Step(w, Open(f, ForCancel(b, now, refund, lateCode)));
            after.db == w.db && f in after.flights
            && after.flights[f] == Cancelling(b, w.db.bookings[b].status, refund, lateCode)
  {
  }

  predicate HasAutomatic(refunds: seq<PP.Refund>) {
    exists i :: 0 <= i < |refunds| && refunds[i].origin.Automatic?
  }

  /** A payment that ever gets an automatic late refund is never collected, at any moment of the run. */
  lemma LateRefundExcludesCollection(es: seq<Event>, m: nat, n: nat, p: Id)
    requires m <= |es| && n <= |es|
    requires p in Run(es[..m]).db.payments && HasAutomatic(Run(es[..m]).db.payments[p].refunds)
    requires p in Run(es[..n]).db.payments
    ensures !PP.Collected(Run(es[..n]).db.payments[p].status)
  {
    hide Run;
    var i :| 0 <= i < |Run(es[..m]).db.payments[p].refunds| && Run(es[..m]).db.payments[p].refunds[i].origin.Automatic?;
    LateRefundAtMostOnce(es[..m], p, i);
    if m <= n {
      assert es[..m] + es[m..n] == es[..n];
      FateIsSealed(es[..m], es[m..n], p);
    } else {
      assert es[..n] + es[n..m] == es[..m];
      FateIsSealed(es[..n], es[n..m], p);
    }
  }

  // ---------------------------------------------------------------------
  // Queue
  // ---------------------------------------------------------------------

  /** At every commit a booking mirrors its queue entry, and a queued booking has one entry. */
  lemma BookingMirrorsEntry(es: seq<Event>, e: Id)
    requires e in Run(es).db.entries
    ensures var db := Run(es).db; var b := db.entries[e].booking;
            && b in db.bookings && db.bookings[b].status == QP.BookingStatusFor(db.entries[e].status)
            && forall d :: d in db.entries && db.entries[d].booking == b ==> d == e
  {
    hide Run, BookingsOk, ReservationsOk, LimitsOk, PaymentsOk, PaymentLinks, CountersOk, FlightsOk;
    Reached(es);
  }

  /**
   * A queue command in flight, however stale its read: if it commits, the entry
   * is still the row it read (sort key aside), the change is an edge of the queue
   * table or a recall, the booking moves along with it, and the booking
   * transition is never refused.
   */
  lemma CommandsChangeWhatTheyRead(es: seq<Event>, f: Id)
    requires f in Run(es).flights && Run(es).flights[f].Commanding?
    ensures var db := Run(es).db; var Commanding(e, seen, expected, c) := Run(es).flights[f];
            var r := RunCommand(db, e, seen, expected, c);
            && r.1 != TransitionRefused && r.1 != BookingMissing && r.1 != Missing && e in db.entries
            && (r.1 == Done ==>
                  && db.entries[e] == seen.(sortOrder := db.entries[e].sortOrder)
                  && r.0.entries[e].status == TargetOf(c)
                  && (QP.CanTransition(seen.status, TargetOf(c))
                      || (c == Recall && seen.status == TargetOf(c) == QP.Called))
                  && seen.booking in db.bookings
                  && db.bookings[seen.booking].status == QP.BookingStatusFor(seen.status)
                  && r.0.bookings[seen.booking].status == QP.BookingStatusFor(TargetOf(c)))
  {
    hide Run, DbOk, RunCommand, TargetOf;
    Reached(es);
    var Commanding(e, seen, expected, c) := Run(es).flights[f];
    assert FlightOk(Run(es).db, Run(es).flights[f]);
    StaleReadHarmless(Run(es).db, e, seen, expected, c);
    CommandEntry(Run(es).db, e, seen, expected);
  }

  /**
   * In every reachable state a command that has just read its entry, with the entry's
   * version, succeeds exactly under its own conditions and does exactly what it says.
   */
  lemma FreshCommandExactly(es: seq<Event>, e: Id, c: Command)
    requires e in Run(es).db.entries
    ensures var db := Run(es).db; var x := db.entries[e]; var r := RunCommand(db, e, x, x.version, c);
            E.Commands(db, e, c, r.0, r.1)
  {
    hide Run, DbOk, FlightsOk, E.Commands;
    Reached(es);
    E.CommandCommands(Run(es).db, e, c);
  }

  /** The numbers of each queue are exactly 1..last, without repeats. */
  lemma QueueNumbersExact(es: seq<Event>, k: QueueKey)
    requires k in Run(es).db.counters
    ensures var db := Run(es).db;
            && (forall n :: Numbered(db.entries, k, n) <==> 1 <= n <= db.counters[k].last)
            && forall d, e :: d in db.entries && e in db.entries && d != e ==>
                 db.entries[d].queue != k || db.entries[e].queue != k || db.entries[d].number != db.entries[e].number
  {
    hide Run, BookingsOk, ReservationsOk, LimitsOk, PaymentsOk, PaymentLinks, EntriesOk, EntryLinks, FlightsOk;
    Reached(es);
  }

  // ---------------------------------------------------------------------
  // Histories
  // ---------------------------------------------------------------------

  /** A booking's history is a path in the transition table that ends at its status. */
  lemma BookingHistoryIsPath(es: seq<Event>, b: Id)
    requires b in Run(es).db.bookings
    ensures var row := Run(es).db.bookings[b];
            BookingPath(row.history) && row.history[|row.history| - 1].to == row.status
  {
    hide Run, ReservationsOk, LimitsOk, PaymentsOk, PaymentLinks, EntriesOk, EntryLinks, CountersOk, FlightsOk;
    Reached(es);
    BookingRow(Run(es).db.bookings, b);
  }

  /** An entry's history is a path in the queue table, recalls being loops, as long as its version. */
  lemma QueueHistoryIsPath(es: seq<Event>, e: Id)
    requires e in Run(es).db.entries
    ensures var row := Run(es).db.entries[e];
            QueuePath(row.history) && row.history[|row.history| - 1].to == row.status && |row.history| == row.version
  {
    hide Run, BookingsOk, ReservationsOk, LimitsOk, PaymentsOk, PaymentLinks, EntryLinks, CountersOk, FlightsOk;
    Reached(es);
    assert EntryOk(Run(es).db.entries[e]);
  }

  /** Histories only grow, and a booking in a terminal status never changes again. */
  lemma {:induction false} HistoriesGrow(es: seq<Event>, more: seq<Event>, b: Id)
    requires b in Run(es).db.bookings
    ensures b in Run(es + more).db.bookings
    ensures Run(es).db.bookings[b].history <= Run(es + more).db.bookings[b].history
    ensures BP.Terminal(Run(es).db.bookings[b].status) ==> Run(es + more).db.bookings[b] == Run(es).db.bookings[b]
  {
    hide Run, Step, PaymentsEvolve, EntriesEvolve;
    if more == [] {
      assert es + more == es;
    } else {
      var n := |more| - 1;
      HistoriesGrow(es, more[..n], b);
      assert es + more == (es + more[..n]) + [more[n]];
      OneMore(es + more[..n], more[n]);
      var mid, last := Run(es + more[..n]).db.bookings[b], Run(es + more).db.bookings[b];
      assert BookingEvolves(mid, last);
      BookingHistoryIsPath(es + more[..n], b);
      BookingHistoryIsPath(es + more, b);
      if BP.Terminal(mid.status) {
        TerminalEnds(mid, last);
      }
    }
  }

  /** A path cannot leave a terminal status. */
  lemma TerminalEnds(a: Booking, b: Booking)
    requires BookingEvolves(a, b) && BookingPath(a.history) && BookingPath(b.history) && BP.Terminal(a.status)
    requires a.status == a.history[|a.history| - 1].to && b.status == b.history[|b.history| - 1].to
    ensures a == b
  {
    var n := |a.history|;
    assert b.history[n - 1] == a.history[n - 1];
    assert n < |b.history| ==> BP.CanTransition(b.history[n - 1].to, b.history[n].to);
    assert a.history == b.history;
  }
}
