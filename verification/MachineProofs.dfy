/** Every step of the machine keeps the invariants and what each command in flight relies on. */
module MachineProofs {
  import opened Rows
  import opened PaymentTransactions
  import opened QueueTransactions
  import opened Invariants
  import opened TableProofs
  import opened BookingProofs
  import opened RefundProofs
  import opened QueueProofs
  import opened Machine
  import BP = BookingPolicy
  import PP = PaymentPolicy

  /** What stays true of a command in flight, however long it is delayed. */
  ghost predicate FlightOk(db: Db, f: Flight) {
    match f
    case Cancelling(b, seen, _, _) => BP.Cancellable(seen)
    case CancelRefunding(_, _, _) => true
    case LateFlagged(p, amount) => RefundReady(db, p, PP.Paid, amount, PP.Automatic)
    case LateUnseen(p, amount) => RefundReady(db, p, PP.Paid, amount, PP.Automatic)
    case Refunding(p, seen, amount, origin) => RefundReady(db, p, seen, amount, origin)
    case Sweeping(p, i) => p in db.payments && i < |db.payments[p].refunds|
    case Settling(p, i, skip) => SettleReady(db, p, i, skip)
    case Absenting(_) => false  // only runs that split the no-show have it
    case Commanding(e, seen, expected, c) => CommandReady(db, e, seen, expected)
  }

  ghost predicate FlightsOk(db: Db, flights: map<Id, Flight>) {
    forall f :: f in flights ==> FlightOk(db, flights[f])
  }

  ghost predicate WorldOk(w: World) {
    DbOk(w.db) && FlightsOk(w.db, w.flights)
  }

  // ---------------------------------------------------------------------
  // Stale knowledge survives other steps
  // ---------------------------------------------------------------------

  lemma RefundReadySurvives(a: Db, b: Db, p: Id, seen: PP.Status, amount: int, origin: PP.Origin)
    requires Evolves(a, b) && RefundReady(a, p, seen, amount, origin)
    ensures RefundReady(b, p, seen, amount, origin)
  {
    hide BookingsEvolve, EntriesEvolve;
    assert PaymentEvolves(a.payments[p], b.payments[p]);
  }

  lemma SettleReadySurvives(a: Db, b: Db, p: Id, i: nat, skip: bool)
    requires Evolves(a, b) && SettleReady(a, p, i, skip)
    ensures SettleReady(b, p, i, skip)
  {
    hide BookingsEvolve, EntriesEvolve;
    assert PaymentEvolves(a.payments[p], b.payments[p]);
    assert RefundEvolves(a.payments[p].refunds[i], b.payments[p].refunds[i]);
  }

  lemma FlightSurvives(a: Db, b: Db, f: Flight)
    requires Evolves(a, b) && FlightOk(a, f)
    ensures FlightOk(b, f)
  {
    hide RefundReady, SettleReady, BookingsEvolve;
    match f
    case LateFlagged(p, amount) => RefundReadySurvives(a, b, p, PP.Paid, amount, PP.Automatic);
    case LateUnseen(p, amount) => RefundReadySurvives(a, b, p, PP.Paid, amount, PP.Automatic);
    case Refunding(p, seen, amount, origin) => RefundReadySurvives(a, b, p, seen, amount, origin);
    case Sweeping(p, i) => assert PaymentEvolves(a.payments[p], b.payments[p]);
    case Settling(p, i, skip) => SettleReadySurvives(a, b, p, i, skip);
    case Commanding(e, seen, expected, c) => assert EntryEvolves(a.entries[e], b.entries[e]);
    case _ =>
  }

  lemma FlightsSurvive(a: Db, b: Db, flights: map<Id, Flight>)
    requires Evolves(a, b) && FlightsOk(a, flights)
    ensures FlightsOk(b, flights)
  {
    forall f | f in flights ensures FlightOk(b, flights[f]) {
      FlightSurvives(a, b, flights[f]);
    }
  }

  // ---------------------------------------------------------------------
  // Steps
  // ---------------------------------------------------------------------

  lemma TransactionKeeps(db: Db, t: Transaction)
    requires DbOk(db)
    ensures DbOk(RunTransaction(db, t)) && Evolves(db, RunTransaction(db, t))
  {
    hide DbOk, Evolves;
    match t
    case Book(b, p, n) => CreateBookingKeeps(db, b, p, n);
    case Refer(p) => StoreReferenceKeeps(db, p);
    case Expire(p, now) => ExpireOneKeeps(db, p, now);
    case Receipt(p) => ConfirmReceiptKeeps(db, p);
    case Remainder(b, p, amount) => AddReceiptKeeps(db, b, p, amount);
    case Arrive(b, e, day, at) => CheckInKeeps(db, b, e, day, at);
    case Walk(b, p, e, w) => CreateWalkInKeeps(db, b, p, e, w);
    case Absent(b) => NoShowBookingKeeps(db, b);
    case Resort(k, expected, requested) => ReorderKeeps(db, k, expected, requested);
  }

  /** A late success is only ever flagged for a lost payment or one with refunds. */
  lemma LateSuccessReady(db: Db, e: ProviderEvent)
    requires DbOk(db) && ApplyProviderEvent(db, e).1.LateSuccess?
    ensures var r := ApplyProviderEvent(db, e); RefundReady(r.0, r.1.payment, PP.Paid, r.1.amount, PP.Automatic)
  {
    hide BookingsOk, ReservationsOk, LimitsOk, PaymentsOk, PaymentLinks, EntriesOk, EntryLinks, CountersOk;
    PaymentRow(db.bookings, db.payments, e.payment);
    CollectedHolds(db.payments[e.payment]);
  }

  /** A payment in a refund status has money held by its refunds. */
  lemma CollectedHolds(pay: Payment)
    requires PaymentOk(pay)
    ensures pay.status.RefundPending? || pay.status.PartiallyRefunded? || pay.status.Refunded? ==>
            PP.Held(pay.refunds) > 0
  {
    PP.HeldNonNegative(pay.refunds);
    AllCount(pay);
  }

  /** The skip flag the sweep chooses outside the lock is safe. */
  lemma SweepFlagSafe(db: Db, p: Id, i: nat)
    requires DbOk(db) && p in db.payments && i < |db.payments[p].refunds|
    ensures SettleReady(db, p, i, db.payments[p].status != PP.RefundPending)
  {
    hide BookingsOk, ReservationsOk, LimitsOk, PaymentsOk, PaymentLinks, EntriesOk, EntryLinks, CountersOk;
    PaymentRow(db.bookings, db.payments, p);
    assert db.payments[p].refunds[i].status == PP.Requested ==> PP.SomeRequested(db.payments[p].refunds);
  }

  lemma FirstReadOk(db: Db, o: Opening, how: Setting)
    requires DbOk(db) && FirstRead(db, o, how).Some? && how.guess <= 0 && !how.splitNoShow
    ensures FlightOk(db, FirstRead(db, o, how).value)
  {
    hide DbOk;
  }

  lemma ContinueKeeps(db: Db, f: Flight, a: Answer)
    requires DbOk(db) && FlightOk(db, f)
    ensures var r := Continue(db, f, a);
            DbOk(r.0) && Evolves(db, r.0) && (r.1.Some? ==> FlightOk(r.0, r.1.value))
  {
    hide DbOk, Evolves, CommandReady, SettleReady, RunCommand, ExecuteRefund, Settle, CancelBooking;
    SameDb(db);
    match f
    case Cancelling(b, seen, _, _) => CancelBookingKeeps(db, b, seen);
    case CancelRefunding(_, _, _) =>
    case LateFlagged(p, amount) =>
    case LateUnseen(p, amount) =>
    case Refunding(p, seen, amount, origin) => ExecuteRefundKeeps(db, p, seen, amount, origin, a.at);
    case Sweeping(p, i) => SweepFlagSafe(db, p, i);
    case Settling(p, i, skip) => SettleKeeps(db, p, i, skip);
    case Absenting(_) =>
    case Commanding(e, seen, expected, c) => RunCommandKeeps(db, e, seen, expected, c);
  }

  lemma StepByKeeps(w: World, e: Event, how: Setting)
    requires WorldOk(w) && how.guess <= 0 && !how.splitNoShow
    ensures WorldOk(StepBy(w, e, how)) && Evolves(w.db, StepBy(w, e, how).db)
  {
    hide DbOk, FlightOk, Evolves, Continue, ApplyProviderEvent, FirstRead, RunTransaction;
    var after := StepBy(w, e, how);
    SameDb(w.db);
    match e {
    case Commit(t) => TransactionKeeps(w.db, t);
    case Deliver(ev, f) =>
      ApplyProviderEventKeeps(w.db, ev);
      if ApplyProviderEvent(w.db, ev).1.LateSuccess? {
        LateSuccessReady(w.db, ev);
        var r := ApplyProviderEvent(w.db, ev);
        assert FlightOk(r.0, LateFlagged(r.1.payment, r.1.amount)) by { LateFlaggedOk(r.0, r.1.payment, r.1.amount); }
      }
    case Open(f, o) =>
      if FirstRead(w.db, o, how).Some? { FirstReadOk(w.db, o, how); }
    case Advance(f, a) =>
      if f in w.flights { ContinueKeeps(w.db, w.flights[f], a); }
    case Crash(f) =>
    }
    FlightsSurvive(w.db, after.db, w.flights);
  }

  lemma StepKeeps(w: World, e: Event)
    requires WorldOk(w)
    ensures WorldOk(Step(w, e)) && Evolves(w.db, Step(w, e).db)
  {
    hide WorldOk, Evolves, StepBy;
    StepByKeeps(w, e, USUAL);
  }

  lemma LateFlaggedOk(db: Db, p: Id, amount: int)
    requires RefundReady(db, p, PP.Paid, amount, PP.Automatic)
    ensures FlightOk(db, LateFlagged(p, amount))
  {
  }

  lemma SameDb(db: Db)
    ensures Evolves(db, db)
  {
    Unchanged(db);
  }

  lemma RunByOneMore(es: seq<Event>, e: Event, how: Setting)
    ensures RunBy(es + [e], how) == StepBy(RunBy(es, how), e, how)
  {
    hide StepBy;
    assert (es + [e])[..|es|] == es;
  }

  /** Every world reached with seen versions only and one-step no-shows satisfies the invariants. */
  lemma {:induction false} RunByKeeps(es: seq<Event>, how: Setting)
    requires how.guess <= 0 && !how.splitNoShow
    ensures WorldOk(RunBy(es, how))
  {
    hide DbOk, FlightOk, StepBy;
    if es == [] {
      EmptyOk();
    } else {
      RunByKeeps(es[..|es| - 1], how);
      StepByKeeps(RunBy(es[..|es| - 1], how), es[|es| - 1], how);
    }
  }

  /** Every world any run reaches satisfies the invariants. */
  lemma RunKeeps(es: seq<Event>)
    ensures WorldOk(Run(es))
  {
    RunByKeeps(es, USUAL);
  }
}
