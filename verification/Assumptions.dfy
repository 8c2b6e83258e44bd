/**
 * What the guarantees of the booking core ask of clients: exactly which assumptions on the
 * versions and reason codes that clients send are needed, and for what.
 */
module Assumptions {
  import opened Wrappers
  import opened Rows
  import opened PaymentTransactions
  import opened QueueTransactions
  import opened Invariants
  import opened RefundProofs
  import opened QueueProofs
  import opened Machine
  import opened MachineProofs
  import opened Guarantees
  import PP = PaymentPolicy
  import QP = QueuePolicy

  // ---------------------------------------------------------------------
  // Versions
  // ---------------------------------------------------------------------

  /** The entry's history is a path of the queue table as long as its version, and its booking mirrors it. */
  ghost predicate EntrySound(db: Db, e: Id)
    requires e in db.entries
  {
    && EntryOk(db.entries[e])
    && db.entries[e].booking in db.bookings
    && db.bookings[db.entries[e].booking].status == QP.BookingStatusFor(db.entries[e].status)
  }

  /** If the command commits, it does so on the row it read, along an edge or as a recall, and never half. */
  ghost predicate CommandSound(db: Db, e: Id, seen: Entry, expected: int, c: Command) {
    var r := RunCommand(db, e, seen, expected, c);
    && r.1 != TransitionRefused && r.1 != BookingMissing && r.1 != Missing && e in db.entries
    && (r.1 == Done ==>
          && db.entries[e] == seen.(sortOrder := db.entries[e].sortOrder)
          && (QP.CanTransition(seen.status, TargetOf(c)) || (c == Recall && seen.status == TargetOf(c) == QP.Called)))
  }

  ghost predicate QueueSound(w: World) {
    && (forall e :: e in w.db.entries ==> EntrySound(w.db, e))
    && (forall f :: f in w.flights && w.flights[f].Commanding? ==>
          CommandSound(w.db, w.flights[f].entry, w.flights[f].seenEntry, w.flights[f].expected, w.flights[f].command))
  }

  /**
   * The queue is sound in all runs exactly when clients send no version past the one their
   * command reads.
   */
  lemma QueueSoundExactly(guess: int)
    ensures (forall es :: QueueSound(RunBy(es, Setting(guess, true, false)))) <==> guess <= 0
  {
    var how := Setting(guess, true, false);
    if guess <= 0 {
      forall es ensures QueueSound(RunBy(es, how)) {
        RunByKeeps(es, how);
        WorldSound(RunBy(es, how));
      }
    } else {
      var es := GuessedVersionRun(guess);
      assert !QueueSound(RunBy(es, how));
    }
  }

  lemma WorldSound(w: World)
    requires WorldOk(w)
    ensures QueueSound(w)
  {
    forall e | e in w.db.entries ensures EntrySound(w.db, e) {
      EntryFacts(w.db, e);
    }
    forall f | f in w.flights && w.flights[f].Commanding?
      ensures CommandSound(w.db, w.flights[f].entry, w.flights[f].seenEntry, w.flights[f].expected,
              w.flights[f].command)
    {
      assert FlightOk(w.db, w.flights[f]);
      hide DbOk;
      var Commanding(e, seen, expected, c) := w.flights[f];
      StaleReadHarmless(w.db, e, seen, expected, c);
      CommandEntry(w.db, e, seen, expected);
    }
  }

  lemma EntryFacts(db: Db, e: Id)
    requires DbOk(db) && e in db.entries
    ensures EntrySound(db, e)
  {
    hide BookingsOk, ReservationsOk, LimitsOk, PaymentsOk, PaymentLinks, CountersOk;
  }

  const AT := Answer(0, false, 0)

  function WalkedIn(): NewWalkIn { NewWalkIn(1, 1, None, 0, 1, 0) }

  /** Entry 0 alone in its tables, with its booking. */
  ghost predicate Alone(db: Db, status: QP.Status, version: int) {
    && db.entries.Keys == {0} && db.entries[0].booking in db.bookings
    && db.entries[0].status == status && db.entries[0].version == version == |db.entries[0].history|
  }

  lemma WalkInAlone()
    ensures Alone(CreateWalkIn(EMPTY, 0, 0, 0, WalkedIn()).0, QP.Waiting, 1)
  {
  }

  /** Nothing stops the next command on a lone entry that was just read. */
  lemma LoneCommand(db: Db, c: Command)
    requires 0 in db.entries && Alone(db, db.entries[0].status, db.entries[0].version)
    requires (c == Call && db.entries[0].status == QP.Waiting) || (c == Skip && db.entries[0].status == QP.Called)
    ensures Verdict(db, 0, db.entries[0], db.entries[0].version, c) == Done
    ensures var after := ApplyCommand(db, 0, db.entries[0], c);
            && Alone(after, TargetOf(c), db.entries[0].version + 1)
            && after.entries[0].booking == db.entries[0].booking
            && after.entries[0].history[|db.entries[0].history|].to == TargetOf(c)
  {
  }

  /** A start-service that was read as called, with the version the entry has after a skip. */
  lemma GuessedStart(db: Db, seen: Entry)
    requires Alone(db, QP.Skipped, 3) && seen.status == QP.Called && seen.booking == db.entries[0].booking
    requires db.entries[0].history[2].to == QP.Skipped
    ensures var r := RunCommand(db, 0, seen, 3, StartService(Some(7), true));
            r.1 == Done && 0 in r.0.entries && !EntrySound(r.0, 0)
  {
    var r := RunCommand(db, 0, seen, 3, StartService(Some(7), true));
    var h := r.0.entries[0].history;
    assert h[2].to == QP.Skipped && h[3] == QueueHop(Some(QP.Called), QP.InService);
    assert !QueuePath(h);
  }

  /**
   * The client of a start-service guesses the next version; another client skips the entry
   * in between; the start-service then commits on the skipped entry.
   */
  lemma GuessedVersionRun(guess: int) returns (es: seq<Event>)
    requires guess >= 1
    ensures !QueueSound(RunBy(es, Setting(guess, true, false)))
  {
    var how := Setting(guess, true, false);
    hide CreateWalkIn, ApplyCommand, RunCommand, Verdict, EntrySound, StepBy, RunBy;
    var e0, w0 := WalksIn(how);
    LoneCommand(w0.db, Call);
    var e1, w1 := RunsCommand(e0, w0, how, 1, Call);
    var e2, w2 := OpensStart(e1, w1, how);
    LoneCommand(w2.db, Skip);
    var e3, w3 := RunsCommand(e2, w2, how, 2, Skip);
    GuessedStart(w3.db, w1.db.entries[0]);
    es := e3 + [Advance(0, AT)];
    RunByOneMore(e3, Advance(0, AT), how);
    StepByCommand(w3, how);
  }

  lemma StepByCommand(w: World, how: Setting)
    requires 0 in w.flights && w.flights[0].Commanding?
    ensures var f := w.flights[0];
            StepBy(w, Advance(0, AT), how).db == RunCommand(w.db, f.entry, f.seenEntry, f.expected, f.command).0
  {
    hide RunCommand;
  }

  lemma WalksIn(how: Setting) returns (es: seq<Event>, w: World)
    ensures RunBy(es, how) == w && w.flights == map[] && Alone(w.db, QP.Waiting, 1)
  {
    var walk := Commit(Walk(0, 0, 0, WalkedIn()));
    w := World(CreateWalkIn(EMPTY, 0, 0, 0, WalkedIn()).0, map[]);
    WalkInAlone();
    hide CreateWalkIn;
    RunByOneMore([], walk, how);
    es := [] + [walk];
  }

  lemma OpensStart(es: seq<Event>, w: World, how: Setting) returns (more: seq<Event>, after: World)
    requires RunBy(es, how) == w && w.flights == map[] && how.guess >= 1
    requires 0 in w.db.entries && w.db.entries[0].version == 2
    ensures RunBy(more, how) == after
    ensures after == World(w.db, map[0 := Commanding(0, w.db.entries[0], 3, StartService(Some(7), true))])
  {
    var open := Open(0, ForCommand(0, 3, StartService(Some(7), true)));
    RunByOneMore(es, open, how);
    more := es + [open];
    after := World(w.db, map[0 := Commanding(0, w.db.entries[0], 3, StartService(Some(7), true))]);
  }

  /** Another client opens a command on entry 0 and completes it. */
  lemma RunsCommand(es: seq<Event>, w: World, how: Setting, expected: int, c: Command)
    returns (more: seq<Event>, after: World)
    requires RunBy(es, how) == w && 1 !in w.flights && 0 in w.db.entries && how.guess >= 0
    requires expected == w.db.entries[0].version && (c == Call || c == Skip)
    requires Verdict(w.db, 0, w.db.entries[0], expected, c) == Done
    ensures RunBy(more, how) == after
    ensures after == World(ApplyCommand(w.db, 0, w.db.entries[0], c), w.flights)
  {
    var seen := w.db.entries[0];
    var open := Open(1, ForCommand(0, expected, c));
    var mid := World(w.db, w.flights[1 := Commanding(0, seen, expected, c)]);
    RunByOneMore(es, open, how);
    assert RunBy(es + [open], how) == mid;
    more := es + [open] + [Advance(1, AT)];
    RunByOneMore(es + [open], Advance(1, AT), how);
    assert Without(mid.flights, 1) == w.flights;
    after := World(ApplyCommand(w.db, 0, seen, c), w.flights);
  }

  // ---------------------------------------------------------------------
  // Reason codes
  // ---------------------------------------------------------------------

  /**
   * The existence check before a late refund reads reason codes, which clients choose too.
   * That is harmless: where it finds one, the late refund would be refused at that moment
   * and at every later one.
   */
  lemma LateCheckHarmless(es: seq<Event>, more: seq<Event>, f: Id, seen: PP.Status, at: int)
    requires f in Run(es).flights && Run(es).flights[f].LateFlagged?
    requires var p := Run(es).flights[f].payment;
             p in Run(es).db.payments && PP.SomeLateCoded(Run(es).db.payments[p].refunds)
    ensures var LateFlagged(p, amount) := Run(es).flights[f];
            !ExecuteRefund(Run(es + more).db, p, seen, amount, PP.Automatic, at).1.Opened?
  {
    hide Run, Step, DbOk, FlightsOk;
    var LateFlagged(p, amount) := Run(es).flights[f];
    Reached(es);
    Reached(es + more);
    FlagStands(es, f);
    StillRefunded(es, more, p, amount);
    LateRefundOpensExactly(Run(es + more).db, p, amount, seen, at);
  }

  lemma FlagStands(es: seq<Event>, f: Id)
    requires f in Run(es).flights && Run(es).flights[f].LateFlagged?
    ensures RefundReady(Run(es).db, Run(es).flights[f].payment, PP.Paid, Run(es).flights[f].amount, PP.Automatic)
  {
    hide Run, DbOk;
    Reached(es);
    assert FlightOk(Run(es).db, Run(es).flights[f]);
  }

  /** A flagged payment stays as good as flagged, and keeps its refunds. */
  lemma {:induction false} StillRefunded(es: seq<Event>, more: seq<Event>, p: Id, amount: int)
    requires RefundReady(Run(es).db, p, PP.Paid, amount, PP.Automatic) && Run(es).db.payments[p].refunds != []
    ensures RefundReady(Run(es + more).db, p, PP.Paid, amount, PP.Automatic)
            && Run(es + more).db.payments[p].refunds != []
  {
    hide Run, Step, BookingsEvolve, EntriesEvolve;
    if more == [] {
      assert es + more == es;
    } else {
      var n := |more| - 1;
      StillRefunded(es, more[..n], p, amount);
      assert es + more == (es + more[..n]) + [more[n]];
      OneMore(es + more[..n], more[n]);
      assert PaymentEvolves(Run(es + more[..n]).db.payments[p], Run(es + more).db.payments[p]);
    }
  }

  /** Every refund with the service's own reason code is a late refund: the only one, in full, of a lost payment. */
  ghost predicate LateCodeMeansLate(payments: map<Id, Payment>) {
    forall p, i :: p in payments && 0 <= i < |payments[p].refunds| && PP.LateCoded(payments[p].refunds[i]) ==>
      |payments[p].refunds| == 1 && payments[p].refunds[i].amount == payments[p].amount && PP.Lost(payments[p].status)
  }

  /** The reason code tells late refunds apart in all runs exactly when no client may send it. */
  lemma LateCodeExactly(lateCode: bool)
    ensures (forall es :: LateCodeMeansLate(RunBy(es, Setting(0, lateCode, false)).db.payments)) <==> !lateCode
  {
    var how := Setting(0, lateCode, false);
    if !lateCode {
      forall es ensures LateCodeMeansLate(RunBy(es, how).db.payments) {
        CodeFreeRun(es, how);
        RunByKeeps(es, how);
        CodeFreeMeans(RunBy(es, how));
      }
    } else {
      var es := CodedRequestRun();
      assert !LateCodeMeansLate(RunBy(es, how).db.payments);
    }
  }

  lemma CodeFreeMeans(w: World)
    requires WorldOk(w) && RowsCodeFree(w.db.payments)
    ensures LateCodeMeansLate(w.db.payments)
  {
    hide BookingsOk, ReservationsOk, LimitsOk, PaymentLinks, EntriesOk, EntryLinks, CountersOk, FlightsOk;
    assert forall p :: p in w.db.payments ==> PaymentOk(w.db.payments[p]);
  }

  /** No requested refund has the service's own reason code. */
  ghost predicate RowsCodeFree(payments: map<Id, Payment>) {
    forall p :: p in payments ==> RowCodeFree(payments[p])
  }

  ghost predicate RowCodeFree(pay: Payment) {
    forall i :: 0 <= i < |pay.refunds| ==> pay.refunds[i].origin != PP.OnRequest(true)
  }

  predicate FlightCodeFree(f: Flight) {
    match f
    case Cancelling(_, _, _, lateCode) => !lateCode
    case CancelRefunding(_, _, lateCode) => !lateCode
    case Refunding(_, _, _, origin) => origin != PP.OnRequest(true)
    case _ => true
  }

  ghost predicate CodeFree(w: World) {
    RowsCodeFree(w.db.payments) && forall f :: f in w.flights ==> FlightCodeFree(w.flights[f])
  }

  /** Rows are new without refunds, or keep the refunds they had. */
  ghost predicate SameRefunds(a: map<Id, Payment>, b: map<Id, Payment>) {
    forall p :: p in b ==> if p in a then b[p].refunds == a[p].refunds else b[p].refunds == []
  }

  lemma SameRefundsCodeFree(a: map<Id, Payment>, b: map<Id, Payment>)
    requires SameRefunds(a, b) && RowsCodeFree(a)
    ensures RowsCodeFree(b)
  {
    forall p | p in b ensures RowCodeFree(b[p]) {
      assert p in a ==> RowCodeFree(a[p]);
    }
  }

  lemma TransactionSameRefunds(db: Db, t: Transaction)
    ensures SameRefunds(db.payments, RunTransaction(db, t).payments)
  {
    match t {
      case Arrive(b, e, day, at) => QueueSamePayments(db, t);
      case Resort(k, expected, requested) => QueueSamePayments(db, t);
      case Walk(b, p, e, w) => WalkSameRefunds(db, b, p, e, w);
      case _ =>
        hide CheckIn, CreateWalkIn, Reorder;
    }
  }

  lemma QueueSamePayments(db: Db, t: Transaction)
    requires t.Arrive? || t.Resort?
    ensures RunTransaction(db, t).payments == db.payments
  {
    hide CreateWalkIn;
  }

  lemma WalkSameRefunds(db: Db, b: Id, p: Id, e: Id, w: NewWalkIn)
    ensures SameRefunds(db.payments, CreateWalkIn(db, b, p, e, w).0.payments)
  {
  }

  lemma EventSameRefunds(db: Db, e: ProviderEvent)
    ensures SameRefunds(db.payments, ApplyProviderEvent(db, e).0.payments)
  {
  }

  lemma ContinueCodeFree(db: Db, f: Flight, a: Answer)
    requires RowsCodeFree(db.payments) && FlightCodeFree(f)
    ensures var r := Continue(db, f, a); RowsCodeFree(r.0.payments) && (r.1.Some? ==> FlightCodeFree(r.1.value))
  {
    hide RunCommand;
    match f {
      case Cancelling(b, seen, _, _) =>
        SameRefundsCodeFree(db.payments, CancelBooking(db, b, seen).0.payments);
      case Commanding(e, seen, expected, c) =>
        CommandSamePayments(db, e, seen, expected, c);
      case _ =>
    }
  }

  lemma CommandSamePayments(db: Db, e: Id, seen: Entry, expected: int, c: Command)
    ensures RunCommand(db, e, seen, expected, c).0.payments == db.payments
  {
  }

  lemma StepCodeFree(w: World, e: Event, how: Setting)
    requires CodeFree(w) && !how.lateCode
    ensures CodeFree(StepBy(w, e, how))
  {
    hide RowsCodeFree, Continue, ApplyProviderEvent, RunTransaction;
    match e {
      case Commit(t) =>
        TransactionSameRefunds(w.db, t);
        SameRefundsCodeFree(w.db.payments, RunTransaction(w.db, t).payments);
      case Deliver(ev, f) =>
        EventSameRefunds(w.db, ev);
        SameRefundsCodeFree(w.db.payments, ApplyProviderEvent(w.db, ev).0.payments);
      case Advance(f, a) =>
        if f in w.flights {
          ContinueCodeFree(w.db, w.flights[f], a);
        }
      case _ =>
    }
  }

  lemma {:induction false} CodeFreeRun(es: seq<Event>, how: Setting)
    requires !how.lateCode
    ensures CodeFree(RunBy(es, how))
  {
    if es != [] {
      hide CodeFree, StepBy;
      CodeFreeRun(es[..|es| - 1], how);
      StepCodeFree(RunBy(es[..|es| - 1], how), es[|es| - 1], how);
    }
  }

  /** A paid booking refunded in part on request, with the service's own reason code. */
  lemma CodedRequestRun() returns (es: seq<Event>)
    ensures !LateCodeMeansLate(RunBy(es, USUAL).db.payments)
  {
    var n := NewBooking(1, 1, 1, 1, 50, 60, true, 100, 10);
    var book, refer := Commit(Book(0, 0, n)), Commit(Refer(0));
    var paid := Deliver(ProviderEvent(0, 0, PaymentTransactions.Paid, 100, true), 0);
    var w1, w2 := StepBy(START, book, USUAL), StepBy(StepBy(START, book, USUAL), refer, USUAL);
    assert ActiveBookings(EMPTY.bookings, 1, 1) == {};
    RunByOneMore([], book, USUAL);
    RunByOneMore([] + [book], refer, USUAL);
    RunByOneMore([] + [book] + [refer], paid, USUAL);
    var w3 := StepBy(w2, paid, USUAL);
    assert w3.db.payments[0].status == PP.Paid && w3.db.payments[0].refunds == [] && w3.flights == map[];
    var e3 := [] + [book] + [refer] + [paid];
    es := RefundsCoded(e3, w3);
  }

  lemma RefundsCoded(es: seq<Event>, w: World) returns (more: seq<Event>)
    requires RunBy(es, USUAL) == w && w.flights == map[] && 0 in w.db.payments
    requires var pay := w.db.payments[0];
             pay.status == PP.Paid && pay.refunds == [] && pay.online && pay.amount == 100
    ensures !LateCodeMeansLate(RunBy(more, USUAL).db.payments)
  {
    var open := Open(0, ForRefund(0, 40, true));
    RunByOneMore(es, open, USUAL);
    RunByOneMore(es + [open], Advance(0, AT), USUAL);
    var w1 := StepBy(w, open, USUAL);
    assert w1 == World(w.db, map[0 := Refunding(0, PP.Paid, 40, PP.OnRequest(true))]);
    var w2 := StepBy(w1, Advance(0, AT), USUAL);
    more := es + [open] + [Advance(0, AT)];
    assert w2.db.payments[0].refunds == [PP.Refund(PP.Requested, 40, PP.OnRequest(true), 0)];
    assert PP.LateCoded(w2.db.payments[0].refunds[0]);
  }
}
