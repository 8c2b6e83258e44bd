/**
 * The no-show of a booking (queue-commands.service.ts, markNoShowBooking) reads the booking
 * outside its transaction and then writes without a guard. When that is harmless, and what
 * it costs when it is not.
 */
module NoShow {
  import opened Wrappers
  import opened Rows
  import opened PaymentTransactions
  import opened QueueTransactions
  import opened Invariants
  import opened BookingProofs
  import opened Machine
  import opened MachineProofs
  import opened Guarantees
  import BP = BookingPolicy
  import QP = QueuePolicy

  /** Runs in which other steps may come between the read and the write of a no-show. */
  const SPLIT := Setting(0, true, true)

  // ---------------------------------------------------------------------
  // One write
  // ---------------------------------------------------------------------

  /** The unguarded write keeps the tables sound exactly when the booking is still confirmed. */
  lemma WriteKeepsExactly(db: Db, b: Id)
    requires DbOk(db) && b in db.bookings
    ensures DbOk(WriteNoShow(db, b)) <==> db.bookings[b].status == BP.Confirmed
    ensures db.bookings[b].status != BP.Confirmed ==> !BookingPath(WriteNoShow(db, b).bookings[b].history)
  {
    if db.bookings[b].status == BP.Confirmed {
      NoShowBookingKeeps(db, b);
    } else {
      BookingRow(db.bookings, b);
      var h, after := db.bookings[b].history, WriteNoShow(db, b).bookings[b].history;
      var n := |h|;
      assert after[n - 1] == h[n - 1] && after[n].from == Some(BP.Confirmed) && h[n - 1].to != BP.Confirmed;
      assert !BookingPath(after);
      assert !BookingOk(WriteNoShow(db, b).bookings[b]);
    }
  }

  // ---------------------------------------------------------------------
  // Runs
  // ---------------------------------------------------------------------

  /** The step writes a no-show. */
  predicate Writes(w: World, e: Event) {
    e.Advance? && e.f in w.flights && w.flights[e.f].Absenting?
  }

  /** If the step writes a no-show, its booking is still confirmed. */
  predicate TimelyStep(w: World, e: Event) {
    Writes(w, e) && w.flights[e.f].booking in w.db.bookings ==>
      w.db.bookings[w.flights[e.f].booking].status == BP.Confirmed
  }

  ghost predicate Timely(es: seq<Event>) {
    forall m :: 0 <= m < |es| ==> TimelyStep(RunBy(es[..m], SPLIT), es[m])
  }

  /** The same world to everyone but the callers of no-shows. */
  ghost predicate Matches(w: World, one: World) {
    && one.db == w.db
    && (forall f :: f in one.flights <==> (f in w.flights && !w.flights[f].Absenting?))
    && (forall f :: f in one.flights ==> one.flights[f] == w.flights[f])
  }

  /** What the step amounts to when a no-show is one step: itself, the whole no-show, or nothing. */
  function OneStep(w: World, e: Event): seq<Event> {
    match e
    case Commit(_) => [e]
    case Deliver(_, f) => if f in w.flights then [] else [e]
    case Open(f, o) => if f in w.flights || o.ForNoShow? then [] else [e]
    case Advance(f, _) =>
      if f in w.flights && w.flights[f].Absenting? then [Commit(Absent(w.flights[f].booking))] else [e]
    case Crash(f) => if f in w.flights && w.flights[f].Absenting? then [] else [e]
  }

  lemma StepMatches(w: World, one: World, e: Event)
    requires Matches(w, one) && TimelyStep(w, e)
    ensures var s := OneStep(w, e);
            if s == [] then Matches(StepBy(w, e, SPLIT), one)
            else |s| == 1 && Matches(StepBy(w, e, SPLIT), StepBy(one, s[0], USUAL))
  {
    hide RunTransaction, ApplyProviderEvent, Continue, FirstRead;
    match e {
      case Open(f, o) =>
        if o.ForNoShow? {
          NoShowRead(w.db, o);
        } else {
          SameRead(w.db, o);
        }
      case Advance(f, a) =>
        if f in w.flights {
          if w.flights[f].Absenting? {
            TimelyWrite(w.db, w.flights[f].booking, a);
          } else {
            NeverAbsenting(w.db, w.flights[f], a);
          }
        }
      case _ =>
    }
  }

  lemma SameRead(db: Db, o: Opening)
    requires !o.ForNoShow?
    ensures FirstRead(db, o, SPLIT) == FirstRead(db, o, USUAL)
    ensures FirstRead(db, o, USUAL).Some? ==> !FirstRead(db, o, USUAL).value.Absenting?
  {
  }

  lemma NoShowRead(db: Db, o: Opening)
    requires o.ForNoShow?
    ensures FirstRead(db, o, SPLIT).Some? ==> FirstRead(db, o, SPLIT).value.Absenting?
  {
  }

  lemma NeverAbsenting(db: Db, f: Flight, a: Answer)
    requires !f.Absenting?
    ensures Continue(db, f, a).1.Some? ==> !Continue(db, f, a).1.value.Absenting?
  {
    hide RunCommand, ExecuteRefund, CancelBooking, Settle;
  }

  lemma TimelyWrite(db: Db, b: Id, a: Answer)
    requires b in db.bookings ==> db.bookings[b].status == BP.Confirmed
    ensures Continue(db, Absenting(b), a) == (RunTransaction(db, Absent(b)), None)
  {
  }

  /**
   * A run whose no-shows find their bookings still confirmed leaves the tables that some run
   * with one-step no-shows leaves, so everything shown of those runs holds for it.
   */
  lemma {:induction false} TimelyIsOneStep(es: seq<Event>) returns (one: seq<Event>)
    requires Timely(es)
    ensures Matches(RunBy(es, SPLIT), Run(one))
  {
    if es == [] {
      one := [];
    } else {
      var before, e := es[..|es| - 1], es[|es| - 1];
      TimelyEarlier(es);
      var less := TimelyIsOneStep(before);
      var w := RunBy(before, SPLIT);
      assert TimelyStep(w, e);
      StepMatches(w, Run(less), e);
      assert RunBy(es, SPLIT) == StepBy(w, e, SPLIT);
      hide StepBy, RunBy, Matches, OneStep;
      if OneStep(w, e) == [] {
        one := less;
      } else {
        one := less + [OneStep(w, e)[0]];
        RunByOneMore(less, OneStep(w, e)[0], USUAL);
      }
    }
  }

  lemma TimelyEarlier(es: seq<Event>)
    requires Timely(es) && es != []
    ensures Timely(es[..|es| - 1])
  {
    var before := es[..|es| - 1];
    forall m | 0 <= m < |before| ensures TimelyStep(RunBy(before[..m], SPLIT), before[m]) {
      assert before[..m] == es[..m];
      assert TimelyStep(RunBy(es[..m], SPLIT), es[m]);
    }
  }

  /** The tables are sound throughout a run exactly when every no-show finds its booking still confirmed. */
  lemma SoundExactlyWhenTimely(es: seq<Event>)
    ensures (forall m :: 0 <= m <= |es| ==> DbOk(RunBy(es[..m], SPLIT).db)) <==> Timely(es)
  {
    hide DbOk, RunBy, StepBy;
    if Timely(es) {
      forall m | 0 <= m <= |es| ensures DbOk(RunBy(es[..m], SPLIT).db) {
        TimelyPrefix(es, m);
        var one := TimelyIsOneStep(es[..m]);
        Reached(one);
      }
    } else {
      var m :| 0 <= m < |es| && !TimelyStep(RunBy(es[..m], SPLIT), es[m]);
      var w := RunBy(es[..m], SPLIT);
      assert es[..m + 1] == es[..m] + [es[m]];
      RunByOneMore(es[..m], es[m], SPLIT);
      LateWrite(w, es[m]);
    }
  }

  lemma TimelyPrefix(es: seq<Event>, m: nat)
    requires Timely(es) && m <= |es|
    ensures Timely(es[..m])
  {
    forall k | 0 <= k < m ensures TimelyStep(RunBy(es[..m][..k], SPLIT), es[..m][k]) {
      assert es[..m][..k] == es[..k];
      assert TimelyStep(RunBy(es[..k], SPLIT), es[k]);
    }
  }

  lemma LateWrite(w: World, e: Event)
    requires !TimelyStep(w, e)
    ensures DbOk(w.db) ==> !DbOk(StepBy(w, e, SPLIT).db)
  {
    hide DbOk;
    WritesTables(w, e);
    if DbOk(w.db) {
      hide StepBy, WriteNoShow;
      WriteKeepsExactly(w.db, w.flights[e.f].booking);
    }
  }

  lemma WritesTables(w: World, e: Event)
    requires Writes(w, e)
    ensures StepBy(w, e, SPLIT).db == WriteNoShow(w.db, w.flights[e.f].booking)
  {
    hide WriteNoShow;
  }

  // ---------------------------------------------------------------------
  // All runs
  // ---------------------------------------------------------------------

  /** What the consistency job counts, and bookings that mirror their entries. */
  ghost predicate Consistent(db: Db) {
    && OrphanReservations(db) == {} && MissingReservations(db) == {} && QueueMismatches(db) == {}
    && forall e :: e in db.entries ==>
         && db.entries[e].booking in db.bookings
         && db.bookings[db.entries[e].booking].status == QP.BookingStatusFor(db.entries[e].status)
  }

  /** All runs stay consistent exactly when the no-show is one step. */
  lemma ConsistentExactly(split: bool)
    ensures (forall es :: Consistent(RunBy(es, Setting(0, true, split)).db)) <==> !split
  {
    if split {
      var es := CheckedInNoShowRun();
      assert !Consistent(RunBy(es, Setting(0, true, split)).db);
    } else {
      forall es ensures Consistent(RunBy(es, Setting(0, true, split)).db) {
        RunConsistent(es);
      }
    }
  }

  lemma RunConsistent(es: seq<Event>)
    ensures Consistent(Run(es).db)
  {
    hide Run, OrphanReservations, MissingReservations, QueueMismatches;
    ConsistencyCountersZero(es);
    forall e | e in Run(es).db.entries
      ensures var db := Run(es).db;
              && db.entries[e].booking in db.bookings
              && db.bookings[db.entries[e].booking].status == QP.BookingStatusFor(db.entries[e].status)
    {
      BookingMirrorsEntry(es, e);
    }
  }

  const AT := Answer(0, false, 0)

  /** Paid at the location, from 50 to 60. */
  const SLOT := NewBooking(1, 1, 1, 1, 50, 60, false, 100, 0)

  /**
   * A booking is read for a no-show, checked in, and then written: its entry waits while the
   * booking is a no-show.
   */
  lemma CheckedInNoShowRun() returns (es: seq<Event>)
    ensures QueueMismatches(RunBy(es, SPLIT).db) != {}
  {
    var book, read, arrive := Commit(Book(0, 0, SLOT)), Open(0, ForNoShow(0)), Commit(Arrive(0, 0, 1, 40));
    assert ActiveBookings(EMPTY.bookings, 1, 1) == {};
    RunByOneMore([], book, SPLIT);
    var w1 := StepBy(START, book, SPLIT);
    assert w1.db.bookings == map[0 := NewBookingRow(SLOT)] && w1.db.entries == map[] && w1.flights == map[];
    es := NoShowAfter([] + [book], w1, read, arrive);
  }

  lemma NoShowAfter(es: seq<Event>, w: World, read: Event, arrive: Event) returns (more: seq<Event>)
    requires RunBy(es, SPLIT) == w && w.flights == map[] && w.db.entries == map[]
    requires w.db.bookings == map[0 := NewBookingRow(SLOT)]
    requires read == Open(0, ForNoShow(0)) && arrive == Commit(Arrive(0, 0, 1, 40))
    ensures QueueMismatches(RunBy(more, SPLIT).db) != {}
  {
    var write := Advance(0, AT);
    RunByOneMore(es, read, SPLIT);
    RunByOneMore(es + [read], arrive, SPLIT);
    RunByOneMore(es + [read] + [arrive], write, SPLIT);
    more := es + [read] + [arrive] + [write];
    var w1 := StepBy(w, read, SPLIT);
    assert w1 == World(w.db, map[0 := Absenting(0)]);
    var w2 := StepBy(w1, arrive, SPLIT);
    assert w2 == World(CheckIn(w.db, 0, 0, 1, 40).0, w1.flights);
    ArrivedEntry(w.db);
    hide StepBy, CheckIn, QueueMismatches;
    WritesTables(w2, write);
    WrittenMismatch(w2.db);
  }

  lemma ArrivedEntry(db: Db)
    requires db.entries == map[] && db.bookings == map[0 := NewBookingRow(SLOT)]
    ensures var after := CheckIn(db, 0, 0, 1, 40).0;
            0 in after.entries && after.entries[0].status == QP.Waiting && after.entries[0].booking == 0
            && 0 in after.bookings
  {
  }

  lemma WrittenMismatch(db: Db)
    requires 0 in db.entries && db.entries[0].status == QP.Waiting && db.entries[0].booking == 0 && 0 in db.bookings
    ensures QueueMismatches(WriteNoShow(db, 0)) != {}
  {
    assert 0 in QueueMismatches(WriteNoShow(db, 0));
  }
}
