/** The queue transactions keep the invariants, whatever stale entry they act on. */
module QueueProofs {
  import opened Wrappers
  import opened Rows
  import opened QueueTransactions
  import opened Invariants
  import opened TableProofs
  import opened BookingProofs
  import BP = BookingPolicy
  import PP = PaymentPolicy
  import QP = QueuePolicy

  // ---------------------------------------------------------------------
  // Entries, their links and their numbers
  // ---------------------------------------------------------------------

  lemma EntryReplaced(entries: map<Id, Entry>, e: Id, f: Entry)
    requires EntriesOk(entries) && e in entries && EntryOk(f) && EntryEvolves(entries[e], f)
    ensures EntriesOk(entries[e := f]) && EntriesEvolve(entries, entries[e := f])
  {
  }

  lemma EntryAdded(entries: map<Id, Entry>, e: Id, f: Entry)
    requires EntriesOk(entries) && e !in entries && EntryOk(f) && !HasEntry(entries, f.booking)
    ensures EntriesOk(entries[e := f]) && EntriesEvolve(entries, entries[e := f])
  {
  }

  /** A booking and its own entry change together. */
  lemma EntryRelinked(bookings: map<Id, Booking>, entries: map<Id, Entry>, e: Id, f: Entry, c: Booking)
    requires EntriesOk(entries) && EntryLinks(bookings, entries) && e in entries
    requires f.booking == entries[e].booking && c.status == QP.BookingStatusFor(f.status)
    ensures EntryLinks(bookings[f.booking := c], entries[e := f])
  {
    var after := entries[e := f];
    var moved := bookings[f.booking := c];
    forall b | b in moved && Queued(moved[b].status) ensures HasEntry(after, b) {
      if b == f.booking {
        assert after[e].booking == b;
      } else {
        var x :| x in entries && entries[x].booking == b;
        assert after[x].booking == b;
      }
    }
  }

  /** Keys, bookings and statuses of all entries stay, so the links stay. */
  lemma EntriesRelinked(bookings: map<Id, Booking>, entries: map<Id, Entry>, after: map<Id, Entry>)
    requires EntryLinks(bookings, entries) && after.Keys == entries.Keys
    requires forall x :: x in entries ==> after[x].booking == entries[x].booking
    requires forall x :: x in entries ==> QP.BookingStatusFor(after[x].status) == QP.BookingStatusFor(entries[x].status)
    ensures EntryLinks(bookings, after)
  {
    forall b | b in bookings && Queued(bookings[b].status) ensures HasEntry(after, b) {
      var x :| x in entries && entries[x].booking == b;
      assert after[x].booking == b;
    }
  }

  lemma EntryLinked(bookings: map<Id, Booking>, entries: map<Id, Entry>, e: Id, f: Entry, c: Booking)
    requires EntryLinks(bookings, entries) && e !in entries && !HasEntry(entries, f.booking)
    requires c.status == QP.BookingStatusFor(f.status)
    ensures EntryLinks(bookings[f.booking := c], entries[e := f])
  {
    var after := entries[e := f];
    var moved := bookings[f.booking := c];
    forall b | b in moved && Queued(moved[b].status) ensures HasEntry(after, b) {
      if b == f.booking {
        assert after[e].booking == b;
      } else {
        var x :| x in entries && entries[x].booking == b;
        assert after[x].booking == b;
      }
    }
  }

  /** No entry is renumbered, so the numbers of every queue stay 1..last. */
  lemma NumbersKept(entries: map<Id, Entry>, counters: map<QueueKey, Counter>,
                    after: map<Id, Entry>, bumped: map<QueueKey, Counter>)
    requires CountersOk(entries, counters) && after.Keys == entries.Keys && bumped.Keys == counters.Keys
    requires forall x :: x in entries ==> after[x].queue == entries[x].queue && after[x].number == entries[x].number
    requires forall k :: k in counters ==> bumped[k].last == counters[k].last
    ensures CountersOk(after, bumped)
  {
    forall k, n | k in bumped && 1 <= n <= bumped[k].last ensures Numbered(after, k, n) {
      assert Numbered(entries, k, n);
      var x :| x in entries && entries[x].queue == k && entries[x].number == n;
      assert after[x].queue == k;
    }
  }

  /** A new entry takes the next number of its queue. */
  lemma NumberTaken(entries: map<Id, Entry>, counters: map<QueueKey, Counter>, e: Id, f: Entry)
    requires CountersOk(entries, counters) && e !in entries && f.number == Bumped(counters, f.queue).last
    ensures CountersOk(entries[e := f], counters[f.queue := Bumped(counters, f.queue)])
  {
    var after := entries[e := f];
    var bumped := counters[f.queue := Bumped(counters, f.queue)];
    forall k, n | k in bumped && 1 <= n <= bumped[k].last ensures Numbered(after, k, n) {
      if k == f.queue && n == f.number {
        assert after[e].queue == k;
      } else {
        assert Numbered(entries, k, n);
        var x :| x in entries && entries[x].queue == k && entries[x].number == n;
        assert after[x].queue == k;
      }
    }
  }

  // ---------------------------------------------------------------------
  // Check-in and walk-in
  // ---------------------------------------------------------------------

  /** Both hops of a check-in are edges of the booking table. */
  lemma CheckedInOk(b: Booking)
    requires BookingOk(b) && b.kind == Scheduled && b.status == BP.Confirmed
    ensures BookingOk(CheckedInBooking(b)) && BookingEvolves(b, CheckedInBooking(b))
  {
  }

  lemma CheckInKeeps(db: Db, b: Id, e: Id, day: int, at: int)
    requires DbOk(db)
    ensures DbOk(CheckIn(db, b, e, day, at).0) && Evolves(db, CheckIn(db, b, e, day, at).0)
  {
    hide BookingsOk, ReservationsOk, LimitsOk, PaymentsOk, PaymentLinks, EntriesOk, EntryLinks, CountersOk;
    hide BookingsEvolve, PaymentsEvolve, EntriesEvolve;
    Unchanged(db);
    if CheckIn(db, b, e, day, at).1 == CheckedIn {
      var c := CheckedInBooking(db.bookings[b]);
      var k := QueueKey(db.bookings[b].outlet, day);
      var f := NewEntry(b, k, db.bookings[b].staff, Bumped(db.counters, k).last, at);
      BookingRow(db.bookings, b);
      CheckedInOk(db.bookings[b]);
      BookingReplaced(db.bookings, b, c);
      SlotKept(db.bookings, db.reservations, b, c);
      LimitKept(db.bookings, b, c);
      BookingRelinked(db.bookings, db.payments, b, c);
      EntryAdded(db.entries, e, f);
      EntryLinked(db.bookings, db.entries, e, f, c);
      NumberTaken(db.entries, db.counters, e, f);
    }
  }

  lemma CreateWalkInKeeps(db: Db, b: Id, p: Id, e: Id, w: NewWalkIn)
    requires DbOk(db)
    ensures DbOk(CreateWalkIn(db, b, p, e, w).0) && Evolves(db, CreateWalkIn(db, b, p, e, w).0)
  {
    hide BookingsOk, ReservationsOk, LimitsOk, PaymentsOk, PaymentLinks, EntriesOk, EntryLinks, CountersOk;
    hide BookingsEvolve, PaymentsEvolve, EntriesEvolve;
    Unchanged(db);
    if CreateWalkIn(db, b, p, e, w).1 {
      var c := WalkInBooking(w);
      var q := Payment(b, false, PP.Pending, w.price, None, false, []);
      var k := QueueKey(w.outlet, w.day);
      var f := NewEntry(b, k, w.staff, Bumped(db.counters, k).last, w.at);
      BookingAdded(db.bookings, b, c);
      SlotlessAdded(db.bookings, db.reservations, b, c);
      LimitKept(db.bookings, b, c);
      FreshPaymentOk(q);
      PaymentAdded(db.payments, p, q);
      PairLinked(db.bookings, db.payments, b, c, p, q);
      EntryAdded(db.entries, e, f);
      EntryLinked(db.bookings, db.entries, e, f, c);
      NumberTaken(db.entries, db.counters, e, f);
    }
  }

  // ---------------------------------------------------------------------
  // Versioned commands
  // ---------------------------------------------------------------------

  /**
   * What a command in flight still knows: the entry has only moved on since it
   * was read, and the client's version is one it had by then.
   */
  ghost predicate CommandReady(db: Db, e: Id, seen: Entry, expected: int) {
    e in db.entries && EntryLater(seen, db.entries[e]) && expected <= seen.version
  }

  /** The guard passes only if the entry is still the row that was read, sort key aside. */
  lemma GuardFixesEntry(db: Db, e: Id, seen: Entry, expected: int, c: Command)
    requires CommandReady(db, e, seen, expected) && Verdict(db, e, seen, expected, c) == Done
    ensures db.entries[e] == seen.(sortOrder := db.entries[e].sortOrder)
    ensures Accepts(c, seen.status)
  {
  }

  /** Every handler moves its entry along an edge of the queue table, or recalls it. */
  lemma CommandEdges(c: Command, s: QP.Status)
    requires Accepts(c, s)
    ensures QP.CanTransition(s, TargetOf(c)) || (c == Recall && s == TargetOf(c) == QP.Called)
    ensures var from, to := QP.BookingStatusFor(s), QP.BookingStatusFor(TargetOf(c));
            from == to || BP.CanTransition(from, to)
    ensures Releases(c) <==> !Queued(QP.BookingStatusFor(TargetOf(c)))
    ensures Releases(c) ==> QP.BookingStatusFor(s) != QP.BookingStatusFor(TargetOf(c))
    ensures Queued(QP.BookingStatusFor(s)) && TargetOf(c) != QP.Cancelled
  {
  }

  /**
   * The version guard makes the stale read harmless: a command that commits
   * changes the very entry it read, along an edge of the queue table (or a
   * recall), the booking mirrors the entry before and after, and its booking
   * transition is never refused.
   */
  lemma StaleReadHarmless(db: Db, e: Id, seen: Entry, expected: int, c: Command)
    requires DbOk(db) && CommandReady(db, e, seen, expected)
    ensures var r := RunCommand(db, e, seen, expected, c);
            && r.1 != TransitionRefused && r.1 != BookingMissing && r.1 != Missing
            && (r.1 == Done ==>
                  && db.entries[e] == seen.(sortOrder := db.entries[e].sortOrder)
                  && r.0.entries[e].status == TargetOf(c)
                  && (QP.CanTransition(seen.status, TargetOf(c))
                      || (c == Recall && seen.status == TargetOf(c) == QP.Called))
                  && seen.booking in db.bookings
                  && db.bookings[seen.booking].status == QP.BookingStatusFor(seen.status)
                  && r.0.bookings[seen.booking].status == QP.BookingStatusFor(TargetOf(c)))
  {
    hide BookingsOk, ReservationsOk, LimitsOk, PaymentsOk, PaymentLinks, EntriesOk, CountersOk;
    hide CommandReady, TargetOf, Accepts, QP.CanTransition, BP.CanTransition;
    if Accepts(c, seen.status) {
      CommandEdges(c, seen.status);
    }
    MirrorStands(db, e, seen, expected, TargetOf(c));
    if Verdict(db, e, seen, expected, c) == Done {
      GuardFixesEntry(db, e, seen, expected, c);
    } else {
      assert e in db.entries by { CommandEntry(db, e, seen, expected); }
    }
  }

  lemma MirrorStands(db: Db, e: Id, seen: Entry, expected: int, to: QP.Status)
    requires DbOk(db) && CommandReady(db, e, seen, expected)
    ensures Mirrored(db.bookings, seen, to)
  {
    hide BookingsOk, ReservationsOk, LimitsOk, PaymentsOk, PaymentLinks, EntriesOk, CountersOk;
  }

  lemma CommandEntry(db: Db, e: Id, seen: Entry, expected: int)
    requires CommandReady(db, e, seen, expected)
    ensures e in db.entries
  {
  }

  /** The command's entry row. */
  lemma CommandRow(entries: map<Id, Entry>, row: Entry, e: Id, seen: Entry, f: Entry, c: Command)
    requires EntriesOk(entries) && e in entries && entries[e] == row
    requires row == seen.(sortOrder := row.sortOrder) && Accepts(c, seen.status)
    requires f.booking == row.booking && f.queue == row.queue && f.number == row.number
            && f.checkedInAt == row.checkedInAt
    requires f.status == TargetOf(c) && f.version == row.version + 1
    requires f.history == row.history + [QueueHop(Some(seen.status), TargetOf(c))]
    ensures EntryOk(f) && EntryEvolves(row, f)
  {
    assert EntryOk(row);
    CommandEdges(c, seen.status);
  }

  lemma RunCommandKeeps(db: Db, e: Id, seen: Entry, expected: int, c: Command)
    requires DbOk(db) && CommandReady(db, e, seen, expected)
    ensures var r := RunCommand(db, e, seen, expected, c); DbOk(r.0) && Evolves(db, r.0)
  {
    hide BookingsOk, ReservationsOk, LimitsOk, PaymentsOk, PaymentLinks, EntriesOk, EntryLinks, CountersOk;
    hide BookingsEvolve, PaymentsEvolve, EntriesEvolve, CommandReady, Verdict;
    Unchanged(db);
    if RunCommand(db, e, seen, expected, c).1 == Done {
      CommandEntry(db, e, seen, expected);
      StaleReadHarmless(db, e, seen, expected, c);
      GuardFixesEntry(db, e, seen, expected, c);
      ApplyCommandKeeps(db, e, seen, c);
    }
  }

  lemma ApplyCommandKeeps(db: Db, e: Id, seen: Entry, c: Command)
    requires DbOk(db) && e in db.entries && db.entries[e] == seen.(sortOrder := db.entries[e].sortOrder)
    requires Accepts(c, seen.status)
    requires seen.booking in db.bookings && db.bookings[seen.booking].status == QP.BookingStatusFor(seen.status)
    ensures DbOk(ApplyCommand(db, e, seen, c)) && Evolves(db, ApplyCommand(db, e, seen, c))
  {
    hide BookingsOk, ReservationsOk, LimitsOk, PaymentsOk, PaymentLinks, EntriesOk, EntryLinks, CountersOk;
    hide BookingsEvolve, PaymentsEvolve, EntriesEvolve, EntryOk, EntryEvolves, BP.CanTransition, Accepts;
    Unchanged(db);
    var f := UpdatedEntry(db, e, seen, c);
    var b := seen.booking;
    CommandEdges(c, seen.status);
    CommandRow(db.entries, db.entries[e], e, seen, f, c);
    EntryReplaced(db.entries, e, f);
    NumbersKept(db.entries, db.counters, db.entries[e := f], db.counters);
    if QP.BookingStatusFor(seen.status) == QP.BookingStatusFor(TargetOf(c)) {
      EntriesRelinked(db.bookings, db.entries, db.entries[e := f]);
    } else {
      SyncKeeps(db, e, seen, f, c);
    }
  }

  /** The tables beside the queue when the booking moves with its entry. */
  lemma SyncKeeps(db: Db, e: Id, seen: Entry, f: Entry, c: Command)
    requires DbOk(db) && e in db.entries && f.booking == db.entries[e].booking == seen.booking
    requires Accepts(c, seen.status) && f.status == TargetOf(c)
    requires seen.booking in db.bookings && db.bookings[seen.booking].status == QP.BookingStatusFor(seen.status)
    requires QP.BookingStatusFor(seen.status) != QP.BookingStatusFor(TargetOf(c))
    ensures var bookings := SyncedBookings(db.bookings, seen, TargetOf(c));
            && BookingsOk(bookings) && BookingsEvolve(db.bookings, bookings) && LimitsOk(bookings)
            && ReservationsOk(bookings, if Releases(c) then Without(db.reservations, seen.booking) else db.reservations)
            && PaymentLinks(bookings, db.payments)
            && EntryLinks(bookings, db.entries[e := f])
  {
    hide BookingsOk, ReservationsOk, LimitsOk, PaymentsOk, PaymentLinks, EntriesOk, EntryLinks, CountersOk;
    hide BookingsEvolve, PaymentsEvolve, EntriesEvolve, Accepts;
    var b := seen.booking;
    CommandEdges(c, seen.status);
    BookingRow(db.bookings, b);
    var d := Moved(db.bookings[b], db.bookings[b].status, QP.BookingStatusFor(TargetOf(c)));
    PathExtends(db.bookings[b], d.status);
    BookingReplaced(db.bookings, b, d);
    LimitKept(db.bookings, b, d);
    BookingRelinked(db.bookings, db.payments, b, d);
    EntryRelinked(db.bookings, db.entries, e, f, d);
    if Releases(c) {
      SlotReleased(db.bookings, db.reservations, b, d);
    } else {
      SlotKept(db.bookings, db.reservations, b, d);
    }
  }

  // ---------------------------------------------------------------------
  // Reorder
  // ---------------------------------------------------------------------

  /** Renumbering changes nothing but sort keys. */
  lemma {:induction false} RenumberedOnlySorts(entries: map<Id, Entry>, ids: seq<Id>)
    requires forall e :: e in ids ==> e in entries
    ensures forall x :: x in entries ==>
              Renumbered(entries, ids)[x] == entries[x].(sortOrder := Renumbered(entries, ids)[x].sortOrder)
  {
    if ids != [] {
      RenumberedOnlySorts(entries, ids[..|ids| - 1]);
    }
  }

  lemma ResortedOk(entries: map<Id, Entry>, after: map<Id, Entry>)
    requires EntriesOk(entries) && after.Keys == entries.Keys
    requires forall x :: x in entries ==> after[x] == entries[x].(sortOrder := after[x].sortOrder)
    ensures EntriesOk(after) && EntriesEvolve(entries, after)
  {
    forall x | x in after ensures EntryOk(after[x]) && EntryEvolves(entries[x], after[x]) {
      assert EntryOk(entries[x]);
    }
  }

  lemma ReorderKeeps(db: Db, k: QueueKey, expected: int, requested: seq<Id>)
    requires DbOk(db)
    ensures DbOk(Reorder(db, k, expected, requested).0) && Evolves(db, Reorder(db, k, expected, requested).0)
  {
    hide BookingsOk, ReservationsOk, LimitsOk, PaymentsOk, PaymentLinks, EntriesOk, EntryLinks, CountersOk;
    hide BookingsEvolve, PaymentsEvolve, EntriesEvolve;
    Unchanged(db);
    var r := Reorder(db, k, expected, requested);
    if r.1 == Reordered {
      RenumberedOnlySorts(db.entries, requested);
      ResortedOk(db.entries, r.0.entries);
      EntriesRelinked(db.bookings, db.entries, r.0.entries);
      NumbersKept(db.entries, db.counters, r.0.entries, r.0.counters);
    }
  }
}
