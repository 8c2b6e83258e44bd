/** What one transaction of the queue services does to the tables. */
module QueueTransactions {
  import opened Wrappers
  import opened Rows
  import BP = BookingPolicy
  import PP = PaymentPolicy
  import QP = QueuePolicy

  /** nextQueueNumber: upsert of the counter row. */
  function Bumped(counters: map<QueueKey, Counter>, k: QueueKey): Counter {
    if k in counters then Counter(counters[k].last + 1, counters[k].version + 1) else Counter(1, 1)
  }

  function NewEntry(b: Id, k: QueueKey, staff: Option<Id>, number: int, at: int): Entry {
    Entry(b, k, staff, number, number, at, QP.Waiting, 1, [QueueHop(None, QP.Waiting)])
  }

  predicate HasEntry(entries: map<Id, Entry>, b: Id) {
    exists e :: e in entries && entries[e].booking == b
  }

  // ---------------------------------------------------------------------
  // Check-in (queue.service.ts) and walk-in (queue-commands.service.ts)
  // ---------------------------------------------------------------------

  datatype CheckInOutcome = CheckedIn | NotConfirmed | AlreadyQueued | RowRejected

  /** Both audited hops collapse into one write of the final status. */
  function CheckedInBooking(b: Booking): Booking {
    b.(status := BP.Waiting,
       history := b.history + [BookingHop(Some(BP.Confirmed), BP.CheckedIn),
           BookingHop(Some(BP.CheckedIn), BP.Waiting)])
  }

  function CheckIn(db: Db, b: Id, e: Id, day: int, at: int): (Db, CheckInOutcome) {
    if b !in db.bookings || db.bookings[b].kind != Scheduled || db.bookings[b].status != BP.Confirmed then
      (db, NotConfirmed)
    else if HasEntry(db.entries, b) then (db, AlreadyQueued)
    else if e in db.entries then (db, RowRejected)
    else
      var k := QueueKey(db.bookings[b].outlet, day);
      var c := Bumped(db.counters, k);
      (db.(counters := db.counters[k := c],
           entries := db.entries[e := NewEntry(b, k, db.bookings[b].staff, c.last, at)],
           bookings := db.bookings[b := CheckedInBooking(db.bookings[b])]),
       CheckedIn)
  }

  datatype NewWalkIn = NewWalkIn(business: Id, outlet: Id, staff: Option<Id>, price: nat, day: int, at: int)

  function WalkInBooking(w: NewWalkIn): Booking {
    Booking(WalkIn, false, BP.Waiting, None, w.business, w.outlet, w.staff, w.at, w.at, [BookingHop(None, BP.Waiting)])
  }

  function CreateWalkIn(db: Db, b: Id, p: Id, e: Id, w: NewWalkIn): (Db, bool) {
    if b in db.bookings || p in db.payments || e in db.entries || HasEntry(db.entries, b) then (db, false)
    else
      var k := QueueKey(w.outlet, w.day);
      var c := Bumped(db.counters, k);
      (db.(bookings := db.bookings[b := WalkInBooking(w)],
           payments := db.payments[p := Payment(b, false, PP.Pending, w.price, None, false, [])],
           counters := db.counters[k := c],
           entries := db.entries[e := NewEntry(b, k, w.staff, c.last, w.at)]),
       true)
  }

  // ---------------------------------------------------------------------
  // Versioned staff commands
  // ---------------------------------------------------------------------

  /** `active` says whether the staff row named by startService may serve. */
  datatype Command =
    | Call | Recall | Skip | ReturnToWaiting
    | StartService(staff: Option<Id>, active: bool) | Complete | MarkNoShow

  datatype CommandOutcome =
    | Done | WrongStatus | VersionConflict | QueueHasCalled | StaffUnavailable
    | TransitionRefused | BookingMissing | Missing

  /** The status each handler demands of the entry it was given. */
  predicate Accepts(c: Command, s: QP.Status) {
    match c
    case Call => s == QP.Waiting
    case Recall => s == QP.Called
    case Skip => s == QP.Called
    case ReturnToWaiting => s == QP.Skipped
    case StartService(_, _) => s == QP.Called
    case Complete => s == QP.InService
    case MarkNoShow => s.Called? || s.Skipped?
  }

  function TargetOf(c: Command): QP.Status {
    match c
    case Call => QP.Called
    case Recall => QP.Called
    case Skip => QP.Skipped
    case ReturnToWaiting => QP.Waiting
    case StartService(_, _) => QP.InService
    case Complete => QP.Completed
    case MarkNoShow => QP.NoShow
  }

  /** Entries that occupy the active queue `k`. */
  function ActiveEntries(entries: map<Id, Entry>, k: QueueKey): set<Id> {
    set e | e in entries && entries[e].queue == k && QP.Active(entries[e].status)
  }

  ghost predicate IsMaxSort(entries: map<Id, Entry>, ids: set<Id>, m: int)
    requires ids <= entries.Keys
  {
    (exists e :: e in ids && entries[e].sortOrder == m) && forall e :: e in ids ==> entries[e].sortOrder <= m
  }

  /** The `_max.sortOrder` aggregate over a non-empty set of rows. */
  ghost function MaxSort(entries: map<Id, Entry>, ids: set<Id>): (m: int)
    requires ids != {} && ids <= entries.Keys
    ensures IsMaxSort(entries, ids, m)
  {
    var x :| x in ids;
    if ids == {x} then entries[x].sortOrder
    else
      var m := MaxSort(entries, ids - {x});
      assert IsMaxSort(entries, ids - {x}, m);
      if entries[x].sortOrder > m then entries[x].sortOrder
      else
        var e :| e in ids - {x} && entries[e].sortOrder == m;
        assert e in ids;
        m
  }

  /** The sort key returnToWaiting writes; every other command leaves the key alone. */
  ghost function SortAfter(db: Db, e: Id, seen: Entry, c: Command): int
    requires e in db.entries
  {
    if c != ReturnToWaiting then db.entries[e].sortOrder
    else if ActiveEntries(db.entries, seen.queue) == {} then seen.sortOrder + 1
    else MaxSort(db.entries, ActiveEntries(db.entries, seen.queue)) + 1
  }

  function StaffFor(seen: Entry, c: Command): Option<Id> {
    if c.StartService? then (if c.staff.Some? then c.staff else seen.staff) else None
  }

  /** A partial unique index of the queue table would refuse the new status. */
  predicate Refused(entries: map<Id, Entry>, e: Id, seen: Entry, c: Command)
  {
    match c
    case Call => exists x :: x in entries && x != e && entries[x].queue == seen.queue && entries[x].status == QP.Called
    case StartService(_, _) =>
      exists x :: x in entries && x != e && entries[x].staff == StaffFor(seen, c) && entries[x].status == QP.InService
    case _ => false
  }

  /** Whether the command's guards let it commit, in the order the handlers check them. */
  function Verdict(db: Db, e: Id, seen: Entry, expected: int, c: Command): CommandOutcome {
    var from := QP.BookingStatusFor(seen.status);
    var to := QP.BookingStatusFor(TargetOf(c));
    if e !in db.entries then Missing
    else if !Accepts(c, seen.status) then WrongStatus
    else if c.StartService? && (StaffFor(seen, c).None? || !c.active) then StaffUnavailable
    else if db.entries[e].version != expected then VersionConflict
    else if Refused(db.entries, e, seen, c) then (if c == Call then QueueHasCalled else StaffUnavailable)
    else if from != to && !BP.CanTransition(from, to) then TransitionRefused
    else if !Mirrored(db.bookings, seen, TargetOf(c)) then BookingMissing
    else Done
  }

  ghost function UpdatedEntry(db: Db, e: Id, seen: Entry, c: Command): Entry
    requires e in db.entries
  {
    var row := db.entries[e];
    row.(status := TargetOf(c), version := row.version + 1,
         staff := if c.StartService? then StaffFor(seen, c) else row.staff,
         sortOrder := SortAfter(db, e, seen, c),
         history := row.history + [QueueHop(Some(seen.status), TargetOf(c))])
  }

  /** There is a booking to move, if one has to be moved. */
  predicate Mirrored(bookings: map<Id, Booking>, seen: Entry, to: QP.Status) {
    QP.BookingStatusFor(seen.status) == QP.BookingStatusFor(to) || seen.booking in bookings
  }

  /** The mirrored booking, moved without a guard from the status the stale entry maps to. */
  function SyncedBookings(bookings: map<Id, Booking>, seen: Entry, to: QP.Status): map<Id, Booking>
    requires Mirrored(bookings, seen, to)
  {
    if QP.BookingStatusFor(seen.status) == QP.BookingStatusFor(to) then bookings
    else bookings[seen.booking :=
                    Moved(bookings[seen.booking], QP.BookingStatusFor(seen.status), QP.BookingStatusFor(to))]
  }

  predicate Releases(c: Command) { c == Complete || c == MarkNoShow }

  ghost function ApplyCommand(db: Db, e: Id, seen: Entry, c: Command): Db
    requires e in db.entries && Mirrored(db.bookings, seen, TargetOf(c))
  {
    db.(entries := db.entries[e := UpdatedEntry(db, e, seen, c)],
        bookings := SyncedBookings(db.bookings, seen, TargetOf(c)),
        reservations := if Releases(c) then Without(db.reservations, seen.booking) else db.reservations)
  }

  /**
   * One versioned command: `seen` is the entry as read before the transaction,
   * `expected` the version the client sent.
   */
  ghost function RunCommand(db: Db, e: Id, seen: Entry, expected: int, c: Command): (Db, CommandOutcome) {
    var v := Verdict(db, e, seen, expected, c);
    (if v == Done then ApplyCommand(db, e, seen, c) else db, v)
  }

  // ---------------------------------------------------------------------
  // Reorder
  // ---------------------------------------------------------------------

  datatype ReorderOutcome = Reordered | QueueVersionConflict | InvalidEntries

  function ReorderableEntries(entries: map<Id, Entry>, k: QueueKey): set<Id> {
    set e | e in entries && entries[e].queue == k && QP.Reorderable(entries[e].status)
  }

  predicate Distinct(ids: seq<Id>) {
    forall i, j :: 0 <= i < j < |ids| ==> ids[i] != ids[j]
  }

  /** The sort keys after writing 1, 2, … to the listed entries in turn. */
  function Renumbered(entries: map<Id, Entry>, ids: seq<Id>): map<Id, Entry>
    requires forall e :: e in ids ==> e in entries
    ensures Renumbered(entries, ids).Keys == entries.Keys
  {
    if ids == [] then entries
    else
      var before := Renumbered(entries, ids[..|ids| - 1]);
      var e := ids[|ids| - 1];
      before[e := before[e].(sortOrder := |ids|)]
  }

  predicate ValidOrder(entries: map<Id, Entry>, k: QueueKey, requested: seq<Id>) {
    && |requested| == |ReorderableEntries(entries, k)|
    && Distinct(requested)
    && forall e :: e in requested ==> e in ReorderableEntries(entries, k)
  }

  function Reorder(db: Db, k: QueueKey, expected: int, requested: seq<Id>): (Db, ReorderOutcome) {
    if k !in db.counters || db.counters[k].version != expected then (db, QueueVersionConflict)
    else if !ValidOrder(db.entries, k, requested) then (db, InvalidEntries)
    else
      (db.(counters := db.counters[k := db.counters[k].(version := expected + 1)],
           entries := Renumbered(db.entries, requested)),
       Reordered)
  }
}
