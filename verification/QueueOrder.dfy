/** The order of an outlet's queue: people ahead, reorder and return to waiting. */
module QueueOrder {
  import opened Rows
  import opened QueueTransactions
  import opened Invariants
  import opened QueueProofs
  import opened Machine
  import opened MachineProofs
  import opened Guarantees
  import QP = QueuePolicy

  // ---------------------------------------------------------------------
  // The order and its listing
  // ---------------------------------------------------------------------

  /** orderBy sortOrder, checkedInAt, queueNumber. */
  predicate Before(a: Entry, b: Entry) {
    || a.sortOrder < b.sortOrder
    || (a.sortOrder == b.sortOrder && a.checkedInAt < b.checkedInAt)
    || (a.sortOrder == b.sortOrder && a.checkedInAt == b.checkedInAt && a.number < b.number)
  }

  /** The query result for the rows `ids`: every row once, in queue order. */
  ghost predicate Lists(entries: map<Id, Entry>, ids: set<Id>, list: seq<Id>) {
    && ids <= entries.Keys
    && (forall i :: 0 <= i < |list| ==> list[i] in ids)
    && (forall x :: x in ids ==> x in list)
    && forall i, j :: 0 <= i < j < |list| ==> Before(entries[list[i]], entries[list[j]])
  }

  ghost predicate Comparable(entries: map<Id, Entry>, ids: set<Id>) {
    ids <= entries.Keys
    && forall d, e :: d in ids && e in ids && d != e ==>
          Before(entries[d], entries[e]) || Before(entries[e], entries[d])
  }

  /** In every reachable state the order is total on a queue, since numbers differ. */
  lemma QueueOrderTotal(es: seq<Event>, k: QueueKey)
    ensures Comparable(Run(es).db.entries, ActiveEntries(Run(es).db.entries, k))
  {
    hide Run, BookingsOk, ReservationsOk, LimitsOk, PaymentsOk, PaymentLinks, EntriesOk, EntryLinks, FlightsOk;
    Reached(es);
  }

  lemma Least(entries: map<Id, Entry>, ids: set<Id>) returns (m: Id)
    requires Comparable(entries, ids) && ids != {}
    ensures m in ids && forall x :: x in ids && x != m ==> Before(entries[m], entries[x])
  {
    m :| m in ids;
    if ids != {m} {
      var n := Least(entries, ids - {m});
      if Before(entries[n], entries[m]) {
        m := n;
      }
    }
  }

  /** A total order can be listed … */
  lemma {:induction false} ListingExists(entries: map<Id, Entry>, ids: set<Id>) returns (list: seq<Id>)
    requires Comparable(entries, ids)
    ensures Lists(entries, ids, list)
    decreases |ids|
  {
    if ids == {} {
      list := [];
    } else {
      var m := Least(entries, ids);
      var rest := ListingExists(entries, ids - {m});
      list := [m] + rest;
      assert forall i :: 0 < i < |list| ==> list[i] == rest[i - 1];
    }
  }

  /** … in one way only. */
  lemma {:induction false} ListingUnique(entries: map<Id, Entry>, ids: set<Id>, a: seq<Id>, b: seq<Id>)
    requires Lists(entries, ids, a) && Lists(entries, ids, b)
    ensures a == b
    decreases |ids|
  {
    if ids == {} {
      assert |a| == 0 && |b| == 0;
    } else {
      var x :| x in ids;
      assert x in a && x in b;
      assert b[0] in a && a[0] in b;
      assert a[0] == b[0];
      assert a == [a[0]] + a[1..] && b == [b[0]] + b[1..];
      ListsTail(entries, ids, a);
      ListsTail(entries, ids, b);
      ListingUnique(entries, ids - {a[0]}, a[1..], b[1..]);
    }
  }

  lemma ListsTail(entries: map<Id, Entry>, ids: set<Id>, a: seq<Id>)
    requires Lists(entries, ids, a) && a != []
    ensures Lists(entries, ids - {a[0]}, a[1..])
  {
    forall x | x in ids - {a[0]} ensures x in a[1..] {
      var i :| 0 <= i < |a| && a[i] == x;
      assert a[1..][i - 1] == x;
    }
    forall i | 0 <= i < |a| - 1 ensures a[1..][i] in ids - {a[0]} {
      assert Before(entries[a[0]], entries[a[i + 1]]);
    }
  }

  // ---------------------------------------------------------------------
  // People ahead (domain/queue-math.ts)
  // ---------------------------------------------------------------------

  datatype QueueRow = QueueRow(id: Id, status: QP.Status)

  function CountAhead(rows: seq<QueueRow>): nat {
    if rows == [] then 0
    else CountAhead(rows[..|rows| - 1]) + if QP.CountsAhead(rows[|rows| - 1].status) then 1 else 0
  }

  /** findIndex: the first position of `target`, or the length when absent. */
  function IndexOf(rows: seq<QueueRow>, target: Id): (i: nat)
    ensures i <= |rows|
    ensures i < |rows| ==> rows[i].id == target
    ensures forall j :: 0 <= j < i ==> rows[j].id != target
  {
    if rows == [] || rows[0].id == target then 0 else 1 + IndexOf(rows[1..], target)
  }

  function PeopleAheadOf(rows: seq<QueueRow>, target: Id): nat {
    var i := IndexOf(rows, target);
    if i == |rows| then 0 else CountAhead(rows[..i])
  }

  ghost function RowsOf(entries: map<Id, Entry>, list: seq<Id>): (rows: seq<QueueRow>)
    requires forall i :: 0 <= i < |list| ==> list[i] in entries
    ensures |rows| == |list|
    ensures forall i :: 0 <= i < |list| ==> rows[i] == QueueRow(list[i], entries[list[i]].status)
  {
    seq(|list|, i requires 0 <= i < |list| => QueueRow(list[i], entries[list[i]].status))
  }

  /** The rows that count as ahead of entry `e`, whatever list they are read from. */
  ghost function AheadOf(entries: map<Id, Entry>, ids: set<Id>, e: Id): set<Id>
    requires ids <= entries.Keys && e in entries
  {
    set x | x in ids && QP.CountsAhead(entries[x].status) && Before(entries[x], entries[e])
  }

  ghost function AheadAmong(entries: map<Id, Entry>, list: seq<Id>): set<Id>
    requires forall i :: 0 <= i < |list| ==> list[i] in entries
  {
    set x | x in list && QP.CountsAhead(entries[x].status)
  }

  lemma {:induction false} CountsDistinct(entries: map<Id, Entry>, list: seq<Id>)
    requires forall i :: 0 <= i < |list| ==> list[i] in entries
    requires Distinct(list)
    ensures CountAhead(RowsOf(entries, list)) == |AheadAmong(entries, list)|
  {
    if list == [] {
      assert AheadAmong(entries, list) == {};
    } else {
      var n := |list| - 1;
      var front, x := list[..n], list[n];
      CountsDistinct(entries, front);
      assert RowsOf(entries, list)[..n] == RowsOf(entries, front);
      AheadMore(entries, list);
      hide AheadAmong, Distinct;
    }
  }

  lemma AheadMore(entries: map<Id, Entry>, list: seq<Id>)
    requires list != [] && Distinct(list) && forall i :: 0 <= i < |list| ==> list[i] in entries
    ensures var front, x := list[..|list| - 1], list[|list| - 1];
            && x !in AheadAmong(entries, front)
            && AheadAmong(entries, list)
               == AheadAmong(entries, front) + (if QP.CountsAhead(entries[x].status) then {x} else {})
  {
    var front, x := list[..|list| - 1], list[|list| - 1];
    assert list == front + [x];
    assert x !in front;
  }

  lemma ListedDistinct(entries: map<Id, Entry>, ids: set<Id>, list: seq<Id>)
    requires Lists(entries, ids, list)
    ensures Distinct(list)
  {
    forall i, j | 0 <= i < j < |list| ensures list[i] != list[j] {
      assert Before(entries[list[i]], entries[list[j]]);
    }
  }

  /** People ahead is the number of counting entries that come before in the order. */
  lemma PeopleAheadCounts(entries: map<Id, Entry>, ids: set<Id>, list: seq<Id>, e: Id)
    requires Lists(entries, ids, list) && e in ids
    ensures PeopleAheadOf(RowsOf(entries, list), e) == |AheadOf(entries, ids, e)|
  {
    ListedDistinct(entries, ids, list);
    var rows := RowsOf(entries, list);
    var j :| 0 <= j < |list| && list[j] == e;
    assert rows[j].id == e;
    var i := IndexOf(rows, e);
    assert rows[i].id == list[i] == e;
    assert rows[..i] == RowsOf(entries, list[..i]);
    CountsDistinct(entries, list[..i]);
    hide Lists, Before, Distinct, AheadAmong, AheadOf;
    AheadListed(entries, ids, list, i);
  }

  /** Those that count before a position of the listing are those ahead of its entry. */
  lemma AheadListed(entries: map<Id, Entry>, ids: set<Id>, list: seq<Id>, i: nat)
    requires Lists(entries, ids, list) && i < |list|
    ensures AheadAmong(entries, list[..i]) == AheadOf(entries, ids, list[i])
  {
    var e, front := list[i], list[..i];
    forall x | x in ids ensures x in front <==> Before(entries[x], entries[e]) {
      var m :| 0 <= m < |list| && list[m] == x;
      if m < i {
        assert front[m] == x;
        assert Before(entries[list[m]], entries[list[i]]);
      } else {
        NotBefore(entries, ids, list, i, m);
        assert x !in front;
      }
    }
    assert forall x :: x in front ==> x in ids;
    hide Lists, Before;
    assert AheadAmong(entries, front) == AheadOf(entries, ids, e);
  }

  /** Nothing from a position on comes before it, and it stands only there. */
  lemma NotBefore(entries: map<Id, Entry>, ids: set<Id>, list: seq<Id>, i: nat, m: nat)
    requires Lists(entries, ids, list) && i <= m < |list|
    ensures !Before(entries[list[m]], entries[list[i]]) && list[m] !in list[..i]
  {
    assert i < m ==> Before(entries[list[i]], entries[list[m]]);
    forall k | 0 <= k < i ensures list[k] != list[m] {
      assert Before(entries[list[k]], entries[list[m]]);
    }
  }

  /** Every count below the total is attained at a counting row. */
  lemma {:induction false} CountAttained(rows: seq<QueueRow>, n: nat) returns (i: nat)
    requires n < CountAhead(rows)
    ensures i < |rows| && QP.CountsAhead(rows[i].status) && CountAhead(rows[..i]) == n
  {
    var last := |rows| - 1;
    if n < CountAhead(rows[..last]) {
      i := CountAttained(rows[..last], n);
      assert rows[..last][..i] == rows[..i];
    } else {
      i := last;
    }
  }

  /**
   * The k entries that count as ahead get the values 0..k-1, each once: a later
   * entry has a larger value, and every value below k is somebody's.
   */
  lemma PeopleAheadPermutes(entries: map<Id, Entry>, ids: set<Id>, list: seq<Id>)
    requires Lists(entries, ids, list)
    ensures var rows := RowsOf(entries, list); var counting := AheadAmong(entries, list);
            && (forall d, e :: d in counting && e in counting && Before(entries[d], entries[e]) ==>
                  PeopleAheadOf(rows, d) < PeopleAheadOf(rows, e))
            && (forall e :: e in counting ==> PeopleAheadOf(rows, e) < |counting|)
            && (forall n {:trigger AheadValue(rows, counting, n)} :: 0 <= n < |counting| ==>
                  AheadValue(rows, counting, n))
  {
    var rows, counting := RowsOf(entries, list), AheadAmong(entries, list);
    forall d, e | d in counting && e in counting && Before(entries[d], entries[e])
      ensures PeopleAheadOf(rows, d) < PeopleAheadOf(rows, e)
    {
      PeopleAheadCounts(entries, ids, list, d);
      PeopleAheadCounts(entries, ids, list, e);
      ProperSubsetSize(AheadOf(entries, ids, d), AheadOf(entries, ids, e), d);
    }
    forall e | e in counting ensures PeopleAheadOf(rows, e) < |counting| {
      PeopleAheadCounts(entries, ids, list, e);
      ProperSubsetSize(AheadOf(entries, ids, e), counting, e);
    }
    ListedDistinct(entries, ids, list);
    CountsDistinct(entries, list);
    forall n {:trigger AheadValue(rows, counting, n)} | 0 <= n < |counting| ensures AheadValue(rows, counting, n) {
      var i := CountAttained(rows, n);
      assert IndexOf(rows, list[i]) == i;
      assert list[i] in counting;
    }
  }

  /** Value `n` is the people-ahead of some counting entry. */
  ghost predicate AheadValue(rows: seq<QueueRow>, counting: set<Id>, n: int) {
    exists e :: e in counting && PeopleAheadOf(rows, e) == n
  }

  lemma ProperSubsetSize(a: set<Id>, b: set<Id>, x: Id)
    requires a <= b && x in b && x !in a
    ensures |a| < |b|
  {
    assert b == (b - a) + a;
    assert x in b - a;
  }

  // ---------------------------------------------------------------------
  // Reorder
  // ---------------------------------------------------------------------

  lemma {:induction false} RenumberedKeys(entries: map<Id, Entry>, ids: seq<Id>)
    requires forall e :: e in ids ==> e in entries
    requires Distinct(ids)
    ensures forall i :: 0 <= i < |ids| ==> Renumbered(entries, ids)[ids[i]].sortOrder == i + 1
    ensures forall x :: x in entries && x !in ids ==> Renumbered(entries, ids)[x] == entries[x]
  {
    if ids != [] {
      var n := |ids| - 1;
      RenumberedKeys(entries, ids[..n]);
      assert ids == ids[..n] + [ids[n]];
      assert forall i :: 0 <= i < n ==> ids[..n][i] == ids[i];
    }
  }

  /** The entries a request names. */
  ghost function Asked(ids: seq<Id>): set<Id> {
    set x | x in ids
  }

  lemma {:induction false} DistinctSize(ids: seq<Id>)
    requires Distinct(ids)
    ensures |Asked(ids)| == |ids|
  {
    if ids != [] {
      var n := |ids| - 1;
      DistinctSize(ids[..n]);
      assert ids == ids[..n] + [ids[n]];
      assert ids[n] !in ids[..n];
      assert Asked(ids) == Asked(ids[..n]) + {ids[n]};
    }
  }

  /**
   * A reorder with the current queue version succeeds exactly for the
   * permutations of the waiting and skipped entries.
   */
  lemma ReorderAcceptsPermutations(db: Db, k: QueueKey, expected: int, requested: seq<Id>)
    ensures Reorder(db, k, expected, requested).1 == Reordered <==>
              && k in db.counters && db.counters[k].version == expected
              && Distinct(requested)
              && Asked(requested) == ReorderableEntries(db.entries, k)
  {
    var asked := Asked(requested);
    var all := ReorderableEntries(db.entries, k);
    if Distinct(requested) {
      DistinctSize(requested);
      if |requested| == |all| && asked <= all {
        SameSize(asked, all);
      }
    }
  }

  lemma SameSize(a: set<Id>, b: set<Id>)
    requires a <= b && |a| == |b|
    ensures a == b
  {
    assert b == a + (b - a);
  }

  /**
   * After a reorder the waiting and skipped entries stand in exactly the
   * requested order, and no other entry has changed.
   */
  lemma ReorderExact(db: Db, k: QueueKey, expected: int, requested: seq<Id>)
    requires Reorder(db, k, expected, requested).1 == Reordered
    ensures var after := Reorder(db, k, expected, requested).0.entries;
            && after.Keys == db.entries.Keys
            && (forall x :: x in db.entries && !(db.entries[x].queue == k && QP.Reorderable(db.entries[x].status)) ==>
                  after[x] == db.entries[x])
            && (forall x :: x in db.entries ==> after[x] == db.entries[x].(sortOrder := after[x].sortOrder))
            && Lists(after, ReorderableEntries(after, k), requested)
  {
    var after := Reorder(db, k, expected, requested).0.entries;
    ReorderAcceptsPermutations(db, k, expected, requested);
    var all := ReorderableEntries(db.entries, k);
    assert forall x :: x in requested <==> x in all;
    RenumberedKeys(db.entries, requested);
    RenumberedOnlySorts(db.entries, requested);
    assert ReorderableEntries(after, k) == all;
    forall i | 0 <= i < |requested| ensures requested[i] in all {
      assert requested[i] in requested;
    }
  }

  /**
   * What a reorder answers and leaves: with the current version and a permutation of the
   * waiting and skipped entries it gives them the sort keys 1, 2, … and advances the version;
   * otherwise it names the first thing wrong and changes nothing.
   */
  lemma ReorderAnswers(db: Db, k: QueueKey, expected: int, requested: seq<Id>)
    ensures var r := Reorder(db, k, expected, requested);
            var current := k in db.counters && db.counters[k].version == expected;
            && (r.1 == QueueVersionConflict <==> !current)
            && (r.1 == InvalidEntries <==> current && !Permutes(db, k, requested))
            && (r.1 == Reordered <==> current && Permutes(db, k, requested))
            && (r.1 != Reordered ==> r.0 == db)
            && (r.1 == Reordered ==>
                  && r.0.entries.Keys == db.entries.Keys
                  && (forall i :: 0 <= i < |requested| ==>
                        requested[i] in db.entries
                        && r.0.entries[requested[i]] == db.entries[requested[i]].(sortOrder := i + 1))
                  && (forall x :: x in db.entries && x !in requested ==> r.0.entries[x] == db.entries[x])
                  && r.0 == db.(entries := r.0.entries,
                                counters := db.counters[k := Counter(db.counters[k].last, expected + 1)]))
  {
    ReorderAcceptsPermutations(db, k, expected, requested);
    hide ValidOrder;
    PermutesAsked(db, k, requested);
    if Reorder(db, k, expected, requested).1 == Reordered {
      assert forall x :: x in requested ==> x in db.entries;
      RenumberedKeys(db.entries, requested);
      RenumberedOnlySorts(db.entries, requested);
      assert forall i :: 0 <= i < |requested| ==> requested[i] in requested;
    }
  }

  /** The request names each waiting and skipped entry of the queue once, and no other. */
  ghost predicate Permutes(db: Db, k: QueueKey, requested: seq<Id>) {
    && (forall i, j :: 0 <= i < j < |requested| ==> requested[i] != requested[j])
    && forall x :: x in requested <==>
         (x in db.entries && db.entries[x].queue == k
          && (db.entries[x].status.Waiting? || db.entries[x].status.Skipped?))
  }

  lemma PermutesAsked(db: Db, k: QueueKey, requested: seq<Id>)
    ensures Permutes(db, k, requested) <==>
            Distinct(requested) && Asked(requested) == ReorderableEntries(db.entries, k)
    ensures Permutes(db, k, requested) ==> forall x :: x in requested ==> x in db.entries
  {
    assert forall x :: x in requested <==> x in Asked(requested);
  }

  // ---------------------------------------------------------------------
  // Return to waiting
  // ---------------------------------------------------------------------

  /** A returned entry stands strictly behind every other active entry of its queue. */
  lemma ReturnGoesLast(db: Db, e: Id, seen: Entry, expected: int, x: Id)
    requires DbOk(db) && CommandReady(db, e, seen, expected)
    requires RunCommand(db, e, seen, expected, ReturnToWaiting).1 == Done
    requires x in ActiveEntries(db.entries, seen.queue) && x != e
    ensures var after := RunCommand(db, e, seen, expected, ReturnToWaiting).0.entries;
            && ActiveEntries(after, seen.queue) == ActiveEntries(db.entries, seen.queue)
            && e in ActiveEntries(after, seen.queue)
            && after[x] == db.entries[x] && after[x].sortOrder < after[e].sortOrder
  {
    hide DbOk;
    GuardFixesEntry(db, e, seen, expected, ReturnToWaiting);
    var after := RunCommand(db, e, seen, expected, ReturnToWaiting).0.entries;
    var active := ActiveEntries(db.entries, seen.queue);
    assert e in active;
    assert IsMaxSort(db.entries, active, MaxSort(db.entries, active));
    assert ActiveEntries(after, seen.queue) == active;
  }

  /** So everyone else who counts is ahead of it. */
  lemma ReturnPeopleAhead(db: Db, e: Id, seen: Entry, expected: int, list: seq<Id>)
    requires DbOk(db) && CommandReady(db, e, seen, expected)
    requires RunCommand(db, e, seen, expected, ReturnToWaiting).1 == Done
    requires var after := RunCommand(db, e, seen, expected, ReturnToWaiting).0.entries;
             Lists(after, ActiveEntries(after, seen.queue), list)
    ensures var after := RunCommand(db, e, seen, expected, ReturnToWaiting).0.entries;
            PeopleAheadOf(RowsOf(after, list), e) == |AheadAmong(after, list) - {e}|
  {
    hide DbOk, RunCommand, CommandReady;
    var after := RunCommand(db, e, seen, expected, ReturnToWaiting).0.entries;
    var ids := ActiveEntries(after, seen.queue);
    ReturnedActive(db, e, seen, expected);
    forall x ensures x in AheadOf(after, ids, e) <==> x in AheadAmong(after, list) - {e} {
      if x in ids && x != e {
        assert x in ActiveEntries(db.entries, seen.queue);
        ReturnGoesLast(db, e, seen, expected, x);
      }
    }
    assert AheadOf(after, ids, e) == AheadAmong(after, list) - {e};
    PeopleAheadCounts(after, ids, list, e);
  }

  lemma ReturnedActive(db: Db, e: Id, seen: Entry, expected: int)
    requires CommandReady(db, e, seen, expected)
    requires RunCommand(db, e, seen, expected, ReturnToWaiting).1 == Done
    ensures var after := RunCommand(db, e, seen, expected, ReturnToWaiting).0.entries;
            e in ActiveEntries(after, seen.queue)
            && ActiveEntries(after, seen.queue) == ActiveEntries(db.entries, seen.queue)
  {
    GuardFixesEntry(db, e, seen, expected, ReturnToWaiting);
  }
}
