/**
 * Times of day and instants of slots.ts. An instant is a count of milliseconds, a date
 * a day number, both from 1970-01-01 UTC.
 */
module TimeOfDay {
  const MINUTE := 60_000
  const DAY := 86_400_000
  const JAKARTA_UTC_OFFSET_MINUTES := 420

  predicate Digit(c: char) { '0' <= c <= '9' }

  /** HH:MM with hours 00 to 23. */
  predicate IsTime(t: string) {
    && |t| == 5 && t[2] == ':'
    && Digit(t[0]) && Digit(t[1]) && Digit(t[3]) && Digit(t[4])
    && (t[0] < '2' || (t[0] == '2' && t[1] < '4')) && t[3] < '6'
  }

  function DigitValue(c: char): (d: int)
    requires Digit(c)
    ensures 0 <= d < 10
  {
    c as int - '0' as int
  }

  function DigitChar(d: int): (c: char)
    requires 0 <= d < 10
    ensures Digit(c) && DigitValue(c) == d
  {
    '0' + d as char
  }

  function ToMinutes(t: string): (m: int)
    requires IsTime(t)
    ensures 0 <= m < 1440
  {
    (DigitValue(t[0]) * 10 + DigitValue(t[1])) * 60 + DigitValue(t[3]) * 10 + DigitValue(t[4])
  }

  function TwoDigits(n: int): string
    requires 0 <= n < 100
  {
    [DigitChar(n / 10), DigitChar(n % 10)]
  }

  function ToTimeString(m: int): string
    requires 0 <= m < 1440
  {
    TwoDigits(m / 60) + ":" + TwoDigits(m % 60)
  }

  lemma TimeStringRoundTrip(m: int)
    requires 0 <= m < 1440
    ensures IsTime(ToTimeString(m)) && ToMinutes(ToTimeString(m)) == m
  {
    var h, n := m / 60, m % 60;
    assert m == h * 60 + n && 0 <= h < 24;
    var t := ToTimeString(m);
    assert t == [DigitChar(h / 10), DigitChar(h % 10), ':', DigitChar(n / 10), DigitChar(n % 10)];
  }

  lemma MinutesRoundTrip(t: string)
    requires IsTime(t)
    ensures ToTimeString(ToMinutes(t)) == t
  {
    var h := DigitValue(t[0]) * 10 + DigitValue(t[1]);
    var n := DigitValue(t[3]) * 10 + DigitValue(t[4]);
    assert 0 <= h < 24 && 0 <= n < 60;
    assert ToMinutes(t) / 60 == h && ToMinutes(t) % 60 == n;
    assert TwoDigits(h) == t[0..2] && TwoDigits(n) == t[3..5];
    assert t == t[0..2] + ":" + t[3..5];
  }

  /** A database time is a time of day on the UTC clock of 1970-01-01. */
  type DbTime = v: int | 0 <= v < DAY

  function TimeToDb(t: string): DbTime
    requires IsTime(t)
  {
    ToMinutes(t) * MINUTE
  }

  function DbTimeToString(v: DbTime): string {
    ClockMinute(v);
    ToTimeString(v / (60 * MINUTE) * 60 + v / MINUTE % 60)
  }

  lemma ClockMinute(v: DbTime)
    ensures 0 <= v / (60 * MINUTE) < 24 && 0 <= v / MINUTE % 60 < 60
    ensures v / (60 * MINUTE) * 60 + v / MINUTE % 60 == v / MINUTE
  {
    assert v / MINUTE / 60 == v / (60 * MINUTE);
  }

  /** The minute of day a stored time is read back as. */
  function MinuteOf(v: DbTime): (m: int)
    ensures m == v / MINUTE && 0 <= m < 1440
  {
    ClockMinute(v);
    TimeStringRoundTrip(v / MINUTE);
    ToMinutes(DbTimeToString(v))
  }

  lemma StoredTimeRoundTrip(m: int)
    requires 0 <= m < 1440
    ensures IsTime(ToTimeString(m)) && MinuteOf(TimeToDb(ToTimeString(m))) == m
  {
    TimeStringRoundTrip(m);
  }

  // ---------------------------------------------------------------------
  // Jakarta wall clock
  // ---------------------------------------------------------------------

  function JakartaDateTime(date: int, minutes: int): int {
    date * DAY - JAKARTA_UTC_OFFSET_MINUTES * MINUTE + minutes * MINUTE
  }

  function JakartaDate(instant: int): int {
    (instant + JAKARTA_UTC_OFFSET_MINUTES * MINUTE) / DAY
  }

  function JakartaMinutesOfDay(instant: int): (m: int)
    ensures 0 <= m < 1440
  {
    var shifted := (instant + JAKARTA_UTC_OFFSET_MINUTES * MINUTE) % DAY;
    shifted / (60 * MINUTE) * 60 + shifted / MINUTE % 60
  }

  /** 0 is Sunday; day 0 was a Thursday. */
  function DayOfWeek(date: int): (day: int)
    ensures 0 <= day < 7
  {
    (date + 4) % 7
  }

  lemma WallClockRoundTrip(date: int, minutes: int)
    requires 0 <= minutes < 1440
    ensures JakartaDate(JakartaDateTime(date, minutes)) == date
    ensures JakartaMinutesOfDay(JakartaDateTime(date, minutes)) == minutes
  {
    var shifted := date * DAY + minutes * MINUTE;
    assert JakartaDateTime(date, minutes) + JAKARTA_UTC_OFFSET_MINUTES * MINUTE == shifted;
    DivideBack(date, minutes * MINUTE);
    assert minutes * MINUTE / MINUTE == minutes;
  }

  lemma DivideBack(q: int, r: int)
    requires 0 <= r < DAY
    ensures (q * DAY + r) / DAY == q && (q * DAY + r) % DAY == r
  {
  }

  /** A whole-minute instant is the wall-clock time it shows in Jakarta. */
  lemma InstantRoundTrip(instant: int)
    requires instant % MINUTE == 0
    ensures JakartaDateTime(JakartaDate(instant), JakartaMinutesOfDay(instant)) == instant
  {
    var s := instant + JAKARTA_UTC_OFFSET_MINUTES * MINUTE;
    var r := s % DAY;
    assert s == (s / DAY) * DAY + r;
    assert r % MINUTE == 0;
    assert r == r / MINUTE * MINUTE;
    assert r / MINUTE / 60 == r / (60 * MINUTE);
  }
}

/** Half-open minute ranges: sorting, covering and the subtraction of slots.ts. */
module Ranges {
  import opened Wrappers

  datatype MinuteRange = MinuteRange(start: int, end: int)

  predicate In(r: MinuteRange, t: int) { r.start <= t < r.end }

  /** The minute lies in one of the ranges. */
  ghost predicate Covered(rs: seq<MinuteRange>, t: int) {
    exists i :: 0 <= i < |rs| && In(rs[i], t)
  }

  /** One range holds all of [start, end). */
  predicate InsideOne(rs: seq<MinuteRange>, start: int, end: int) {
    exists i :: 0 <= i < |rs| && rs[i].start <= start && end <= rs[i].end
  }

  predicate Overlap(a: MinuteRange, b: MinuteRange) {
    a.start < b.end && b.start < a.end
  }

  /** Non-empty ranges no two of which overlap, in any order. */
  ghost predicate Disjoint(rs: seq<MinuteRange>) {
    && (forall i :: 0 <= i < |rs| ==> rs[i].start < rs[i].end)
    && (forall i, j :: 0 <= i < j < |rs| ==> !Overlap(rs[i], rs[j]))
  }

  ghost predicate Ascending(rs: seq<MinuteRange>) {
    forall i, j :: 0 <= i < j < |rs| ==> rs[i].start <= rs[j].start
  }

  /** Non-empty ranges in order, each starting at most `slack` minutes before an earlier one ends. */
  ghost predicate Spaced(rs: seq<MinuteRange>, slack: int) {
    && (forall i :: 0 <= i < |rs| ==> rs[i].start < rs[i].end)
    && (forall i, j :: 0 <= i < j < |rs| ==> rs[i].end <= rs[j].start + slack)
  }

  function Minutes(rs: seq<MinuteRange>): int {
    if rs == [] then 0 else rs[0].end - rs[0].start + Minutes(rs[1..])
  }

  lemma {:induction false} MinutesAppend(a: seq<MinuteRange>, b: seq<MinuteRange>)
    ensures Minutes(a + b) == Minutes(a) + Minutes(b)
  {
    if a == [] {
      assert a + b == b;
    } else {
      MinutesAppend(a[1..], b);
      assert (a + b)[1..] == a[1..] + b;
    }
  }

  // ---------------------------------------------------------------------
  // The stable sort by start
  // ---------------------------------------------------------------------

  function Insert(r: MinuteRange, rs: seq<MinuteRange>): seq<MinuteRange> {
    if rs == [] || r.start <= rs[0].start then [r] + rs else [rs[0]] + Insert(r, rs[1..])
  }

  function Sorted(rs: seq<MinuteRange>): seq<MinuteRange> {
    if rs == [] then [] else Insert(rs[0], Sorted(rs[1..]))
  }

  /** The ranges that start at `t`, in order. */
  function StartingAt(rs: seq<MinuteRange>, t: int): seq<MinuteRange> {
    if rs == [] then [] else (if rs[0].start == t then [rs[0]] else []) + StartingAt(rs[1..], t)
  }

  lemma {:induction false} InsertKeeps(r: MinuteRange, rs: seq<MinuteRange>)
    ensures multiset(Insert(r, rs)) == multiset{r} + multiset(rs)
  {
    if rs != [] && r.start > rs[0].start {
      InsertKeeps(r, rs[1..]);
      assert rs == [rs[0]] + rs[1..];
    }
  }

  lemma {:induction false} InsertSorts(r: MinuteRange, rs: seq<MinuteRange>)
    requires Ascending(rs)
    ensures Ascending(Insert(r, rs)) && multiset(Insert(r, rs)) == multiset{r} + multiset(rs)
  {
    InsertKeeps(r, rs);
    if rs != [] && r.start > rs[0].start {
      var rest, u := rs[1..], Insert(r, rs[1..]);
      assert Insert(r, rs) == [rs[0]] + u;
      hide Insert;
      InsertSorts(r, rest);
      forall j | 0 <= j < |u| ensures rs[0].start <= u[j].start {
        assert u[j] in multiset(u);
        assert u[j] == r || u[j] in rest;
      }
    }
  }

  lemma {:induction false} InsertStable(r: MinuteRange, rs: seq<MinuteRange>, t: int)
    ensures StartingAt(Insert(r, rs), t) == (if r.start == t then [r] else []) + StartingAt(rs, t)
    ensures Minutes(Insert(r, rs)) == r.end - r.start + Minutes(rs)
    decreases |rs|
  {
    var whole := Insert(r, rs);
    if rs == [] || r.start <= rs[0].start {
      assert whole[1..] == rs;
    } else {
      InsertStable(r, rs[1..], t);
      assert whole[1..] == Insert(r, rs[1..]);
    }
  }

  /** Sorting orders by start, and loses and invents nothing. */
  lemma {:induction false} SortedSorts(rs: seq<MinuteRange>)
    ensures Ascending(Sorted(rs)) && multiset(Sorted(rs)) == multiset(rs)
  {
    if rs != [] {
      SortedSorts(rs[1..]);
      InsertSorts(rs[0], Sorted(rs[1..]));
      hide Insert;
      assert rs == [rs[0]] + rs[1..];
    }
  }

  /** Ranges with the same start keep their order, and the total length is the same. */
  lemma {:induction false} SortedStable(rs: seq<MinuteRange>, t: int)
    ensures StartingAt(Sorted(rs), t) == StartingAt(rs, t)
    ensures Minutes(Sorted(rs)) == Minutes(rs)
  {
    if rs != [] {
      SortedStable(rs[1..], t);
      InsertStable(rs[0], Sorted(rs[1..]), t);
    }
  }

  lemma SameElements(a: seq<MinuteRange>, b: seq<MinuteRange>)
    requires multiset(a) == multiset(b)
    ensures forall r :: r in a <==> r in b
    ensures forall t :: Covered(a, t) <==> Covered(b, t)
    ensures |a| == |b|
  {
    forall r ensures r in a <==> r in b {
      assert r in a <==> r in multiset(a);
      assert r in b <==> r in multiset(b);
    }
    forall t ensures Covered(a, t) <==> Covered(b, t) {
      if i :| 0 <= i < |a| && In(a[i], t) {
        assert a[i] in b;
      }
      if i :| 0 <= i < |b| && In(b[i], t) {
        assert b[i] in a;
      }
    }
    assert |a| == |multiset(a)| == |multiset(b)| == |b|;
  }

  lemma {:induction false} InsertSpaced(r: MinuteRange, rs: seq<MinuteRange>)
    requires Spaced(rs, 0) && r.start < r.end && forall i :: 0 <= i < |rs| ==> !Overlap(r, rs[i])
    ensures Spaced(Insert(r, rs), 0) && forall x :: x in Insert(r, rs) ==> x == r || x in rs
  {
    if rs != [] && r.start > rs[0].start {
      InsertSpaced(r, rs[1..]);
      var u := Insert(r, rs[1..]);
      forall j | 0 <= j < |u| ensures rs[0].end <= u[j].start {
        assert u[j] in u;
      }
    }
  }

  /** Ranges that never overlap come out of the sort one after the other. */
  lemma {:induction false} DisjointSorted(rs: seq<MinuteRange>)
    requires Disjoint(rs)
    ensures Spaced(Sorted(rs), 0)
  {
    if rs != [] {
      var rest := Sorted(rs[1..]);
      DisjointSorted(rs[1..]);
      SortedSorts(rs[1..]);
      SameElements(rest, rs[1..]);
      forall i | 0 <= i < |rest| ensures !Overlap(rs[0], rest[i]) {
        assert rest[i] in rs[1..];
      }
      InsertSpaced(rs[0], rest);
    }
  }

  // ---------------------------------------------------------------------
  // Lists with the same ranges in another order
  // ---------------------------------------------------------------------

  lemma Take(a: seq<MinuteRange>, b: seq<MinuteRange>) returns (k: nat)
    requires a != [] && multiset(a) == multiset(b)
    ensures k < |b| && b[k] == a[0] && b == b[..k] + [b[k]] + b[k + 1..]
    ensures multiset(a[1..]) == multiset(b[..k] + b[k + 1..])
  {
    SameElements(a, b);
    assert a[0] in b;
    k :| 0 <= k < |b| && b[k] == a[0];
    hide *;
    TakenOut(b, k);
    TakenOut(a, 0);
    assert a[..0] + a[1..] == a[1..];
  }

  lemma TakenOut(b: seq<MinuteRange>, k: nat)
    requires k < |b|
    ensures b == b[..k] + [b[k]] + b[k + 1..]
    ensures multiset(b[..k] + b[k + 1..]) == multiset(b) - multiset{b[k]}
  {
    var p, q := b[..k], b[k + 1..];
    assert b == p + [b[k]] + q;
    assert multiset(p + [b[k]] + q) == multiset(p) + multiset{b[k]} + multiset(q);
    assert multiset(p + q) == multiset(p) + multiset(q);
  }

  lemma DisjointWithout(b: seq<MinuteRange>, k: nat)
    requires Disjoint(b) && k < |b|
    ensures b[k].start < b[k].end
    ensures var rest := b[..k] + b[k + 1..]; Disjoint(rest) && forall r :: r in rest ==> !Overlap(b[k], r)
  {
    var rest := b[..k] + b[k + 1..];
    assert forall i :: 0 <= i < |rest| ==> rest[i] == b[if i < k then i else i + 1];
  }

  lemma {:induction false} DisjointPermutes(a: seq<MinuteRange>, b: seq<MinuteRange>)
    requires multiset(a) == multiset(b) && Disjoint(b)
    ensures Disjoint(a)
  {
    if a != [] {
      var k := Take(a, b);
      var rest := b[..k] + b[k + 1..];
      DisjointWithout(b, k);
      DisjointPermutes(a[1..], rest);
      SameElements(a[1..], rest);
      hide Disjoint, Overlap, Covered;
      DisjointCons(a);
    }
  }

  lemma DisjointCons(a: seq<MinuteRange>)
    requires a != [] && Disjoint(a[1..]) && a[0].start < a[0].end && forall r :: r in a[1..] ==> !Overlap(a[0], r)
    ensures Disjoint(a)
  {
    assert forall j :: 0 < j < |a| ==> a[j] == a[1..][j - 1];
  }

  lemma {:induction false} MinutesPermutes(a: seq<MinuteRange>, b: seq<MinuteRange>)
    requires multiset(a) == multiset(b)
    ensures Minutes(a) == Minutes(b)
  {
    if a == [] {
      SameElements(a, b);
    } else {
      var k := Take(a, b);
      MinutesPermutes(a[1..], b[..k] + b[k + 1..]);
      MinutesAppend(b[..k], b[k + 1..]);
      MinutesAppend(b[..k] + [b[k]], b[k + 1..]);
      MinutesAppend(b[..k], [b[k]]);
      assert Minutes([b[k]]) == b[k].end - b[k].start;
    }
  }

  lemma InsidePermutes(a: seq<MinuteRange>, b: seq<MinuteRange>, start: int, end: int)
    requires multiset(a) == multiset(b)
    ensures InsideOne(a, start, end) <==> InsideOne(b, start, end)
  {
    SameElements(a, b);
    if i :| 0 <= i < |a| && a[i].start <= start && end <= a[i].end {
      assert a[i] in b;
    }
    if i :| 0 <= i < |b| && b[i].start <= start && end <= b[i].end {
      assert b[i] in a;
    }
  }

  // ---------------------------------------------------------------------
  // Subtraction
  // ---------------------------------------------------------------------

  /** What one cut leaves of one range. */
  function Pieces(r: MinuteRange, cut: MinuteRange): seq<MinuteRange> {
    if cut.end <= r.start || cut.start >= r.end then [r]
    else
      (if cut.start > r.start then [MinuteRange(r.start, cut.start)] else [])
      + (if cut.end < r.end then [MinuteRange(cut.end, r.end)] else [])
  }

  function CutAll(rs: seq<MinuteRange>, cut: MinuteRange): seq<MinuteRange> {
    if rs == [] then [] else Pieces(rs[0], cut) + CutAll(rs[1..], cut)
  }

  function CutEach(rs: seq<MinuteRange>, cuts: seq<MinuteRange>): seq<MinuteRange>
    decreases |cuts|
  {
    if cuts == [] then rs else CutEach(CutAll(rs, cuts[0]), cuts[1..])
  }

  /** subtractRanges. */
  function Subtract(base: seq<MinuteRange>, cuts: seq<MinuteRange>): seq<MinuteRange> {
    CutEach(Sorted(base), cuts)
  }

  lemma {:induction false} CutEachSnoc(rs: seq<MinuteRange>, cuts: seq<MinuteRange>, cut: MinuteRange)
    ensures CutEach(rs, cuts + [cut]) == CutAll(CutEach(rs, cuts), cut)
    decreases |cuts|
  {
    if cuts == [] {
      assert CutEach(rs, [cut]) == CutEach(CutAll(rs, cut), []);
    } else {
      CutEachSnoc(CutAll(rs, cuts[0]), cuts[1..], cut);
      assert (cuts + [cut])[1..] == cuts[1..] + [cut];
    }
  }

  method SubtractRanges(base: seq<MinuteRange>, cuts: seq<MinuteRange>) returns (r: seq<MinuteRange>)
    ensures r == Subtract(base, cuts)
    ensures forall t :: Covered(r, t) <==> Covered(base, t) && !Covered(cuts, t)
  {
    r := Sorted(base);
    for i := 0 to |cuts|
      invariant r == CutEach(Sorted(base), cuts[..i])
    {
      CutEachSnoc(Sorted(base), cuts[..i], cuts[i]);
      assert cuts[..i] + [cuts[i]] == cuts[..i + 1];
      r := CutAll(r, cuts[i]);
    }
    assert cuts[..|cuts|] == cuts;
    forall t ensures Covered(r, t) <==> Covered(base, t) && !Covered(cuts, t) {
      SubtractExact(base, cuts, t);
    }
  }

  lemma CoveredAppend(a: seq<MinuteRange>, b: seq<MinuteRange>, t: int)
    ensures Covered(a + b, t) <==> Covered(a, t) || Covered(b, t)
  {
    if i :| 0 <= i < |a| && In(a[i], t) {
      assert In((a + b)[i], t);
    }
    if i :| 0 <= i < |b| && In(b[i], t) {
      assert In((a + b)[|a| + i], t);
    }
  }

  lemma PiecesExact(r: MinuteRange, cut: MinuteRange, t: int)
    ensures Covered(Pieces(r, cut), t) <==> In(r, t) && !In(cut, t)
  {
    var p := Pieces(r, cut);
    assert |p| > 0 ==> (In(p[0], t) ==> Covered(p, t));
    assert |p| > 1 ==> (In(p[1], t) ==> Covered(p, t));
    assert |p| <= 2;
  }

  lemma {:induction false} CutAllExact(rs: seq<MinuteRange>, cut: MinuteRange, t: int)
    ensures Covered(CutAll(rs, cut), t) <==> Covered(rs, t) && !In(cut, t)
  {
    if rs != [] {
      PiecesExact(rs[0], cut, t);
      CutAllExact(rs[1..], cut, t);
      CoveredAppend(Pieces(rs[0], cut), CutAll(rs[1..], cut), t);
      CoveredAppend([rs[0]], rs[1..], t);
      assert rs == [rs[0]] + rs[1..];
      assert Covered([rs[0]], t) <==> In([rs[0]][0], t);
    }
  }

  lemma {:induction false} CutEachExact(rs: seq<MinuteRange>, cuts: seq<MinuteRange>, t: int)
    ensures Covered(CutEach(rs, cuts), t) <==> Covered(rs, t) && !Covered(cuts, t)
    decreases |cuts|
  {
    if cuts != [] {
      CutAllExact(rs, cuts[0], t);
      CutEachExact(CutAll(rs, cuts[0]), cuts[1..], t);
      CoveredAppend([cuts[0]], cuts[1..], t);
      assert cuts == [cuts[0]] + cuts[1..];
      assert Covered([cuts[0]], t) <==> In([cuts[0]][0], t);
    }
  }

  /** Whatever the ranges, a minute is left exactly when it is in the base and in no cut. */
  lemma SubtractExact(base: seq<MinuteRange>, cuts: seq<MinuteRange>, t: int)
    ensures Covered(Subtract(base, cuts), t) <==> Covered(base, t) && !Covered(cuts, t)
  {
    SortedSorts(base);
    SameElements(Sorted(base), base);
    CutEachExact(Sorted(base), cuts, t);
  }

  // ---------------------------------------------------------------------
  // Order of the result
  // ---------------------------------------------------------------------

  /** Ranges that hold at least a minute, as the database demands of breaks. */
  ghost predicate NonEmpty(rs: seq<MinuteRange>) {
    forall i :: 0 <= i < |rs| ==> rs[i].start < rs[i].end
  }

  /** Everything left is a piece of some range of the list. */
  lemma {:induction false} CutAllFrom(rs: seq<MinuteRange>, cut: MinuteRange, p: MinuteRange) returns (i: nat)
    requires p in CutAll(rs, cut)
    ensures i < |rs| && p in Pieces(rs[i], cut)
  {
    if p in Pieces(rs[0], cut) {
      i := 0;
    } else {
      i := CutAllFrom(rs[1..], cut, p);
      i := i + 1;
    }
  }

  lemma {:induction false} CutAllSpaced(rs: seq<MinuteRange>, cut: MinuteRange, slack: int)
    requires Spaced(rs, slack) && slack >= 0 && cut.start <= cut.end
    ensures Spaced(CutAll(rs, cut), slack)
  {
    if rs != [] {
      var p, q := Pieces(rs[0], cut), CutAll(rs[1..], cut);
      CutAllSpaced(rs[1..], cut, slack);
      forall i | 0 <= i < |q| ensures rs[0].end <= q[i].start + slack {
        assert q[i] in q;
        var k := CutAllFrom(rs[1..], cut, q[i]);
        assert rs[1..][k] == rs[k + 1];
      }
      SpacedAppend(p, q, slack, rs[0].end);
    }
  }

  lemma SpacedAppend(p: seq<MinuteRange>, q: seq<MinuteRange>, slack: int, m: int)
    requires Spaced(p, slack) && Spaced(q, slack)
    requires forall i :: 0 <= i < |p| ==> p[i].end <= m
    requires forall i :: 0 <= i < |q| ==> m <= q[i].start + slack
    ensures Spaced(p + q, slack)
  {
  }

  lemma {:induction false} CutEachSpaced(rs: seq<MinuteRange>, cuts: seq<MinuteRange>, slack: int)
    requires Spaced(rs, slack) && slack >= 0 && NonEmpty(cuts)
    ensures Spaced(CutEach(rs, cuts), slack)
    decreases |cuts|
  {
    if cuts != [] {
      CutAllSpaced(rs, cuts[0], slack);
      CutEachSpaced(CutAll(rs, cuts[0]), cuts[1..], slack);
    }
  }

  /**
   * The pieces of two ranges stay in order when the first reaches at most two minutes past
   * the start of the second: a cut that leaves a later piece of the first also takes the
   * second's first minute.
   */
  lemma PiecesInOrder(r: MinuteRange, s: MinuteRange, cut: MinuteRange, p: MinuteRange, q: MinuteRange)
    requires r.start <= s.start < s.end && r.end <= s.start + 2 && cut.start < cut.end
    requires p in Pieces(r, cut) && q in Pieces(s, cut)
    ensures p.start <= q.start
  {
  }

  lemma {:induction false} CutAllAscending(rs: seq<MinuteRange>, cut: MinuteRange)
    requires Spaced(rs, 2) && Ascending(rs) && cut.start < cut.end
    ensures Ascending(CutAll(rs, cut))
  {
    if rs != [] {
      var p, q := Pieces(rs[0], cut), CutAll(rs[1..], cut);
      CutAllAscending(rs[1..], cut);
      forall i, j | 0 <= i < |p| && 0 <= j < |q| ensures p[i].start <= q[j].start {
        assert q[j] in q;
        var k := CutAllFrom(rs[1..], cut, q[j]);
        assert rs[1..][k] == rs[k + 1];
        PiecesInOrder(rs[0], rs[k + 1], cut, p[i], q[j]);
      }
    }
  }

  lemma {:induction false} CutEachAscending(rs: seq<MinuteRange>, cuts: seq<MinuteRange>)
    requires Spaced(rs, 2) && Ascending(rs) && NonEmpty(cuts)
    ensures Ascending(CutEach(rs, cuts))
    decreases |cuts|
  {
    if cuts != [] {
      CutAllSpaced(rs, cuts[0], 2);
      CutAllAscending(rs, cuts[0]);
      CutEachAscending(CutAll(rs, cuts[0]), cuts[1..]);
    }
  }

  lemma CutAllTwo(
      a: seq<MinuteRange>, x: MinuteRange, b: seq<MinuteRange>, y: MinuteRange, c: seq<MinuteRange>, cut: MinuteRange)
    ensures CutAll(a + [x] + b + [y] + c, cut) ==
            CutAll(a, cut) + Pieces(x, cut) + CutAll(b, cut) + Pieces(y, cut) + CutAll(c, cut)
  {
    CutAllOne(x, cut);
    CutAllOne(y, cut);
    hide CutAll, Pieces;
    CutAllAppend(a + [x] + b + [y], c, cut);
    CutAllAppend(a + [x] + b, [y], cut);
    CutAllAppend(a + [x], b, cut);
    CutAllAppend(a, [x], cut);
  }

  lemma CutAllOne(x: MinuteRange, cut: MinuteRange)
    ensures CutAll([x], cut) == Pieces(x, cut)
  {
    assert [x][1..] == [] && CutAll([], cut) == [];
  }

  lemma SplitTwo(s: seq<MinuteRange>, i: int, j: int)
    requires 0 <= i < j < |s|
    ensures s == s[..i] + [s[i]] + s[i + 1..j] + [s[j]] + s[j + 1..]
  {
  }

  /** A cut of one minute disorders the result when a range reaches three minutes past a later start. */
  lemma DeepOverlapBreaksOrder(s: seq<MinuteRange>, i: int, j: int)
    requires 0 <= i < j < |s| && s[i].start <= s[j].start < s[j].end && s[i].end > s[j].start + 2
    ensures var at := s[j].start + 1; !Ascending(CutAll(s, MinuteRange(at, at + 1)))
  {
    var at := s[j].start + 1;
    var cut := MinuteRange(at, at + 1);
    var p, q := Pieces(s[i], cut), Pieces(s[j], cut);
    assert |p| == 2 && p[1].start == at + 1 && q[0].start < at;
    SplitTwo(s, i, j);
    CutAllTwo(s[..i], s[i], s[i + 1..j], s[j], s[j + 1..], cut);
    hide Pieces, CutAll;
    Positions(CutAll(s[..i], cut), p, CutAll(s[i + 1..j], cut), q, CutAll(s[j + 1..], cut));
  }

  lemma Positions(
      a: seq<MinuteRange>, p: seq<MinuteRange>, b: seq<MinuteRange>, q: seq<MinuteRange>, c: seq<MinuteRange>)
    requires |p| == 2 && q != [] && p[1].start > q[0].start
    ensures !Ascending(a + p + b + q + c)
  {
    var r := a + p + b + q + c;
    assert r[|a| + 1] == p[1] && r[|a| + 2 + |b|] == q[0];
  }

  lemma {:induction false} CutAllAppend(a: seq<MinuteRange>, b: seq<MinuteRange>, cut: MinuteRange)
    ensures CutAll(a + b, cut) == CutAll(a, cut) + CutAll(b, cut)
  {
    if a == [] {
      assert a + b == b && CutAll(a, cut) + CutAll(b, cut) == CutAll(b, cut);
    } else {
      CutAllAppend(a[1..], b, cut);
      assert (a + b)[1..] == a[1..] + b && (a + b)[0] == a[0];
      Regroup(Pieces(a[0], cut), CutAll(a[1..], cut), CutAll(b, cut));
    }
  }

  lemma SpacedStaysSorted(base: seq<MinuteRange>, cuts: seq<MinuteRange>)
    requires Spaced(Sorted(base), 2) && NonEmpty(cuts)
    ensures Ascending(Subtract(base, cuts))
  {
    SortedSorts(base);
    hide Sorted;
    CutEachAscending(Sorted(base), cuts);
  }

  lemma UnspacedIsDisordered(base: seq<MinuteRange>) returns (cuts: seq<MinuteRange>)
    requires NonEmpty(base) && !Spaced(Sorted(base), 2)
    ensures NonEmpty(cuts) && !Ascending(Subtract(base, cuts))
  {
    SortedNonEmpty(base);
    hide Sorted;
    cuts := DisorderingCut(Sorted(base));
  }

  lemma SortedNonEmpty(base: seq<MinuteRange>)
    requires NonEmpty(base)
    ensures NonEmpty(Sorted(base)) && Ascending(Sorted(base))
  {
    SortedSorts(base);
    hide Sorted, Covered, Ascending;
    SameElements(Sorted(base), base);
    NonEmptyMoved(base, Sorted(base));
  }

  lemma DisorderingCut(s: seq<MinuteRange>) returns (cuts: seq<MinuteRange>)
    requires NonEmpty(s) && Ascending(s) && !Spaced(s, 2)
    ensures NonEmpty(cuts) && !Ascending(CutEach(s, cuts))
  {
    hide CutAll, CutEach;
    var i, j :| 0 <= i < j < |s| && s[i].end > s[j].start + 2;
    cuts := [MinuteRange(s[j].start + 1, s[j].start + 2)];
    DeepOverlapBreaksOrder(s, i, j);
    hide Ascending;
    CutEachOne(s, cuts[0]);
  }

  lemma CutEachOne(rs: seq<MinuteRange>, cut: MinuteRange)
    ensures CutEach(rs, [cut]) == CutAll(rs, cut)
  {
    hide CutAll;
    assert [cut][1..] == [];
  }

  /**
   * The comment on subtractRanges promises a sorted result for any base. That holds, for
   * non-empty base ranges and every list of non-empty cuts, exactly when no range reaches
   * three or more minutes past the start of one that starts later.
   */
  lemma SubtractSortedExactly(base: seq<MinuteRange>)
    requires NonEmpty(base)
    ensures (forall cuts :: NonEmpty(cuts) ==> Ascending(Subtract(base, cuts))) <==> Spaced(Sorted(base), 2)
  {
    hide Subtract, Sorted, NonEmpty, Ascending;
    if Spaced(Sorted(base), 2) {
      forall cuts | NonEmpty(cuts) ensures Ascending(Subtract(base, cuts)) {
        SpacedStaysSorted(base, cuts);
      }
    } else {
      var cuts := UnspacedIsDisordered(base);
    }
  }

  /** Taking minute 1 out of 0-3 and 0-1 leaves 0-1, 2-3 and then 0-1. */
  lemma SubtractUnsorted()
    ensures var r := Subtract([MinuteRange(0, 3), MinuteRange(0, 1)], [MinuteRange(1, 2)]);
            r == [MinuteRange(0, 1), MinuteRange(2, 3), MinuteRange(0, 1)] && !Ascending(r)
  {
    var a, b, cut := MinuteRange(0, 3), MinuteRange(0, 1), MinuteRange(1, 2);
    assert Sorted([b]) == [b] && [a, b][1..] == [b] && [b][1..] == [];
    assert Sorted([a, b]) == [a, b];
    CutAllOne(b, cut);
    assert CutAll([a, b], cut) == Pieces(a, cut) + Pieces(b, cut);
    assert CutEach([a, b], [cut]) == CutEach(CutAll([a, b], cut), [cut][1..]);
    var r := Subtract([a, b], [cut]);
    assert r[1].start > r[2].start;
  }

  lemma NonEmptyMoved(a: seq<MinuteRange>, b: seq<MinuteRange>)
    requires NonEmpty(a) && forall r :: r in b ==> r in a
    ensures NonEmpty(b)
  {
    forall i | 0 <= i < |b| ensures b[i].start < b[i].end {
      assert b[i] in b;
    }
  }

  // ---------------------------------------------------------------------
  // Total length
  // ---------------------------------------------------------------------

  ghost predicate EachInside(cuts: seq<MinuteRange>, rs: seq<MinuteRange>) {
    forall i :: 0 <= i < |cuts| ==> InsideOne(rs, cuts[i].start, cuts[i].end)
  }

  /** A cut outside every range changes nothing. */
  lemma {:induction false} CutAllOutside(rs: seq<MinuteRange>, cut: MinuteRange)
    requires forall i :: 0 <= i < |rs| ==> !Overlap(rs[i], cut)
    ensures CutAll(rs, cut) == rs
  {
    if rs != [] {
      CutAllOutside(rs[1..], cut);
      assert rs == [rs[0]] + rs[1..];
    }
  }

  /** A cut inside one of several disjoint ranges touches that one only. */
  lemma CutAllInside(rs: seq<MinuteRange>, cut: MinuteRange, k: int)
    requires Spaced(rs, 0) && cut.start < cut.end
    requires 0 <= k < |rs| && rs[k].start <= cut.start && cut.end <= rs[k].end
    ensures rs == rs[..k] + [rs[k]] + rs[k + 1..]
    ensures CutAll(rs, cut) == rs[..k] + Pieces(rs[k], cut) + rs[k + 1..]
  {
    var a, b := rs[..k], rs[k + 1..];
    CutAllOutside(a, cut);
    CutAllOutside(b, cut);
    CutAllOne(rs[k], cut);
    hide CutAll, Pieces;
    assert rs == a + [rs[k]] + b;
    CutAllAppend(a + [rs[k]], b, cut);
    CutAllAppend(a, [rs[k]], cut);
  }

  lemma PieceMinutes(r: MinuteRange, cut: MinuteRange)
    requires r.start <= cut.start < cut.end <= r.end
    ensures Minutes(Pieces(r, cut)) == Minutes([r]) - (cut.end - cut.start)
  {
    var p := Pieces(r, cut);
    assert Minutes([r]) == r.end - r.start;
    assert p != [] ==> Minutes(p) == p[0].end - p[0].start + Minutes(p[1..]);
    assert |p| == 2 ==> p[1..] == [p[1]] && Minutes([p[1]]) == p[1].end - p[1].start;
  }

  /** It removes its own length. */
  lemma CutAllMinutes(rs: seq<MinuteRange>, cut: MinuteRange)
    requires Spaced(rs, 0) && cut.start < cut.end && InsideOne(rs, cut.start, cut.end)
    ensures Minutes(CutAll(rs, cut)) == Minutes(rs) - (cut.end - cut.start)
  {
    var k :| 0 <= k < |rs| && rs[k].start <= cut.start && cut.end <= rs[k].end;
    CutAllInside(rs, cut, k);
    PieceMinutes(rs[k], cut);
    hide Minutes, Pieces, CutAll;
    MinutesReplaced(rs[..k], [rs[k]], Pieces(rs[k], cut), rs[k + 1..]);
  }

  lemma MinutesReplaced(a: seq<MinuteRange>, x: seq<MinuteRange>, p: seq<MinuteRange>, b: seq<MinuteRange>)
    ensures Minutes(a + p + b) - Minutes(p) == Minutes(a + x + b) - Minutes(x)
  {
    MinutesAppend(a + x, b);
    MinutesAppend(a, x);
    MinutesAppend(a + p, b);
    MinutesAppend(a, p);
  }

  /** Whatever was inside one range and does not overlap the cut still is. */
  lemma StillInside(rs: seq<MinuteRange>, cut: MinuteRange, r: MinuteRange)
    requires Spaced(rs, 0) && cut.start < cut.end && InsideOne(rs, cut.start, cut.end)
    requires InsideOne(rs, r.start, r.end) && r.start < r.end && !Overlap(r, cut)
    ensures InsideOne(CutAll(rs, cut), r.start, r.end)
  {
    var k :| 0 <= k < |rs| && rs[k].start <= cut.start && cut.end <= rs[k].end;
    CutAllInside(rs, cut, k);
    PieceHolds(rs[k], cut, r);
    hide Pieces, CutAll;
    ReplacedInside(rs, k, Pieces(rs[k], cut), r);
  }

  lemma ReplacedInside(rs: seq<MinuteRange>, k: nat, p: seq<MinuteRange>, r: MinuteRange)
    requires k < |rs| && InsideOne(rs, r.start, r.end)
    requires rs[k].start <= r.start && r.end <= rs[k].end ==> InsideOne(p, r.start, r.end)
    ensures InsideOne(rs[..k] + p + rs[k + 1..], r.start, r.end)
  {
    var i :| 0 <= i < |rs| && rs[i].start <= r.start && r.end <= rs[i].end;
    var a, b := rs[..k], rs[k + 1..];
    assert i < k ==> a[i] == rs[i];
    assert i > k ==> b[i - k - 1] == rs[i];
    InsideAppend(a + p, b, r.start, r.end);
    InsideAppend(a, p, r.start, r.end);
  }

  lemma PieceHolds(whole: MinuteRange, cut: MinuteRange, r: MinuteRange)
    requires whole.start <= cut.start < cut.end <= whole.end && r.start < r.end && !Overlap(r, cut)
    ensures whole.start <= r.start && r.end <= whole.end ==> InsideOne(Pieces(whole, cut), r.start, r.end)
  {
    var p := Pieces(whole, cut);
    if whole.start <= r.start && r.end <= whole.end {
      if r.end <= cut.start {
        assert p[0] == MinuteRange(whole.start, cut.start);
      } else {
        assert p[|p| - 1] == MinuteRange(cut.end, whole.end);
      }
    }
  }

  lemma InsideAppend(a: seq<MinuteRange>, b: seq<MinuteRange>, start: int, end: int)
    ensures InsideOne(a + b, start, end) <==> InsideOne(a, start, end) || InsideOne(b, start, end)
  {
    if i :| 0 <= i < |a| && a[i].start <= start && end <= a[i].end {
      assert (a + b)[i] == a[i];
    }
    if i :| 0 <= i < |b| && b[i].start <= start && end <= b[i].end {
      assert (a + b)[|a| + i] == b[i];
    }
  }

  lemma {:induction false} CutEachMinutes(rs: seq<MinuteRange>, cuts: seq<MinuteRange>)
    requires Spaced(rs, 0) && Disjoint(cuts) && EachInside(cuts, rs)
    ensures Minutes(CutEach(rs, cuts)) == Minutes(rs) - Minutes(cuts)
    decreases |cuts|
  {
    if cuts != [] {
      var cut, rest, next := cuts[0], cuts[1..], CutAll(rs, cuts[0]);
      CutAllMinutes(rs, cut);
      CutAllSpaced(rs, cut, 0);
      forall i | 0 <= i < |rest| ensures InsideOne(next, rest[i].start, rest[i].end) {
        assert rest[i] == cuts[i + 1];
        StillInside(rs, cut, rest[i]);
      }
      CutEachMinutes(next, rest);
    }
  }

  /** Disjoint breaks, each inside one of the disjoint periods, in whatever order both are listed. */
  lemma SubtractOfBreaks(periods: seq<MinuteRange>, breaks: seq<MinuteRange>)
    requires Disjoint(periods) && Disjoint(breaks) && EachInside(breaks, periods)
    ensures Spaced(Subtract(periods, breaks), 0)
    ensures Minutes(Subtract(periods, breaks)) == Minutes(periods) - Minutes(breaks)
  {
    DisjointSorted(periods);
    SortedSorts(periods);
    SortedStable(periods, 0);
    SameElements(Sorted(periods), periods);
    forall i | 0 <= i < |breaks| ensures InsideOne(Sorted(periods), breaks[i].start, breaks[i].end) {
      var k :| 0 <= k < |periods| && periods[k].start <= breaks[i].start && breaks[i].end <= periods[k].end;
      assert periods[k] in Sorted(periods);
    }
    CutEachSpaced(Sorted(periods), breaks, 0);
    CutEachMinutes(Sorted(periods), breaks);
  }
}
