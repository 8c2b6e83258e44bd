/**
 * Weekly schedules of schedules.service.ts and slots.ts: validation of typed periods, the
 * rows a staff day is stored as, the ranges read back from them, the slot grid, and the
 * schedule check that bookings.service.ts makes again when a slot is booked.
 */
module Schedules {
  import opened Wrappers
  import opened TimeOfDay
  import opened Ranges

  // ---------------------------------------------------------------------
  // Typed periods
  // ---------------------------------------------------------------------

  datatype Period = Period(start: string, end: string)

  datatype Validated = Accepted(ranges: seq<MinuteRange>) | InvalidPeriod | OverlappingPeriods

  predicate WellFormed(p: Period) {
    IsTime(p.start) && IsTime(p.end) && ToMinutes(p.start) < ToMinutes(p.end)
  }

  predicate AllWellFormed(ps: seq<Period>) {
    forall i :: 0 <= i < |ps| ==> WellFormed(ps[i])
  }

  function RangeOf(p: Period): MinuteRange
    requires WellFormed(p)
  {
    MinuteRange(ToMinutes(p.start), ToMinutes(p.end))
  }

  function RangesOf(ps: seq<Period>): seq<MinuteRange>
    requires AllWellFormed(ps)
  {
    seq(|ps|, i requires 0 <= i < |ps| => RangeOf(ps[i]))
  }

  lemma {:induction false} InsertSpacedOnly(r: MinuteRange, rs: seq<MinuteRange>)
    requires Spaced(Insert(r, rs), 0)
    ensures Spaced(rs, 0) && r.start < r.end && forall i :: 0 <= i < |rs| ==> !Overlap(r, rs[i])
  {
    if rs == [] || r.start <= rs[0].start {
      SpacedSplit(r, rs);
    } else {
      var v := Insert(r, rs[1..]);
      InsertSorted(r, rs[1..]);
      assert Insert(r, rs) == [rs[0]] + v;
      hide Insert;
      SpacedSplit(rs[0], v);
      InsertSpacedOnly(r, rs[1..]);
      forall i | 0 <= i < |rs[1..]| ensures rs[0].end <= rs[1..][i].start {
        assert rs[1..][i] in v;
      }
      assert r in v;
      SpacedCons(rs[0], rs[1..]);
      assert rs == [rs[0]] + rs[1..];
      assert forall i :: 0 < i < |rs| ==> rs[i] == rs[1..][i - 1];
    }
  }

  lemma SpacedSplit(r: MinuteRange, rs: seq<MinuteRange>)
    requires Spaced([r] + rs, 0)
    ensures Spaced(rs, 0) && r.start < r.end && forall i :: 0 <= i < |rs| ==> r.end <= rs[i].start
  {
    var u := [r] + rs;
    assert u[0] == r && forall i :: 0 <= i < |rs| ==> u[i + 1] == rs[i];
  }

  lemma SpacedCons(r: MinuteRange, rs: seq<MinuteRange>)
    requires Spaced(rs, 0) && r.start < r.end && forall i :: 0 <= i < |rs| ==> r.end <= rs[i].start
    ensures Spaced([r] + rs, 0)
  {
  }

  lemma {:induction false} InsertSorted(r: MinuteRange, rs: seq<MinuteRange>)
    ensures forall x :: x in Insert(r, rs) <==> x == r || x in rs
  {
    if rs != [] && r.start > rs[0].start {
      InsertSorted(r, rs[1..]);
      assert rs == [rs[0]] + rs[1..];
    }
  }

  /** Ranges come out of the sort one after the other only if no two of them overlap. */
  lemma {:induction false} SpacedOnlyIfDisjoint(rs: seq<MinuteRange>)
    requires Spaced(Sorted(rs), 0)
    ensures Disjoint(rs)
  {
    if rs != [] {
      var rest := Sorted(rs[1..]);
      InsertSpacedOnly(rs[0], rest);
      SpacedOnlyIfDisjoint(rs[1..]);
      SortedSorts(rs[1..]);
      SameElements(rest, rs[1..]);
      assert forall i :: 0 < i < |rs| ==> rs[i] == rs[1..][i - 1];
      forall j | 0 < j < |rs| ensures !Overlap(rs[0], rs[j]) {
        assert rs[j] in rs[1..];
      }
    }
  }

  /**
   * validatePeriods: rejects a malformed period first, then any overlap; otherwise gives
   * the typed ranges in order.
   */
  method ValidatePeriods(periods: seq<Period>) returns (r: Validated)
    ensures r == InvalidPeriod <==> !AllWellFormed(periods)
    ensures r == OverlappingPeriods <==> AllWellFormed(periods) && !Disjoint(RangesOf(periods))
    ensures r.Accepted? ==> r.ranges == Sorted(RangesOf(periods)) && Spaced(r.ranges, 0)
  {
    var ranges: seq<MinuteRange> := [];
    for i := 0 to |periods|
      invariant AllWellFormed(periods[..i]) && ranges == RangesOf(periods[..i])
    {
      var p := periods[i];
      if !IsTime(p.start) || !IsTime(p.end) || ToMinutes(p.start) >= ToMinutes(p.end) {
        return InvalidPeriod;
      }
      ranges := ranges + [RangeOf(p)];
      assert periods[..i + 1] == periods[..i] + [p];
    }
    assert periods[..|periods|] == periods;
    hide *;
    SortedTyped(periods);
    r := SortAndCheck(ranges);
  }

  /** The sort and the loop over neighbours of validatePeriods. */
  method SortAndCheck(typed: seq<MinuteRange>) returns (r: Validated)
    requires forall i :: 0 <= i < |Sorted(typed)| ==> OfDay(Sorted(typed)[i])
    ensures r == if Disjoint(typed) then Accepted(Sorted(typed)) else OverlappingPeriods
    ensures r.Accepted? ==> Spaced(r.ranges, 0)
  {
    var ranges := Sorted(typed);
    hide Disjoint, Sorted;
    var i := 1;
    while i < |ranges|
      invariant 1 <= i && (i <= |ranges| || |ranges| == 0)
      invariant ranges != [] ==> Spaced(ranges[..i], 0)
    {
      if ranges[i].start < ranges[i - 1].end {
        OverlapFound(typed, i);
        return OverlappingPeriods;
      }
      Extends(ranges[..i], ranges[i]);
      assert ranges[..i + 1] == ranges[..i] + [ranges[i]];
      i := i + 1;
    }
    assert ranges == [] || ranges[..|ranges|] == ranges;
    SpacedOnlyIfDisjoint(typed);
    return Accepted(ranges);
  }

  lemma OverlapFound(typed: seq<MinuteRange>, i: int)
    requires 0 < i < |Sorted(typed)| && Sorted(typed)[i].start < Sorted(typed)[i - 1].end
    ensures !Disjoint(typed)
  {
    if Disjoint(typed) {
      DisjointSorted(typed);
    }
  }

  predicate OfDay(r: MinuteRange) { 0 <= r.start < r.end < 1440 }

  lemma SortedTyped(ps: seq<Period>)
    requires AllWellFormed(ps)
    ensures multiset(Sorted(RangesOf(ps))) == multiset(RangesOf(ps))
    ensures forall i :: 0 <= i < |Sorted(RangesOf(ps))| ==> OfDay(Sorted(RangesOf(ps))[i])
  {
    var s, u := Sorted(RangesOf(ps)), RangesOf(ps);
    SortedSorts(u);
    SameElements(s, u);
    forall i | 0 <= i < |s| ensures OfDay(s[i]) {
      assert s[i] in u;
    }
  }

  lemma Extends(rs: seq<MinuteRange>, r: MinuteRange)
    requires Spaced(rs, 0) && r.start < r.end && (rs != [] ==> rs[|rs| - 1].end <= r.start)
    ensures Spaced(rs + [r], 0)
  {
    assert forall i :: 0 <= i < |rs| - 1 ==> rs[i].end <= rs[|rs| - 1].start;
  }

  // ---------------------------------------------------------------------
  // Stored staff days
  // ---------------------------------------------------------------------

  datatype StaffDay = StaffDay(dayOfWeek: int, isAvailable: bool, periods: seq<Period>, breaks: seq<Period>)

  datatype ScheduleRow = ScheduleRow(
    id: nat, dayOfWeek: int, periodOrder: nat, startsAt: Option<DbTime>, endsAt: Option<DbTime>, isAvailable: bool)

  datatype BreakRow = BreakRow(scheduleId: nat, startsAt: DbTime, endsAt: DbTime)

  predicate DayRow(r: ScheduleRow, day: int) { r.dayOfWeek == day && r.isAvailable }

  predicate Timed(r: ScheduleRow) { r.startsAt.Some? && r.endsAt.Some? }

  function RowRange(r: ScheduleRow): MinuteRange
    requires Timed(r)
  {
    MinuteRange(MinuteOf(r.startsAt.value), MinuteOf(r.endsAt.value))
  }

  function BreakRange(b: BreakRow): MinuteRange {
    MinuteRange(MinuteOf(b.startsAt), MinuteOf(b.endsAt))
  }

  datatype DayResult = Stored | Refused(error: Validated)

  /** What staffRowsOf answers to a typed day. */
  ghost function Verdict(day: StaffDay): DayResult {
    if !day.isAvailable || day.periods == [] then
      if day.periods == [] && day.breaks == [] then Stored else Refused(InvalidPeriod)
    else if !AllWellFormed(day.periods) then Refused(InvalidPeriod)
    else if !Disjoint(RangesOf(day.periods)) then Refused(OverlappingPeriods)
    else if !AllWellFormed(day.breaks) then Refused(InvalidPeriod)
    else if !Disjoint(RangesOf(day.breaks)) then Refused(OverlappingPeriods)
    else if !EachInside(RangesOf(day.breaks), RangesOf(day.periods)) then Refused(InvalidPeriod)
    else Stored
  }

  ghost predicate DistinctIds(rows: seq<ScheduleRow>) {
    forall i, j :: 0 <= i < j < |rows| ==> rows[i].id != rows[j].id
  }

  /** The ranges of the day's rows, as they are read back. */
  function Periods(rows: seq<ScheduleRow>, day: int): seq<MinuteRange> {
    if rows == [] then []
    else RowPeriods(rows[0], day) + Periods(rows[1..], day)
  }

  function RowPeriods(r: ScheduleRow, day: int): seq<MinuteRange> {
    if DayRow(r, day) && Timed(r) then [RowRange(r)] else []
  }

  function BreaksOf(id: nat, breaks: seq<BreakRow>): seq<MinuteRange> {
    if breaks == [] then []
    else (if breaks[0].scheduleId == id then [BreakRange(breaks[0])] else []) + BreaksOf(id, breaks[1..])
  }

  function Cuts(rows: seq<ScheduleRow>, breaks: seq<BreakRow>, day: int): seq<MinuteRange> {
    if rows == [] then []
    else RowCuts(rows[0], breaks, day) + Cuts(rows[1..], breaks, day)
  }

  function RowCuts(r: ScheduleRow, breaks: seq<BreakRow>, day: int): seq<MinuteRange> {
    if DayRow(r, day) then BreaksOf(r.id, breaks) else []
  }

  /** The rows read back as this typed day, in whatever order, whatever they hold for other days. */
  ghost predicate Holds(rows: seq<ScheduleRow>, breaks: seq<BreakRow>, day: StaffDay) {
    && Verdict(day) == Stored && AllWellFormed(day.periods) && AllWellFormed(day.breaks)
    && multiset(Periods(rows, day.dayOfWeek)) == multiset(RangesOf(day.periods))
    && multiset(Cuts(rows, breaks, day.dayOfWeek)) == multiset(RangesOf(day.breaks))
  }

  /** The position of the first range that holds the break, or -1. */
  function FindParent(ranges: seq<MinuteRange>, b: MinuteRange): (k: int)
    ensures -1 <= k < |ranges|
  {
    if ranges == [] then -1
    else if ranges[0].start <= b.start && ranges[0].end >= b.end then 0
    else
      var k := FindParent(ranges[1..], b);
      if k == -1 then -1 else k + 1
  }

  lemma {:induction false} FindParentFinds(ranges: seq<MinuteRange>, b: MinuteRange)
    ensures FindParent(ranges, b) == -1 <==> !InsideOne(ranges, b.start, b.end)
    ensures FindParent(ranges, b) >= 0 ==> ranges[FindParent(ranges, b)].start <= b.start
    ensures FindParent(ranges, b) >= 0 ==> b.end <= ranges[FindParent(ranges, b)].end
  {
    if ranges != [] {
      FindParentFinds(ranges[1..], b);
      InsideAppend([ranges[0]], ranges[1..], b.start, b.end);
      assert ranges == [ranges[0]] + ranges[1..];
      assert InsideOne([ranges[0]], b.start, b.end) <==> [ranges[0]][0].start <= b.start && b.end <= [ranges[0]][0].end;
    }
  }

  function StoredTime(minutes: int): DbTime
    requires 0 <= minutes < 1440
  {
    TimeStringRoundTrip(minutes);
    TimeToDb(ToTimeString(minutes))
  }

  /** A stored range, read back. */
  lemma StoredRangeRoundTrip(r: MinuteRange)
    requires OfDay(r)
    ensures MinuteRange(MinuteOf(StoredTime(r.start)), MinuteOf(StoredTime(r.end))) == r
  {
    StoredTimeRoundTrip(r.start);
    StoredTimeRoundTrip(r.end);
  }

  function NewRows(first: nat, day: int, ranges: seq<MinuteRange>): seq<ScheduleRow>
    requires forall i :: 0 <= i < |ranges| ==> OfDay(ranges[i])
  {
    seq(|ranges|, i requires 0 <= i < |ranges| => NewRow(first, day, i, ranges[i]))
  }

  function NewRow(first: nat, day: int, order: nat, r: MinuteRange): ScheduleRow
    requires OfDay(r)
  {
    ScheduleRow(first + order, day, order, Some(StoredTime(r.start)), Some(StoredTime(r.end)), true)
  }

  /** Rows were added for this day only, and breaks under rows from `first` on only. */
  ghost predicate Grown(
      rows: seq<ScheduleRow>, breaks: seq<BreakRow>, rows': seq<ScheduleRow>, breaks': seq<BreakRow>, day: int,
      first: nat)
  {
    && rows <= rows' && breaks <= breaks'
    && (forall i :: |rows| <= i < |rows'| ==> rows'[i].dayOfWeek == day)
    && (forall b :: |breaks| <= b < |breaks'| ==> breaks'[b].scheduleId >= first)
  }

  /** A day of the week is one of the typed days. */
  predicate Listed(days: seq<StaffDay>, day: int) {
    exists k :: 0 <= k < |days| && days[k].dayOfWeek == day
  }

  predicate UniqueDays(days: seq<StaffDay>) {
    forall i, j :: 0 <= i < j < |days| ==> days[i].dayOfWeek != days[j].dayOfWeek
  }

  datatype WeekResult = DuplicateDay | Checked(result: DayResult)

  /** The answer to the first day that is refused, if any. */
  ghost function FirstRefusal(days: seq<StaffDay>): DayResult {
    if days == [] then Stored
    else if Verdict(days[0]) != Stored then Verdict(days[0])
    else FirstRefusal(days[1..])
  }

  /** The response order: Monday first, Sunday last. */
  const DAY_ORDER: seq<int> := [1, 2, 3, 4, 5, 6, 0]

  /** The row lists a schedule replacement fills before it writes them. */
  class ScheduleLists {
    var schedules: seq<ScheduleRow>
    var breaks: seq<BreakRow>
    var nextId: nat

    ghost predicate Valid()
      reads this
    {
      && DistinctIds(schedules)
      && (forall i :: 0 <= i < |schedules| ==> schedules[i].id < nextId)
      && (forall b :: 0 <= b < |breaks| ==> breaks[b].scheduleId < nextId)
    }

    constructor ()
      ensures Valid() && schedules == [] && breaks == []
    {
      schedules, breaks, nextId := [], [], 0;
    }

    /**
     * The rows of replaceStaffSchedule: every typed day, then an explicit unavailable row for
     * each day that was not typed.
     */
    method FillWeek(days: seq<StaffDay>) returns (r: WeekResult)
      requires Valid() && schedules == [] && breaks == []
      modifies this
      ensures r == if UniqueDays(days) then Checked(FirstRefusal(days)) else DuplicateDay
      ensures r == Checked(Stored) ==> Valid() && schedules != []
      ensures r == Checked(Stored) ==> forall k :: 0 <= k < |days| ==> Holds(schedules, breaks, days[k])
      ensures r == Checked(Stored) ==>
                forall d :: 0 <= d < 7 && !Listed(days, d) ==>
                    Periods(schedules, d) == [] && Cuts(schedules, breaks, d) == []
    {
      hide Holds, Verdict, DistinctIds, Periods, Cuts, Grown;
      if !UniqueDays(days) {
        return DuplicateDay;
      }
      for i := 0 to |days|
        invariant Valid() && |schedules| >= i
        invariant FirstRefusal(days) == FirstRefusal(days[i..])
        invariant forall j :: 0 <= j < |schedules| ==> Listed(days[..i], schedules[j].dayOfWeek)
        invariant forall k :: 0 <= k < i ==> Holds(schedules, breaks, days[k])
      {
        assert forall j :: 0 <= j < |schedules| ==> schedules[j].dayOfWeek != days[i].dayOfWeek;
        var rows, rests, first := schedules, breaks, nextId;
        var stored := AddDay(days[i]);
        if stored != Stored {
          return Checked(stored);
        }
        ListedMore(days, i, rows, rests, schedules, breaks, first);
        forall k | 0 <= k < i ensures Holds(schedules, breaks, days[k]) {
          HoldsGrows(rows, rests, schedules, breaks, days[i].dayOfWeek, first, days[k]);
        }
      }
      assert days[..|days|] == days;
      FillRest(days);
      r := Checked(Stored);
    }

    /** Explicit rows for the days that were not typed. */
    method FillRest(days: seq<StaffDay>)
      requires Valid() && |schedules| >= |days|
      requires forall j :: 0 <= j < |schedules| ==> Listed(days, schedules[j].dayOfWeek)
      requires forall k :: 0 <= k < |days| ==> Holds(schedules, breaks, days[k])
      modifies this
      ensures Valid() && schedules != []
      ensures forall k :: 0 <= k < |days| ==> Holds(schedules, breaks, days[k])
      ensures forall d :: 0 <= d < 7 && !Listed(days, d) ==>
              Periods(schedules, d) == [] && Cuts(schedules, breaks, d) == []
    {
      hide Holds, Verdict, DistinctIds, Periods, Cuts;
      for i := 0 to |DAY_ORDER|
        invariant Valid() && (|days| == 0 && i > 0 ==> |schedules| > 0) && |schedules| >= |days|
        invariant forall j :: 0 <= j < |schedules| ==>
                    Listed(days, schedules[j].dayOfWeek) || schedules[j].dayOfWeek in DAY_ORDER[..i]
        invariant forall k :: 0 <= k < |days| ==> Holds(schedules, breaks, days[k])
        invariant forall d :: d in DAY_ORDER[..i] && !Listed(days, d) ==>
                    Periods(schedules, d) == [] && Cuts(schedules, breaks, d) == []
      {
        var day := DAY_ORDER[i];
        assert DAY_ORDER[..i + 1] == DAY_ORDER[..i] + [day] && day !in DAY_ORDER[..i];
        if !Listed(days, day) {
          var rows, first := schedules, nextId;
          AddUnavailable(day);
          assert Grown(rows, breaks, schedules, breaks, day, first);
          forall k | 0 <= k < |days| ensures Holds(schedules, breaks, days[k]) {
            HoldsGrows(rows, breaks, schedules, breaks, day, first, days[k]);
          }
          forall d | d != day
            ensures Periods(schedules, d) == Periods(rows, d) && Cuts(schedules, breaks, d) == Cuts(rows, breaks, d)
          {
            OtherDayGrows(rows, breaks, schedules, breaks, day, first, d);
          }
        }
      }
      assert forall d :: 0 <= d < 7 ==> d in DAY_ORDER;
      assert DAY_ORDER[..|DAY_ORDER|] == DAY_ORDER;
    }

    /**
     * staffRowsOf. A day that is refused aborts the whole replacement, so the rows it has
     * already pushed are never written.
     */
    method AddDay(day: StaffDay) returns (r: DayResult)
      requires Valid()
      requires forall i :: 0 <= i < |schedules| ==> schedules[i].dayOfWeek != day.dayOfWeek
      modifies this
      ensures Valid() && Grown(old(schedules), old(breaks), schedules, breaks, day.dayOfWeek, old(nextId))
      ensures r == Verdict(day)
      ensures r == Stored ==> Holds(schedules, breaks, day) && |schedules| > |old(schedules)|
    {
      if !day.isAvailable || |day.periods| == 0 {
        if |day.periods| > 0 || |day.breaks| > 0 {
          return Refused(InvalidPeriod);
        }
        AddUnavailable(day.dayOfWeek);
        return Stored;
      }
      var periods := ValidatePeriods(day.periods);
      if !periods.Accepted? {
        return Refused(periods);
      }
      var pauses := ValidatePeriods(day.breaks);
      if !pauses.Accepted? {
        return Refused(pauses);
      }
      hide *;
      SortedTyped(day.periods);
      SortedTyped(day.breaks);
      SortedLength(RangesOf(day.periods));
      var inside := AddPeriods(day.dayOfWeek, periods.ranges, pauses.ranges);
      r := if inside then Stored else Refused(InvalidPeriod);
      DayAnswer(day, schedules, breaks, inside);
    }

    /** The rows of a day whose periods and breaks are valid on their own. */
    method AddPeriods(day: int, ranges: seq<MinuteRange>, pauses: seq<MinuteRange>) returns (inside: bool)
      requires Valid()
      requires forall i :: 0 <= i < |schedules| ==> schedules[i].dayOfWeek != day
      requires forall i :: 0 <= i < |ranges| ==> OfDay(ranges[i])
      requires forall i :: 0 <= i < |pauses| ==> OfDay(pauses[i])
      modifies this
      ensures Valid() && Grown(old(schedules), old(breaks), schedules, breaks, day, old(nextId))
      ensures |schedules| == |old(schedules)| + |ranges|
      ensures inside <==> EachInside(pauses, ranges)
      ensures inside ==> Periods(schedules, day) == ranges && multiset(Cuts(schedules, breaks, day)) == multiset(pauses)
    {
      hide EachInside, DistinctIds, Periods, Cuts;
      var offset := |schedules|;
      AddRows(day, ranges);
      inside := AddBreaks(day, offset, old(nextId), ranges, pauses);
    }

    /** The explicit row of a day without periods. */
    method AddUnavailable(day: int)
      requires Valid()
      requires forall i :: 0 <= i < |schedules| ==> schedules[i].dayOfWeek != day
      modifies this`schedules, this`nextId
      ensures Valid() && schedules == old(schedules) + [ScheduleRow(old(nextId), day, 0, None, None, false)]
      ensures Periods(schedules, day) == [] && Cuts(schedules, breaks, day) == []
    {
      schedules := schedules + [ScheduleRow(nextId, day, 0, None, None, false)];
      nextId := nextId + 1;
      PeriodsNone(schedules, day);
      CutsNone(schedules, breaks, day);
    }

    /** One row for each range. */
    method AddRows(day: int, ranges: seq<MinuteRange>)
      requires Valid() && forall i :: 0 <= i < |ranges| ==> OfDay(ranges[i])
      requires forall i :: 0 <= i < |schedules| ==> schedules[i].dayOfWeek != day
      modifies this`schedules, this`nextId
      ensures Valid() && old(schedules) <= schedules && |schedules| == |old(schedules)| + |ranges|
      ensures forall i :: |old(schedules)| <= i < |schedules| ==>
                DayRow(schedules[i], day) && schedules[i].id >= old(nextId)
      ensures Periods(schedules, day) == ranges && Cuts(schedules, breaks, day) == []
    {
      var rows := NewRows(nextId, day, ranges);
      NewIds(schedules, rows, nextId);
      PeriodsNew(schedules, nextId, day, ranges);
      schedules := schedules + rows;
      nextId := nextId + |rows|;
      CutsNone(schedules, breaks, day);
    }

    /** A row for each break, under the first period that holds it. */
    method AddBreaks(day: int, offset: nat, ghost first: nat, ranges: seq<MinuteRange>, pauses: seq<MinuteRange>)
      returns (inside: bool)
      requires Valid() && Cuts(schedules, breaks, day) == []
      requires |schedules| == offset + |ranges|
      requires forall i :: offset <= i < |schedules| ==> DayRow(schedules[i], day) && schedules[i].id >= first
      requires forall i :: 0 <= i < |pauses| ==> OfDay(pauses[i])
      modifies this`breaks
      ensures Valid() && old(breaks) <= breaks
      ensures forall b :: |old(breaks)| <= b < |breaks| ==> breaks[b].scheduleId >= first
      ensures inside <==> EachInside(pauses, ranges)
      ensures inside ==> multiset(Cuts(schedules, breaks, day)) == multiset(pauses)
    {
      hide Cuts, FindParent, MinuteOf, StoredTime;
      for k := 0 to |pauses|
        invariant Valid() && old(breaks) <= breaks
        invariant forall b :: |old(breaks)| <= b < |breaks| ==> breaks[b].scheduleId >= first
        invariant multiset(Cuts(schedules, breaks, day)) == multiset(pauses[..k])
        invariant EachInside(pauses[..k], ranges)
      {
        var parent := FindParent(ranges, pauses[k]);
        FindParentFinds(ranges, pauses[k]);
        if parent == -1 {
          return false;
        }
        StoredRangeRoundTrip(pauses[k]);
        var b := BreakRow(schedules[offset + parent].id, StoredTime(pauses[k].start), StoredTime(pauses[k].end));
        CutsSnoc(schedules, breaks, b, day, offset + parent);
        breaks := breaks + [b];
        assert pauses[..k + 1] == pauses[..k] + [pauses[k]];
      }
      assert pauses[..|pauses|] == pauses;
      return true;
    }
  }

  /** What the last check of a day decides. */
  lemma DayAnswer(day: StaffDay, rows: seq<ScheduleRow>, breaks: seq<BreakRow>, inside: bool)
    requires day.isAvailable && day.periods != [] && AllWellFormed(day.periods) && AllWellFormed(day.breaks)
    requires Disjoint(RangesOf(day.periods)) && Disjoint(RangesOf(day.breaks))
    requires var ranges, pauses := Sorted(RangesOf(day.periods)), Sorted(RangesOf(day.breaks));
             && (inside <==> EachInside(pauses, ranges))
             && (inside ==> Periods(rows, day.dayOfWeek) == ranges
                            && multiset(Cuts(rows, breaks, day.dayOfWeek)) == multiset(pauses))
    ensures Verdict(day) == if inside then Stored else Refused(InvalidPeriod)
    ensures inside ==> Holds(rows, breaks, day)
  {
    SortedTyped(day.periods);
    SortedTyped(day.breaks);
    InsideSorted(day);
    hide Sorted, RangesOf, WellFormed, Disjoint, Periods, Cuts;
  }

  lemma SortedLength(rs: seq<MinuteRange>)
    ensures |Sorted(rs)| == |rs|
  {
    SortedSorts(rs);
    SameElements(Sorted(rs), rs);
  }

  lemma ListedMore(
      days: seq<StaffDay>, i: nat, rows: seq<ScheduleRow>, breaks: seq<BreakRow>, rows': seq<ScheduleRow>,
      breaks': seq<BreakRow>, first: nat)
    requires i < |days| && Grown(rows, breaks, rows', breaks', days[i].dayOfWeek, first)
    requires forall j :: 0 <= j < |rows| ==> Listed(days[..i], rows[j].dayOfWeek)
    ensures forall j :: 0 <= j < |rows'| ==> Listed(days[..i + 1], rows'[j].dayOfWeek)
  {
    forall j | 0 <= j < |rows'| ensures Listed(days[..i + 1], rows'[j].dayOfWeek) {
      if j < |rows| {
        var k :| 0 <= k < i && days[..i][k].dayOfWeek == rows[j].dayOfWeek;
        assert days[..i + 1][k] == days[k];
      } else {
        assert days[..i + 1][i] == days[i];
      }
    }
  }

  lemma {:induction false} CutsMoreRows(rows: seq<ScheduleRow>, more: seq<ScheduleRow>, breaks: seq<BreakRow>, day: int)
    requires forall i :: 0 <= i < |more| ==> !DayRow(more[i], day)
    ensures Cuts(rows + more, breaks, day) == Cuts(rows, breaks, day)
  {
    if rows == [] {
      assert rows + more == more;
      CutsNone(more, breaks, day);
    } else {
      CutsMoreRows(rows[1..], more, breaks, day);
      assert (rows + more)[1..] == rows[1..] + more && (rows + more)[0] == rows[0];
    }
  }

  lemma {:induction false} CutsMoreBreaks(rows: seq<ScheduleRow>, breaks: seq<BreakRow>, more: seq<BreakRow>, day: int)
    requires forall i, b :: 0 <= i < |rows| && 0 <= b < |more| ==> more[b].scheduleId != rows[i].id
    ensures Cuts(rows, breaks + more, day) == Cuts(rows, breaks, day)
  {
    if more == [] {
      assert breaks + more == breaks;
    } else {
      var n := |more| - 1;
      CutsMoreBreaks(rows, breaks, more[..n], day);
      CutsForeign(rows, breaks + more[..n], more[n], day);
      assert breaks + more == breaks + more[..n] + [more[n]];
    }
  }

  /** Rows added for one day change nothing of what is read back for another. */
  lemma OtherDayGrows(
      rows: seq<ScheduleRow>, breaks: seq<BreakRow>, rows': seq<ScheduleRow>, breaks': seq<BreakRow>, day: int,
      first: nat,
      other: int)
    requires Grown(rows, breaks, rows', breaks', day, first) && other != day
    requires forall i :: 0 <= i < |rows| ==> rows[i].id < first
    ensures Periods(rows', other) == Periods(rows, other) && Cuts(rows', breaks', other) == Cuts(rows, breaks, other)
  {
    var more, rest := rows'[|rows|..], breaks'[|breaks|..];
    assert rows' == rows + more && breaks' == breaks + rest;
    PeriodsAppend(rows, more, other);
    PeriodsNone(more, other);
    assert Periods(rows, other) + [] == Periods(rows, other);
    CutsMoreRows(rows, more, breaks', other);
    CutsMoreBreaks(rows, breaks, rest, other);
  }

  lemma HoldsGrows(
      rows: seq<ScheduleRow>, breaks: seq<BreakRow>, rows': seq<ScheduleRow>, breaks': seq<BreakRow>, day: int,
      first: nat,
      other: StaffDay)
    requires Grown(rows, breaks, rows', breaks', day, first) && other.dayOfWeek != day && Holds(rows, breaks, other)
    requires forall i :: 0 <= i < |rows| ==> rows[i].id < first
    ensures Holds(rows', breaks', other)
  {
    OtherDayGrows(rows, breaks, rows', breaks', day, first, other.dayOfWeek);
  }

  lemma NewIds(others: seq<ScheduleRow>, rows: seq<ScheduleRow>, first: nat)
    requires DistinctIds(others) && forall i :: 0 <= i < |others| ==> others[i].id < first
    requires forall i :: 0 <= i < |rows| ==> rows[i].id == first + i
    ensures DistinctIds(others + rows)
    ensures forall i :: 0 <= i < |others + rows| ==> (others + rows)[i].id < first + |rows|
  {
  }

  /** Every typed break lies inside a typed period exactly when the sorted ones do. */
  lemma InsideSorted(day: StaffDay)
    requires AllWellFormed(day.periods) && AllWellFormed(day.breaks)
    ensures EachInside(RangesOf(day.breaks), RangesOf(day.periods))
            <==> EachInside(Sorted(RangesOf(day.breaks)), Sorted(RangesOf(day.periods)))
  {
    SortedSorts(RangesOf(day.periods));
    SortedSorts(RangesOf(day.breaks));
    hide Sorted, RangesOf, Insert;
    var breaks, periods := RangesOf(day.breaks), RangesOf(day.periods);
    if EachInside(breaks, periods) {
      EachInsidePermutes(breaks, Sorted(breaks), periods, Sorted(periods));
    }
    if EachInside(Sorted(breaks), Sorted(periods)) {
      EachInsidePermutes(Sorted(breaks), breaks, Sorted(periods), periods);
    }
  }

  lemma EachInsidePermutes(a: seq<MinuteRange>, b: seq<MinuteRange>, p: seq<MinuteRange>, q: seq<MinuteRange>)
    requires multiset(a) == multiset(b) && multiset(p) == multiset(q) && EachInside(a, p)
    ensures EachInside(b, q)
  {
    SameElements(a, b);
    forall i | 0 <= i < |b| ensures InsideOne(q, b[i].start, b[i].end) {
      assert b[i] in a;
      InsidePermutes(p, q, b[i].start, b[i].end);
    }
  }

  lemma {:induction false} PeriodsAppend(a: seq<ScheduleRow>, b: seq<ScheduleRow>, day: int)
    ensures Periods(a + b, day) == Periods(a, day) + Periods(b, day)
  {
    hide RowPeriods;
    if a == [] {
      assert a + b == b && Periods(a, day) + Periods(b, day) == Periods(b, day);
    } else {
      PeriodsAppend(a[1..], b, day);
      assert (a + b)[0] == a[0];
      Regroup(RowPeriods(a[0], day), Periods(a[1..], day), Periods(b, day));
      assert (a + b)[1..] == a[1..] + b;
    }
  }

  lemma {:induction false} PeriodsNone(rows: seq<ScheduleRow>, day: int)
    requires forall i :: 0 <= i < |rows| ==> !DayRow(rows[i], day)
    ensures Periods(rows, day) == []
  {
    if rows != [] {
      PeriodsNone(rows[1..], day);
    }
  }

  /** New rows are read back as the ranges they were made from. */
  lemma PeriodsNew(others: seq<ScheduleRow>, first: nat, day: int, ranges: seq<MinuteRange>)
    requires forall i :: 0 <= i < |ranges| ==> OfDay(ranges[i])
    requires forall i :: 0 <= i < |others| ==> others[i].dayOfWeek != day
    ensures Periods(others + NewRows(first, day, ranges), day) == ranges
  {
    var rows := NewRows(first, day, ranges);
    PeriodsAppend(others, rows, day);
    PeriodsNone(others, day);
    forall i | 0 <= i < |rows| ensures DayRow(rows[i], day) && Timed(rows[i]) && RowRange(rows[i]) == ranges[i] {
      StoredRangeRoundTrip(ranges[i]);
    }
    PeriodsAll(rows, day, ranges);
  }

  lemma {:induction false} PeriodsAll(rows: seq<ScheduleRow>, day: int, ranges: seq<MinuteRange>)
    requires |rows| == |ranges|
    requires forall i :: 0 <= i < |rows| ==> DayRow(rows[i], day) && Timed(rows[i]) && RowRange(rows[i]) == ranges[i]
    ensures Periods(rows, day) == ranges
  {
    if rows != [] {
      PeriodsAll(rows[1..], day, ranges[1..]);
    }
  }

  lemma {:induction false} BreaksNone(id: nat, breaks: seq<BreakRow>)
    requires forall b :: 0 <= b < |breaks| ==> breaks[b].scheduleId != id
    ensures BreaksOf(id, breaks) == []
  {
    if breaks != [] {
      BreaksNone(id, breaks[1..]);
    }
  }

  lemma {:induction false} CutsNone(rows: seq<ScheduleRow>, breaks: seq<BreakRow>, day: int)
    requires forall i, b :: 0 <= i < |rows| && DayRow(rows[i], day) && 0 <= b < |breaks| ==>
            breaks[b].scheduleId != rows[i].id
    ensures Cuts(rows, breaks, day) == []
  {
    if rows != [] {
      if DayRow(rows[0], day) {
        BreaksNone(rows[0].id, breaks);
      }
      CutsNone(rows[1..], breaks, day);
    }
  }

  lemma {:induction false} BreaksSnoc(id: nat, breaks: seq<BreakRow>, b: BreakRow)
    ensures BreaksOf(id, breaks + [b]) == BreaksOf(id, breaks) + if b.scheduleId == id then [BreakRange(b)] else []
  {
    if breaks == [] {
      assert breaks + [b] == [b] && [b][1..] == [];
    } else {
      BreaksSnoc(id, breaks[1..], b);
      var here := if breaks[0].scheduleId == id then [BreakRange(breaks[0])] else [];
      Regroup(here, BreaksOf(id, breaks[1..]), if b.scheduleId == id then [BreakRange(b)] else []);
      assert (breaks + [b])[1..] == breaks[1..] + [b];
    }
  }

  lemma {:induction false} CutsForeign(rows: seq<ScheduleRow>, breaks: seq<BreakRow>, b: BreakRow, day: int)
    requires forall i :: 0 <= i < |rows| ==> rows[i].id != b.scheduleId
    ensures Cuts(rows, breaks + [b], day) == Cuts(rows, breaks, day)
  {
    if rows != [] {
      hide BreaksOf;
      BreaksSnoc(rows[0].id, breaks, b);
      assert BreaksOf(rows[0].id, breaks) + [] == BreaksOf(rows[0].id, breaks);
      CutsForeign(rows[1..], breaks, b, day);
    }
  }

  /** A break stored under one of the day's rows is read back once. */
  lemma {:induction false} CutsSnoc(rows: seq<ScheduleRow>, breaks: seq<BreakRow>, b: BreakRow, day: int, i: int)
    requires DistinctIds(rows) && 0 <= i < |rows| && DayRow(rows[i], day) && rows[i].id == b.scheduleId
    ensures multiset(Cuts(rows, breaks + [b], day)) == multiset(Cuts(rows, breaks, day)) + multiset{BreakRange(b)}
  {
    hide BreaksOf;
    BreaksSnoc(rows[0].id, breaks, b);
    if i == 0 {
      CutsForeign(rows[1..], breaks, b, day);
    } else {
      CutsSnoc(rows[1..], breaks, b, day, i - 1);
    }
  }
}
