/**
 * What a customer is offered and what is accepted: the slot grid of slots.ts, the
 * availability query of schedules.service.ts and the checks on a requested time in
 * bookings.service.ts.
 */
module Availability {
  import opened Wrappers
  import opened TimeOfDay
  import opened Ranges
  import opened Schedules

  datatype HourRow = HourRow(dayOfWeek: int, isClosed: bool, opensAt: Option<DbTime>, closesAt: Option<DbTime>)

  datatype Outlet = Outlet(id: string, hours: seq<HourRow>, closed: set<int>)

  datatype Staff = Staff(assignments: seq<string>, schedules: seq<ScheduleRow>, breaks: seq<BreakRow>)

  predicate WithinDay(ps: seq<MinuteRange>) {
    forall i :: 0 <= i < |ps| ==> 0 <= ps[i].start < 1440 && 0 <= ps[i].end < 1440
  }

  /** The opening periods of a weekday. */
  function OutletPeriods(hours: seq<HourRow>, day: int): (ps: seq<MinuteRange>)
    ensures WithinDay(ps)
  {
    if hours == [] then []
    else
      var h := hours[0];
      (if h.dayOfWeek == day && !h.isClosed && h.opensAt.Some? && h.closesAt.Some?
       then [MinuteRange(MinuteOf(h.opensAt.value), MinuteOf(h.closesAt.value))] else [])
      + OutletPeriods(hours[1..], day)
  }

  /** staffAvailabilityRangesOf. */
  function StaffRanges(staff: Staff, outlet: string, day: int, outletPeriods: seq<MinuteRange>): seq<MinuteRange> {
    if staff.assignments != [] && outlet !in staff.assignments then []
    else if staff.schedules == [] then outletPeriods
    else Subtract(Periods(staff.schedules, day), Cuts(staff.schedules, staff.breaks, day))
  }

  ghost predicate OpenRow(h: HourRow, day: int, x: MinuteRange) {
    && h.dayOfWeek == day && !h.isClosed && h.opensAt.Some? && h.closesAt.Some?
    && x.start == h.opensAt.value / MINUTE && x.end == h.closesAt.value / MINUTE
  }

  /** The opening periods of a day are those of its open rows. */
  lemma {:induction false} OutletPeriodsElements(hours: seq<HourRow>, day: int, x: MinuteRange)
    ensures x in OutletPeriods(hours, day) <==> exists i :: 0 <= i < |hours| && OpenRow(hours[i], day, x)
  {
    if hours != [] {
      OutletPeriodsElements(hours[1..], day, x);
      if i :| 0 <= i < |hours[1..]| && OpenRow(hours[1..][i], day, x) {
        assert OpenRow(hours[i + 1], day, x);
      }
      if i :| 0 <= i < |hours| && OpenRow(hours[i], day, x) {
        assert i > 0 ==> OpenRow(hours[1..][i - 1], day, x);
      }
    }
  }

  /**
   * For any staff member a minute is available exactly when the outlet is among the assigned
   * ones or none is, and, with no rows at all, the outlet is open, otherwise the minute is in
   * a period of the day and in no break.
   */
  lemma StaffMinutes(staff: Staff, outlet: string, day: int, outletPeriods: seq<MinuteRange>, t: int)
    ensures Covered(StaffRanges(staff, outlet, day, outletPeriods), t) <==>
            && (|staff.assignments| == 0 || outlet in staff.assignments)
            && (if |staff.schedules| == 0 then Covered(outletPeriods, t)
                else
                  Covered(Periods(staff.schedules, day), t)
                  && !Covered(Cuts(staff.schedules, staff.breaks, day), t))
  {
    SubtractExact(Periods(staff.schedules, day), Cuts(staff.schedules, staff.breaks, day), t);
  }

  /**
   * A staff day that was accepted is offered, whatever order its rows are read in, as
   * ordered ranges that never overlap: the typed periods without the typed breaks, to the
   * minute and in total length.
   */
  lemma SavedDayOffered(staff: Staff, outlet: string, day: StaffDay, outletPeriods: seq<MinuteRange>)
    requires Holds(staff.schedules, staff.breaks, day) && staff.schedules != []
    requires staff.assignments == [] || outlet in staff.assignments
    ensures var offered, periods, breaks :=
              StaffRanges(staff, outlet, day.dayOfWeek, outletPeriods), RangesOf(day.periods), RangesOf(day.breaks);
            && Spaced(offered, 0)
            && Minutes(offered) == Minutes(periods) - Minutes(breaks)
            && forall t :: Covered(offered, t) <==> Covered(periods, t) && !Covered(breaks, t)
  {
    var rows := staff.schedules;
    var periods, breaks := RangesOf(day.periods), RangesOf(day.breaks);
    var p, c := Periods(rows, day.dayOfWeek), Cuts(rows, staff.breaks, day.dayOfWeek);
    DisjointPermutes(p, periods);
    DisjointPermutes(c, breaks);
    EachInsidePermutes(breaks, c, periods, p);
    SubtractOfBreaks(p, c);
    MinutesPermutes(p, periods);
    MinutesPermutes(c, breaks);
    SameElements(p, periods);
    SameElements(c, breaks);
    forall t ensures Covered(Subtract(p, c), t) <==> Covered(periods, t) && !Covered(breaks, t) {
      SubtractExact(p, c, t);
    }
  }

  /** A day that was left out of a configured week offers nothing. */
  lemma UnlistedDayOffersNothing(staff: Staff, outlet: string, day: int, outletPeriods: seq<MinuteRange>)
    requires staff.schedules != [] && Periods(staff.schedules, day) == []
    ensures StaffRanges(staff, outlet, day, outletPeriods) == []
  {
    CutEachNothing(Cuts(staff.schedules, staff.breaks, day));
  }

  lemma {:induction false} CutEachNothing(cuts: seq<MinuteRange>)
    ensures CutEach([], cuts) == []
  {
    if cuts != [] {
      CutEachNothing(cuts[1..]);
    }
  }

  // ---------------------------------------------------------------------
  // The slot grid
  // ---------------------------------------------------------------------

  /** Minutes of a service; the database accepts positive ones only. */
  type Duration = d: int | d > 0 witness 1

  /** Times of a slot as they are printed; the date and the +07:00 offset stand for the rest. */
  datatype Slot = Slot(date: int, startsAt: string, endsAt: string, available: bool)

  predicate LeadOk(date: int, start: int, cutoff: Option<int>) {
    cutoff.None? || JakartaDateTime(date, start) >= cutoff.value
  }

  function SlotAt(date: int, duration: Duration, start: int, staff: seq<MinuteRange>, cutoff: Option<int>): Slot
    requires 0 <= start && 0 < duration && start + duration < 1440
  {
    Slot(date, ToTimeString(start), ToTimeString(start + duration),
         LeadOk(date, start, cutoff) && InsideOne(staff, start, start + duration))
  }

  /** How many whole slots a period holds. */
  function Fits(p: MinuteRange, duration: Duration): nat
  {
    if p.end <= p.start then 0 else (p.end - p.start) / duration
  }

  /** Where the slot after `k` others starts. */
  function StartOf(p: MinuteRange, duration: Duration, k: int): int { p.start + k * duration }

  lemma Starts(p: MinuteRange, duration: Duration, k: int)
    requires k >= 0
    ensures StartOf(p, duration, 0) == p.start && StartOf(p, duration, k) >= p.start
    ensures StartOf(p, duration, k + 1) == StartOf(p, duration, k) + duration
  {
    Scale(0, k, duration);
    assert (k + 1) * duration == k * duration + duration;
  }

  lemma FitsExactly(p: MinuteRange, duration: Duration, k: int)
    requires k >= 0
    ensures k < Fits(p, duration) <==> StartOf(p, duration, k) + duration <= p.end
  {
    var len := p.end - p.start;
    assert k * duration + duration == (k + 1) * duration;
    if len > 0 {
      var q := len / duration;
      assert len == q * duration + len % duration;
      if k < q {
        Scale(k + 1, q, duration);
      } else {
        Scale(q + 1, k + 1, duration);
        assert (q + 1) * duration == q * duration + duration;
      }
    } else {
      Scale(0, k, duration);
    }
  }

  lemma Scale(a: int, b: int, d: int)
    requires a <= b && d > 0
    ensures a * d <= b * d
  {
  }

  /** The slots of one period: its k-th starts k durations after the period. */
  function PeriodSlots(
      date: int, duration: Duration, p: MinuteRange, n: nat, staff: seq<MinuteRange>, cutoff: Option<int>): seq<Slot>
    requires 0 <= p.start && p.end < 1440 && n <= Fits(p, duration)
  {
    seq(n, k requires 0 <= k < n =>
      FitsExactly(p, duration, k);
      Starts(p, duration, k);
      SlotAt(date, duration, StartOf(p, duration, k), staff, cutoff))
  }

  function Grid(
      date: int, duration: Duration, periods: seq<MinuteRange>, staff: seq<MinuteRange>, cutoff: Option<int>): seq<Slot>
    requires WithinDay(periods)
  {
    if periods == [] then []
    else
      PeriodSlots(date, duration, periods[0], Fits(periods[0], duration), staff, cutoff)
      + Grid(date, duration, periods[1..], staff, cutoff)
  }

  lemma SortedWithinDay(ps: seq<MinuteRange>)
    requires WithinDay(ps)
    ensures WithinDay(Sorted(ps))
  {
    SortedSorts(ps);
    SameElements(Sorted(ps), ps);
    forall i | 0 <= i < |Sorted(ps)| ensures 0 <= Sorted(ps)[i].start < 1440 && 0 <= Sorted(ps)[i].end < 1440 {
      assert Sorted(ps)[i] in ps;
    }
  }

  lemma {:induction false} GridAppend(
      date: int, duration: Duration, a: seq<MinuteRange>, b: seq<MinuteRange>, staff: seq<MinuteRange>,
      cutoff: Option<int>)
    requires WithinDay(a) && WithinDay(b)
    ensures WithinDay(a + b)
    ensures Grid(date, duration, a + b, staff, cutoff)
            == Grid(date, duration, a, staff, cutoff) + Grid(date, duration, b, staff, cutoff)
  {
    hide PeriodSlots, Fits, StartOf;
    if a == [] {
      assert a + b == b;
    } else {
      GridAppend(date, duration, a[1..], b, staff, cutoff);
      assert (a + b)[1..] == a[1..] + b && (a + b)[0] == a[0];
    }
  }

  /** buildSlots. */
  method BuildSlots(
      date: int, duration: Duration, outletPeriods: seq<MinuteRange>, staff: seq<MinuteRange>, cutoff: Option<int>)
    returns (slots: seq<Slot>)
    requires WithinDay(outletPeriods)
    ensures WithinDay(Sorted(outletPeriods))
    ensures slots == Grid(date, duration, Sorted(outletPeriods), staff, cutoff)
  {
    SortedWithinDay(outletPeriods);
    var periods := Sorted(outletPeriods);
    hide Sorted, PeriodSlots, Fits, StartOf, SlotAt;
    slots := [];
    for i := 0 to |periods|
      invariant slots == Grid(date, duration, periods[..i], staff, cutoff)
    {
      var p := periods[i];
      var start := p.start;
      ghost var before, k := slots, 0;
      NoSlots(date, duration, p, staff, cutoff);
      Starts(p, duration, 0);
      assert before + [] == before;
      while start + duration <= p.end
        invariant k <= Fits(p, duration) && start == StartOf(p, duration, k) && start >= 0
        invariant slots == before + PeriodSlots(date, duration, p, k, staff, cutoff)
        decreases p.end - start
      {
        NextSlot(date, duration, p, k, staff, cutoff);
        Regroup(before, PeriodSlots(date, duration, p, k, staff, cutoff),
            [SlotAt(date, duration, start, staff, cutoff)]);
        slots := slots + [SlotAt(date, duration, start, staff, cutoff)];
        start := start + duration;
        k := k + 1;
      }
      FitsExactly(p, duration, k);
      NextPeriod(date, duration, periods, i, staff, cutoff);
    }
    assert periods[..|periods|] == periods;
  }

  lemma NoSlots(date: int, duration: Duration, p: MinuteRange, staff: seq<MinuteRange>, cutoff: Option<int>)
    requires 0 <= p.start && p.end < 1440
    ensures PeriodSlots(date, duration, p, 0, staff, cutoff) == []
  {
  }

  lemma NextSlot(date: int, duration: Duration, p: MinuteRange, k: nat, staff: seq<MinuteRange>, cutoff: Option<int>)
    requires 0 <= p.start && p.end < 1440 && StartOf(p, duration, k) + duration <= p.end
    ensures k + 1 <= Fits(p, duration) && StartOf(p, duration, k + 1) == StartOf(p, duration, k) + duration
    ensures StartOf(p, duration, k) >= 0
    ensures PeriodSlots(date, duration, p, k + 1, staff, cutoff)
            == PeriodSlots(date, duration, p, k, staff, cutoff)
               + [SlotAt(date, duration, StartOf(p, duration, k), staff, cutoff)]
  {
    FitsExactly(p, duration, k);
    Starts(p, duration, k);
    hide Fits, StartOf, SlotAt;
    assert PeriodSlots(date, duration, p, k + 1, staff, cutoff)[..k]
        == PeriodSlots(date, duration, p, k, staff, cutoff);
  }

  lemma NextPeriod(
      date: int, duration: Duration, periods: seq<MinuteRange>, i: nat, staff: seq<MinuteRange>, cutoff: Option<int>)
    requires WithinDay(periods) && i < |periods|
    ensures Grid(date, duration, periods[..i + 1], staff, cutoff)
            == Grid(date, duration, periods[..i], staff, cutoff)
               + PeriodSlots(date, duration, periods[i], Fits(periods[i], duration), staff, cutoff)
  {
    hide PeriodSlots, Fits;
    GridAppend(date, duration, periods[..i], [periods[i]], staff, cutoff);
    assert periods[..i] + [periods[i]] == periods[..i + 1];
    assert [periods[i]][1..] == [];
    var last := PeriodSlots(date, duration, periods[i], Fits(periods[i], duration), staff, cutoff);
    assert last + [] == last;
  }

  /** One service of one staff member at an outlet, with the business's lead time and horizon. */
  datatype Shop = Shop(outlet: Outlet, staff: Staff, duration: Duration, lead: nat, maximumAdvance: nat)

  // ---------------------------------------------------------------------
  // Offering and booking
  // ---------------------------------------------------------------------

  function StaffAvailability(shop: Shop, date: int): seq<MinuteRange> {
    var day := DayOfWeek(date);
    StaffRanges(shop.staff, shop.outlet.id, day, OutletPeriods(shop.outlet.hours, day))
  }

  function LeadCutoff(shop: Shop, date: int, now: int): Option<int> {
    if date == JakartaDate(now) then Some(now + shop.lead * MINUTE) else None
  }

  /** What getAvailability answers: nothing when the date is out of range, no slots when it is closed. */
  function Offered(shop: Shop, date: int, now: int): Option<seq<Slot>> {
    if date < JakartaDate(now) || date > JakartaDate(now) + shop.maximumAdvance then None
    else if date in shop.outlet.closed then Some([])
    else
      var periods := OutletPeriods(shop.outlet.hours, DayOfWeek(date));
      SortedWithinDay(periods);
      Some(Grid(date, shop.duration, Sorted(periods), StaffAvailability(shop, date), LeadCutoff(shop, date, now)))
  }

  lemma OfferedIs(shop: Shop, date: int, now: int)
    ensures var periods := OutletPeriods(shop.outlet.hours, DayOfWeek(date));
            && WithinDay(Sorted(periods))
            && Offered(shop, date, now) ==
               if date < JakartaDate(now) || date > JakartaDate(now) + shop.maximumAdvance then None
               else if date in shop.outlet.closed then Some([])
               else Some(Grid(date, shop.duration, Sorted(periods), StaffAvailability(shop, date),
                   LeadCutoff(shop, date, now)))
  {
    SortedWithinDay(OutletPeriods(shop.outlet.hours, DayOfWeek(date)));
  }

  /** The schedule part of getAvailability. */
  method GetAvailability(shop: Shop, date: int, now: int) returns (r: Option<seq<Slot>>)
    ensures r == Offered(shop, date, now)
  {
    OfferedIs(shop, date, now);
    var today := JakartaDate(now);
    var day := DayOfWeek(date);
    var cutoff := if date == today then Some(now + shop.lead * MINUTE) else None;
    assert cutoff == LeadCutoff(shop, date, now);
    var outletPeriods := OutletPeriods(shop.outlet.hours, day);
    var staffRanges := StaffRanges(shop.staff, shop.outlet.id, day, outletPeriods);
    assert staffRanges == StaffAvailability(shop, date);
    hide *;
    if date < today || date > today + shop.maximumAdvance {
      return None;
    }
    var slots: seq<Slot> := [];
    if date !in shop.outlet.closed {
      slots := BuildSlots(date, shop.duration, outletPeriods, staffRanges, cutoff);
    }
    return Some(slots);
  }

  /** assertSlotWithinSchedules. */
  predicate WithinSchedules(shop: Shop, businessDate: int, scheduledAt: int, endsAt: int) {
    businessDate !in shop.outlet.closed &&
    var day := DayOfWeek(businessDate);
    var outletPeriods := OutletPeriods(shop.outlet.hours, day);
    var start := JakartaMinutesOfDay(scheduledAt);
    var end := start + (endsAt - scheduledAt) / MINUTE;
    InsideOne(outletPeriods, start, end)
        && InsideOne(StaffRanges(shop.staff, shop.outlet.id, day, outletPeriods), start, end)
  }

  datatype TimeCheck = Bookable | DateInPast | LeadTimeNotMet | HorizonExceeded | SlotUnavailable

  /** The checks createBookingRun makes on the requested instant before its transaction. */
  function CheckTime(shop: Shop, requested: int, now: int): TimeCheck
  {
    var at := requested / MINUTE * MINUTE;
    var businessDate := JakartaDate(at);
    if at <= now then DateInPast
    else if at < now + shop.lead * MINUTE then LeadTimeNotMet
    else if businessDate > JakartaDate(now) + shop.maximumAdvance then HorizonExceeded
    else if !WithinSchedules(shop, businessDate, at, at + shop.duration * MINUTE) then SlotUnavailable
    else Bookable
  }

  /** A start on the grid: some opening period holds whole slots up to and including this one. */
  ghost predicate OnGrid(periods: seq<MinuteRange>, duration: Duration, start: int) {
    exists i, k :: InGrid(periods, duration, start, i, k)
  }

  predicate InGrid(periods: seq<MinuteRange>, duration: Duration, start: int, i: int, k: int) {
    0 <= i < |periods| && 0 <= k && start == StartOf(periods[i], duration, k) && start + duration <= periods[i].end
  }

  /** The instant a client gets back when it parses the printed start of a slot. */
  function Parsed(s: Slot): int
    requires IsTime(s.startsAt)
  {
    JakartaDateTime(s.date, ToMinutes(s.startsAt))
  }

  /** The slot starts on the grid of these periods. */
  ghost predicate Placed(
      date: int, duration: Duration, periods: seq<MinuteRange>, staff: seq<MinuteRange>, cutoff: Option<int>, s: Slot,
      start: int)
  {
    && OnGrid(periods, duration, start) && 0 <= start && start + duration < 1440
    && s == SlotAt(date, duration, start, staff, cutoff)
  }

  lemma InGridBounds(periods: seq<MinuteRange>, duration: Duration, start: int)
    requires WithinDay(periods) && OnGrid(periods, duration, start)
    ensures 0 <= start && start + duration < 1440
  {
    var i, k :| InGrid(periods, duration, start, i, k);
    Starts(periods[i], duration, k);
  }

  lemma OnGridTail(periods: seq<MinuteRange>, duration: Duration, start: int)
    requires periods != []
    ensures OnGrid(periods, duration, start) <==>
            OnGrid(periods[1..], duration, start)
            || exists k :: 0 <= k < Fits(periods[0], duration) && start == StartOf(periods[0], duration, k)
  {
    var tail := periods[1..];
    hide Fits, StartOf;
    if i, k :| InGrid(periods, duration, start, i, k) {
      if i > 0 {
        assert InGrid(tail, duration, start, i - 1, k);
      } else {
        FitsExactly(periods[0], duration, k);
      }
    }
    if i, k :| InGrid(tail, duration, start, i, k) {
      assert InGrid(periods, duration, start, i + 1, k);
    }
    if k :| 0 <= k < Fits(periods[0], duration) && start == StartOf(periods[0], duration, k) {
      FitsExactly(periods[0], duration, k);
      assert InGrid(periods, duration, start, 0, k);
    }
  }

  lemma PeriodElements(
      date: int, duration: Duration, p: MinuteRange, staff: seq<MinuteRange>, cutoff: Option<int>, s: Slot)
    requires 0 <= p.start && p.end < 1440
    ensures s in PeriodSlots(date, duration, p, Fits(p, duration), staff, cutoff) <==>
            exists k :: 0 <= k < Fits(p, duration) && 0 <= StartOf(p, duration, k)
                && StartOf(p, duration, k) + duration < 1440
                        && s == SlotAt(date, duration, StartOf(p, duration, k), staff, cutoff)
  {
    var slots := PeriodSlots(date, duration, p, Fits(p, duration), staff, cutoff);
    forall k | 0 <= k < Fits(p, duration)
      ensures 0 <= StartOf(p, duration, k) && StartOf(p, duration, k) + duration < 1440
      ensures slots[k] == SlotAt(date, duration, StartOf(p, duration, k), staff, cutoff)
    {
      FitsExactly(p, duration, k);
      Starts(p, duration, k);
    }
  }

  /** The grid holds exactly the slots that start on it. */
  lemma {:induction false} GridElements(
      date: int, duration: Duration, periods: seq<MinuteRange>, staff: seq<MinuteRange>, cutoff: Option<int>, s: Slot)
    requires WithinDay(periods)
    ensures s in Grid(date, duration, periods, staff, cutoff) <==>
            exists start :: Placed(date, duration, periods, staff, cutoff, s, start)
  {
    if periods == [] {
      forall start ensures !OnGrid(periods, duration, start) {
      }
    } else {
      var p, n, tail := periods[0], Fits(periods[0], duration), periods[1..];
      GridElements(date, duration, tail, staff, cutoff, s);
      PeriodElements(date, duration, p, staff, cutoff, s);
      forall start
        ensures OnGrid(periods, duration, start) <==>
                (OnGrid(tail, duration, start) || exists k :: 0 <= k < n && start == StartOf(p, duration, k))
      {
        OnGridTail(periods, duration, start);
      }
      hide PeriodSlots, Fits, StartOf, SlotAt, OnGrid;
      if start :| Placed(date, duration, tail, staff, cutoff, s, start) {
        assert Placed(date, duration, periods, staff, cutoff, s, start);
      }
      if start :| Placed(date, duration, periods, staff, cutoff, s, start) {
        if OnGrid(tail, duration, start) {
          assert Placed(date, duration, tail, staff, cutoff, s, start);
        }
      }
      if k :| 0 <= k < n && 0 <= StartOf(p, duration, k) && StartOf(p, duration, k) + duration < 1440
              && s == SlotAt(date, duration, StartOf(p, duration, k), staff, cutoff) {
        assert Placed(date, duration, periods, staff, cutoff, s, StartOf(p, duration, k));
      }
    }
  }

  /** Slots of the given length, each over before the next one starts. */
  ghost predicate InOrder(slots: seq<Slot>, duration: Duration) {
    && (forall i :: 0 <= i < |slots| ==>
          && IsTime(slots[i].startsAt) && IsTime(slots[i].endsAt)
          && ToMinutes(slots[i].endsAt) == ToMinutes(slots[i].startsAt) + duration)
    && (forall i, j :: 0 <= i < j < |slots| ==> ToMinutes(slots[i].endsAt) <= ToMinutes(slots[j].startsAt))
  }

  /** Slots that lie between two minutes of the day. */
  ghost predicate Between(slots: seq<Slot>, from: int, to: int) {
    forall i :: 0 <= i < |slots| ==>
      && IsTime(slots[i].startsAt) && IsTime(slots[i].endsAt)
      && from <= ToMinutes(slots[i].startsAt) && ToMinutes(slots[i].endsAt) <= to
  }

  lemma InOrderAppend(a: seq<Slot>, b: seq<Slot>, duration: Duration, from: int, at: int, to: int)
    requires InOrder(a, duration) && InOrder(b, duration) && Between(a, from, at) && Between(b, at, to)
            && from <= at <= to
    ensures InOrder(a + b, duration) && Between(a + b, from, to)
  {
    forall i, j | 0 <= i < j < |a + b| ensures ToMinutes((a + b)[i].endsAt) <= ToMinutes((a + b)[j].startsAt) {
    }
  }

  lemma {:induction false} PeriodInOrder(
      date: int, duration: Duration, p: MinuteRange, n: nat, staff: seq<MinuteRange>, cutoff: Option<int>)
    requires 0 <= p.start && p.end < 1440 && n <= Fits(p, duration)
    ensures var slots := PeriodSlots(date, duration, p, n, staff, cutoff);
            InOrder(slots, duration) && Between(slots, p.start, StartOf(p, duration, n))
  {
    if n > 0 {
      var k := n - 1;
      PeriodInOrder(date, duration, p, k, staff, cutoff);
      FitsExactly(p, duration, k);
      NextSlot(date, duration, p, k, staff, cutoff);
      Starts(p, duration, k);
      var start := StartOf(p, duration, k);
      TimeStringRoundTrip(start);
      TimeStringRoundTrip(start + duration);
      hide PeriodSlots, Fits, StartOf, ToTimeString, IsTime;
      InOrderAppend(PeriodSlots(date, duration, p, k, staff, cutoff), [SlotAt(date, duration, start, staff, cutoff)],
                    duration, p.start, start, start + duration);
    }
  }

  /** Periods that do not overlap give slots that do not overlap, in order of time. */
  lemma {:induction false} GridInOrder(
      date: int, duration: Duration, periods: seq<MinuteRange>, staff: seq<MinuteRange>, cutoff: Option<int>, from: int)
    requires WithinDay(periods) && Spaced(periods, 0)
    requires from < 1440 && forall i :: 0 <= i < |periods| ==> from <= periods[i].start
    ensures var slots := Grid(date, duration, periods, staff, cutoff);
            InOrder(slots, duration) && Between(slots, from, 1440)
  {
    if periods != [] {
      var p, n := periods[0], Fits(periods[0], duration);
      assert forall i :: 0 < i < |periods| ==> p.end <= periods[i].start;
      GridInOrder(date, duration, periods[1..], staff, cutoff, p.end);
      PeriodInOrder(date, duration, p, n, staff, cutoff);
      if n > 0 {
        FitsExactly(p, duration, n - 1);
        Starts(p, duration, n - 1);
      } else {
        Starts(p, duration, 0);
      }
      var slots := PeriodSlots(date, duration, p, n, staff, cutoff);
      assert StartOf(p, duration, n) <= p.end;
      hide PeriodSlots, Fits, StartOf, ToTimeString, IsTime;
      InOrderAppend(slots, Grid(date, duration, periods[1..], staff, cutoff), duration, from, p.end, 1440);
    }
  }

  /** The slots of a day with valid opening periods, in any row order, are disjoint and increase. */
  lemma SlotsInOrder(shop: Shop, date: int, now: int)
    requires Disjoint(OutletPeriods(shop.outlet.hours, DayOfWeek(date)))
    ensures var r := Offered(shop, date, now);
            r.Some? ==> InOrder(r.value, shop.duration)
  {
    var periods := OutletPeriods(shop.outlet.hours, DayOfWeek(date));
    SortedWithinDay(periods);
    DisjointSorted(periods);
    GridInOrder(date, shop.duration, Sorted(periods), StaffAvailability(shop, date), LeadCutoff(shop, date, now), 0);
  }

  // ---------------------------------------------------------------------
  // What is offered is what is accepted
  // ---------------------------------------------------------------------

  lemma OnGridPermutes(a: seq<MinuteRange>, b: seq<MinuteRange>, duration: Duration, start: int)
    requires multiset(a) == multiset(b) && OnGrid(a, duration, start)
    ensures OnGrid(b, duration, start)
  {
    SameElements(a, b);
    var i, k :| InGrid(a, duration, start, i, k);
    assert a[i] in b;
    var j :| 0 <= j < |b| && b[j] == a[i];
    assert InGrid(b, duration, start, j, k);
  }

  /** A slot on the grid lies in an opening period. */
  lemma OnGridInside(periods: seq<MinuteRange>, duration: Duration, start: int)
    requires OnGrid(periods, duration, start)
    ensures InsideOne(periods, start, start + duration)
  {
    var i, k :| InGrid(periods, duration, start, i, k);
    Starts(periods[i], duration, k);
  }

  /** The check at booking, seen from a wall-clock time: it reads back the same date and minutes. */
  lemma ChecksWallClock(shop: Shop, date: int, start: int)
    requires 0 <= start < 1440
    ensures var at := JakartaDateTime(date, start);
            JakartaDate(at) == date && at / MINUTE * MINUTE == at &&
            (WithinSchedules(shop, date, at, at + shop.duration * MINUTE) <==>
             && date !in shop.outlet.closed
             && InsideOne(OutletPeriods(shop.outlet.hours, DayOfWeek(date)), start, start + shop.duration)
             && InsideOne(StaffAvailability(shop, date), start, start + shop.duration))
  {
    var at := JakartaDateTime(date, start);
    WallClockRoundTrip(date, start);
    assert at == (date * 1440 - JAKARTA_UTC_OFFSET_MINUTES + start) * MINUTE;
    assert (at + shop.duration * MINUTE - at) / MINUTE == shop.duration;
  }

  /** Some offered slot starts at this instant and is shown available. */
  ghost predicate ShownAvailable(slots: seq<Slot>, at: int) {
    exists s :: s in slots && IsTime(s.startsAt) && Parsed(s) == at && s.available
  }

  /** A date in range offers the slots that start on the grid of its opening periods, none when closed. */
  lemma OfferedElements(shop: Shop, date: int, s: Slot, now: int)
    requires Offered(shop, date, now).Some?
    ensures var periods := OutletPeriods(shop.outlet.hours, DayOfWeek(date));
            var ranges, cutoff := StaffAvailability(shop, date), LeadCutoff(shop, date, now);
            s in Offered(shop, date, now).value <==>
            date !in shop.outlet.closed
                && exists start :: Placed(date, shop.duration, periods, ranges, cutoff, s, start)
  {
    hide *;
    var periods := OutletPeriods(shop.outlet.hours, DayOfWeek(date));
    var ranges, cutoff := StaffAvailability(shop, date), LeadCutoff(shop, date, now);
    OfferedIs(shop, date, now);
    SortedSorts(periods);
    GridElements(date, shop.duration, Sorted(periods), ranges, cutoff, s);
    if start :| Placed(date, shop.duration, Sorted(periods), ranges, cutoff, s, start) {
      PlacedPermutes(date, shop.duration, Sorted(periods), periods, ranges, cutoff, s, start);
    }
    if start :| Placed(date, shop.duration, periods, ranges, cutoff, s, start) {
      PlacedPermutes(date, shop.duration, periods, Sorted(periods), ranges, cutoff, s, start);
    }
  }

  lemma PlacedPermutes(
      date: int, duration: Duration, a: seq<MinuteRange>, b: seq<MinuteRange>, staff: seq<MinuteRange>,
      cutoff: Option<int>,
      s: Slot, start: int)
    requires multiset(a) == multiset(b) && Placed(date, duration, a, staff, cutoff, s, start)
    ensures Placed(date, duration, b, staff, cutoff, s, start)
  {
    OnGridPermutes(a, b, duration, start);
  }

  /** The printed start of a slot tells the minute it was placed at. */
  lemma PlacedParsed(
      date: int, duration: Duration, periods: seq<MinuteRange>, staff: seq<MinuteRange>, cutoff: Option<int>, s: Slot,
      start: int)
    requires Placed(date, duration, periods, staff, cutoff, s, start)
    ensures OnGrid(periods, duration, start) && 0 <= start && start + duration < 1440
    ensures IsTime(s.startsAt) && Parsed(s) == JakartaDateTime(date, start)
    ensures s.available <==> LeadOk(date, start, cutoff) && InsideOne(staff, start, start + duration)
  {
    TimeStringRoundTrip(start);
  }

  /**
   * A date in range shows a grid time as available exactly when the schedule check made at
   * booking accepts it and, for today only, it is not before the lead cutoff.
   */
  lemma ShownAvailableExactly(shop: Shop, date: int, start: int, now: int)
    requires OnGrid(OutletPeriods(shop.outlet.hours, DayOfWeek(date)), shop.duration, start)
    requires Offered(shop, date, now).Some?
    ensures var at := JakartaDateTime(date, start);
            var slots := Offered(shop, date, now).value;
            ShownAvailable(slots, at) <==>
            && WithinSchedules(shop, date, at, at + shop.duration * MINUTE)
            && (date == JakartaDate(now) ==> at >= now + shop.lead * MINUTE)
  {
    hide *;
    var periods := OutletPeriods(shop.outlet.hours, DayOfWeek(date));
    var ranges, cutoff := StaffAvailability(shop, date), LeadCutoff(shop, date, now);
    var slots, at := Offered(shop, date, now).value, JakartaDateTime(date, start);
    InGridBounds(periods, shop.duration, start);
    OnGridInside(periods, shop.duration, start);
    ChecksWallClock(shop, date, start);
    LeadChecked(shop, date, start, now);
    var s := PlaceSlot(date, shop.duration, periods, ranges, cutoff, start);
    PlacedParsed(date, shop.duration, periods, ranges, cutoff, s, start);
    OfferedElements(shop, date, s, now);
    if s.available && date !in shop.outlet.closed {
      IsShown(slots, s);
    }
    if ShownAvailable(slots, at) {
      var u := TheShown(slots, at);
      OfferedElements(shop, date, u, now);
      var other :| Placed(date, shop.duration, periods, ranges, cutoff, u, other);
      PlacedParsed(date, shop.duration, periods, ranges, cutoff, u, other);
      SameMinute(date, start, other);
    }
  }

  lemma LeadChecked(shop: Shop, date: int, start: int, now: int)
    ensures LeadOk(date, start, LeadCutoff(shop, date, now)) <==>
            (date == JakartaDate(now) ==> JakartaDateTime(date, start) >= now + shop.lead * MINUTE)
  {
  }

  lemma PlaceSlot(
      date: int, duration: Duration, periods: seq<MinuteRange>, staff: seq<MinuteRange>, cutoff: Option<int>,
      start: int)
    returns (s: Slot)
    requires OnGrid(periods, duration, start) && 0 <= start && start + duration < 1440
    ensures Placed(date, duration, periods, staff, cutoff, s, start)
  {
    s := SlotAt(date, duration, start, staff, cutoff);
  }

  lemma IsShown(slots: seq<Slot>, s: Slot)
    requires s in slots && IsTime(s.startsAt) && s.available
    ensures ShownAvailable(slots, Parsed(s))
  {
  }

  lemma TheShown(slots: seq<Slot>, at: int) returns (s: Slot)
    requires ShownAvailable(slots, at)
    ensures s in slots && IsTime(s.startsAt) && Parsed(s) == at && s.available
  {
    s :| s in slots && IsTime(s.startsAt) && Parsed(s) == at && s.available;
  }

  lemma SameMinute(date: int, a: int, b: int)
    requires JakartaDateTime(date, a) == JakartaDateTime(date, b)
    ensures a == b
  {
  }

  /**
   * Booking a slot that is shown available, at the same moment: it can only be refused for
   * its lead time, which the grid ignores on later dates, or for starting this very moment.
   */
  lemma AvailableIsBookable(shop: Shop, date: int, s: Slot, now: int)
    requires Offered(shop, date, now).Some?
    requires s in Offered(shop, date, now).value && s.available
    ensures IsTime(s.startsAt)
    ensures var answer := CheckTime(shop, Parsed(s), now);
            && (answer == Bookable <==> Parsed(s) > now && Parsed(s) >= now + shop.lead * MINUTE)
            && answer != HorizonExceeded && answer != SlotUnavailable
            && (answer == DateInPast <==> Parsed(s) == now && shop.lead == 0 && date == JakartaDate(now))
            && (answer == LeadTimeNotMet ==> date > JakartaDate(now))
  {
    hide *;
    var periods := OutletPeriods(shop.outlet.hours, DayOfWeek(date));
    var ranges, cutoff := StaffAvailability(shop, date), LeadCutoff(shop, date, now);
    OfferedElements(shop, date, s, now);
    var start :| Placed(date, shop.duration, periods, ranges, cutoff, s, start);
    PlacedParsed(date, shop.duration, periods, ranges, cutoff, s, start);
    IsShown(Offered(shop, date, now).value, s);
    ShownAvailableExactly(shop, date, start, now);
    ChecksWallClock(shop, date, start);
    LaterDate(date, start, now);
    OfferedIs(shop, date, now);
    CheckedAt(shop, Parsed(s), now);
    LeadIsPositive(shop.lead);
  }

  lemma LeadIsPositive(lead: nat)
    ensures lead * MINUTE >= lead && (lead == 0 ==> lead * MINUTE == 0)
  {
  }

  /** The answer for a whole-minute instant whose schedules fit and whose date is near enough. */
  lemma CheckedAt(shop: Shop, at: int, now: int)
    ensures
      at / MINUTE * MINUTE == at && JakartaDate(at) <= JakartaDate(now) + shop.maximumAdvance
      && WithinSchedules(shop, JakartaDate(at), at, at + shop.duration * MINUTE)
      ==>
        CheckTime(shop, at, now)
        == if at <= now then DateInPast else if at < now + shop.lead * MINUTE then LeadTimeNotMet else Bookable
  {
    hide WithinSchedules;
  }

  /** A wall-clock time of a later date is a later instant. */
  lemma LaterDate(date: int, start: int, now: int)
    requires 0 <= start < 1440
    ensures JakartaDateTime(date, start) <= now ==> date <= JakartaDate(now)
  {
  }

  /** An outlet open for the first half hour of Fridays, with staff who follow its hours. */
  function NightShop(lead: nat): Shop {
    Shop(Outlet("out", [HourRow(5, false, Some(0), Some(30 * MINUTE))], {}), Staff([], [], []), 30, lead, 30)
  }

  /** Its only slot on day 1, a Friday, and when that slot is available. */
  lemma NightSlot(lead: nat, now: int)
    requires 0 <= JakartaDate(now) <= 1
    ensures var at := JakartaDateTime(1, 0);
            && Offered(NightShop(lead), 1, now)
               == Some([Slot(1, "00:00", "00:30", LeadOk(1, 0, LeadCutoff(NightShop(lead), 1, now)))])
            && IsTime("00:00") && ToMinutes("00:00") == 0
            && WithinSchedules(NightShop(lead), 1, at, at + 30 * MINUTE)
  {
    var shop := NightShop(lead);
    NightPeriods(lead);
    NightGrid(LeadCutoff(shop, 1, now));
    OfferedIs(shop, 1, now);
    ChecksWallClock(shop, 1, 0);
    assert DayOfWeek(1) == 5 && shop.outlet.closed == {} && shop.duration == 30 && shop.maximumAdvance == 30;
    assert InsideOne([MinuteRange(0, 30)], 0, 30) by { assert [MinuteRange(0, 30)][0].start <= 0; }
    hide *;
  }

  lemma NightPeriods(lead: nat)
    ensures var shop, open := NightShop(lead), [MinuteRange(0, 30)];
            OutletPeriods(shop.outlet.hours, 5) == open && StaffAvailability(shop, 1) == open && Sorted(open) == open
  {
    var h, open := NightShop(lead).outlet.hours, MinuteRange(0, 30);
    assert h[1..] == [] && OutletPeriods([], 5) == [] && [open] + [] == [open];
    assert OutletPeriods(h, 5) == [open];
    assert [open][1..] == [];
  }

  lemma NightGrid(cutoff: Option<int>)
    ensures var open := [MinuteRange(0, 30)];
            && WithinDay(open) && Grid(1, 30, open, open, cutoff) == [Slot(1, "00:00", "00:30", LeadOk(1, 0, cutoff))]
            && IsTime("00:00") && ToMinutes("00:00") == 0
  {
    var open := [MinuteRange(0, 30)];
    var s := SlotAt(1, 30, 0, open, cutoff);
    assert s == Slot(1, "00:00", "00:30", LeadOk(1, 0, cutoff)) by {
      assert open[0].start <= 0 && 30 <= open[0].end;
      assert ToTimeString(0) == "00:00" && ToTimeString(30) == "00:30";
    }
    assert PeriodSlots(1, 30, open[0], 1, open, cutoff) == [s] by {
      hide SlotAt;
    }
    assert Fits(open[0], 30) == 1 && open[1..] == [];
    hide SlotAt, PeriodSlots, Fits;
    assert Grid(1, 30, [], open, cutoff) == [] && [s] + [] == [s];
  }

  /** Late on day 0 the slot just after midnight is shown available, and refused for its lead time. */
  lemma ShortLeadIsShown()
    ensures var shop, now := NightShop(60), JakartaDateTime(0, 1430);
            var s := Slot(1, "00:00", "00:30", true);
            && Offered(shop, 1, now) == Some([s])
            && IsTime(s.startsAt) && CheckTime(shop, Parsed(s), now) == LeadTimeNotMet
  {
    var now := JakartaDateTime(0, 1430);
    WallClockRoundTrip(0, 1430);
    NightSlot(60, now);
    assert JakartaDateTime(1, 0) == now + 10 * MINUTE;
  }

  /** Without a lead time the slot that starts this very moment is shown available, and called past. */
  lemma PresentSlotIsShown()
    ensures var shop, now := NightShop(0), JakartaDateTime(1, 0);
            var s := Slot(1, "00:00", "00:30", true);
            && Offered(shop, 1, now) == Some([s])
            && IsTime(s.startsAt) && CheckTime(shop, Parsed(s), now) == DateInPast
  {
    var now := JakartaDateTime(1, 0);
    WallClockRoundTrip(1, 0);
    NightSlot(0, now);
  }

  /** One opening row of the day covers the whole time. */
  ghost predicate OpenThroughout(hours: seq<HourRow>, day: int, start: int, end: int) {
    exists i, x :: 0 <= i < |hours| && OpenRow(hours[i], day, x) && x.start <= start && end <= x.end
  }

  lemma OpenThroughoutExactly(hours: seq<HourRow>, day: int, start: int, end: int)
    ensures InsideOne(OutletPeriods(hours, day), start, end) <==> OpenThroughout(hours, day, start, end)
  {
    var ps := OutletPeriods(hours, day);
    if k :| 0 <= k < |ps| && ps[k].start <= start && end <= ps[k].end {
      assert ps[k] in ps;
      OutletPeriodsElements(hours, day, ps[k]);
    }
    if i, x :| 0 <= i < |hours| && OpenRow(hours[i], day, x) && x.start <= start && end <= x.end {
      OutletPeriodsElements(hours, day, x);
    }
  }

  /**
   * A requested time, cut to its minute, is accepted exactly when it lies ahead by the lead
   * time, on an open date within the horizon, inside one opening row and inside one range
   * of the staff member. Each refusal has the first of these conditions that fails.
   */
  lemma BookableExactly(shop: Shop, requested: int, now: int)
    ensures var at := requested - requested % MINUTE;
            var date, start := JakartaDate(at), JakartaMinutesOfDay(at);
            var ahead := at > now && at >= now + shop.lead * MINUTE;
            var near := date - JakartaDate(now) <= shop.maximumAdvance;
            var free := Free(shop, date, start);
            var answer := CheckTime(shop, requested, now);
            && (answer == DateInPast <==> at <= now)
            && (answer == LeadTimeNotMet <==> now < at < now + shop.lead * MINUTE)
            && (answer == HorizonExceeded <==> ahead && !near)
            && (answer == SlotUnavailable <==> ahead && near && !free)
            && (answer == Bookable <==> ahead && near && free)
  {
    hide WithinSchedules, Free, JakartaDate, JakartaMinutesOfDay;
    WithinExactly(shop, requested / MINUTE * MINUTE);
  }

  /** The date is open, and one opening row and one range of the staff member hold the whole service. */
  ghost predicate Free(shop: Shop, date: int, start: int) {
    && date !in shop.outlet.closed
    && OpenThroughout(shop.outlet.hours, DayOfWeek(date), start, start + shop.duration)
    && InsideOne(StaffAvailability(shop, date), start, start + shop.duration)
  }

  lemma WithinExactly(shop: Shop, at: int)
    ensures var date := JakartaDate(at);
            WithinSchedules(shop, date, at, at + shop.duration * MINUTE) <==>
            Free(shop, date, JakartaMinutesOfDay(at))
  {
    var date, start := JakartaDate(at), JakartaMinutesOfDay(at);
    assert (at + shop.duration * MINUTE - at) / MINUTE == shop.duration;
    hide OutletPeriods, StaffRanges, OpenThroughout, InsideOne, JakartaDate, JakartaMinutesOfDay, DayOfWeek;
    OpenThroughoutExactly(shop.outlet.hours, DayOfWeek(date), start, start + shop.duration);
  }

  /** An accepted time on the grid is shown available on its own date. */
  lemma BookableIsAvailable(shop: Shop, requested: int, now: int)
    requires CheckTime(shop, requested, now) == Bookable
    requires var at := requested / MINUTE * MINUTE;
             OnGrid(OutletPeriods(shop.outlet.hours, DayOfWeek(JakartaDate(at))), shop.duration,
                 JakartaMinutesOfDay(at))
    ensures var at := requested / MINUTE * MINUTE;
            var offered := Offered(shop, JakartaDate(at), now);
            offered.Some? && ShownAvailable(offered.value, at)
  {
    var at := requested / MINUTE * MINUTE;
    var date, start := JakartaDate(at), JakartaMinutesOfDay(at);
    BookableFacts(shop, requested, now);
    OfferedIs(shop, date, now);
    hide *;
    ShownAvailableExactly(shop, date, start, now);
  }

  /** What an accepted time satisfies. */
  lemma BookableFacts(shop: Shop, requested: int, now: int)
    requires CheckTime(shop, requested, now) == Bookable
    ensures var at := requested / MINUTE * MINUTE;
            && at >= now + shop.lead * MINUTE && at == JakartaDateTime(JakartaDate(at), JakartaMinutesOfDay(at))
            && JakartaDate(now) <= JakartaDate(at) <= JakartaDate(now) + shop.maximumAdvance
            && WithinSchedules(shop, JakartaDate(at), at, at + shop.duration * MINUTE)
  {
    hide WithinSchedules;
    InstantRoundTrip(requested / MINUTE * MINUTE);
  }
}
