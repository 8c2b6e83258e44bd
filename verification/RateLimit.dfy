/**
 * The in-memory sliding-window limiter of rate-limit.service.ts: one call, and what any
 * run of calls keeps. The clock is an argument of every call.
 */
module RateLimit {
  import opened Wrappers

  const MAX_KEYS := 10_000

  /** When the attempts still remembered for each key were made, oldest first. */
  type Attempts = map<string, seq<int>>

  function MapKey(bucket: string, key: string): string { bucket + ":" + key }

  /** The attempts less than a window old. */
  function Kept(times: seq<int>, now: int, window: int): seq<int> {
    if times == [] then []
    else (if now - times[0] < window then [times[0]] else []) + Kept(times[1..], now, window)
  }

  datatype Call = Call(bucket: string, key: string, limit: int, window: int, now: int)

  function KeyOf(c: Call): string { MapKey(c.bucket, c.key) }

  function Remembered(m: Attempts, k: string): seq<int> {
    if k in m then m[k] else []
  }

  predicate Sweeps(m: Attempts, c: Call) {
    |Kept(Remembered(m, KeyOf(c)), c.now, c.window)| < c.limit && |m| >= MAX_KEYS && KeyOf(c) !in m
  }

  /** The map after a call, and whether the call was allowed. */
  function Consumed(m: Attempts, c: Call): (Attempts, bool) {
    var kept := Kept(Remembered(m, KeyOf(c)), c.now, c.window);
    if |kept| >= c.limit then (m[KeyOf(c) := kept], false)
    else ((if Sweeps(m, c) then map[] else m)[KeyOf(c) := kept + [c.now]], true)
  }

  class Limiter {
    const disabled: bool
    var attempts: Attempts

    constructor (disabled: bool)
      ensures attempts == map[] && this.disabled == disabled
    {
      this.disabled := disabled;
      attempts := map[];
    }

    /** consume. True when the attempt is allowed. */
    method Consume(bucket: string, key: string, limit: int, window: int, now: int) returns (allowed: bool)
      modifies this
      ensures disabled ==> allowed && attempts == old(attempts)
      ensures !disabled ==> (attempts, allowed) == Consumed(old(attempts), Call(bucket, key, limit, window, now))
      ensures var k := MapKey(bucket, key); var recent := Kept(Remembered(old(attempts), k), now, window);
              !disabled ==>
                && (allowed <==> |recent| < limit)
                && k in attempts && attempts[k] == recent + (if allowed then [now] else [])
                && (forall other :: other in attempts && other != k ==>
                      other in old(attempts) && attempts[other] == old(attempts)[other])
                && (old(attempts.Keys) <= attempts.Keys
                    || (allowed && attempts.Keys == {k} && |old(attempts)| >= MAX_KEYS))
    {
      if disabled {
        return true;
      }
      var mapKey := MapKey(bucket, key);
      var kept := Kept(if mapKey in attempts then attempts[mapKey] else [], now, window);
      if |kept| >= limit {
        attempts := attempts[mapKey := kept];
        return false;
      }
      kept := kept + [now];
      if |attempts| >= MAX_KEYS && mapKey !in attempts {
        attempts := map[];
      }
      attempts := attempts[mapKey := kept];
      return true;
    }
  }

  // ---------------------------------------------------------------------
  // Runs
  // ---------------------------------------------------------------------

  function After(calls: seq<Call>): Attempts {
    if calls == [] then map[] else Consumed(After(Earlier(calls)), Last(calls)).0
  }

  function Earlier(calls: seq<Call>): seq<Call>
    requires calls != []
  {
    calls[..|calls| - 1]
  }

  function Last(calls: seq<Call>): Call
    requires calls != []
  {
    calls[|calls| - 1]
  }

  /** The time of a call that is allowed for this key. */
  function Added(m: Attempts, c: Call, k: string): seq<int> {
    if KeyOf(c) == k && Consumed(m, c).1 then [c.now] else []
  }

  /** The times of the attempts allowed for a key. */
  function Allowed(calls: seq<Call>, k: string): seq<int> {
    if calls == [] then []
    else Allowed(Earlier(calls), k) + Added(After(Earlier(calls)), Last(calls), k)
  }

  /** Those allowed since the whole map was last swept. */
  function Since(calls: seq<Call>, k: string): seq<int> {
    if calls == [] then []
    else NextSince(After(Earlier(calls)), Last(calls), Since(Earlier(calls), k), k)
  }

  function NextSince(m: Attempts, c: Call, since: seq<int>, k: string): seq<int> {
    (if Sweeps(m, c) then [] else since) + Added(m, c, k)
  }

  function SweepCount(calls: seq<Call>): nat {
    if calls == [] then 0
    else SweepCount(Earlier(calls)) + if Sweeps(After(Earlier(calls)), Last(calls)) then 1 else 0
  }

  /** The clock never goes back. */
  ghost predicate ClockRuns(calls: seq<Call>) {
    forall i, j :: 0 <= i < j < |calls| ==> calls[i].now <= calls[j].now
  }

  /** Every call for the key has the same limit and window. */
  ghost predicate Fixed(calls: seq<Call>, k: string, limit: int, window: int) {
    forall i :: 0 <= i < |calls| && KeyOf(calls[i]) == k ==> calls[i].limit == limit && calls[i].window == window
  }

  ghost predicate NoneAfter(calls: seq<Call>, now: int) {
    forall i :: 0 <= i < |calls| ==> calls[i].now <= now
  }

  lemma {:induction false} KeptAppend(a: seq<int>, b: seq<int>, now: int, window: int)
    ensures Kept(a + b, now, window) == Kept(a, now, window) + Kept(b, now, window)
  {
    if a == [] {
      assert a + b == b && Kept(a, now, window) + Kept(b, now, window) == Kept(b, now, window);
    } else {
      KeptAppend(a[1..], b, now, window);
      assert (a + b)[1..] == a[1..] + b && (a + b)[0] == a[0];
      Regroup(if now - a[0] < window then [a[0]] else [], Kept(a[1..], now, window), Kept(b, now, window));
    }
  }

  /** Pruning early loses nothing a later pruning would keep. */
  lemma {:induction false} KeptTwice(times: seq<int>, early: int, late: int, window: int)
    requires early <= late
    ensures Kept(Kept(times, early, window), late, window) == Kept(times, late, window)
  {
    if times != [] {
      KeptTwice(times[1..], early, late, window);
      var head := if early - times[0] < window then [times[0]] else [];
      KeptAppend(head, Kept(times[1..], early, window), late, window);
      assert head != [] ==> head[1..] == [];
    }
  }

  /** One call keeps what is remembered of a key in step with what was allowed. */
  lemma StepRemembers(m: Attempts, since: seq<int>, c: Call, k: string, window: int, now: int)
    requires c.now <= now && (KeyOf(c) == k ==> c.window == window)
    requires Kept(Remembered(m, k), c.now, window) == Kept(since, c.now, window)
    requires Kept(Remembered(m, k), now, window) == Kept(since, now, window)
    ensures Kept(Remembered(Consumed(m, c).0, k), now, window) == Kept(NextSince(m, c, since, k), now, window)
  {
    var left := if Sweeps(m, c) then [] else since;
    KeptAppend(left, Added(m, c, k), now, window);
    assert left + [] == left;
    if KeyOf(c) == k {
      var kept := Kept(Remembered(m, k), c.now, window);
      KeptTwice(Remembered(m, k), c.now, now, window);
      KeptAppend(kept, [c.now], now, window);
    }
  }

  lemma EarlierRuns(calls: seq<Call>, k: string, limit: int, window: int)
    requires calls != [] && ClockRuns(calls) && Fixed(calls, k, limit, window)
    ensures ClockRuns(Earlier(calls)) && Fixed(Earlier(calls), k, limit, window)
    ensures NoneAfter(Earlier(calls), Last(calls).now)
    ensures KeyOf(Last(calls)) == k ==> Last(calls).limit == limit && Last(calls).window == window
  {
  }

  /** What the map remembers prunes to what was really allowed since the last sweep. */
  lemma {:induction false} MapRemembersSince(calls: seq<Call>, k: string, limit: int, window: int, now: int)
    requires ClockRuns(calls) && Fixed(calls, k, limit, window) && NoneAfter(calls, now)
    ensures Kept(Remembered(After(calls), k), now, window) == Kept(Since(calls, k), now, window)
  {
    hide Kept, Consumed, NextSince, Fixed, ClockRuns, KeyOf;
    if calls != [] {
      var before, c := Earlier(calls), Last(calls);
      EarlierRuns(calls, k, limit, window);
      MapRemembersSince(before, k, limit, window, c.now);
      MapRemembersSince(before, k, limit, window, now);
      StepRemembers(After(before), Since(before, k), c, k, window, now);
    }
  }

  /**
   * The last call of a run is allowed exactly when fewer than the limit were allowed within
   * the last window, counting from the last sweep of the map.
   */
  lemma AllowedExactly(calls: seq<Call>)
    requires calls != [] && ClockRuns(calls) && Fixed(calls, KeyOf(Last(calls)), Last(calls).limit, Last(calls).window)
    ensures var c := Last(calls);
            Consumed(After(Earlier(calls)), c).1 <==>
            |Kept(Since(Earlier(calls), KeyOf(c)), c.now, c.window)| < c.limit
  {
    var c := Last(calls);
    EarlierRuns(calls, KeyOf(c), c.limit, c.window);
    MapRemembersSince(Earlier(calls), KeyOf(c), c.limit, c.window, c.now);
  }

  // ---------------------------------------------------------------------
  // The bound
  // ---------------------------------------------------------------------

  /** How many of the times fall into the window-long span from `start`. */
  function CountIn(times: seq<int>, start: int, window: int): nat {
    if times == [] then 0
    else (if start <= times[0] < start + window then 1 else 0) + CountIn(times[1..], start, window)
  }

  lemma {:induction false} CountAppend(a: seq<int>, b: seq<int>, start: int, window: int)
    ensures CountIn(a + b, start, window) == CountIn(a, start, window) + CountIn(b, start, window)
  {
    if a == [] {
      assert a + b == b;
    } else {
      CountAppend(a[1..], b, start, window);
      assert (a + b)[1..] == a[1..] + b && (a + b)[0] == a[0];
    }
  }

  /** All times of a span that holds `now` are still kept at `now`. */
  lemma {:induction false} CountKept(times: seq<int>, start: int, window: int, now: int)
    requires start <= now < start + window
    ensures CountIn(times, start, window) <= |Kept(times, now, window)|
  {
    if times != [] {
      CountKept(times[1..], start, window, now);
    }
  }

  /** An allowed call adds at most one to a span, and only to one with room for it. */
  lemma StepCount(m: Attempts, since: seq<int>, c: Call, k: string, limit: int, window: int, start: int)
    requires limit >= 0 && CountIn(since, start, window) <= limit
    requires KeyOf(c) == k && Consumed(m, c).1 ==> |Kept(since, c.now, window)| < limit
    ensures CountIn(NextSince(m, c, since, k), start, window) <= limit
  {
    CountAppend(if Sweeps(m, c) then [] else since, Added(m, c, k), start, window);
    assert CountIn([c.now], start, window)
        == (if start <= c.now < start + window then 1 else 0) + CountIn([c.now][1..], start, window);
    if start <= c.now < start + window {
      CountKept(since, start, window, c.now);
    }
  }

  /** Between sweeps no window-long span holds more allowed attempts than the limit. */
  lemma {:induction false} SinceBounded(calls: seq<Call>, k: string, limit: int, window: int, start: int)
    requires ClockRuns(calls) && Fixed(calls, k, limit, window) && limit >= 0
    ensures CountIn(Since(calls, k), start, window) <= limit
  {
    hide Kept, CountIn, NextSince, Consumed, Fixed, ClockRuns, KeyOf;
    if calls == [] {
      CountNone(start, window);
    } else {
      var before, c := Earlier(calls), Last(calls);
      EarlierRuns(calls, k, limit, window);
      SinceBounded(before, k, limit, window, start);
      if KeyOf(c) == k {
        AllowedExactly(calls);
      }
      StepCount(After(before), Since(before, k), c, k, limit, window, start);
    }
  }

  lemma CountNone(start: int, window: int)
    ensures CountIn([], start, window) == 0
  {
  }

  /**
   * In any run, any window-long span holds at most the limit of allowed attempts for each
   * stretch between sweeps of the map; with no sweep, at most the limit.
   */
  lemma {:induction false} SpanBounded(calls: seq<Call>, k: string, limit: int, window: int, start: int)
    requires ClockRuns(calls) && Fixed(calls, k, limit, window) && limit >= 0
    ensures CountIn(Allowed(calls, k), start, window)
            <= SweepCount(calls) * limit + CountIn(Since(calls, k), start, window)
    ensures CountIn(Allowed(calls, k), start, window) <= (SweepCount(calls) + 1) * limit
    ensures SweepCount(calls) == 0 ==> CountIn(Allowed(calls, k), start, window) <= limit
  {
    hide Kept, CountIn, Consumed, Fixed, ClockRuns, KeyOf, Sweeps;
    SinceBounded(calls, k, limit, window, start);
    Distribute(SweepCount(calls), limit);
    CountNone(start, window);
    if calls != [] {
      var before, c := Earlier(calls), Last(calls);
      EarlierRuns(calls, k, limit, window);
      SpanBounded(before, k, limit, window, start);
      SinceBounded(before, k, limit, window, start);
      Distribute(SweepCount(before), limit);
      var last := Added(After(before), c, k);
      CountAppend(Allowed(before, k), last, start, window);
      CountAppend(if Sweeps(After(before), c) then [] else Since(before, k), last, start, window);
    }
  }

  lemma Distribute(n: int, limit: int)
    ensures (n + 1) * limit == n * limit + limit && 0 * limit == 0
  {
  }

  // ---------------------------------------------------------------------
  // The bound is reached
  // ---------------------------------------------------------------------

  /** A call of bucket `b` for a key of `n` letters, all at the same moment. */
  function Other(n: nat): Call { Call("b", seq(n, _ => 'x'), 1, 1, 0) }

  /** A call of the watched key, which starts with another bucket. */
  function Watched(limit: int): Call { Call("a", "", limit, 1, 0) }

  lemma OthersApart(m: nat, n: nat)
    ensures KeyOf(Other(m)) == KeyOf(Other(n)) <==> m == n
    ensures KeyOf(Other(m)) != KeyOf(Watched(1))
  {
    assert |KeyOf(Other(m))| == m + 2 && |KeyOf(Other(n))| == n + 2;
    assert KeyOf(Other(m))[0] == 'b' && KeyOf(Watched(1))[0] == 'a';
  }

  /** Only keys of fewer than `c` letters so far, and the watched key in use or not. */
  ghost predicate Filled(m: Attempts, c: nat) {
    forall k :: k in m && k != KeyOf(Watched(1)) ==> exists i :: 0 <= i < c && k == KeyOf(Other(i))
  }

  lemma NewOther(m: Attempts, c: nat)
    requires Filled(m, c)
    ensures KeyOf(Other(c)) !in m
  {
    OthersApart(c, 0);
    forall i: nat | i < c ensures KeyOf(Other(c)) != KeyOf(Other(i)) {
      OthersApart(c, i);
    }
  }

  /** A call for a new key: it is allowed, and sweeps exactly a full map. */
  lemma OtherStep(m: Attempts, c: nat)
    requires Filled(m, c) && |m| <= MAX_KEYS
    ensures var k := KeyOf(Other(c));
            && Consumed(m, Other(c)) == (if |m| == MAX_KEYS then map[k := [0]] else m[k := [0]], true)
            && (Sweeps(m, Other(c)) <==> |m| == MAX_KEYS)
  {
    NewOther(m, c);
    hide Filled, KeyOf;
    assert Kept([], 0, 1) == [] && [] + [0] == [0];
  }

  /** A call for the watched key within its limit: it is allowed and sweeps nothing. */
  lemma WatchedStep(m: Attempts, times: seq<int>, limit: int)
    requires Remembered(m, KeyOf(Watched(1))) == times && forall i :: 0 <= i < |times| ==> times[i] == 0
    requires |times| < limit && (KeyOf(Watched(1)) in m || |m| < MAX_KEYS)
    ensures Consumed(m, Watched(limit)) == (m[KeyOf(Watched(1)) := times + [0]], true)
    ensures !Sweeps(m, Watched(limit))
  {
    KeptNow(times);
    hide Kept;
    assert KeyOf(Watched(limit)) == KeyOf(Watched(1));
    hide KeyOf;
  }

  ghost predicate AllNow(calls: seq<Call>, limit: int) {
    forall i :: 0 <= i < |calls| ==>
        calls[i].now == 0 && (KeyOf(calls[i]) == KeyOf(Watched(1)) ==> calls[i] == Watched(limit))
  }

  /** What one more call does to a run. */
  lemma OneMore(calls: seq<Call>, c: Call, k: string)
    ensures var m := After(calls); var more := calls + [c];
            && After(more) == Consumed(m, c).0
            && Allowed(more, k) == Allowed(calls, k) + Added(m, c, k)
            && SweepCount(more) == SweepCount(calls) + if Sweeps(m, c) then 1 else 0
  {
    hide Consumed, Sweeps, Added;
    assert Earlier(calls + [c]) == calls && Last(calls + [c]) == c;
  }

  lemma KeptNow(times: seq<int>)
    requires forall i :: 0 <= i < |times| ==> times[i] == 0
    ensures Kept(times, 0, 1) == times
  {
  }

  /** The watched key `n` more times, as long as that stays within its limit. */
  lemma {:induction false} WatchedRun(calls: seq<Call>, limit: int, n: nat, c: nat) returns (more: seq<Call>)
    requires AllNow(calls, limit) && Filled(After(calls), c) && KeyOf(Watched(1)) !in After(calls) && 0 < n <= limit
    requires |After(calls)| < MAX_KEYS
    ensures AllNow(more, limit) && Filled(After(more), c) && SweepCount(more) == SweepCount(calls)
    ensures After(more) == After(calls)[KeyOf(Watched(1)) := Zeros(n)]
    ensures Allowed(more, KeyOf(Watched(1))) == Allowed(calls, KeyOf(Watched(1))) + Zeros(n)
  {
    hide *;
    var k := KeyOf(Watched(1));
    ZerosGrow(n - 1);
    if n == 1 {
      NothingYet(After(calls), k);
      WatchedStep(After(calls), [], limit);
      WatchedMore(calls, limit, c);
      more := calls + [Watched(limit)];
    } else {
      var less := WatchedRun(calls, limit, n - 1, c);
      NothingElse(After(calls), k, Zeros(n - 1));
      WatchedStep(After(less), Zeros(n - 1), limit);
      WatchedMore(less, limit, c);
      more := less + [Watched(limit)];
      Regroup(Allowed(calls, k), Zeros(n - 1), [0]);
    }
  }

  lemma NothingYet(m: Attempts, k: string)
    requires k !in m
    ensures Remembered(m, k) == []
  {
  }

  lemma NothingElse(m: Attempts, k: string, times: seq<int>)
    ensures Remembered(m[k := times], k) == times
  {
  }

  function Zeros(n: nat): seq<int> { seq(n, _ => 0) }

  lemma ZerosGrow(n: nat)
    ensures Zeros(n) + [0] == Zeros(n + 1) && |Zeros(n)| == n && Zeros(0) == []
    ensures forall i :: 0 <= i < n ==> Zeros(n)[i] == 0
  {
  }

  /** A watched call that is allowed and sweeps nothing, at the end of a run. */
  lemma WatchedMore(calls: seq<Call>, limit: int, c: nat)
    requires AllNow(calls, limit) && Filled(After(calls), c)
    requires !Sweeps(After(calls), Watched(limit)) && Consumed(After(calls), Watched(limit)).1
    requires Consumed(After(calls), Watched(limit)).0.Keys == After(calls).Keys + {KeyOf(Watched(1))}
    ensures var more := calls + [Watched(limit)]; var k := KeyOf(Watched(1));
            && AllNow(more, limit) && Filled(After(more), c) && SweepCount(more) == SweepCount(calls)
            && After(more) == Consumed(After(calls), Watched(limit)).0
            && Allowed(more, k) == Allowed(calls, k) + [0]
  {
    OneMore(calls, Watched(limit), KeyOf(Watched(1)));
    NowMore(calls, Watched(limit), limit);
    FilledMore(After(calls), Consumed(After(calls), Watched(limit)).0, c);
    assert Added(After(calls), Watched(limit), KeyOf(Watched(1))) == [0];
    hide *;
  }

  lemma NowMore(calls: seq<Call>, c: Call, limit: int)
    requires AllNow(calls, limit) && c.now == 0 && (KeyOf(c) == KeyOf(Watched(1)) ==> c == Watched(limit))
    ensures AllNow(calls + [c], limit)
  {
    hide KeyOf;
  }

  lemma FilledMore(m: Attempts, after: Attempts, c: nat)
    requires Filled(m, c) && after.Keys <= m.Keys + {KeyOf(Watched(1)), KeyOf(Other(c))}
    ensures Filled(after, c + 1)
    ensures KeyOf(Other(c)) !in after ==> Filled(after, c)
  {
    hide KeyOf;
    forall k | k in after && k != KeyOf(Watched(1)) ensures exists i :: 0 <= i < c + 1 && k == KeyOf(Other(i)) {
      if k == KeyOf(Other(c)) {
        assert 0 <= c < c + 1;
      }
    }
  }

  /** New keys up to the size limit, and one more, which sweeps the map. */
  lemma {:induction false} FillRun(calls: seq<Call>, limit: int, c: nat) returns (more: seq<Call>, d: nat)
    requires AllNow(calls, limit) && Filled(After(calls), c) && |After(calls)| <= MAX_KEYS
    ensures AllNow(more, limit) && Filled(After(more), d) && SweepCount(more) == SweepCount(calls) + 1
    ensures KeyOf(Watched(1)) !in After(more) && |After(more)| == 1
    ensures Allowed(more, KeyOf(Watched(1))) == Allowed(calls, KeyOf(Watched(1)))
    decreases MAX_KEYS - |After(calls)|
  {
    var k, m, o := KeyOf(Watched(1)), After(calls), Other(c);
    OtherStep(m, c);
    OtherMore(calls, limit, c);
    var next := calls + [o];
    if |m| == MAX_KEYS {
      more, d := next, c + 1;
    } else {
      NewOther(m, c);
      Inserted(m, KeyOf(o), [0]);
      more, d := FillRun(next, limit, c + 1);
    }
  }

  /** A new key at the end of a run. */
  lemma OtherMore(calls: seq<Call>, limit: int, c: nat)
    requires AllNow(calls, limit) && Filled(After(calls), c) && |After(calls)| <= MAX_KEYS
    ensures var more := calls + [Other(c)]; var k := KeyOf(Watched(1));
            && AllNow(more, limit) && Filled(After(more), c + 1)
            && After(more) == Consumed(After(calls), Other(c)).0
            && Allowed(more, k) == Allowed(calls, k)
            && SweepCount(more) == SweepCount(calls) + (if |After(calls)| == MAX_KEYS then 1 else 0)
            && (|After(calls)| == MAX_KEYS ==> k !in After(more))
  {
    var k, m, o := KeyOf(Watched(1)), After(calls), Other(c);
    OtherStep(m, c);
    OneMore(calls, o, k);
    OthersApart(c, 0);
    NowMore(calls, o, limit);
    FilledMore(m, Consumed(m, o).0, c);
    assert Added(m, o, k) == [];
    hide *;
    assert Allowed(calls, k) + [] == Allowed(calls, k);
  }

  /** Every number of sweeps and every positive limit has a run that reaches the bound in one window. */
  lemma {:induction false} BoundReached(limit: int, sweeps: nat) returns (calls: seq<Call>, c: nat)
    requires limit > 0
    ensures ClockRuns(calls) && Fixed(calls, KeyOf(Watched(1)), limit, 1) && SweepCount(calls) == sweeps
    ensures CountIn(Allowed(calls, KeyOf(Watched(1))), 0, 1) == (sweeps + 1) * limit
    ensures AllNow(calls, limit) && Filled(After(calls), c) && |After(calls)| <= MAX_KEYS
  {
    var k := KeyOf(Watched(1));
    var start: seq<Call> := [];
    c := 0;
    if sweeps > 0 {
      var less, d := BoundReached(limit, sweeps - 1);
      start, c := FillRun(less, limit, d);
    }
    calls := WatchedRun(start, limit, limit, c);
    FixedNow(calls, limit);
    hide Filled, AllNow, Fixed, ClockRuns, KeyOf, Sweeps, Consumed, CountIn, Allowed;
    Inserted(After(start), k, Zeros(limit));
    CountAppend(Allowed(start, k), Zeros(limit), 0, 1);
    CountZeros(limit);
    Distribute(sweeps, limit);
  }

  lemma FixedNow(calls: seq<Call>, limit: int)
    requires AllNow(calls, limit)
    ensures ClockRuns(calls) && Fixed(calls, KeyOf(Watched(1)), limit, 1)
  {
  }

  lemma {:induction false} CountZeros(n: nat)
    ensures CountIn(Zeros(n), 0, 1) == n
  {
    if n > 0 {
      CountZeros(n - 1);
      assert Zeros(n)[1..] == Zeros(n - 1);
    }
  }

  // ---------------------------------------------------------------------
  // Size and keys
  // ---------------------------------------------------------------------

  /**
   * One call keeps the map within its size exactly unless it adds a key to a full map
   * without sweeping, which only a limit of zero or less does.
   */
  lemma SizeKept(m: Attempts, c: Call)
    requires |m| <= MAX_KEYS
    ensures |Consumed(m, c).0| <= MAX_KEYS <==> !(|m| == MAX_KEYS && KeyOf(c) !in m && c.limit <= 0)
  {
    var k := KeyOf(c);
    var kept := Kept(Remembered(m, k), c.now, c.window);
    Inserted(m, k, kept);
    Inserted(m, k, kept + [c.now]);
    Inserted(map[], k, kept + [c.now]);
    assert k !in m ==> kept == [];
  }

  lemma Inserted(m: Attempts, k: string, v: seq<int>)
    ensures |m[k := v]| == if k in m then |m| else |m| + 1
  {
    if k in m {
      assert m[k := v].Keys == m.Keys;
    } else {
      assert m[k := v].Keys == m.Keys + {k};
    }
  }

  /** With positive limits the map never holds more than 10,000 keys. */
  lemma {:induction false} SizeBounded(calls: seq<Call>)
    requires forall i :: 0 <= i < |calls| ==> calls[i].limit > 0
    ensures |After(calls)| <= MAX_KEYS
  {
    if calls != [] {
      SizeBounded(Earlier(calls));
      SizeKept(After(Earlier(calls)), Last(calls));
    }
  }

  /** Buckets without a colon, as all of them are, never share a key of the map. */
  lemma KeysApart(bucket1: string, key1: string, bucket2: string, key2: string)
    requires ':' !in bucket1 && ':' !in bucket2
    ensures MapKey(bucket1, key1) == MapKey(bucket2, key2) <==> bucket1 == bucket2 && key1 == key2
  {
    var s, t := MapKey(bucket1, key1), MapKey(bucket2, key2);
    if s == t {
      assert s[|bucket1|] == ':' && s[|bucket2|] == ':';
      assert forall i :: 0 <= i < |bucket1| ==> s[i] == bucket1[i];
      assert forall i :: 0 <= i < |bucket2| ==> s[i] == bucket2[i];
      assert bucket1 == s[..|bucket1|] && bucket2 == s[..|bucket2|];
      assert key1 == s[|bucket1| + 1..] && key2 == s[|bucket2| + 1..];
    }
  }
}
