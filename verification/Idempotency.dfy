/**
 * The idempotency protocol: concurrent callers claim a key, take over a claim
 * that looks dead, run the operation, record its outcome, drop the claim, or
 * crash. A setting says how long after its claim a live caller may still record, and
 * whether a record may get through without its caller learning so; the protocol is safe
 * exactly when the first is within the takeover time and the second does not happen.
 */
module Idempotency {
  import opened Wrappers

  const TAKEOVER_MS := 60_000

  type Key = nat
  type Fingerprint = nat

  datatype Outcome = Ok(result: int) | Error(code: int)

  datatype Status = Processing | Final(outcome: Outcome)

  /** A row of idempotency_keys; `status` covers processing, succeeded and failed_final. */
  datatype Row = Row(id: nat, fingerprint: Fingerprint, status: Status, updatedAt: int)

  // ---------------------------------------------------------------------
  // Single statements of `execute`
  // ---------------------------------------------------------------------

  /** INSERT under the unique key. */
  function Claim(rows: map<Key, Row>, k: Key, fp: Fingerprint, id: nat, now: int): (map<Key, Row>, bool) {
    if k in rows then (rows, false) else (rows[k := Row(id, fp, Processing, now)], true)
  }

  datatype Peeked = Gone | Reused | Replay(outcome: Outcome) | InProgress(id: nat)

  /** The row a losing caller finds. */
  function Peek(rows: map<Key, Row>, k: Key, fp: Fingerprint): Peeked {
    if k !in rows then Gone
    else if rows[k].fingerprint != fp then Reused
    else if rows[k].status.Final? then Replay(rows[k].status.outcome)
    else InProgress(rows[k].id)
  }

  predicate Present(rows: map<Key, Row>, k: Key, id: nat) {
    k in rows && rows[k].id == id
  }

  /** UPDATE … WHERE the claim is still processing and looks dead. */
  function TakeOver(rows: map<Key, Row>, k: Key, fp: Fingerprint, id: nat, now: int): (map<Key, Row>, bool) {
    if Present(rows, k, id) && rows[k].status == Processing && rows[k].updatedAt < now - TAKEOVER_MS
    then (rows[k := rows[k].(fingerprint := fp, updatedAt := now)], true)
    else (rows, false)
  }

  /**
   * How the operation and the statement that records it end: `recorded` says
   * whether the update got through, `deleted` whether the clean-up did.
   */
  datatype Fate =
    | Succeeds(result: int, recorded: bool, deleted: bool)
    | FailsFinal(code: int, recorded: bool)
    | FailsOtherwise(deleted: bool)
    /** the update got through, but the caller saw it fail and cleans up */
    | Unacknowledged(result: int, deleted: bool)
    /** the update got through, and the process died before it answered */
    | Dies(outcome: Outcome)

  function Drop(rows: map<Key, Row>, k: Key, id: nat, deleted: bool): map<Key, Row> {
    if deleted && Present(rows, k, id) then rows - {k} else rows
  }

  /** The end of `execute`: the new table and what the caller returns or throws for good. */
  function Finish(rows: map<Key, Row>, k: Key, id: nat, now: int, fate: Fate): (map<Key, Row>, Option<Outcome>) {
    match fate
    case Succeeds(r, recorded, deleted) =>
      if recorded && Present(rows, k, id)
      then (rows[k := rows[k].(status := Final(Ok(r)), updatedAt := now)], Some(Ok(r)))
      else (Drop(rows, k, id, deleted), None)
    case FailsFinal(code, recorded) =>
      if recorded && Present(rows, k, id)
      then (rows[k := rows[k].(status := Final(Error(code)), updatedAt := now)], Some(Error(code)))
      else (rows, None)
    case FailsOtherwise(deleted) => (Drop(rows, k, id, deleted), None)
    case Unacknowledged(r, deleted) =>
      (if Present(rows, k, id) && !deleted
       then rows[k := rows[k].(status := Final(Ok(r)), updatedAt := now)]
       else Drop(rows, k, id, deleted), None)
    case Dies(o) =>
      (if Present(rows, k, id) then rows[k := rows[k].(status := Final(o), updatedAt := now)] else rows, None)
  }

  // ---------------------------------------------------------------------
  // Concurrent callers
  // ---------------------------------------------------------------------

  datatype Caller =
    /** lost the insert, about to read the row */
    | Colliding(key: Key, fp: Fingerprint)
    /** saw a processing row, about to try a takeover */
    | Waiting(key: Key, fp: Fingerprint, id: nat)
    /** recorded its outcome without learning so, about to delete the row */
    | Cleaning(key: Key, fp: Fingerprint, id: nat)
    /** owns the claim since `since` and runs the operation */
    | Running(key: Key, fp: Fingerprint, id: nat, since: int)

  /** A final answer given to a caller; `executed` when that caller ran the operation. */
  datatype Reply = Reply(key: Key, fp: Fingerprint, outcome: Outcome, executed: bool)

  datatype World = World(
    rows: map<Key, Row>, callers: map<nat, Caller>, replies: seq<Reply>, clock: int, nextId: nat)

  const START := World(map[], map[], [], 0, 0)

  datatype Event =
    | Arrive(c: nat, k: Key, fp: Fingerprint)
    | Proceed(c: nat, fate: Fate)
    | Crash(c: nat)

  function Departed(callers: map<nat, Caller>, c: nat): map<nat, Caller> {
    callers - {c}
  }

  /**
   * What the outside world may do: let a live caller record up to `patience` after its claim,
   * and, if `lostAcks`, apply an update whose acknowledgement is lost.
   */
  datatype Setting = Setting(patience: int, lostAcks: bool)

  /** No caller outlives its claim, and no live caller misses an acknowledgement. */
  predicate Sound(how: Setting) {
    how.patience <= TAKEOVER_MS && (how.lostAcks ==> how.patience < 0)
  }

  /** One step at time `now`; a caller slower than `patience` is dead and records nothing. */
  function Step(w: World, e: Event, now: int, how: Setting): World {
    if now < w.clock then w
    else
      var w := w.(clock := now);
      match e
      case Arrive(c, k, fp) =>
        if c in w.callers then w
        else
          var r := Claim(w.rows, k, fp, w.nextId, now);
          if r.1 then w.(rows := r.0, callers := w.callers[c := Running(k, fp, w.nextId, now)], nextId := w.nextId + 1)
          else w.(callers := w.callers[c := Colliding(k, fp)])
      case Crash(c) => w.(callers := Departed(w.callers, c))
      case Proceed(c, fate) =>
        if c !in w.callers then w
        else match w.callers[c]
          case Colliding(k, fp) =>
            (match Peek(w.rows, k, fp)
             case Replay(o) => w.(callers := Departed(w.callers, c), replies := w.replies + [Reply(k, fp, o, false)])
             case InProgress(id) => w.(callers := w.callers[c := Waiting(k, fp, id)])
             case _ => w.(callers := Departed(w.callers, c)))
          case Waiting(k, fp, id) =>
            var r := TakeOver(w.rows, k, fp, id, now);
            if r.1 then w.(rows := r.0, callers := w.callers[c := Running(k, fp, id, now)])
            else w.(callers := Departed(w.callers, c))
          case Cleaning(k, fp, id) => w.(rows := Drop(w.rows, k, id, true), callers := Departed(w.callers, c))
          case Running(k, fp, id, since) =>
            if now > since + how.patience then w.(callers := Departed(w.callers, c))
            else if fate.Unacknowledged? then
              if !how.lostAcks then w
              else
                w.(rows := Finish(w.rows, k, id, now, Unacknowledged(fate.result, false)).0,
                   callers := w.callers[c := Cleaning(k, fp, id)])
            else
              var r := Finish(w.rows, k, id, now, fate);
              w.(rows := r.0, callers := Departed(w.callers, c),
                 replies := if r.1.Some? then w.replies + [Reply(k, fp, r.1.value, true)] else w.replies)
  }

  /** Any sequence of timed events. */
  function Run(es: seq<(Event, int)>, how: Setting): World {
    if es == [] then START
    else Step(Run(es[..|es| - 1], how), es[|es| - 1].0, es[|es| - 1].1, how)
  }

  // ---------------------------------------------------------------------
  // Invariant
  // ---------------------------------------------------------------------

  /** A running caller that can still record. */
  predicate Live(w: World, c: nat, how: Setting) {
    c in w.callers && w.callers[c].Running? && w.clock <= w.callers[c].since + how.patience
  }

  /** The claim of a live caller is its own, processing, and as old as its run. */
  ghost predicate Owns(w: World, c: nat)
    requires c in w.callers && w.callers[c].Running?
  {
    var Running(k, fp, id, since) := w.callers[c];
    Present(w.rows, k, id) && w.rows[k] == Row(id, fp, Processing, since)
  }

  /** A caller that waits for a takeover shares the fingerprint of the row it saw. */
  ghost predicate Matches(w: World, c: nat)
    requires c in w.callers && w.callers[c].Waiting?
  {
    var Waiting(k, fp, id) := w.callers[c];
    id < w.nextId && (Present(w.rows, k, id) ==> w.rows[k].fingerprint == fp)
  }

  /** An answer stays on record in the final row of its key. */
  ghost predicate OnRecord(w: World, r: Reply) {
    r.key in w.rows && w.rows[r.key].status == Final(r.outcome) && w.rows[r.key].fingerprint == r.fp
  }

  /** Live callers own their claims, and no two of them share a key. */
  ghost predicate Claims(w: World, how: Setting) {
    && (forall k :: k in w.rows ==> w.rows[k].id < w.nextId && w.rows[k].updatedAt <= w.clock)
    && (forall c :: c in w.callers && w.callers[c].Running? ==>
          w.callers[c].since <= w.clock && w.callers[c].id < w.nextId)
    && (forall c :: Live(w, c, how) ==> Owns(w, c))
    && (forall c, d :: Live(w, c, how) && Live(w, d, how) && c != d ==> w.callers[c].key != w.callers[d].key)
  }

  ghost predicate Waiters(w: World) {
    forall c :: c in w.callers && w.callers[c].Waiting? ==> Matches(w, c)
  }

  /** Answers stay on record, and one key has at most one executed answer. */
  ghost predicate Answers(w: World) {
    && (forall i :: 0 <= i < |w.replies| ==> OnRecord(w, w.replies[i]))
    && (forall i, j :: 0 <= i < j < |w.replies| && w.replies[i].executed && w.replies[j].executed ==>
          w.replies[i].key != w.replies[j].key)
  }

  ghost predicate NoneCleans(w: World) {
    forall c :: c in w.callers ==> !w.callers[c].Cleaning?
  }

  ghost predicate Inv(w: World, how: Setting) {
    Claims(w, how) && Waiters(w) && Answers(w) && NoneCleans(w)
  }

  lemma ClockKeeps(w: World, now: int, how: Setting)
    requires Inv(w, how) && w.clock <= now
    ensures Inv(w.(clock := now), how)
  {
    var v := w.(clock := now);
    assert forall c :: Live(v, c, how) ==> Live(w, c, how);
    assert forall i :: 0 <= i < |w.replies| ==> OnRecord(w, w.replies[i]);
  }

  lemma LeaveKeeps(w: World, c: nat, how: Setting)
    requires Inv(w, how)
    ensures Inv(w.(callers := Departed(w.callers, c)), how)
  {
    var v := w.(callers := Departed(w.callers, c));
    assert forall d :: Live(v, d, how) ==> Live(w, d, how);
    assert forall i :: 0 <= i < |w.replies| ==> OnRecord(w, w.replies[i]);
  }

  lemma ArriveClaims(w: World, c: nat, k: Key, fp: Fingerprint, how: Setting)
    requires Claims(w, how) && c !in w.callers
    ensures Claims(Step(w, Arrive(c, k, fp), w.clock, how), how)
  {
    var v := Step(w, Arrive(c, k, fp), w.clock, how);
    if k in w.rows {
      assert v == w.(callers := w.callers[c := Colliding(k, fp)]);
      hide Step;
      assert forall d :: Live(v, d, how) ==> d != c && Live(w, d, how);
    } else {
      assert v == w.(rows := w.rows[k := Row(w.nextId, fp, Processing, w.clock)],
                     callers := w.callers[c := Running(k, fp, w.nextId, w.clock)], nextId := w.nextId + 1);
      hide Step;
      forall d | d != c && Live(v, d, how) ensures Live(w, d, how) && w.callers[d].key != k {
        assert Live(w, d, how);
        assert Owns(w, d);
      }
    }
  }

  lemma ArriveKeeps(w: World, c: nat, k: Key, fp: Fingerprint, how: Setting)
    requires Inv(w, how) && c !in w.callers
    ensures Inv(Step(w, Arrive(c, k, fp), w.clock, how), how)
  {
    hide Claims;
    ArriveClaims(w, c, k, fp, how);
    assert forall i :: 0 <= i < |w.replies| ==> OnRecord(w, w.replies[i]);
  }

  lemma TakeOverClaims(w: World, c: nat, fate: Fate, how: Setting)
    requires Claims(w, how) && c in w.callers && w.callers[c].Waiting? && Sound(how)
    requires Matches(w, c)
    ensures Claims(Step(w, Proceed(c, fate), w.clock, how), how)
  {
    var v := Step(w, Proceed(c, fate), w.clock, how);
    var Waiting(k, fp, id) := w.callers[c];
    if TakeOver(w.rows, k, fp, id, w.clock).1 {
      assert v == w.(rows := w.rows[k := Row(id, fp, Processing, w.clock)],
                     callers := w.callers[c := Running(k, fp, id, w.clock)]);
      // Whoever owned the claim has been silent for longer than its patience.
      forall d | Live(w, d, how) ensures w.callers[d].key != k {
        assert Owns(w, d);
      }
    } else {
      assert v == w.(callers := Departed(w.callers, c));
    }
    hide Step, TakeOver;
    assert forall d :: d != c && Live(v, d, how) ==> Live(w, d, how);
  }

  lemma TakeOverKeeps(w: World, c: nat, fate: Fate, how: Setting)
    requires Inv(w, how) && c in w.callers && w.callers[c].Waiting? && Sound(how)
    ensures Inv(Step(w, Proceed(c, fate), w.clock, how), how)
  {
    hide Claims;
    assert Matches(w, c);
    TakeOverClaims(w, c, fate, how);
    var k := w.callers[c].key;
    assert forall i :: 0 <= i < |w.replies| ==> OnRecord(w, w.replies[i]);
  }

  lemma PeekClaims(w: World, c: nat, fate: Fate, how: Setting)
    requires Claims(w, how) && c in w.callers && w.callers[c].Colliding?
    ensures Claims(Step(w, Proceed(c, fate), w.clock, how), how)
  {
    var v := Step(w, Proceed(c, fate), w.clock, how);
    assert forall d :: Live(v, d, how) ==> Live(w, d, how);
  }

  lemma PeekKeeps(w: World, c: nat, fate: Fate, how: Setting)
    requires Inv(w, how) && c in w.callers && w.callers[c].Colliding?
    ensures Inv(Step(w, Proceed(c, fate), w.clock, how), how)
  {
    PeekClaims(w, c, fate, how);
    IdBound(w, how, w.callers[c].key);
    hide Claims;
    assert forall i :: 0 <= i < |w.replies| ==> OnRecord(w, w.replies[i]);
  }

  lemma IdBound(w: World, how: Setting, k: Key)
    requires Claims(w, how)
    ensures k in w.rows ==> w.rows[k].id < w.nextId
  {
  }

  lemma FinishClaims(w: World, c: nat, fate: Fate, how: Setting)
    requires Claims(w, how) && Live(w, c, how) && !fate.Unacknowledged?
    ensures Claims(Step(w, Proceed(c, fate), w.clock, how), how)
    ensures Owns(w, c)
  {
    var v := Step(w, Proceed(c, fate), w.clock, how);
    assert forall d :: Live(v, d, how) ==> Live(w, d, how) && d != c && w.callers[d].key != w.callers[c].key;
  }

  lemma FinishKeeps(w: World, c: nat, fate: Fate, how: Setting)
    requires Inv(w, how) && Live(w, c, how) && !fate.Unacknowledged?
    ensures Inv(Step(w, Proceed(c, fate), w.clock, how), how)
  {
    hide Claims;
    FinishClaims(w, c, fate, how);
    var k := w.callers[c].key;
    assert forall i :: 0 <= i < |w.replies| ==> OnRecord(w, w.replies[i]) && w.replies[i].key != k;
  }

  lemma NoneCleaning(w: World, c: nat, how: Setting)
    requires Inv(w, how) && c in w.callers
    ensures !w.callers[c].Cleaning?
  {
  }

  lemma LivePatience(w: World, c: nat, how: Setting)
    requires Inv(w, how) && Live(w, c, how)
    ensures how.patience >= 0
  {
  }

  lemma StepKeeps(w: World, e: Event, now: int, how: Setting)
    requires Inv(w, how) && Sound(how)
    ensures Inv(Step(w, e, now, how), how)
  {
    hide Inv;
    if w.clock <= now {
      ClockKeeps(w, now, how);
      var v := w.(clock := now);
      match e {
        case Arrive(c, k, fp) =>
          if c !in v.callers { ArriveKeeps(v, c, k, fp, how); }
        case Crash(c) => LeaveKeeps(v, c, how);
        case Proceed(c, fate) =>
          if c in v.callers {
            NoneCleaning(v, c, how);
            match v.callers[c] {
              case Colliding(_, _) => PeekKeeps(v, c, fate, how);
              case Waiting(_, _, _) => TakeOverKeeps(v, c, fate, how);
              case Running(_, _, _, since) =>
                if now > since + how.patience {
                  LeaveKeeps(v, c, how);
                } else if fate.Unacknowledged? {
                  LivePatience(v, c, how);
                } else {
                  FinishKeeps(v, c, fate, how);
                }
            }
          }
      }
    }
  }

  lemma {:induction false} RunKeeps(es: seq<(Event, int)>, how: Setting)
    requires Sound(how)
    ensures Inv(Run(es, how), how)
  {
    if es != [] {
      RunKeeps(es[..|es| - 1], how);
      StepKeeps(Run(es[..|es| - 1], how), es[|es| - 1].0, es[|es| - 1].1, how);
    }
  }

  // ---------------------------------------------------------------------
  // Guarantees
  // ---------------------------------------------------------------------

  /** At most one caller per key is running at once. */
  lemma OneRunnerPerKey(es: seq<(Event, int)>, how: Setting, c: nat, d: nat)
    requires Sound(how)
    requires var w := Run(es, how); Live(w, c, how) && Live(w, d, how) && w.callers[c].key == w.callers[d].key
    ensures c == d
  {
    RunKeeps(es, how);
  }

  /** Succeeded and failed rows never change and never go away. */
  lemma {:induction false} FinalRowsNeverChange(es: seq<(Event, int)>, more: seq<(Event, int)>, how: Setting, k: Key)
    requires Sound(how)
    requires k in Run(es, how).rows && Run(es, how).rows[k].status.Final?
    ensures k in Run(es + more, how).rows && Run(es + more, how).rows[k] == Run(es, how).rows[k]
  {
    if more == [] {
      assert es + more == es;
    } else {
      var n := |more| - 1;
      FinalRowsNeverChange(es, more[..n], how, k);
      assert (es + more)[..|es + more| - 1] == es + more[..n];
      RunKeeps(es + more[..n], how);
      FinalRowStep(Run(es + more[..n], how), more[n].0, more[n].1, how, k);
    }
  }

  lemma FinalRowStep(w: World, e: Event, now: int, how: Setting, k: Key)
    requires Inv(w, how) && k in w.rows && w.rows[k].status.Final?
    ensures var v := Step(w, e, now, how); k in v.rows && v.rows[k] == w.rows[k]
  {
    if e.Proceed? && e.c in w.callers && w.callers[e.c].Running?
       && w.clock <= now <= w.callers[e.c].since + how.patience
    {
      assert Live(w, e.c, how);
      assert Owns(w, e.c);
    }
  }

  /** Two final answers for one key agree in outcome and fingerprint, and one at most was executed. */
  ghost predicate Agrees(replies: seq<Reply>) {
    forall i, j :: 0 <= i < j < |replies| && replies[i].key == replies[j].key ==>
      replies[i].outcome == replies[j].outcome && replies[i].fp == replies[j].fp
      && !(replies[i].executed && replies[j].executed)
  }

  ghost predicate Safe(how: Setting) {
    forall es :: Agrees(Run(es, how).replies)
  }

  /**
   * All callers that get a final answer for one key get the same one, across crashes, failed
   * records, deletes and takeovers, exactly when no caller records later than the takeover
   * time allows and none takes a record that got through for a failed one.
   */
  lemma SafeExactlyWithinTakeover(how: Setting)
    ensures Safe(how) <==> Sound(how)
  {
    if Sound(how) {
      forall es ensures Agrees(Run(es, how).replies) {
        RunKeeps(es, how);
        var w := Run(es, how);
        assert forall i :: 0 <= i < |w.replies| ==> OnRecord(w, w.replies[i]);
      }
    } else {
      var es: seq<(Event, int)>;
      if how.patience > TAKEOVER_MS {
        es := SlowCallerRun(how);
      } else {
        es := LostAckRun(how);
      }
      assert !Agrees(Run(es, how).replies);
    }
  }

  /**
   * A record whose acknowledgement is lost: another caller replays it, the clean-up deletes
   * it, and a third caller runs the operation again.
   */
  lemma LostAckRun(how: Setting) returns (es: seq<(Event, int)>)
    requires how.lostAcks && how.patience >= 0
    ensures !Agrees(Run(es, how).replies)
  {
    var e3 := ReplayedRun(how);
    hide Run;
    var rows := map[7 := Row(0, 9, Final(Ok(1)), 0)];
    var w3 := World(rows, map[0 := Cleaning(7, 9, 0)], [Reply(7, 9, Ok(1), false)], 0, 1);
    var cleanup, arrive, again :=
        Proceed(0, Unacknowledged(1, true)), Arrive(2, 7, 9), Proceed(2, Succeeds(2, true, true));
    OneMore(e3, cleanup, 0, how);
    OneMore(e3 + [(cleanup, 0)], arrive, 0, how);
    es := e3 + [(cleanup, 0)] + [(arrive, 0)] + [(again, 0)];
    OneMore(e3 + [(cleanup, 0)] + [(arrive, 0)], again, 0, how);
    var w4 := Step(w3, cleanup, 0, how);
    assert w4.rows == map[] && w4.callers == map[];
    var w5 := Step(w4, arrive, 0, how);
    assert w5.rows == map[7 := Row(1, 9, Processing, 0)] && w5.callers == map[2 := Running(7, 9, 1, 0)];
    var w6 := Step(w5, again, 0, how);
    assert w6.replies == [Reply(7, 9, Ok(1), false), Reply(7, 9, Ok(2), true)];
    assert w6.replies[0].key == w6.replies[1].key;
  }

  /** The first half of it, up to the replay. */
  lemma ReplayedRun(how: Setting) returns (es: seq<(Event, int)>)
    requires how.lostAcks && how.patience >= 0
    ensures Run(es, how)
            == World(map[7 := Row(0, 9, Final(Ok(1)), 0)], map[0 := Cleaning(7, 9, 0)],
                     [Reply(7, 9, Ok(1), false)], 0, 1)
  {
    var first, lost := Arrive(0, 7, 9), Proceed(0, Unacknowledged(1, true));
    var other, replay := Arrive(1, 7, 9), Proceed(1, Succeeds(1, true, true));
    assert Run([], how) == START;
    hide Run;
    OneMore([], first, 0, how);
    OneMore([] + [(first, 0)], lost, 0, how);
    OneMore([] + [(first, 0)] + [(lost, 0)], other, 0, how);
    OneMore([] + [(first, 0)] + [(lost, 0)] + [(other, 0)], replay, 0, how);
    var w1 := Step(START, first, 0, how);
    assert w1 == World(map[7 := Row(0, 9, Processing, 0)], map[0 := Running(7, 9, 0, 0)], [], 0, 1);
    var w2 := Step(w1, lost, 0, how);
    assert w2 == World(map[7 := Row(0, 9, Final(Ok(1)), 0)], map[0 := Cleaning(7, 9, 0)], [], 0, 1);
    var w3 := Step(w2, other, 0, how);
    assert w3.callers == map[0 := Cleaning(7, 9, 0), 1 := Colliding(7, 9)];
    var w4 := Step(w3, replay, 0, how);
    assert w4.callers == map[0 := Cleaning(7, 9, 0)];
    es := [] + [(first, 0)] + [(lost, 0)] + [(other, 0)] + [(replay, 0)];
  }

  lemma OneMore(es: seq<(Event, int)>, e: Event, now: int, how: Setting)
    ensures Run(es + [(e, now)], how) == Step(Run(es, how), e, now, how)
  {
    hide Step;
    assert (es + [(e, now)])[..|es|] == es;
  }

  /** A caller one millisecond too slow: its record overwrites that of the caller who took over. */
  lemma SlowCallerRun(how: Setting) returns (es: seq<(Event, int)>)
    requires how.patience > TAKEOVER_MS
    ensures !Agrees(Run(es, how).replies)
  {
    var late := TAKEOVER_MS + 1;
    var first := (Proceed(0, Succeeds(2, true, true)), late);
    var second := (Proceed(1, Succeeds(1, true, true)), late);
    var e0: seq<(Event, int)> := [(Arrive(0, 7, 9), 0)];
    var e1 := e0 + [(Arrive(1, 7, 9), late)];
    var e2 := e1 + [second];
    var e3 := e2 + [second];
    var e4 := e3 + [second];
    es := e4 + [first];
    assert e0[..0] == [] && e1[..1] == e0 && e2[..2] == e1 && e3[..3] == e2 && e4[..4] == e3 && es[..5] == e4;
    var slow := Running(7, 9, 0, 0);
    var rows := map[7 := Row(0, 9, Processing, 0)];
    assert Run(e0[..0], how) == START;
    assert Run(e0, how) == World(rows, map[0 := slow], [], 0, 1);
    assert Run(e1, how) == World(rows, map[0 := slow, 1 := Colliding(7, 9)], [], late, 1);
    assert Run(e2, how) == World(rows, map[0 := slow, 1 := Waiting(7, 9, 0)], [], late, 1);
    assert Run(e3, how)
           == World(map[7 := Row(0, 9, Processing, late)], map[0 := slow, 1 := Running(7, 9, 0, late)], [], late, 1);
    assert Run(e4, how).replies == [Reply(7, 9, Ok(1), true)];
    assert Run(e4, how).callers == map[0 := slow];
    var w5 := Run(es, how);
    assert w5.replies == [Reply(7, 9, Ok(1), true), Reply(7, 9, Ok(2), true)];
    assert w5.replies[0].key == w5.replies[1].key;
  }

  // ---------------------------------------------------------------------
  // The service, statement by statement
  // ---------------------------------------------------------------------

  datatype Answer = Returned(outcome: Outcome) | Threw | KeyReused | RequestInProgress

  /**
   * What a caller that ran answers, and what stands under its key afterwards: the outcome it
   * recorded, its claim, or nothing.
   */
  ghost predicate Ends(
      rows: map<Key, Row>, k: Key, id: nat, fp: Fingerprint, now: int, fate: Fate, answer: Answer)
  {
    match fate
    case Succeeds(r, recorded, deleted) =>
      if recorded then answer == Returned(Ok(r)) && Stands(rows, k, Row(id, fp, Final(Ok(r)), now))
      else answer == Threw && if deleted then k !in rows else Stands(rows, k, Row(id, fp, Processing, now))
    case FailsFinal(code, recorded) =>
      if recorded then answer == Returned(Error(code)) && Stands(rows, k, Row(id, fp, Final(Error(code)), now))
      else answer == Threw && Stands(rows, k, Row(id, fp, Processing, now))
    case FailsOtherwise(deleted) =>
      answer == Threw && if deleted then k !in rows else Stands(rows, k, Row(id, fp, Processing, now))
    case Unacknowledged(r, deleted) =>
      answer == Threw && if deleted then k !in rows else Stands(rows, k, Row(id, fp, Final(Ok(r)), now))
    case Dies(o) => answer == Threw && Stands(rows, k, Row(id, fp, Final(o), now))
  }

  predicate Stands(rows: map<Key, Row>, k: Key, row: Row) {
    k in rows && rows[k] == row
  }

  /** A caller alone from its arrival on: it proceeds until it is gone. */
  function Alone(w: World, c: nat, k: Key, fp: Fingerprint, now: int, fate: Fate, how: Setting): World {
    var go := Proceed(c, fate);
    Step(Step(Step(Step(w, Arrive(c, k, fp), now, how), go, now, how), go, now, how), go, now, how)
  }

  /** What a caller was told, by the reply it got. */
  function Told(before: World, after: World): Answer {
    if |after.replies| > |before.replies| then Returned(after.replies[|after.replies| - 1].outcome) else Threw
  }

  /**
   * Alone, a caller runs exactly when its key is free or the claim there looks dead, and then
   * ends as its operation does; otherwise it gets a final row's outcome or nothing, and
   * changes no row.
   */
  lemma AloneEnds(w: World, c: nat, k: Key, fp: Fingerprint, now: int, fate: Fate, how: Setting)
    requires w.clock <= now && c !in w.callers && how.patience >= 0 && !fate.Unacknowledged?
    ensures var v := Alone(w, c, k, fp, now, fate, how);
            var dead := k in w.rows && w.rows[k].fingerprint == fp && w.rows[k].status == Processing
                        && w.rows[k].updatedAt < now - TAKEOVER_MS;
            && v.callers == w.callers
            && (k !in w.rows || dead ==>
                  Ends(v.rows, k, if k in w.rows then w.rows[k].id else w.nextId, fp, now, fate, Told(w, v)))
            && (k in w.rows && !dead ==>
                  && v.rows == w.rows
                  && Told(w, v) == if w.rows[k].fingerprint == fp && w.rows[k].status.Final?
                                   then Returned(w.rows[k].status.outcome) else Threw)
  {
    var go := Proceed(c, fate);
    var w1 := Step(w, Arrive(c, k, fp), now, how);
    if k !in w.rows {
      assert w1.callers == w.callers[c := Running(k, fp, w.nextId, now)];
      assert w1.rows == w.rows[k := Row(w.nextId, fp, Processing, now)];
      RunningEnds(w1, c, now, fate, how);
      var w2 := Step(w1, go, now, how);
      assert w2.callers == w.callers;
      GoneStays(w2, c, now, fate, how);
    } else {
      assert w1 == w.(clock := now, callers := w.callers[c := Colliding(k, fp)]);
      var w2 := Step(w1, go, now, how);
      if Peek(w.rows, k, fp).InProgress? {
        assert w2 == w1.(callers := w1.callers[c := Waiting(k, fp, w.rows[k].id)]);
        var w3 := Step(w2, go, now, how);
        if TakeOver(w.rows, k, fp, w.rows[k].id, now).1 {
          assert w3.callers == w.callers[c := Running(k, fp, w.rows[k].id, now)];
          RunningEnds(w3, c, now, fate, how);
        } else {
          assert w3.callers == w.callers;
          GoneStays(w3, c, now, fate, how);
        }
      } else {
        assert w2.callers == w.callers;
        GoneStays(w2, c, now, fate, how);
      }
    }
  }

  lemma GoneStays(w: World, c: nat, now: int, fate: Fate, how: Setting)
    requires c !in w.callers && w.clock == now
    ensures Step(w, Proceed(c, fate), now, how) == w
  {
  }

  lemma RunningEnds(w: World, c: nat, now: int, fate: Fate, how: Setting)
    requires c in w.callers && w.callers[c].Running? && w.clock == now == w.callers[c].since
    requires how.patience >= 0 && !fate.Unacknowledged?
    requires Owns(w, c)
    ensures var v := Step(w, Proceed(c, fate), now, how); var Running(k, fp, id, since) := w.callers[c];
            v.callers == w.callers - {c} && v.clock == now && Ends(v.rows, k, id, fp, now, fate, Told(w, v))
            && |v.replies| >= |w.replies|
  {
  }

  // ---------------------------------------------------------------------
  // Replies and records
  // ---------------------------------------------------------------------

  /** The operation ended with this outcome, and it was recorded. */
  predicate Earns(fate: Fate, o: Outcome) {
    match fate
    case Succeeds(r, recorded, _) => recorded && o == Ok(r)
    case FailsFinal(code, recorded) => recorded && o == Error(code)
    case FailsOtherwise(_) => false
    case Unacknowledged(r, _) => o == Ok(r)
    case Dies(outcome) => o == outcome
  }

  /** In this step a caller that was running for the key ends with this outcome and records it. */
  predicate Records(w: World, e: Event, k: Key, fp: Fingerprint, o: Outcome) {
    && e.Proceed? && e.c in w.callers && w.callers[e.c].Running?
    && w.callers[e.c].key == k && w.callers[e.c].fp == fp && Earns(e.fate, o)
  }

  ghost predicate RecordedAt(es: seq<(Event, int)>, how: Setting, m: int, k: Key, o: Outcome) {
    0 <= m < |es| && exists fp :: Records(Run(es[..m], how), es[m].0, k, fp, o)
  }

  lemma FinalFrom(w: World, e: Event, now: int, how: Setting, k: Key)
    requires var v := Step(w, e, now, how); k in v.rows && v.rows[k].status.Final?
    ensures var o := Step(w, e, now, how).rows[k].status.outcome;
            (k in w.rows && w.rows[k].status == Final(o)) || exists fp :: Records(w, e, k, fp, o)
  {
    var o := Step(w, e, now, how).rows[k].status.outcome;
    if !(k in w.rows && w.rows[k].status == Final(o)) {
      assert Records(w, e, k, w.callers[e.c].fp, o);
    }
  }

  /** Every final row was recorded by a run of an operation for its key. */
  lemma {:induction false} FinalIsRecorded(es: seq<(Event, int)>, how: Setting, k: Key)
    requires k in Run(es, how).rows && Run(es, how).rows[k].status.Final?
    ensures exists m :: RecordedAt(es, how, m, k, Run(es, how).rows[k].status.outcome)
  {
    var n := |es| - 1;
    var before, o := es[..n], Run(es, how).rows[k].status.outcome;
    FinalFrom(Run(before, how), es[n].0, es[n].1, how, k);
    if k in Run(before, how).rows && Run(before, how).rows[k].status == Final(o) {
      FinalIsRecorded(before, how, k);
      var m :| RecordedAt(before, how, m, k, o);
      assert before[..m] == es[..m];
      assert RecordedAt(es, how, m, k, o);
    } else {
      assert RecordedAt(es, how, n, k, o);
    }
  }

  /** An executed answer is the outcome with which its own caller ended, given when it ended. */
  ghost predicate OwnReply(es: seq<(Event, int)>, how: Setting, m: int, i: nat, r: Reply) {
    && 0 <= m < |es| && Records(Run(es[..m], how), es[m].0, r.key, r.fp, r.outcome)
    && |Run(es[..m], how).replies| == i
  }

  /** A reply given in this step. */
  lemma ReplyFrom(w: World, e: Event, now: int, how: Setting)
    ensures var v := Step(w, e, now, how);
            || v.replies == w.replies
            || (|v.replies| == |w.replies| + 1 && v.replies[..|w.replies|] == w.replies
                && var r := v.replies[|w.replies|];
                   && (r.executed ==> Records(w, e, r.key, r.fp, r.outcome))
                   && (!r.executed ==> r.key in w.rows && w.rows[r.key].status == Final(r.outcome)
                                       && w.rows[r.key].fingerprint == r.fp))
  {
  }

  /**
   * In every run each final answer is the outcome of an operation that was run for its key
   * and recorded: the caller's own when it executed, an earlier one's when it is a replay.
   */
  lemma {:induction false} RepliesAreEarned(es: seq<(Event, int)>, how: Setting, i: nat)
    requires i < |Run(es, how).replies|
    ensures var r := Run(es, how).replies[i];
            && (r.executed ==> exists m :: OwnReply(es, how, m, i, r))
            && exists m :: RecordedAt(es, how, m, r.key, r.outcome)
  {
    var n := |es| - 1;
    var before := es[..n];
    var w, v := Run(before, how), Run(es, how);
    var r := v.replies[i];
    ReplyFrom(w, es[n].0, es[n].1, how);
    if i < |w.replies| {
      assert w.replies[i] == r;
      RepliesAreEarned(before, how, i);
      var m :| RecordedAt(before, how, m, r.key, r.outcome);
      assert before[..m] == es[..m];
      assert RecordedAt(es, how, m, r.key, r.outcome);
      if r.executed {
        var own :| OwnReply(before, how, own, i, r);
        assert before[..own] == es[..own];
        assert OwnReply(es, how, own, i, r);
      }
    } else if r.executed {
      assert OwnReply(es, how, n, i, r);
      assert RecordedAt(es, how, n, r.key, r.outcome);
    } else {
      FinalIsRecorded(before, how, r.key);
      var m :| RecordedAt(before, how, m, r.key, r.outcome);
      assert before[..m] == es[..m];
      assert RecordedAt(es, how, m, r.key, r.outcome);
    }
  }

  class KeyTable {
    var rows: map<Key, Row>
    var nextId: nat

    constructor ()
      ensures rows == map[] && nextId == 0
    {
      rows, nextId := map[], 0;
    }

    /**
     * One call that no other call interrupts. `fate` is what the operation would
     * do; it matters only when this caller gets to run it.
     */
    method Execute(k: Key, fp: Fingerprint, now: int, fate: Fate) returns (answer: Answer, ran: bool)
      modifies this
      ensures ran <==> k !in old(rows) || (old(rows)[k].fingerprint == fp && old(rows)[k].status == Processing
                                           && old(rows)[k].updatedAt < now - TAKEOVER_MS)
      ensures !ran ==> rows == old(rows)
      ensures !ran ==>
                (answer == if old(rows)[k].fingerprint != fp then KeyReused
                           else if old(rows)[k].status.Final? then Returned(old(rows)[k].status.outcome)
                           else RequestInProgress)
      ensures forall j :: j != k ==> (j in rows <==> j in old(rows)) && (j in rows ==> rows[j] == old(rows)[j])
      ensures ran && answer.Returned? ==>
                k in rows && rows[k].status == Final(answer.outcome) && rows[k].fingerprint == fp
      ensures ran && !answer.Returned? ==> answer == Threw
      ensures ran ==>
                Ends(rows, k, if k in old(rows) then old(rows)[k].id else old(nextId), fp, now, fate, answer)
      ensures nextId == old(nextId) + (if k in old(rows) then 0 else 1)
    {
      var id := nextId;
      if k !in rows {
        rows := rows[k := Row(id, fp, Processing, now)];
        nextId := nextId + 1;
      } else {
        var existing := rows[k];
        if existing.fingerprint != fp {
          return KeyReused, false;
        }
        if existing.status.Final? {
          return Returned(existing.status.outcome), false;
        }
        if !(existing.updatedAt < now - TAKEOVER_MS) {
          return RequestInProgress, false;
        }
        rows := rows[k := existing.(fingerprint := fp, updatedAt := now)];
        id := existing.id;
      }
      ran := true;
      var settled := Record(k, id, now, fate);
      answer := if settled.Some? then Returned(settled.value) else Threw;
    }

    /** The try block's update, or the catch block's update or delete. */
    method Record(k: Key, id: nat, now: int, fate: Fate) returns (out: Option<Outcome>)
      modifies this`rows
      ensures (rows, out) == Finish(old(rows), k, id, now, fate)
    {
      match fate {
        case Succeeds(r, recorded, deleted) =>
          if recorded && Present(rows, k, id) {
            rows := rows[k := rows[k].(status := Final(Ok(r)), updatedAt := now)];
            return Some(Ok(r));
          }
          if deleted && Present(rows, k, id) {
            rows := rows - {k};
          }
        case FailsFinal(code, recorded) =>
          if recorded && Present(rows, k, id) {
            rows := rows[k := rows[k].(status := Final(Error(code)), updatedAt := now)];
            return Some(Error(code));
          }
        case FailsOtherwise(deleted) =>
          if deleted && Present(rows, k, id) {
            rows := rows - {k};
          }
        case Unacknowledged(r, deleted) =>
          if Present(rows, k, id) {
            rows := rows[k := rows[k].(status := Final(Ok(r)), updatedAt := now)];
            if deleted {
              rows := rows - {k};
              assert rows == old(rows) - {k};
            }
          }
        case Dies(o) =>
          if Present(rows, k, id) {
            rows := rows[k := rows[k].(status := Final(o), updatedAt := now)];
          }
      }
      out := None;
    }
  }
}
