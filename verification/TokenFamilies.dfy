/**
 * Refresh-token families of auth.service.ts. A session row belongs to a family named after
 * its first session; rotation makes a child of the presented session. Secrets are opaque
 * and new ids and secrets are arguments. Each transaction is one step.
 */
module TokenFamilies {
  import opened Wrappers

  datatype Status = Active | Rotated | Revoked | Expired | Compromised

  datatype Session = Session(
    user: int, secret: int, family: nat, parent: Option<nat>, status: Status, expiresAt: int)

  type Sessions = map<nat, Session>

  /** What the client holds. */
  datatype Token = Token(session: nat, secret: int)

  datatype Outcome = Rotation | Invalid | Reused | NotActive | TooOld | DuplicateId

  datatype Event =
    | SignIn(id: nat, user: int, secret: int, expiresAt: int)
    | Refresh(token: Token, now: int, newId: nat, newSecret: int, newExpiry: int)
    | Logout(session: nat)
    | PasswordReset(user: int)

  // ---------------------------------------------------------------------
  // Steps
  // ---------------------------------------------------------------------

  /** createSession; the primary key refuses an id in use. */
  function SignedIn(m: Sessions, id: nat, user: int, secret: int, expiresAt: int): Sessions {
    if id in m then m else m[id := Session(user, secret, id, None, Active, expiresAt)]
  }

  /** The active sessions of a family get another status. */
  function FamilyClosed(m: Sessions, family: nat): Sessions {
    map id | id in m ::
      if m[id].family == family && m[id].status == Active then m[id].(status := Compromised) else m[id]
  }

  function Refreshed(m: Sessions, token: Token, now: int, newId: nat, newSecret: int, newExpiry: int)
    : (Sessions, Outcome)
  {
    if token.session !in m || m[token.session].secret != token.secret then (m, Invalid)
    else
      var s := m[token.session];
      if s.status == Rotated then (FamilyClosed(m, s.family), Reused)
      else if s.status != Active then (m, NotActive)
      else if s.expiresAt <= now then (m[token.session := s.(status := Expired)], TooOld)
      else if newId in m then (m, DuplicateId)
      else
        (RotatedTo(m, token.session, newId, newSecret, newExpiry), Rotation)
  }

  /** The presented session gives way to its child. */
  function RotatedTo(m: Sessions, id: nat, newId: nat, secret: int, expiry: int): Sessions
    requires id in m
  {
    var s := m[id];
    m[id := s.(status := Rotated)][newId := Session(s.user, secret, s.family, Some(id), Active, expiry)]
  }

  function LoggedOut(m: Sessions, id: nat): Sessions {
    if id in m && m[id].status == Active then m[id := m[id].(status := Revoked)] else m
  }

  function UserClosed(m: Sessions, user: int): Sessions {
    map id | id in m :: if m[id].user == user && m[id].status == Active then m[id].(status := Revoked) else m[id]
  }

  function Step(m: Sessions, e: Event): Sessions {
    match e
    case SignIn(id, user, secret, expiresAt) => SignedIn(m, id, user, secret, expiresAt)
    case Refresh(token, now, newId, newSecret, newExpiry) => Refreshed(m, token, now, newId, newSecret, newExpiry).0
    case Logout(session) => LoggedOut(m, session)
    case PasswordReset(user) => UserClosed(m, user)
  }

  function After(m: Sessions, events: seq<Event>): Sessions
    decreases |events|
  {
    if events == [] then m else After(Step(m, events[0]), events[1..])
  }

  // ---------------------------------------------------------------------
  // Families are chains
  // ---------------------------------------------------------------------

  /**
   * The list is the family: its first session gave it its name, each later one is the child
   * of the one before, and all but the last are rotated.
   */
  ghost predicate Chain(m: Sessions, family: nat, list: seq<nat>) {
    ChainRows(m, family, list) && ChainLinks(m, family, list)
  }

  /** The list holds the family's sessions, each once, all rotated except the last. */
  ghost predicate ChainRows(m: Sessions, family: nat, list: seq<nat>) {
    && |list| > 0 && list[0] == family
    && (forall i :: 0 <= i < |list| ==> list[i] in m && m[list[i]].family == family)
    && (forall i :: 0 <= i < |list| ==> (m[list[i]].status == Rotated <==> i < |list| - 1))
    && (forall i, j :: 0 <= i < j < |list| ==> list[i] != list[j])
    && (forall id :: id in m && m[id].family == family ==> id in list)
  }

  ghost predicate ChainLinks(m: Sessions, family: nat, list: seq<nat>)
    requires ChainRows(m, family, list)
  {
    && m[family].parent == None
    && (forall i, j :: 0 <= i < j < |list| && j == i + 1 ==> m[list[j]].parent == Some(list[i]))
  }

  ghost predicate HasChain(m: Sessions, family: nat) {
    exists list :: Chain(m, family, list)
  }

  ghost predicate Families(m: Sessions) {
    forall id :: id in m ==> HasChain(m, m[id].family)
  }

  /** Statuses changed without rotating anything; nothing else did. */
  ghost predicate Restated(m: Sessions, m': Sessions) {
    && m'.Keys == m.Keys
    && forall id :: id in m ==>
         && m'[id] == m[id].(status := m'[id].status)
         && (m'[id].status == Rotated <==> m[id].status == Rotated)
  }

  lemma RestatedKeeps(m: Sessions, m': Sessions)
    requires Families(m) && Restated(m, m')
    ensures Families(m')
  {
    forall id | id in m' ensures HasChain(m', m'[id].family) {
      assert HasChain(m, m[id].family);
      var list :| Chain(m, m[id].family, list);
      assert Chain(m', m[id].family, list);
    }
  }

  lemma SignInKeeps(m: Sessions, id: nat, user: int, secret: int, expiresAt: int)
    requires Families(m)
    ensures Families(SignedIn(m, id, user, secret, expiresAt))
  {
    if id !in m {
      var after := SignedIn(m, id, user, secret, expiresAt);
      assert forall x :: x in m ==> m[x].family != id by {
        forall x | x in m ensures m[x].family != id {
          assert HasChain(m, m[x].family);
          var list :| Chain(m, m[x].family, list);
          assert list[0] in m;
        }
      }
      forall x | x in after ensures HasChain(after, after[x].family) {
        if x == id {
          assert Chain(after, id, [id]);
        } else {
          assert HasChain(m, m[x].family);
          var list :| Chain(m, m[x].family, list);
          assert Chain(after, m[x].family, list);
        }
      }
    }
  }

  lemma RotatedToIs(m: Sessions, id: nat, newId: nat, secret: int, expiry: int)
    requires id in m && newId !in m
    ensures var after := RotatedTo(m, id, newId, secret, expiry);
            && after.Keys == m.Keys + {newId}
            && (forall x :: x in m && x != id ==> after[x] == m[x])
            && after[id] == m[id].(status := Rotated)
            && after[newId] == Session(m[id].user, secret, m[id].family, Some(id), Active, expiry)
  {
  }

  lemma GrownChain(m: Sessions, id: nat, newId: nat, secret: int, expiry: int, list: seq<nat>)
    requires id in m && m[id].status == Active && newId !in m && Chain(m, m[id].family, list)
    ensures Chain(RotatedTo(m, id, newId, secret, expiry), m[id].family, list + [newId])
  {
    RotatedToIs(m, id, newId, secret, expiry);
    hide RotatedTo;
    assert id in list;
    assert list[|list| - 1] == id;
    ChainSnoc(m, RotatedTo(m, id, newId, secret, expiry), m[id].family, list, newId);
  }

  /** One more session below the last, which is rotated; nothing else changes. */
  ghost predicate Appended(m: Sessions, after: Sessions, family: nat, last: nat, newId: nat) {
    && last in m && newId !in m && after.Keys == m.Keys + {newId}
    && (forall x :: x in m && x != last ==> after[x] == m[x]) && after[last] == m[last].(status := Rotated)
    && after[newId].family == family && after[newId].parent == Some(last) && after[newId].status != Rotated
  }

  lemma ChainSnoc(m: Sessions, after: Sessions, family: nat, list: seq<nat>, newId: nat)
    requires Chain(m, family, list) && Appended(m, after, family, list[|list| - 1], newId)
    ensures Chain(after, family, list + [newId])
  {
    RowsSnoc(m, after, family, list, newId);
    hide ChainRows;
    LinksSnoc(m, after, family, list, newId);
  }

  lemma RowsSnoc(m: Sessions, after: Sessions, family: nat, list: seq<nat>, newId: nat)
    requires ChainRows(m, family, list) && Appended(m, after, family, list[|list| - 1], newId)
    ensures ChainRows(after, family, list + [newId])
  {
    var grown, n := list + [newId], |list|;
    assert forall i :: 0 <= i < n ==> grown[i] == list[i];
    assert forall i :: 0 <= i < n - 1 ==> after[list[i]] == m[list[i]];
  }

  lemma LinksSnoc(m: Sessions, after: Sessions, family: nat, list: seq<nat>, newId: nat)
    requires Chain(m, family, list) && Appended(m, after, family, list[|list| - 1], newId)
    requires ChainRows(after, family, list + [newId])
    ensures ChainLinks(after, family, list + [newId])
  {
    var grown, n := list + [newId], |list|;
    forall i, j | 0 <= i < j < |grown| && j == i + 1 ensures after[grown[j]].parent == Some(grown[i]) {
      assert j < n ==> m[list[j]].parent == Some(list[i]);
    }
  }

  lemma OtherChain(m: Sessions, id: nat, newId: nat, secret: int, expiry: int, family: nat, list: seq<nat>)
    requires id in m && newId !in m && family != m[id].family && Chain(m, family, list)
    ensures Chain(RotatedTo(m, id, newId, secret, expiry), family, list)
  {
    var after := RotatedTo(m, id, newId, secret, expiry);
    forall i | 0 <= i < |list| ensures list[i] in after && after[list[i]] == m[list[i]] {
    }
  }

  lemma RotationKeeps(m: Sessions, id: nat, newId: nat, secret: int, expiry: int)
    requires Families(m) && id in m && m[id].status == Active && newId !in m
    ensures Families(RotatedTo(m, id, newId, secret, expiry))
  {
    var f, after := m[id].family, RotatedTo(m, id, newId, secret, expiry);
    forall x | x in after ensures HasChain(after, after[x].family) {
      var from := if x == newId then id else x;
      assert after[x].family == m[from].family && HasChain(m, m[from].family);
      hide Chain;
      var list :| Chain(m, m[from].family, list);
      if m[from].family == f {
        GrownChain(m, id, newId, secret, expiry, list);
      } else {
        OtherChain(m, id, newId, secret, expiry, m[from].family, list);
      }
    }
  }

  lemma StepKeeps(m: Sessions, e: Event)
    requires Families(m)
    ensures Families(Step(m, e))
  {
    hide Families, HasChain, Chain, RotatedTo;
    match e {
      case SignIn(id, user, secret, expiresAt) =>
        SignInKeeps(m, id, user, secret, expiresAt);
      case Refresh(token, now, newId, newSecret, newExpiry) =>
        var (after, outcome) := Refreshed(m, token, now, newId, newSecret, newExpiry);
        if outcome == Rotation {
          RotationKeeps(m, token.session, newId, newSecret, newExpiry);
        } else {
          RestatedKeeps(m, after);
        }
      case _ =>
        RestatedKeeps(m, Step(m, e));
    }
  }

  /** In every run each family is one parent chain whose members are all rotated except the last. */
  lemma {:induction false} RunKeeps(m: Sessions, events: seq<Event>)
    requires Families(m)
    ensures Families(After(m, events))
    decreases |events|
  {
    if events != [] {
      StepKeeps(m, events[0]);
      RunKeeps(Step(m, events[0]), events[1..]);
    }
  }

  /** Hence at most one session of a family is active. */
  lemma OneActive(events: seq<Event>, a: nat, b: nat)
    requires var m := After(map[], events);
             a in m && b in m && m[a].family == m[b].family && m[a].status == Active && m[b].status == Active
    ensures a == b
  {
    var m := After(map[], events);
    RunKeeps(map[], events);
    assert HasChain(m, m[a].family);
    var list :| Chain(m, m[a].family, list);
    assert a in list && b in list;
  }

  // ---------------------------------------------------------------------
  // Reuse
  // ---------------------------------------------------------------------

  /** The family exists and none of its sessions is active. */
  ghost predicate Dead(m: Sessions, family: nat) {
    && family in m && forall id :: id in m && m[id].family == family ==> m[id].status != Active
  }

  lemma DeadStep(m: Sessions, e: Event, family: nat)
    requires Dead(m, family)
    ensures Dead(Step(m, e), family)
  {
  }

  lemma {:induction false} DeadStaysDead(m: Sessions, events: seq<Event>, family: nat)
    requires Dead(m, family)
    ensures Dead(After(m, events), family)
    decreases |events|
  {
    if events != [] {
      DeadStep(m, events[0], family);
      DeadStaysDead(Step(m, events[0]), events[1..], family);
    }
  }

  /**
   * Once a rotated token is presented, no session of its family is active at any later time,
   * whatever happens afterwards.
   */
  lemma ReuseEndsFamily(
      before: seq<Event>, token: Token, now: int, newId: nat, newSecret: int, newExpiry: int, later: seq<Event>)
    requires Refreshed(After(map[], before), token, now, newId, newSecret, newExpiry).1 == Reused
    ensures var m := After(map[], before);
            token.session in m &&
            Dead(After(After(map[], before + [Refresh(token, now, newId, newSecret, newExpiry)]), later),
                 m[token.session].family)
  {
    var e := Refresh(token, now, newId, newSecret, newExpiry);
    var m := After(map[], before);
    var f := m[token.session].family;
    RunKeeps(map[], before);
    assert HasChain(m, f);
    AfterSnoc(map[], before, e);
    assert Dead(Step(m, e), f);
    DeadStaysDead(Step(m, e), later, f);
  }

  lemma {:induction false} AfterSnoc(m: Sessions, events: seq<Event>, e: Event)
    ensures After(m, events + [e]) == Step(After(m, events), e)
    decreases |events|
  {
    if events == [] {
      assert events + [e] == [e] && [e][1..] == [];
    } else {
      AfterSnoc(Step(m, events[0]), events[1..], e);
      assert (events + [e])[1..] == events[1..] + [e];
    }
  }

  /** A rotated session stays rotated, with the same secret and family. */
  lemma {:induction false} RotatedForGood(m: Sessions, events: seq<Event>, id: nat)
    requires id in m && m[id].status == Rotated
    ensures id in After(m, events) && After(m, events)[id] == m[id]
    decreases |events|
  {
    if events != [] {
      RotatedForGood(Step(m, events[0]), events[1..], id);
    }
  }

  /**
   * A refresh token works at most once: presented again, at any later time of any run, it is
   * answered as reused and leaves its family without an active session.
   */
  lemma WorksOnce(m: Sessions, first: Event, between: seq<Event>, again: Event)
    requires first.Refresh? && again.Refresh? && again.token == first.token && Families(m)
    requires Refreshed(m, first.token, first.now, first.newId, first.newSecret, first.newExpiry).1 == Rotation
    ensures var m' := After(Step(m, first), between);
            && Refreshed(m', again.token, again.now, again.newId, again.newSecret, again.newExpiry).1 == Reused
            && Dead(Step(m', again), m[first.token.session].family)
  {
    var id := first.token.session;
    RotatedForGood(Step(m, first), between, id);
    StepKeeps(m, first);
    RunKeeps(Step(m, first), between);
    var m' := After(Step(m, first), between);
    assert HasChain(m', m'[id].family);
  }

  /** A family with an active session is exactly one whose last session is the active one. */
  lemma ActiveIsLast(m: Sessions, family: nat, list: seq<nat>)
    requires Chain(m, family, list)
    ensures Dead(m, family) <==> m[list[|list| - 1]].status != Active
  {
    if m[list[|list| - 1]].status != Active {
      forall id | id in m && m[id].family == family ensures m[id].status != Active {
        assert id in list;
      }
    }
  }

  /** The chain of a family is unique. */
  lemma {:induction false} ChainUnique(m: Sessions, family: nat, a: seq<nat>, b: seq<nat>, n: nat)
    requires Chain(m, family, a) && Chain(m, family, b) && n <= |a|
    ensures n <= |b| && a[..n] == b[..n]
  {
    if n > 0 {
      ChainUnique(m, family, a, b, n - 1);
      if n > 1 {
        assert a[n - 2] == a[..n - 1][n - 2] == b[..n - 1][n - 2] == b[n - 2];
      }
      SameNext(m, family, a, b, n - 1);
      hide Chain;
      assert a[..n] == a[..n - 1] + [a[n - 1]] && b[..n] == b[..n - 1] + [b[n - 1]];
    }
  }

  /** Two chains that agree on a session agree on the next one. */
  lemma SameNext(m: Sessions, family: nat, a: seq<nat>, b: seq<nat>, k: nat)
    requires Chain(m, family, a) && Chain(m, family, b) && k < |a|
    requires k > 0 ==> k <= |b| && a[k - 1] == b[k - 1]
    ensures k < |b| && a[k] == b[k]
  {
    assert a[k] in b;
    var j :| 0 <= j < |b| && b[j] == a[k];
    assert k > 0 ==> m[a[k]].parent == Some(a[k - 1]);
    assert j > 0 ==> m[b[j]].parent == Some(b[j - 1]);
    assert k > 0 ==> j - 1 == k - 1;
  }

  /** The token would be rotated. */
  predicate Usable(m: Sessions, token: Token, now: int) {
    && token.session in m && m[token.session].secret == token.secret
    && m[token.session].status == Active && m[token.session].expiresAt > now
  }

  /** The session exists and the secret is its own. */
  predicate Known(m: Sessions, token: Token) {
    token.session in m && m[token.session].secret == token.secret
  }

  /** The active sessions of the family are compromised; no other session changes. */
  ghost predicate Closes(m: Sessions, family: nat, after: Sessions) {
    && after.Keys == m.Keys
    && forall id :: id in m ==>
         if m[id].family == family && m[id].status == Active
         then after[id] == m[id].(status := Compromised) else after[id] == m[id]
  }

  /** The session gives way to a new active one of its user and family; no other changes. */
  ghost predicate Succeeds(m: Sessions, id: nat, newId: nat, secret: int, expiry: int, after: Sessions) {
    && id in m && newId !in m && after.Keys == m.Keys + {newId}
    && (forall x :: x in m && x != id ==> after[x] == m[x])
    && after[id] == m[id].(status := Rotated)
    && var s := after[newId];
       && s.user == m[id].user && s.family == m[id].family && s.parent == Some(id)
       && s.secret == secret && s.status == Active && s.expiresAt == expiry
  }

  /** A refresh rotates exactly the usable tokens. */
  lemma UsableRotates(m: Sessions, token: Token, now: int, newId: nat, newSecret: int, newExpiry: int)
    requires newId !in m
    ensures Refreshed(m, token, now, newId, newSecret, newExpiry).1 == Rotation <==> Usable(m, token, now)
  {
  }

  lemma SignInStarts(m: Sessions, id: nat, user: int, secret: int, expiresAt: int)
    ensures Families(m) ==> Families(SignedIn(m, id, user, secret, expiresAt))
    ensures Families(m) && id !in m ==> Chain(SignedIn(m, id, user, secret, expiresAt), id, [id])
  {
    if Families(m) {
      SignInKeeps(m, id, user, secret, expiresAt);
      if id !in m {
        forall x | x in m ensures m[x].family != id {
          NamedAfterMember(m, x);
        }
      }
    }
  }

  lemma LogOutKeeps(m: Sessions, id: nat)
    ensures Families(m) ==> Families(LoggedOut(m, id))
    ensures Families(m) && id in m && m[id].status == Active ==> Dead(LoggedOut(m, id), m[id].family)
  {
    if Families(m) {
      StepKeeps(m, Logout(id));
      if id in m {
        LogoutEndsFamilyExactly(m, id);
      }
    }
  }

  /** Logging out ends the session's family exactly when that session was active, or the family was dead already. */
  lemma LogoutEndsFamilyExactly(m: Sessions, id: nat)
    requires Families(m) && id in m
    ensures Dead(LoggedOut(m, id), m[id].family) <==> m[id].status == Active || Dead(m, m[id].family)
  {
    var f := m[id].family;
    assert HasChain(m, f);
    var list :| Chain(m, f, list);
    assert id in list;
    if m[id].status != Active {
      assert LoggedOut(m, id) == m;
    } else {
      forall x | x in m && m[x].family == f && x != id ensures m[x].status != Active {
        assert x in list;
      }
    }
  }

  /**
   * A password reset ends every family the user has at that moment, for good. It revokes
   * the user's active sessions and touches no other.
   */
  lemma ResetEndsFamilies(m: Sessions, user: int, later: seq<Event>, id: nat)
    requires SameUser(m) && id in m && m[id].user == user && m[id].family in m
    ensures Dead(After(UserClosed(m, user), later), m[id].family)
    ensures var reset := UserClosed(m, user);
            && reset.Keys == m.Keys
            && (forall x :: x in m && (m[x].user != user || m[x].status != Active) ==> reset[x] == m[x])
            && (m[id].status == Active ==> reset[id] == m[id].(status := Revoked))
  {
    DeadStaysDead(UserClosed(m, user), later, m[id].family);
  }

  /** The sessions of a family belong to one user. */
  ghost predicate SameUser(m: Sessions) {
    forall a, b :: a in m && b in m && m[a].family == m[b].family ==> m[a].user == m[b].user
  }

  lemma NamedAfterMember(m: Sessions, id: nat)
    requires Families(m) && id in m
    ensures m[id].family in m
  {
    assert HasChain(m, m[id].family);
  }

  lemma StepSameUser(m: Sessions, e: Event)
    requires Families(m) && SameUser(m)
    ensures SameUser(Step(m, e))
  {
    hide SameUser, Families, HasChain, RotatedTo;
    match e {
      case SignIn(id, user, secret, expiresAt) =>
        SignedInSameUser(m, id, user, secret, expiresAt);
      case Refresh(token, now, newId, newSecret, newExpiry) =>
        var (after, outcome) := Refreshed(m, token, now, newId, newSecret, newExpiry);
        if outcome == Rotation {
          RotatedSameUser(m, token.session, newId, newSecret, newExpiry);
        } else {
          RestatedSameUser(m, after);
        }
      case _ =>
        RestatedSameUser(m, Step(m, e));
    }
  }

  lemma SignedInSameUser(m: Sessions, id: nat, user: int, secret: int, expiresAt: int)
    requires Families(m) && SameUser(m)
    ensures SameUser(SignedIn(m, id, user, secret, expiresAt))
  {
    forall x | x in m ensures id in m || m[x].family != id {
      NamedAfterMember(m, x);
    }
  }

  lemma RestatedSameUser(m: Sessions, m': Sessions)
    requires SameUser(m) && Restated(m, m')
    ensures SameUser(m')
  {
  }

  lemma RotatedSameUser(m: Sessions, id: nat, newId: nat, secret: int, expiry: int)
    requires SameUser(m) && id in m && newId !in m
    ensures SameUser(RotatedTo(m, id, newId, secret, expiry))
  {
    RotatedToIs(m, id, newId, secret, expiry);
  }

  /** In every run a family has one user, and its name is the id of its first session. */
  lemma {:induction false} RunSameUser(m: Sessions, events: seq<Event>)
    requires Families(m) && SameUser(m)
    ensures SameUser(After(m, events)) && forall id :: id in After(m, events) ==>
            After(m, events)[id].family in After(m, events)
    decreases |events|
  {
    if events == [] {
      forall id | id in m ensures m[id].family in m {
        NamedAfterMember(m, id);
      }
    } else {
      hide Step, SameUser, Families;
      StepSameUser(m, events[0]);
      StepKeeps(m, events[0]);
      RunSameUser(Step(m, events[0]), events[1..]);
    }
  }

  // ---------------------------------------------------------------------
  // Reuse with a lock on the presented row alone
  // ---------------------------------------------------------------------

  /** The active sessions of a family. */
  function ActiveOf(m: Sessions, family: nat): set<nat> {
    set id | id in m && m[id].family == family && m[id].status == Active
  }

  /** The update of a reuse whose rows were found earlier: each is looked at again, none is added. */
  function SnapshotClosed(m: Sessions, family: nat, found: set<nat>): Sessions {
    map id | id in m ::
      if id in found && m[id].family == family && m[id].status == Active then m[id].(status := Compromised) else m[id]
  }

  /** With nothing in between it is the update of the reuse step. */
  lemma SnapshotAtOnce(m: Sessions, family: nat)
    ensures SnapshotClosed(m, family, ActiveOf(m, family)) == FamilyClosed(m, family)
  {
  }

  lemma {:induction false} ChainGrows(m: Sessions, events: seq<Event>, family: nat, list: seq<nat>)
    returns (longer: seq<nat>)
    requires Families(m) && Chain(m, family, list)
    ensures list <= longer && Chain(After(m, events), family, longer)
    decreases |events|
  {
    if events == [] {
      longer := list;
    } else {
      hide Chain, Families;
      StepKeeps(m, events[0]);
      var next := ChainStep(m, events[0], family, list);
      longer := ChainGrows(Step(m, events[0]), events[1..], family, next);
    }
  }

  lemma ChainStep(m: Sessions, e: Event, family: nat, list: seq<nat>) returns (longer: seq<nat>)
    requires Families(m) && Chain(m, family, list)
    ensures list <= longer && Chain(Step(m, e), family, longer)
  {
    longer := list;
    hide Families;
    match e {
      case SignIn(id, user, secret, expiresAt) =>
        SignInElsewhere(m, e, family, list);
      case Refresh(token, now, newId, newSecret, newExpiry) =>
        var (after, outcome) := Refreshed(m, token, now, newId, newSecret, newExpiry);
        if outcome == Rotation {
          if m[token.session].family == family {
            GrownChain(m, token.session, newId, newSecret, newExpiry, list);
            longer := list + [newId];
          } else {
            OtherChain(m, token.session, newId, newSecret, newExpiry, family, list);
          }
        } else {
          ChainRestated(m, after, family, list);
        }
      case _ =>
        ChainRestated(m, Step(m, e), family, list);
    }
  }

  lemma SignInElsewhere(m: Sessions, e: Event, family: nat, list: seq<nat>)
    requires e.SignIn? && Chain(m, family, list)
    ensures Chain(Step(m, e), family, list)
  {
    assert list[0] in m;
  }

  lemma ChainRestated(m: Sessions, m': Sessions, family: nat, list: seq<nat>)
    requires Restated(m, m') && Chain(m, family, list)
    ensures Chain(m', family, list)
  {
  }

  /** A session that is active later was active all along. */
  lemma {:induction false} ActiveBefore(m: Sessions, events: seq<Event>, id: nat)
    requires id in m
    ensures id in After(m, events) && (After(m, events)[id].status == Active ==> m[id].status == Active)
    ensures After(m, events)[id].family == m[id].family
    decreases |events|
  {
    if events != [] {
      ActiveBefore(Step(m, events[0]), events[1..], id);
    }
  }

  /**
   * If other transactions of the family come between the moment a reuse finds the active
   * sessions and the moment it closes them, it still ends the family exactly when none of
   * them added a session to it, or when the family has no active session left anyway.
   */
  lemma SnapshotReuseExactly(m: Sessions, between: seq<Event>, family: nat)
    requires Families(m) && family in m && HasChain(m, family)
    ensures var later := After(m, between);
            Dead(SnapshotClosed(later, family, ActiveOf(m, family)), family) <==>
            Dead(later, family) || forall id :: id in later && later[id].family == family ==> id in m
  {
    var later := After(m, between);
    var closed := SnapshotClosed(later, family, ActiveOf(m, family));
    ActiveBefore(m, between, family);
    if Dead(later, family) {
      assert forall id :: id in closed ==> closed[id].family == later[id].family;
    } else if forall id :: id in later && later[id].family == family ==> id in m {
      AllFound(m, between, family);
    } else {
      hide SnapshotClosed, After, Families, Chain, Dead;
      var list :| Chain(m, family, list);
      var longer := ChainGrows(m, between, family, list);
      AddedLast(m, between, family, list, longer);
      NotFound(later, family, ActiveOf(m, family), longer[|longer| - 1]);
    }
  }

  lemma AllFound(m: Sessions, between: seq<Event>, family: nat)
    requires family in m
    requires forall id :: id in After(m, between) && After(m, between)[id].family == family ==> id in m
    ensures Dead(SnapshotClosed(After(m, between), family, ActiveOf(m, family)), family)
  {
    ActiveBefore(m, between, family);
    var closed := SnapshotClosed(After(m, between), family, ActiveOf(m, family));
    forall id | id in closed && closed[id].family == family ensures closed[id].status != Active {
      ActiveBefore(m, between, id);
    }
  }

  lemma NotFound(m: Sessions, family: nat, found: set<nat>, id: nat)
    requires id in m && m[id].family == family && m[id].status == Active && id !in found
    ensures !Dead(SnapshotClosed(m, family, found), family)
  {
    assert SnapshotClosed(m, family, found)[id] == m[id];
  }

  /** The last session of a family that grew is new. */
  lemma AddedLast(m: Sessions, between: seq<Event>, family: nat, list: seq<nat>, longer: seq<nat>)
    requires Chain(m, family, list) && Chain(After(m, between), family, longer) && list <= longer
    requires !forall id :: id in After(m, between) && After(m, between)[id].family == family ==> id in m
    requires !Dead(After(m, between), family) && family in After(m, between)
    ensures var last := longer[|longer| - 1];
            last in After(m, between) && After(m, between)[last].family == family
            && After(m, between)[last].status == Active && last !in ActiveOf(m, family)
  {
    var later := After(m, between);
    var last := longer[|longer| - 1];
    ActiveIsLast(later, family, longer);
    assert forall i :: 0 <= i < |list| ==> longer[i] == list[i] && list[i] in m;
    var added :| added in later && later[added].family == family && added !in m;
    assert added in longer;
    var k :| 0 <= k < |longer| && longer[k] == added;
    assert k >= |list|;
    assert forall i :: 0 <= i < |list| ==> longer[i] != last;
    assert last !in list;
  }

  /** A refresh slips in between, and its new session survives the reuse. */
  lemma SnapshotReuseRun() returns (before: seq<Event>, between: seq<Event>)
    ensures var m := After(map[], before);
            && 0 in m && m[0].status == Rotated
            && !Dead(SnapshotClosed(After(m, between), 0, ActiveOf(m, 0)), 0)
  {
    var signIn, first := SignIn(0, 7, 1, 100), Refresh(Token(0, 1), 50, 1, 2, 100);
    var second := Refresh(Token(1, 2), 50, 2, 3, 100);
    before := [] + [signIn] + [first];
    between := [] + [second];
    AfterSnoc(map[], [], signIn);
    AfterSnoc(map[], [] + [signIn], first);
    var m := After(map[], before);
    assert m == map[0 := Session(7, 1, 0, None, Rotated, 100), 1 := Session(7, 2, 0, Some(0), Active, 100)];
    AfterSnoc(m, [], second);
    var later := After(m, between);
    assert later == Step(m, second);
    NotFound(later, 0, ActiveOf(m, 0), 2);
  }

  // ---------------------------------------------------------------------
  // The service
  // ---------------------------------------------------------------------

  class SessionTable {
    var sessions: Sessions

    constructor ()
      ensures sessions == map[]
    {
      sessions := map[];
    }

    /**
     * A sign-in starts a family of its own, with one active session and no parent, and leaves
     * every other session as it was; an id in use is refused.
     */
    method CreateSession(id: nat, user: int, secret: int, expiresAt: int)
      modifies this
      ensures sessions == SignedIn(old(sessions), id, user, secret, expiresAt)
      ensures forall x :: x in old(sessions) ==> x in sessions && sessions[x] == old(sessions)[x]
      ensures sessions.Keys == old(sessions.Keys) + {id}
      ensures Families(old(sessions)) ==> Families(sessions)
      ensures Families(old(sessions)) && id !in old(sessions) ==>
                Chain(sessions, id, [id]) && sessions[id].user == user
      ensures id !in old(sessions) ==> forall now :: Usable(sessions, Token(id, secret), now) <==> now < expiresAt
    {
      SignInStarts(sessions, id, user, secret, expiresAt);
      if id !in sessions {
        sessions := sessions[id := Session(user, secret, id, None, Active, expiresAt)];
      }
    }

    /** refresh. A duplicate id aborts the transaction, which rolls the rotation back. */
    method RefreshToken(token: Token, now: int, newId: nat, newSecret: int, newExpiry: int) returns (outcome: Outcome)
      modifies this
      ensures (sessions, outcome) == Refreshed(old(sessions), token, now, newId, newSecret, newExpiry)
      ensures newId !in old(sessions) ==> (outcome == Rotation <==> Usable(old(sessions), token, now))
      ensures outcome == Invalid <==> !Known(old(sessions), token)
      ensures outcome == Reused <==> Known(old(sessions), token) && old(sessions)[token.session].status == Rotated
      ensures outcome == NotActive <==>
                Known(old(sessions), token)
                && old(sessions)[token.session].status != Rotated && old(sessions)[token.session].status != Active
      ensures outcome == TooOld <==>
                Known(old(sessions), token)
                && old(sessions)[token.session].status == Active && old(sessions)[token.session].expiresAt <= now
      ensures outcome == Invalid || outcome == NotActive || outcome == DuplicateId ==> sessions == old(sessions)
      ensures outcome == TooOld ==>
                sessions == old(sessions)[token.session := old(sessions)[token.session].(status := Expired)]
      ensures outcome == Reused ==>
                Closes(old(sessions), old(sessions)[token.session].family, sessions)
      ensures outcome == Rotation ==>
                Succeeds(old(sessions), token.session, newId, newSecret, newExpiry, sessions)
    {
      if newId !in sessions {
        UsableRotates(sessions, token, now, newId, newSecret, newExpiry);
      }
      if token.session !in sessions || sessions[token.session].secret != token.secret {
        return Invalid;
      }
      var s := sessions[token.session];
      if s.status == Rotated {
        sessions := FamilyClosed(sessions, s.family);
        return Reused;
      }
      if s.status != Active {
        return NotActive;
      }
      if s.expiresAt <= now {
        sessions := sessions[token.session := s.(status := Expired)];
        return TooOld;
      }
      var before := sessions;
      sessions := sessions[token.session := s.(status := Rotated)];
      if newId in sessions {
        sessions := before;
        return DuplicateId;
      }
      sessions := sessions[newId := Session(s.user, newSecret, s.family, Some(token.session), Active, newExpiry)];
      return Rotation;
    }

    /**
     * Only the status of the session itself changes, and only from active to revoked; then
     * its whole family has no active session any more.
     */
    method LogOut(session: nat)
      modifies this
      ensures sessions == LoggedOut(old(sessions), session)
      ensures sessions.Keys == old(sessions.Keys)
      ensures forall x :: x in sessions && (x != session || old(sessions)[x].status != Active) ==>
                sessions[x] == old(sessions)[x]
      ensures session in sessions && old(sessions)[session].status == Active ==>
                sessions[session] == old(sessions)[session].(status := Revoked)
      ensures Families(old(sessions)) ==> Families(sessions)
      ensures Families(old(sessions)) && session in sessions && old(sessions)[session].status == Active ==>
                Dead(sessions, sessions[session].family)
    {
      LogOutKeeps(sessions, session);
      if session in sessions && sessions[session].status == Active {
        sessions := sessions[session := sessions[session].(status := Revoked)];
      }
    }

    /** What a password reset does to the user's sessions. */
    method RevokeUser(user: int)
      modifies this
      ensures sessions == UserClosed(old(sessions), user)
    {
      sessions := UserClosed(sessions, user);
    }
  }
}
