/** Desktop sessions: refresh tokens that rotate, and what a client that loses replies can count on. */
module Sessions {
  import opened Prelude

  const RETRY_GRACE: int := 60

  type SessionId = nat

  /** Tokens are drawn fresh, so that no two of them are ever alike. */
  type Token = nat

  datatype Session = Session(
    owner: nat, access: Token, current: Token, previous: Option<Token>,
    refreshExpires: int, revoked: bool, updated: int)

  datatype Store = Store(sessions: map<SessionId, Session>, nextToken: Token)

  datatype Reply = Tokens(id: SessionId, access: Token, refresh: Token) | Denied

  // ------------------------------------------------------------- transactions

  ghost function ByCurrent(s: Store, token: Token): Option<SessionId> {
    if exists id :: id in s.sessions && s.sessions[id].current == token
    then var id :| id in s.sessions && s.sessions[id].current == token; Some(id)
    else None
  }

  ghost predicate HasPrevious(s: Store, id: SessionId, token: Token) {
    id in s.sessions && s.sessions[id].previous == Some(token) && !s.sessions[id].revoked
  }

  ghost function ByPrevious(s: Store, token: Token): Option<SessionId> {
    if exists id :: HasPrevious(s, id, token) then var id :| HasPrevious(s, id, token); Some(id) else None
  }

  function Revoked(s: Store, id: SessionId, now: int): Store
    requires id in s.sessions
  {
    s.(sessions := s.sessions[id := s.sessions[id].(revoked := true, updated := now)])
  }

  function Rotated(s: Store, id: SessionId, now: int): Store
    requires id in s.sessions
  {
    Store(
      s.sessions[id := s.sessions[id].(
        access := s.nextToken, current := s.nextToken + 1, previous := Some(s.sessions[id].current), updated := now)],
      s.nextToken + 2)
  }

  predicate WithinGrace(session: Session, now: int) {
    session.refreshExpires > now && now - session.updated <= RETRY_GRACE
  }

  /** Rotates the tokens for the current refresh token, or for the previous one shortly after it was
      replaced. Reusing the previous one later revokes the session. */
  ghost function Refreshed(s: Store, token: Token, now: int, active: bool): (Store, Reply) {
    var current, previous := ByCurrent(s, token), ByPrevious(s, token);
    if current.None? && previous.None? then (s, Denied)
    else if current.None? && !WithinGrace(s.sessions[previous.value], now) then
      (Revoked(s, previous.value, now), Denied)
    else
      var id := if current.Some? then current.value else previous.value;
      if s.sessions[id].revoked || s.sessions[id].refreshExpires <= now || !active then (s, Denied)
      else (Rotated(s, id, now), Tokens(id, s.nextToken, s.nextToken + 1))
  }

  /** A sign-in revokes the installation's earlier sessions. */
  function Issued(s: Store, owner: nat, now: int, ttl: int): Store {
    var ended := map id | id in s.sessions ::
      if s.sessions[id].owner == owner && !s.sessions[id].revoked then s.sessions[id].(revoked := true)
      else s.sessions[id];
    Store(
      ended[s.nextToken := Session(owner, s.nextToken, s.nextToken + 1, None, now + ttl, false, now)],
      s.nextToken + 2)
  }

  /** A sign-out with the current or the previous refresh token. */
  ghost function SignedOut(s: Store, token: Token, now: int): Store {
    if exists id :: id in s.sessions && Names(s.sessions[id], token)
    then
      var id :| id in s.sessions && Names(s.sessions[id], token);
      if s.sessions[id].revoked then s else Revoked(s, id, now)
    else s
  }

  predicate Names(session: Session, token: Token) {
    session.current == token || session.previous == Some(token)
  }

  // ------------------------------------------------------------- the invariant

  /** Every token was drawn before, and no token has two places. */
  ghost predicate Inv(s: Store) {
    && (forall id :: id in s.sessions ==>
          && id < s.nextToken && s.sessions[id].current < s.nextToken
          && (s.sessions[id].previous.Some? ==>
                s.sessions[id].previous.value < s.nextToken && s.sessions[id].previous.value != s.sessions[id].current))
    && (forall i, j, token ::
          (i in s.sessions && j in s.sessions && Names(s.sessions[i], token) && Names(s.sessions[j], token)) ==> i == j)
  }

  datatype Step =
    | Issuing(owner: nat, now: int, ttl: int)
    | Refreshing(token: Token, now: int, active: bool)
    | SigningOut(token: Token, now: int)

  ghost function Next(s: Store, step: Step): Store {
    match step
    case Issuing(owner, now, ttl) => Issued(s, owner, now, ttl)
    case Refreshing(token, now, active) => Refreshed(s, token, now, active).0
    case SigningOut(token, now) => SignedOut(s, token, now)
  }

  ghost function Run(s: Store, steps: seq<Step>): Store
    decreases |steps|
  {
    if steps == [] then s else Run(Next(s, steps[0]), steps[1..])
  }

  lemma RevokingKeepsInv(s: Store, id: SessionId, now: int)
    requires Inv(s) && id in s.sessions
    ensures Inv(Revoked(s, id, now))
  {}

  lemma RotatingKeepsInv(s: Store, id: SessionId, now: int)
    requires Inv(s) && id in s.sessions
    ensures Inv(Rotated(s, id, now))
  {}

  lemma IssuingKeepsInv(s: Store, owner: nat, now: int, ttl: int)
    requires Inv(s)
    ensures Inv(Issued(s, owner, now, ttl))
  {
    var s' := Issued(s, owner, now, ttl);
    assert forall id, token: Token :: id in s.sessions ==> Names(s'.sessions[id], token) == Names(s.sessions[id], token);
    assert forall id, token: Token :: id in s.sessions && Names(s.sessions[id], token) ==> token < s.nextToken;
  }

  lemma StepKeepsInv(s: Store, step: Step)
    requires Inv(s)
    ensures Inv(Next(s, step)) && s.nextToken <= Next(s, step).nextToken
  {
    hide Inv, Revoked, Rotated, Names;
    forall id, now | id in s.sessions
      ensures Inv(Revoked(s, id, now)) && Revoked(s, id, now).nextToken == s.nextToken
      ensures Inv(Rotated(s, id, now)) && Rotated(s, id, now).nextToken == s.nextToken + 2
    {
      RevokingKeepsInv(s, id, now);
      RotatingKeepsInv(s, id, now);
      TokensDrawn(s, id, now);
    }
    if step.Issuing? { IssuingKeepsInv(s, step.owner, step.now, step.ttl); }
  }

  lemma TokensDrawn(s: Store, id: SessionId, now: int)
    requires id in s.sessions
    ensures Revoked(s, id, now).nextToken == s.nextToken && Rotated(s, id, now).nextToken == s.nextToken + 2
  {}

  // ------------------------------------------------------------- which tokens are accepted

  /** The token refreshes the session: the current one, or the previous one within its grace. */
  ghost predicate Refreshes(s: Store, id: SessionId, token: Token, now: int) {
    && id in s.sessions && !s.sessions[id].revoked && s.sessions[id].refreshExpires > now
    && (s.sessions[id].current == token
        || (s.sessions[id].previous == Some(token) && now - s.sessions[id].updated <= RETRY_GRACE))
  }

  /** Exactly these tokens are accepted. */
  lemma AcceptedIff(s: Store, token: Token, now: int, active: bool)
    requires Inv(s)
    ensures Refreshed(s, token, now, active).1.Tokens? <==> active && exists id :: Refreshes(s, id, token, now)
    ensures Refreshed(s, token, now, active).1.Tokens? ==>
      var (s', r) := Refreshed(s, token, now, active);
      && Refreshes(s, r.id, token, now)
      && s' == Rotated(s, r.id, now) && r.refresh == s'.sessions[r.id].current && r.access == s'.sessions[r.id].access
  {
    var r := Refreshed(s, token, now, active).1;
    assert r.Tokens? ==> Refreshes(s, r.id, token, now);
    if id :| Refreshes(s, id, token, now) {
      assert Names(s.sessions[id], token);
      if s.sessions[id].current == token {
        assert ByCurrent(s, token) == Some(id);
      } else {
        assert ByCurrent(s, token).Some? ==> Names(s.sessions[ByCurrent(s, token).value], token);
        assert HasPrevious(s, id, token) && ByPrevious(s, token) == Some(id);
      }
    }
  }

  /** A token that no living session names. */
  ghost predicate Dead(s: Store, token: Token) {
    && token < s.nextToken
    && forall id :: id in s.sessions && Names(s.sessions[id], token) ==> s.sessions[id].revoked
  }

  lemma DeadStaysDead(s: Store, token: Token, step: Step)
    requires Inv(s) && Dead(s, token)
    ensures Dead(Next(s, step), token)
  {}

  /** Main result: a token that was displaced or revoked is never accepted again. */
  lemma {:induction false} DeadForever(s: Store, token: Token, steps: seq<Step>, now: int, active: bool)
    requires Inv(s) && Dead(s, token)
    ensures Inv(Run(s, steps)) && Dead(Run(s, steps), token)
    ensures Refreshed(Run(s, steps), token, now, active).1 == Denied
    decreases |steps|
  {
    if steps == [] {
      AcceptedIff(s, token, now, active);
    } else {
      hide Inv, Dead, Next, Refreshed;
      StepKeepsInv(s, steps[0]);
      DeadStaysDead(s, token, steps[0]);
      DeadForever(Next(s, steps[0]), token, steps[1..], now, active);
    }
  }

  /** A refresh that is denied changes nothing, except that late reuse of a previous token revokes its session. */
  lemma DenialMeans(s: Store, token: Token, now: int, active: bool)
    requires Inv(s)
    ensures
      var (s', r) := Refreshed(s, token, now, active);
      r == Denied ==>
        && s'.nextToken == s.nextToken && s'.sessions.Keys == s.sessions.Keys
        && forall id :: id in s.sessions ==>
             if HasPrevious(s, id, token) && s.sessions[id].current != token && !WithinGrace(s.sessions[id], now)
             then s'.sessions[id] == s.sessions[id].(revoked := true, updated := now)
             else s'.sessions[id] == s.sessions[id]
  {
    forall id | HasPrevious(s, id, token) && s.sessions[id].current != token
      ensures ByCurrent(s, token).None? && ByPrevious(s, token) == Some(id)
    {
      assert Names(s.sessions[id], token);
      assert ByCurrent(s, token).Some? ==> Names(s.sessions[ByCurrent(s, token).value], token);
      assert ByPrevious(s, token).Some? ==> Names(s.sessions[ByPrevious(s, token).value], token);
    }
  }

  /** A refresh with the previous token displaces it at once; one with the current token keeps it as the
      previous one. */
  lemma RefreshDisplaces(s: Store, token: Token, now: int)
    requires Inv(s) && Refreshed(s, token, now, true).1.Tokens?
    ensures
      var (s', r) := Refreshed(s, token, now, true);
      && s'.sessions[r.id].current == r.refresh != token
      && (s.sessions[r.id].current == token ==> s'.sessions[r.id].previous == Some(token))
      && (s.sessions[r.id].current != token ==> Dead(s', token))
      && (s.sessions[r.id].previous.Some? ==> Dead(s', s.sessions[r.id].previous.value))
  {}

  /** Late reuse of the previous token ends the session: its tokens are dead from then on. */
  lemma LateReuseRevokes(s: Store, id: SessionId, token: Token, now: int, active: bool)
    requires Inv(s) && HasPrevious(s, id, token) && !WithinGrace(s.sessions[id], now)
    ensures
      var (s', r) := Refreshed(s, token, now, active);
      && r == Denied && s'.sessions[id].revoked
      && Dead(s', token) && Dead(s', s.sessions[id].current)
  {
    assert Names(s.sessions[id], token) && Names(s.sessions[id], s.sessions[id].current);
  }

  // ------------------------------------------------------------- how sessions begin and end

  /** A sign-in opens one session with fresh tokens and its time to live, and revokes the installation's others. */
  lemma IssueMeans(s: Store, owner: nat, now: int, ttl: int)
    requires Inv(s)
    ensures
      var s', id := Issued(s, owner, now, ttl), s.nextToken;
      && s'.sessions.Keys == s.sessions.Keys + {id} && id !in s.sessions
      && s'.sessions[id].owner == owner && s'.sessions[id].refreshExpires == now + ttl && !s'.sessions[id].revoked
      && s'.sessions[id].previous.None? && s'.sessions[id].current >= s.nextToken && s'.sessions[id].access >= s.nextToken
      && s'.sessions[id].current != s'.sessions[id].access
      && forall other :: other in s.sessions ==>
           s'.sessions[other] == s.sessions[other].(revoked := s.sessions[other].revoked || s.sessions[other].owner == owner)
  {}

  /** A sign-out revokes the session that names the token, and no other; both its tokens are dead. */
  lemma SignOutMeans(s: Store, token: Token, now: int)
    requires Inv(s)
    ensures
      var s' := SignedOut(s, token, now);
      && s'.sessions.Keys == s.sessions.Keys
      && forall id :: id in s.sessions ==>
           if Names(s.sessions[id], token)
           then s'.sessions[id].revoked && Dead(s', token) && Dead(s', s.sessions[id].current)
           else s'.sessions[id] == s.sessions[id]
  {
    forall id | id in s.sessions && Names(s.sessions[id], token)
      ensures SignedOut(s, token, now) == if s.sessions[id].revoked then s else Revoked(s, id, now)
      ensures Names(s.sessions[id], s.sessions[id].current)
    {}
  }

  lemma LifetimeIsKept(s: Store, id: SessionId, step: Step)
    requires Inv(s) && id in s.sessions
    ensures id in Next(s, step).sessions
    ensures Next(s, step).sessions[id].owner == s.sessions[id].owner
    ensures Next(s, step).sessions[id].refreshExpires == s.sessions[id].refreshExpires
  {}

  lemma {:induction false} LifetimeStays(s: Store, id: SessionId, steps: seq<Step>)
    requires Inv(s) && id in s.sessions
    ensures Inv(Run(s, steps)) && id in Run(s, steps).sessions
    ensures Run(s, steps).sessions[id].owner == s.sessions[id].owner
    ensures Run(s, steps).sessions[id].refreshExpires == s.sessions[id].refreshExpires
    decreases |steps|
  {
    hide Inv, Next;
    if steps != [] {
      StepKeepsInv(s, steps[0]);
      LifetimeIsKept(s, id, steps[0]);
      LifetimeStays(Next(s, steps[0]), id, steps[1..]);
    }
  }

  /** However often a session is refreshed, it ends at the time to live after its sign-in. */
  lemma SessionsEnd(s: Store, owner: nat, now: int, ttl: int, steps: seq<Step>, token: Token, at: int, active: bool)
    requires Inv(s)
    ensures
      var reply := Refreshed(Run(Issued(s, owner, now, ttl), steps), token, at, active).1;
      reply.Tokens? && reply.id == s.nextToken ==> at < now + ttl
  {
    IssuingKeepsInv(s, owner, now, ttl);
    IssueMeans(s, owner, now, ttl);
    hide Inv, Issued, Run, Refreshed;
    LifetimeStays(Issued(s, owner, now, ttl), s.nextToken, steps);
    AcceptedIff(Run(Issued(s, owner, now, ttl), steps), token, at, active);
  }

  // ------------------------------------------------------------- a client that loses replies

  /** The client's refresh reached the server at `now`; the reply came back or got lost. */
  datatype Attempt = Attempt(now: int, delivered: bool)

  /** The store and the refresh token that the client holds. */
  datatype Connection = Connection(store: Store, token: Token)

  ghost function Tried(c: Connection, attempt: Attempt): Connection {
    var (s', r) := Refreshed(c.store, c.token, attempt.now, true);
    Connection(s', if r.Tokens? && attempt.delivered then r.refresh else c.token)
  }

  ghost function AllTried(c: Connection, attempts: seq<Attempt>): Connection
    decreases |attempts|
  {
    if attempts == [] then c else AllTried(Tried(c, attempts[0]), attempts[1..])
  }

  /** Attempts come before the session's expiry, and a retry comes within the grace of the attempt whose
      reply was lost. */
  predicate InTime(attempts: seq<Attempt>, expires: int) {
    && (forall i :: 0 <= i < |attempts| ==> attempts[i].now < expires)
    && (forall i :: 0 < i < |attempts| && !attempts[i - 1].delivered ==>
          attempts[i].now - attempts[i - 1].now <= RETRY_GRACE)
  }

  predicate LosesTwice(attempts: seq<Attempt>) {
    exists i :: 0 < i < |attempts| && !attempts[i - 1].delivered && !attempts[i].delivered
  }

  ghost predicate HoldsCurrent(c: Connection, id: SessionId) {
    Inv(c.store) && id in c.store.sessions && !c.store.sessions[id].revoked && c.store.sessions[id].current == c.token
  }

  /** The client's token is the previous one since `since`. */
  ghost predicate HoldsPrevious(c: Connection, id: SessionId, since: int) {
    && Inv(c.store) && id in c.store.sessions && !c.store.sessions[id].revoked
    && c.store.sessions[id].previous == Some(c.token) && c.store.sessions[id].updated == since
  }

  lemma TryingCurrent(c: Connection, id: SessionId, attempt: Attempt)
    requires HoldsCurrent(c, id) && attempt.now < c.store.sessions[id].refreshExpires
    ensures
      var c' := Tried(c, attempt);
      && id in c'.store.sessions && c'.store.sessions[id].refreshExpires == c.store.sessions[id].refreshExpires
      && (if attempt.delivered then HoldsCurrent(c', id) else HoldsPrevious(c', id, attempt.now))
  {
    assert Refreshes(c.store, id, c.token, attempt.now);
    AcceptedIff(c.store, c.token, attempt.now, true);
    SameSession(c.store, id, c.token, attempt.now);
    RotatingKeepsInv(c.store, id, attempt.now);
  }

  lemma SameSession(s: Store, id: SessionId, token: Token, now: int)
    requires Inv(s) && Refreshes(s, id, token, now)
    ensures Refreshed(s, token, now, true) == (Rotated(s, id, now), Tokens(id, s.nextToken, s.nextToken + 1))
  {
    AcceptedIff(s, token, now, true);
    var r := Refreshed(s, token, now, true).1;
    assert Names(s.sessions[id], token) && Names(s.sessions[r.id], token);
  }

  lemma TryingPrevious(c: Connection, id: SessionId, since: int, attempt: Attempt)
    requires HoldsPrevious(c, id, since) && attempt.now < c.store.sessions[id].refreshExpires
    requires attempt.now - since <= RETRY_GRACE
    ensures
      var c' := Tried(c, attempt);
      && id in c'.store.sessions && c'.store.sessions[id].refreshExpires == c.store.sessions[id].refreshExpires
      && (if attempt.delivered then HoldsCurrent(c', id) else Inv(c'.store) && Dead(c'.store, c'.token))
  {
    assert Refreshes(c.store, id, c.token, attempt.now);
    SameSession(c.store, id, c.token, attempt.now);
    RotatingKeepsInv(c.store, id, attempt.now);
    RefreshDisplaces(c.store, c.token, attempt.now);
    assert c.store.sessions[id].current != c.token;
  }

  lemma {:induction false} TryingDead(c: Connection, attempts: seq<Attempt>)
    requires Inv(c.store) && Dead(c.store, c.token)
    ensures AllTried(c, attempts).token == c.token
    ensures Inv(AllTried(c, attempts).store) && Dead(AllTried(c, attempts).store, c.token)
    decreases |attempts|
  {
    hide Inv, Dead, Refreshed;
    if attempts != [] {
      var step := Refreshing(c.token, attempts[0].now, true);
      DeadForever(c.store, c.token, [], attempts[0].now, true);
      StepKeepsInv(c.store, step);
      DeadStaysDead(c.store, c.token, step);
      TryingDead(Tried(c, attempts[0]), attempts[1..]);
    }
  }

  /** What the client holds after its attempts. */
  ghost predicate Connected(c: Connection, id: SessionId, attempts: seq<Attempt>) {
    if attempts == [] || attempts[|attempts| - 1].delivered then HoldsCurrent(c, id)
    else HoldsPrevious(c, id, attempts[|attempts| - 1].now)
  }

  /** Main result: a client that retries in time stays connected exactly when it never loses two replies in
      a row; once it does, no retry will ever be accepted. */
  lemma {:induction false} ConnectedIff(c: Connection, id: SessionId, attempts: seq<Attempt>)
    requires HoldsCurrent(c, id) && InTime(attempts, c.store.sessions[id].refreshExpires)
    ensures !LosesTwice(attempts) ==> Connected(AllTried(c, attempts), id, attempts)
    ensures LosesTwice(attempts) ==> Dead(AllTried(c, attempts).store, AllTried(c, attempts).token)
    decreases |attempts|
  {
    hide Inv, Dead, Refreshed, HoldsCurrent, HoldsPrevious;
    if attempts != [] {
      HeldIsThere(c, id);
      TryingCurrent(c, id, attempts[0]);
      var c1 := Tried(c, attempts[0]);
      if attempts[0].delivered {
        LosesLater(attempts, 1);
        ConnectedIff(c1, id, attempts[1..]);
      } else if |attempts| > 1 {
        TryingPrevious(c1, id, attempts[0].now, attempts[1]);
        var c2 := Tried(c1, attempts[1]);
        assert AllTried(c, attempts) == AllTried(c2, attempts[2..]) by { assert attempts[1..][1..] == attempts[2..]; }
        if attempts[1].delivered {
          LosesLater(attempts, 2);
          ConnectedIff(c2, id, attempts[2..]);
        } else {
          TryingDead(c2, attempts[2..]);
        }
      }
    }
  }

  lemma HeldIsThere(c: Connection, id: SessionId)
    requires HoldsCurrent(c, id)
    ensures Inv(c.store) && id in c.store.sessions
  {}

  lemma LosesLater(attempts: seq<Attempt>, n: nat)
    requires 0 < n <= |attempts| && attempts[n - 1].delivered && n <= 2
    ensures LosesTwice(attempts) <==> LosesTwice(attempts[n..])
  {}

  // ------------------------------------------------------------- many refused requests, few refreshes

  datatype Held = Held(access: Token, refresh: Token)

  /** The store, and the tokens that the desktop holds until it must sign in again. */
  datatype Desktop = Desktop(store: Store, held: Option<Held>)

  /** How a refresh fares on the network. */
  datatype Trip = Answered | ReplyLost | RequestLost

  /** A request that was refused with a stale access token passes the refresh lock. */
  datatype Passage = Passage(now: int, active: bool, trip: Trip)

  /** Under the lock: refresh, unless another request has replaced the stale token meanwhile. Tokens or a denial
      change what the desktop holds; a network failure does not, whatever the server did. */
  ghost function Passed(d: Desktop, stale: Token, p: Passage): Desktop {
    if d.held.None? || d.held.value.access != stale || p.trip == RequestLost then d
    else
      var (s', r) := Refreshed(d.store, d.held.value.refresh, p.now, p.active);
      if p.trip == ReplyLost then d.(store := s')
      else Desktop(s', if r.Tokens? then Some(Held(r.access, r.refresh)) else None)
  }

  ghost function AllPassed(d: Desktop, stale: Token, passages: seq<Passage>): Desktop
    decreases |passages|
  {
    if passages == [] then d else AllPassed(Passed(d, stale, passages[0]), stale, passages[1..])
  }

  /** How many refreshes reach the server. */
  ghost function RefreshesSeen(d: Desktop, stale: Token, passages: seq<Passage>): nat
    decreases |passages|
  {
    if passages == [] then 0
    else
      var refreshes := d.held.Some? && d.held.value.access == stale && passages[0].trip != RequestLost;
      (if refreshes then 1 else 0) + RefreshesSeen(Passed(d, stale, passages[0]), stale, passages[1..])
  }

  /** The refreshes up to and including the first answered one, as attempts of a client that loses replies. */
  function Attempts(passages: seq<Passage>): seq<Attempt>
    decreases |passages|
  {
    if passages == [] then []
    else
      match passages[0].trip
      case Answered => [Attempt(passages[0].now, true)]
      case ReplyLost => [Attempt(passages[0].now, false)] + Attempts(passages[1..])
      case RequestLost => Attempts(passages[1..])
  }

  /** The passages whose request reaches the server. */
  function Reaching(passages: seq<Passage>): seq<Passage>
    decreases |passages|
  {
    if passages == [] then []
    else (if passages[0].trip == RequestLost then [] else [passages[0]]) + Reaching(passages[1..])
  }

  lemma {:induction false} NothingMoreIsSeen(d: Desktop, stale: Token, passages: seq<Passage>)
    requires d.held.None? || d.held.value.access != stale
    ensures RefreshesSeen(d, stale, passages) == 0 && AllPassed(d, stale, passages) == d
    decreases |passages|
  {
    if passages != [] { NothingMoreIsSeen(d, stale, passages[1..]); }
  }

  lemma TokensOnlyGrow(s: Store, token: Token, now: int, active: bool)
    ensures s.nextToken <= Refreshed(s, token, now, active).0.nextToken
    ensures Refreshed(s, token, now, active).1.Tokens? ==> Refreshed(s, token, now, active).1.access >= s.nextToken
  {}

  /** However many requests were refused with one access token, the server sees the refreshes whose replies got
      lost before the first answer, and that one; then no more. */
  lemma {:induction false} RefreshesUntilAnswered(d: Desktop, stale: Token, passages: seq<Passage>)
    requires d.held.Some? && d.held.value.access == stale < d.store.nextToken
    ensures RefreshesSeen(d, stale, passages) == |Attempts(passages)|
    decreases |passages|
  {
    if passages != [] {
      var p := passages[0];
      TokensOnlyGrow(d.store, d.held.value.refresh, p.now, p.active);
      if p.trip == Answered {
        NothingMoreIsSeen(Passed(d, stale, p), stale, passages[1..]);
      } else {
        RefreshesUntilAnswered(Passed(d, stale, p), stale, passages[1..]);
      }
    }
  }

  lemma {:induction false} FewAttempts(passages: seq<Passage>)
    ensures Attempts(passages) == [] <==> Reaching(passages) == []
    ensures |Attempts(passages)| == 1
       <==> Reaching(passages) != [] && (Reaching(passages)[0].trip == Answered || |Reaching(passages)| == 1)
    decreases |passages|
  {
    if passages != [] { FewAttempts(passages[1..]); }
  }

  /** Exactly one refresh: if and only if the first request that reaches the server gets its reply, be it tokens
      or a denial, or no other request reaches the server. */
  lemma RefreshedOnceIff(d: Desktop, stale: Token, passages: seq<Passage>)
    requires d.held.Some? && d.held.value.access == stale < d.store.nextToken
    ensures RefreshesSeen(d, stale, passages) == 1 <==>
      Reaching(passages) != [] && (Reaching(passages)[0].trip == Answered || |Reaching(passages)| == 1)
  {
    RefreshesUntilAnswered(d, stale, passages);
    FewAttempts(passages);
  }

  /** The requests behind the lock are one client that loses replies. */
  lemma {:induction false} PassagesAreAttempts(d: Desktop, stale: Token, passages: seq<Passage>)
    requires d.held.Some? && d.held.value.access == stale < d.store.nextToken
    requires forall i :: 0 <= i < |passages| ==> passages[i].active
    ensures
      var c := AllTried(Connection(d.store, d.held.value.refresh), Attempts(passages));
      var d' := AllPassed(d, stale, passages);
      d'.store == c.store && (d'.held.Some? ==> d'.held.value.refresh == c.token)
    decreases |passages|
  {
    hide Refreshed;
    if passages != [] {
      var p := passages[0];
      TokensOnlyGrow(d.store, d.held.value.refresh, p.now, p.active);
      var attempts := Attempts(passages);
      if p.trip == Answered {
        NothingMoreIsSeen(Passed(d, stale, p), stale, passages[1..]);
        assert AllTried(Connection(d.store, d.held.value.refresh), attempts)
            == Tried(Connection(d.store, d.held.value.refresh), attempts[0]);
      } else {
        PassagesAreAttempts(Passed(d, stale, p), stale, passages[1..]);
        assert p.trip == ReplyLost ==> attempts[1..] == Attempts(passages[1..]);
      }
    }
  }

  /** Two replies lost in a row before an answer: the token that the desktop then holds is dead, and the next
      answer signs it out. */
  lemma TwoLostRepliesSignOut(d: Desktop, id: SessionId, passages: seq<Passage>, next: Passage)
    requires d.held.Some? && d.held.value.access < d.store.nextToken
    requires HoldsCurrent(Connection(d.store, d.held.value.refresh), id)
    requires forall i :: 0 <= i < |passages| ==> passages[i].active && passages[i].trip != Answered
    requires InTime(Attempts(passages), d.store.sessions[id].refreshExpires) && LosesTwice(Attempts(passages))
    requires next.trip == Answered
    ensures
      var stale := d.held.value.access;
      Passed(AllPassed(d, stale, passages), stale, next).held.None?
  {
    var stale := d.held.value.access;
    var c := Connection(d.store, d.held.value.refresh);
    StillHeld(d, stale, passages);
    PassagesAreAttempts(d, stale, passages);
    hide Refreshed, HoldsCurrent;
    ConnectedIff(c, id, Attempts(passages));
    HeldIsThere(c, id);
    InvIsKept(c, Attempts(passages));
    var later := AllTried(c, Attempts(passages));
    DeadForever(later.store, later.token, [], next.now, next.active);
  }

  lemma {:induction false} InvIsKept(c: Connection, attempts: seq<Attempt>)
    requires Inv(c.store)
    ensures Inv(AllTried(c, attempts).store)
    decreases |attempts|
  {
    hide Inv, Refreshed;
    if attempts != [] {
      StepKeepsInv(c.store, Refreshing(c.token, attempts[0].now, true));
      InvIsKept(Tried(c, attempts[0]), attempts[1..]);
    }
  }

  lemma {:induction false} StillHeld(d: Desktop, stale: Token, passages: seq<Passage>)
    requires forall i :: 0 <= i < |passages| ==> passages[i].trip != Answered
    ensures AllPassed(d, stale, passages).held == d.held
    decreases |passages|
  {
    if passages != [] { StillHeld(Passed(d, stale, passages[0]), stale, passages[1..]); }
  }

  // ------------------------------------------------------------- the table

  lemma OnlyOneIsNamed(s: Store, id: SessionId, token: Token)
    requires Inv(s) && id in s.sessions && Names(s.sessions[id], token)
    ensures forall other :: other in s.sessions && Names(s.sessions[other], token) ==> other == id
  {}

  /** The session rows, as the transactions change them. */
  class SessionTable {
    var sessions: map<SessionId, Session>
    var nextToken: Token

    function View(): Store
      reads this
    {
      Store(sessions, nextToken)
    }

    constructor ()
      ensures View() == Store(map[], 0) && Inv(View())
    {
      sessions, nextToken := map[], 0;
    }

    method Issue(owner: nat, now: int, ttl: int) returns (id: SessionId)
      requires Inv(View())
      modifies this
      ensures View() == Issued(old(View()), owner, now, ttl) && Inv(View())
      ensures id in sessions && !sessions[id].revoked
      ensures forall other :: other in sessions && other != id && sessions[other].owner == owner ==> sessions[other].revoked
      ensures sessions[id].owner == owner && sessions[id].refreshExpires == now + ttl && sessions[id].previous.None?
      ensures forall other :: other in old(sessions) && old(sessions)[other].owner != owner ==>
        other in sessions && sessions[other] == old(sessions)[other]
    {
      IssuingKeepsInv(View(), owner, now, ttl);
      id := nextToken;
      sessions := map other | other in sessions ::
        if sessions[other].owner == owner && !sessions[other].revoked then sessions[other].(revoked := true)
        else sessions[other];
      sessions := sessions[id := Session(owner, id, id + 1, None, now + ttl, false, now)];
      nextToken := nextToken + 2;
    }

    /** Signs out with the current or the previous refresh token. */
    method SignOut(token: Token, now: int)
      requires Inv(View())
      modifies this`sessions
      ensures View() == SignedOut(old(View()), token, now) && Inv(View())
      ensures sessions.Keys == old(sessions).Keys
      ensures forall id :: id in old(sessions) ==>
        if Names(old(sessions)[id], token)
        then sessions[id].revoked && Dead(View(), token) && Dead(View(), old(sessions)[id].current)
        else sessions[id] == old(sessions)[id]
    {
      hide Inv, Names, Dead;
      SignOutMeans(View(), token, now);
      StepKeepsInv(View(), SigningOut(token, now));
      var named := set id | id in sessions && Names(sessions[id], token);
      assert forall id :: id in sessions && Names(sessions[id], token) ==> id in named;
      if named != {} {
        var id :| id in named;
        OnlyOneIsNamed(View(), id, token);
        if !sessions[id].revoked { sessions := sessions[id := sessions[id].(revoked := true, updated := now)]; }
      }
    }

    method Rotate(id: SessionId, now: int)
      requires id in sessions
      modifies this
      ensures View() == Rotated(old(View()), id, now)
    {
      var session := sessions[id];
      session := session.(previous := Some(session.current));
      session := session.(current := nextToken + 1, access := nextToken, updated := now);
      sessions := sessions[id := session];
      nextToken := nextToken + 2;
    }

    method FindCurrent(token: Token) returns (found: Option<SessionId>)
      requires Inv(View())
      ensures found == ByCurrent(View(), token)
      ensures found.Some? ==> found.value in sessions && sessions[found.value].current == token
    {
      var named := set id | id in sessions && sessions[id].current == token;
      assert forall id :: id in sessions && sessions[id].current == token ==> id in named && Names(sessions[id], token);
      if named == {} {
        return None;
      }
      var id :| id in named;
      return Some(id);
    }

    method FindPrevious(token: Token) returns (found: Option<SessionId>)
      requires Inv(View())
      ensures found == ByPrevious(View(), token)
    {
      var named := set id | id in sessions && sessions[id].previous == Some(token) && !sessions[id].revoked;
      assert forall id :: HasPrevious(View(), id, token) ==> id in named && Names(sessions[id], token);
      if named == {} {
        return None;
      }
      var id :| id in named;
      assert HasPrevious(View(), id, token);
      return Some(id);
    }

    /** The session that may still be refreshed with its previous token; too late, it is revoked. */
    method SessionForPrevious(token: Token, now: int) returns (found: Option<SessionId>)
      requires Inv(View())
      modifies this
      ensures
        var previous := ByPrevious(old(View()), token);
        var late := previous.Some? && !WithinGrace(old(sessions)[previous.value], now);
        && found == (if late then None else previous)
        && (found.Some? ==> found.value in sessions)
        && View() == if late then Revoked(old(View()), previous.value, now) else old(View())
      ensures found.Some? ==> HasPrevious(View(), found.value, token) && WithinGrace(sessions[found.value], now)
      ensures found.None? ==> forall id :: !HasPrevious(View(), id, token)
    {
      found := FindPrevious(token);
      assert found.None? ==> forall id :: !HasPrevious(View(), id, token);
      if found.Some? {
        var reused := sessions[found.value];
        if reused.refreshExpires > now && now - reused.updated <= RETRY_GRACE {
          return found;
        }
        assert Names(reused, token);
        assert forall id :: HasPrevious(View(), id, token) ==> Names(sessions[id], token);
        sessions := sessions[found.value := reused.(revoked := true, updated := now)];
        found := None;
      }
    }

    method Refresh(token: Token, now: int, active: bool) returns (reply: Reply)
      requires Inv(View())
      modifies this
      ensures (View(), reply) == Refreshed(old(View()), token, now, active)
      ensures Inv(View())
      ensures reply.Tokens? ==>
        && reply.id in old(sessions) && Names(old(sessions)[reply.id], token) && !old(sessions)[reply.id].revoked
        && reply.id in sessions && sessions[reply.id].current == reply.refresh && sessions[reply.id].access == reply.access
        && sessions[reply.id].previous == Some(old(sessions)[reply.id].current)
        && sessions[reply.id].refreshExpires == old(sessions)[reply.id].refreshExpires && sessions[reply.id].updated == now
        && forall other :: other in old(sessions) && other != reply.id ==>
             other in sessions && sessions[other] == old(sessions)[other]
      ensures reply.Denied? ==>
        forall id :: id in old(sessions) ==>
          && id in sessions
          && if HasPrevious(old(View()), id, token) && old(sessions)[id].current != token
                && !WithinGrace(old(sessions)[id], now)
             then sessions[id] == old(sessions)[id].(revoked := true, updated := now)
             else sessions[id] == old(sessions)[id]
    {
      hide Inv, ByCurrent, ByPrevious, WithinGrace;
      StepKeepsInv(View(), Refreshing(token, now, active));
      DenialMeans(View(), token, now, active);
      var found := FindCurrent(token);
      if found.None? {
        found := SessionForPrevious(token, now);
      }
      if found.None? {
        return Denied;
      }
      var id := found.value;
      if sessions[id].revoked || sessions[id].refreshExpires <= now || !active {
        return Denied;
      }
      Rotate(id, now);
      reply := Tokens(id, sessions[id].access, sessions[id].current);
    }
  }
}
