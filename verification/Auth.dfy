/** Sessions as families of refresh tokens: login opens a family, refresh rotates
    its live token, logout and pruning end it. Times are in milliseconds; a token's
    id stands for its secret and its hash. */
module Auth {
  import opened Base

  const MAX_ACTIVE: nat := 20
  const GRACE: int := 30000
  const KEEP_REVOKED: int := 30 * 24 * 60 * 60 * 1000

  /** A stored token. Its id stands for the token's hash too: both are fresh for
      every token, and a client presents a token by it. */
  datatype Token = Token(
    id: nat,
    user: Id,
    family: nat,
    createdAt: int,
    expiresAt: int,
    revokedAt: Option<int>,
    replacedBy: Option<nat>)
  {
    predicate LiveFor(u: Id, now: int) {
      user == u && revokedAt.None? && expiresAt > now
    }
  }

  /** The token table in creation order, the supplies of fresh ids, and the users
      whose status is active. */
  datatype Sessions = Sessions(tokens: seq<Token>, nextId: nat, nextFamily: nat, activeUsers: set<Id>)

  // ----- queries -----

  function IndexFrom(tokens: seq<Token>, id: nat, i: nat): (found: nat)
    requires i <= |tokens|
    ensures i <= found <= |tokens|
    ensures found < |tokens| ==> tokens[found].id == id
    ensures forall j | i <= j < found :: tokens[j].id != id
    decreases |tokens| - i
  {
    if i == |tokens| || tokens[i].id == id then i else IndexFrom(tokens, id, i + 1)
  }

  function IndexOf(tokens: seq<Token>, id: nat): nat {
    IndexFrom(tokens, id, 0)
  }

  /** Newest live token of a family: position, or |tokens| when there is none. */
  function TipBefore(tokens: seq<Token>, family: nat, now: int, n: nat): (found: nat)
    requires n <= |tokens|
    ensures found < n || found == |tokens|
    ensures found < |tokens| ==>
              tokens[found].family == family && tokens[found].revokedAt.None? && tokens[found].expiresAt > now
  {
    if n == 0 then |tokens|
    else if tokens[n - 1].family == family && tokens[n - 1].revokedAt.None? && tokens[n - 1].expiresAt > now then n - 1
    else TipBefore(tokens, family, now, n - 1)
  }

  function Live(tokens: seq<Token>, user: Id, now: int): nat {
    if tokens == [] then 0
    else (if tokens[0].LiveFor(user, now) then 1 else 0) + Live(tokens[1..], user, now)
  }

  // ----- updates -----

  function Revoke(t: Token, now: int): Token {
    t.(revokedAt := Some(now))
  }

  predicate Stale(t: Token, user: Id, now: int) {
    t.user == user && (t.expiresAt < now || (t.revokedAt.Some? && t.revokedAt.value < now - KEEP_REVOKED))
  }

  function WithoutStale(tokens: seq<Token>, user: Id, now: int): seq<Token> {
    if tokens == [] then []
    else (if Stale(tokens[0], user, now) then [] else [tokens[0]]) + WithoutStale(tokens[1..], user, now)
  }

  /** Revokes the first n live tokens of a user, that is the oldest ones. */
  function RevokeOldest(tokens: seq<Token>, user: Id, now: int, n: nat): (r: seq<Token>)
    ensures |r| == |tokens|
  {
    if tokens == [] || n == 0 then tokens
    else if tokens[0].LiveFor(user, now) then [Revoke(tokens[0], now)] + RevokeOldest(tokens[1..], user, now, n - 1)
    else [tokens[0]] + RevokeOldest(tokens[1..], user, now, n)
  }

  function Pruned(tokens: seq<Token>, user: Id, now: int): seq<Token> {
    var kept := WithoutStale(tokens, user, now);
    var active := Live(kept, user, now);
    if active > MAX_ACTIVE - 1 then RevokeOldest(kept, user, now, active - (MAX_ACTIVE - 1)) else kept
  }

  function RevokeAllOf(tokens: seq<Token>, user: Id, now: int): (r: seq<Token>)
    ensures |r| == |tokens|
  {
    seq(|tokens|, i requires 0 <= i < |tokens| =>
      if tokens[i].user == user && tokens[i].revokedAt.None? then Revoke(tokens[i], now) else tokens[i])
  }

  function NewToken(s: Sessions, user: Id, family: nat, now: int, lifetime: nat): Token {
    Token(s.nextId, user, family, now, now + lifetime, None, None)
  }

  function LoggedIn(s: Sessions, user: Id, credentialsOk: bool, now: int, lifetime: nat): Result<Sessions> {
    if user !in s.activeUsers then Err(Forbidden)
    else if !credentialsOk then Err(Unauthorized)
    else
      var token := NewToken(s, user, s.nextFamily, now, lifetime);
      Ok(s.(tokens := Pruned(s.tokens, user, now) + [token], nextId := s.nextId + 1, nextFamily := s.nextFamily + 1))
  }

  /** Issues a successor in the family, then retires the token it replaces. */
  function Rotated(s: Sessions, i: nat, now: int, lifetime: nat): Sessions
    requires i < |s.tokens|
  {
    var spent := s.tokens[i];
    var token := NewToken(s, spent.user, spent.family, now, lifetime);
    s.(tokens := (s.tokens + [token])[i := spent.(revokedAt := Some(now), replacedBy := Some(token.id))],
        nextId := s.nextId + 1)
  }

  /** The token a refresh spends: the presented one while it is live, and within the
      grace period after its revocation the family's newest live one. */
  function SpentBy(s: Sessions, presented: nat, now: int): (r: Result<nat>)
    ensures r.Ok? ==>
              && r.value < |s.tokens| && s.tokens[r.value].user in s.activeUsers
              && s.tokens[r.value].revokedAt.None? && s.tokens[r.value].expiresAt > now
  {
    var i := IndexOf(s.tokens, presented);
    if i == |s.tokens| || s.tokens[i].user !in s.activeUsers then Err(Unauthorized)
    else if s.tokens[i].revokedAt.Some? then
      if now - s.tokens[i].revokedAt.value <= GRACE then
        var tip := TipBefore(s.tokens, s.tokens[i].family, now, |s.tokens|);
        if tip < |s.tokens| && s.tokens[tip].user in s.activeUsers then Ok(tip) else Err(Unauthorized)
      else Err(Unauthorized)
    else if s.tokens[i].expiresAt <= now then Err(Unauthorized)
    else Ok(i)
  }

  function Refreshed(s: Sessions, presented: nat, now: int, lifetime: nat): Result<Sessions> {
    var i :- SpentBy(s, presented, now);
    Ok(Rotated(s, i, now, lifetime))
  }

  function LoggedOutAll(s: Sessions, user: Id, now: int): Sessions {
    s.(tokens := RevokeAllOf(s.tokens, user, now))
  }

  function LoggedOut(s: Sessions, presented: nat, now: int): Sessions {
    var i := IndexOf(s.tokens, presented);
    if i < |s.tokens| && s.tokens[i].revokedAt.None? then s.(tokens := s.tokens[i := Revoke(s.tokens[i], now)]) else s
  }

  function SessionRevoked(s: Sessions, user: Id, id: nat, now: int): Result<Sessions> {
    var i := IndexOf(s.tokens, id);
    if i == |s.tokens| || s.tokens[i].user != user || s.tokens[i].revokedAt.Some? then Err(NotFound)
    else Ok(s.(tokens := s.tokens[i := Revoke(s.tokens[i], now)]))
  }

  // ----- the service -----

  class AuthService {
    var tokens: seq<Token>
    var nextId: nat
    var nextFamily: nat
    var activeUsers: set<Id>

    constructor (users: set<Id>)
      ensures State() == Sessions([], 0, 0, users)
    {
      tokens, nextId, nextFamily, activeUsers := [], 0, 0, users;
    }

    function State(): Sessions
      reads this
    {
      Sessions(tokens, nextId, nextFamily, activeUsers)
    }

    method IssueTokens(user: Id, family: nat, now: int, lifetime: nat) returns (id: nat)
      modifies this`tokens, this`nextId
      ensures id == old(nextId) && nextId == id + 1
      ensures tokens == old(tokens) + [NewToken(old(State()), user, family, now, lifetime)]
    {
      id := nextId;
      tokens := tokens + [Token(id, user, family, now, now + lifetime, None, None)];
      nextId := nextId + 1;
    }

    method PruneTokens(user: Id, now: int)
      modifies this`tokens
      ensures tokens == Pruned(old(tokens), user, now)
    {
      tokens := WithoutStale(tokens, user, now);
      var overflow := Live(tokens, user, now) - (MAX_ACTIVE - 1);
      if overflow > 0 {
        tokens := RevokeOldest(tokens, user, now, overflow);
      }
    }

    method Login(user: Id, credentialsOk: bool, now: int, lifetime: nat) returns (r: Result<nat>)
      modifies this
      ensures match LoggedIn(old(State()), user, credentialsOk, now, lifetime)
              case Ok(s) => r == Ok(old(nextId)) && State() == s
              case Err(e) => r == Err(e) && State() == old(State())
    {
      if user !in activeUsers {
        return Err(Forbidden);
      }
      if !credentialsOk {
        return Err(Unauthorized);
      }
      PruneTokens(user, now);
      var id := IssueTokens(user, nextFamily, now, lifetime);
      nextFamily := nextFamily + 1;
      return Ok(id);
    }

    method RotateFromStored(i: nat, now: int, lifetime: nat) returns (id: nat)
      requires i < |tokens|
      modifies this
      ensures id == old(nextId) && State() == Rotated(old(State()), i, now, lifetime)
    {
      var spent := tokens[i];
      id := IssueTokens(spent.user, spent.family, now, lifetime);
      tokens := tokens[i := spent.(revokedAt := Some(now), replacedBy := Some(id))];
    }

    method Refresh(presented: nat, now: int, lifetime: nat) returns (r: Result<nat>)
      modifies this
      ensures match Refreshed(old(State()), presented, now, lifetime)
              case Ok(s) => r == Ok(old(nextId)) && State() == s
              case Err(e) => r == Err(e) && State() == old(State())
    {
      var i := IndexOf(tokens, presented);
      if i == |tokens| || tokens[i].user !in activeUsers {
        return Err(Unauthorized);
      }
      if tokens[i].revokedAt.Some? {
        if now - tokens[i].revokedAt.value <= GRACE {
          var tip := TipBefore(tokens, tokens[i].family, now, |tokens|);
          if tip < |tokens| && tokens[tip].user in activeUsers {
            var id := RotateFromStored(tip, now, lifetime);
            return Ok(id);
          }
        }
        return Err(Unauthorized);
      }
      if tokens[i].expiresAt <= now {
        return Err(Unauthorized);
      }
      var id := RotateFromStored(i, now, lifetime);
      return Ok(id);
    }

    method LogoutAll(user: Id, now: int)
      modifies this
      ensures State() == LoggedOutAll(old(State()), user, now)
    {
      tokens := RevokeAllOf(tokens, user, now);
    }

    method LogoutByRefreshToken(presented: nat, now: int)
      modifies this
      ensures State() == LoggedOut(old(State()), presented, now)
    {
      var i := IndexOf(tokens, presented);
      if i < |tokens| && tokens[i].revokedAt.None? {
        tokens := tokens[i := Revoke(tokens[i], now)];
      }
    }

    method RevokeSession(user: Id, id: nat, now: int) returns (r: Result<()>)
      modifies this
      ensures match SessionRevoked(old(State()), user, id, now)
              case Ok(s) => r.Ok? && State() == s
              case Err(e) => r == Err(e) && State() == old(State())
    {
      var i := IndexOf(tokens, id);
      if i == |tokens| || tokens[i].user != user || tokens[i].revokedAt.Some? {
        return Err(NotFound);
      }
      tokens := tokens[i := Revoke(tokens[i], now)];
      return Ok(());
    }
  }

  // ----- runs -----

  /** One request at a time. A status change is made elsewhere; time passes between
      any two requests. */
  datatype Op =
    | Login(user: Id, credentialsOk: bool, lifetime: nat)
    | Refresh(presented: nat, lifetime: nat)
    | LogoutAll(user: Id)
    | Logout(presented: nat)
    | RevokeSession(user: Id, id: nat)
    | SetActive(users: set<Id>)

  datatype Timed = Timed(op: Op, now: int)

  function Settle(s: Sessions, r: Result<Sessions>): Sessions {
    if r.Ok? then r.value else s
  }

  function Step(s: Sessions, request: Timed): Sessions {
    match request.op
    case Login(user, credentialsOk, lifetime) => Settle(s, LoggedIn(s, user, credentialsOk, request.now, lifetime))
    case Refresh(presented, lifetime) => Settle(s, Refreshed(s, presented, request.now, lifetime))
    case LogoutAll(user) => LoggedOutAll(s, user, request.now)
    case Logout(presented) => LoggedOut(s, presented, request.now)
    case RevokeSession(user, id) => Settle(s, SessionRevoked(s, user, id, request.now))
    case SetActive(users) => s.(activeUsers := users)
  }

  function Run(s: Sessions, requests: seq<Timed>): Sessions
    decreases |requests|
  {
    if requests == [] then s else Run(Step(s, requests[0]), requests[1..])
  }

  ghost predicate InOrder(requests: seq<Timed>, from: int) {
    && (forall i | 0 <= i < |requests| :: from <= requests[i].now)
    && (forall i, j | 0 <= i < j < |requests| :: requests[i].now <= requests[j].now)
  }

  /** The clock after a run that began at `from`. */
  function Clock(requests: seq<Timed>, from: int): int {
    if requests == [] then from else requests[|requests| - 1].now
  }
}
