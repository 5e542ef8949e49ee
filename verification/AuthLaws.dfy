/** What every run of the session service keeps. */
module AuthLaws {
  import opened Base
  import opened Auth

  // ----- the invariants -----

  /** An earlier and a later row: ids and creation times rise, and a family belongs
      to one user and has at most one unrevoked token. */
  ghost predicate Precedes(a: Token, b: Token) {
    && a.id < b.id && a.createdAt <= b.createdAt
    && (a.family == b.family ==> a.user == b.user && (a.revokedAt.Some? || b.revokedAt.Some?))
  }

  ghost predicate Ordered(tokens: seq<Token>) {
    forall i, j | 0 <= i < j < |tokens| :: Precedes(tokens[i], tokens[j])
  }

  ghost predicate Plausible(t: Token, nextId: nat, nextFamily: nat, clock: int) {
    && t.id < nextId && t.family < nextFamily && t.createdAt <= clock
    && (t.revokedAt.Some? ==> t.createdAt <= t.revokedAt.value <= clock)
    && (t.replacedBy.Some? ==> t.revokedAt.Some?)
  }

  ghost predicate WellFormed(s: Sessions, clock: int) {
    && Ordered(s.tokens)
    && forall t | t in s.tokens :: Plausible(t, s.nextId, s.nextFamily, clock)
  }

  /** Rows are as they were or freshly revoked. */
  ghost predicate RevokesSome(a: seq<Token>, b: seq<Token>, now: int) {
    && |a| == |b|
    && forall i | 0 <= i < |a| :: b[i] == a[i] || (a[i].revokedAt.None? && b[i] == Revoke(a[i], now))
  }

  lemma RevokesSomeKeeps(s: Sessions, tokens: seq<Token>, clock: int, now: int)
    requires WellFormed(s, clock) && clock <= now && RevokesSome(s.tokens, tokens, now)
    ensures WellFormed(s.(tokens := tokens), now)
  {
    forall i, j | 0 <= i < j < |tokens|
      ensures Precedes(tokens[i], tokens[j])
    {
      assert Precedes(s.tokens[i], s.tokens[j]);
    }
    forall t | t in tokens
      ensures Plausible(t, s.nextId, s.nextFamily, now)
    {
      var i :| 0 <= i < |tokens| && tokens[i] == t;
      assert s.tokens[i] in s.tokens;
    }
  }

  // ----- pruning -----

  lemma {:induction false} WithoutStaleSelects(tokens: seq<Token>, user: Id, now: int)
    ensures forall t :: t in WithoutStale(tokens, user, now) <==> t in tokens && !Stale(t, user, now)
    ensures Ordered(tokens) ==> Ordered(WithoutStale(tokens, user, now))
  {
    if tokens == [] {
    } else {
      var rest := WithoutStale(tokens[1..], user, now);
      WithoutStaleSelects(tokens[1..], user, now);
      assert tokens == [tokens[0]] + tokens[1..];
      if Ordered(tokens) {
        forall j | 0 <= j < |rest|
          ensures Precedes(tokens[0], rest[j])
        {
          assert rest[j] in rest;
          var k :| 0 <= k < |tokens[1..]| && tokens[1..][k] == rest[j];
          assert tokens[k + 1] == rest[j];
        }
      }
    }
  }

  lemma {:induction false} RevokeOldestRevokes(tokens: seq<Token>, user: Id, now: int, n: nat)
    ensures RevokesSome(tokens, RevokeOldest(tokens, user, now, n), now)
  {
    if tokens == [] || n == 0 {
    } else {
      RevokeOldestRevokes(tokens[1..], user, now, if tokens[0].LiveFor(user, now) then n - 1 else n);
    }
  }

  lemma PrunedKeeps(s: Sessions, user: Id, clock: int, now: int)
    requires WellFormed(s, clock) && clock <= now
    ensures WellFormed(s.(tokens := Pruned(s.tokens, user, now)), now)
  {
    var kept := WithoutStale(s.tokens, user, now);
    WithoutStaleSelects(s.tokens, user, now);
    assert WellFormed(s.(tokens := kept), now);
    var active := Live(kept, user, now);
    if active > MAX_ACTIVE - 1 {
      RevokeOldestRevokes(kept, user, now, active - (MAX_ACTIVE - 1));
      RevokesSomeKeeps(s.(tokens := kept), Pruned(s.tokens, user, now), now, now);
    }
  }

  // ----- one step -----

  lemma RotatedKeeps(s: Sessions, i: nat, clock: int, now: int, lifetime: nat)
    requires WellFormed(s, clock) && clock <= now && i < |s.tokens| && s.tokens[i].revokedAt.None?
    ensures WellFormed(Rotated(s, i, now, lifetime), now)
  {
    var t := Rotated(s, i, now, lifetime);
    var n := |s.tokens|;
    forall j, k | 0 <= j < k < |t.tokens|
      ensures Precedes(t.tokens[j], t.tokens[k])
    {
      if k < n {
        assert Precedes(s.tokens[j], s.tokens[k]);
      } else if j < i {
        assert Precedes(s.tokens[j], s.tokens[i]) && s.tokens[j] in s.tokens;
      } else if j > i {
        assert Precedes(s.tokens[i], s.tokens[j]) && s.tokens[j] in s.tokens;
      } else {
        assert s.tokens[i] in s.tokens;
      }
    }
    forall u | u in t.tokens
      ensures Plausible(u, t.nextId, t.nextFamily, now)
    {
      var k :| 0 <= k < |t.tokens| && t.tokens[k] == u;
      assert s.tokens[i] in s.tokens;
      if k < n {
        assert s.tokens[k] in s.tokens;
      }
    }
  }

  /** A refresh either fails or rotates an unrevoked, unexpired token of the family
      the presented one belongs to. */
  lemma RefreshedRotates(s: Sessions, presented: nat, now: int, lifetime: nat) returns (i: nat)
    requires Refreshed(s, presented, now, lifetime).Ok?
    ensures i < |s.tokens| && s.tokens[i].revokedAt.None? && s.tokens[i].expiresAt > now
    ensures exists t | t in s.tokens :: t.id == presented && t.family == s.tokens[i].family
    ensures Refreshed(s, presented, now, lifetime) == Ok(Rotated(s, i, now, lifetime))
  {
    assert s.tokens[IndexOf(s.tokens, presented)] in s.tokens;
    i := SpentBy(s, presented, now).value;
  }

  lemma LoggedInKeeps(s: Sessions, user: Id, credentialsOk: bool, clock: int, now: int, lifetime: nat)
    requires WellFormed(s, clock) && clock <= now && LoggedIn(s, user, credentialsOk, now, lifetime).Ok?
    ensures WellFormed(LoggedIn(s, user, credentialsOk, now, lifetime).value, now)
  {
    var t := LoggedIn(s, user, credentialsOk, now, lifetime).value;
    var pruned := Pruned(s.tokens, user, now);
    PrunedKeeps(s, user, clock, now);
    forall i, j | 0 <= i < j < |t.tokens|
      ensures Precedes(t.tokens[i], t.tokens[j])
    {
      assert pruned[i] in pruned;
    }
  }

  lemma StepKeeps(s: Sessions, request: Timed, clock: int)
    requires WellFormed(s, clock) && clock <= request.now
    ensures WellFormed(Step(s, request), request.now)
  {
    RevokesSomeKeeps(s, s.tokens, clock, request.now);
    match request.op
    case Login(user, credentialsOk, lifetime) =>
      if LoggedIn(s, user, credentialsOk, request.now, lifetime).Ok? {
        LoggedInKeeps(s, user, credentialsOk, clock, request.now, lifetime);
      }
    case Refresh(presented, lifetime) =>
      if Refreshed(s, presented, request.now, lifetime).Ok? {
        var i := RefreshedRotates(s, presented, request.now, lifetime);
        RotatedKeeps(s, i, clock, request.now, lifetime);
      }
    case SetActive(_) =>
    case _ =>
      RevokesSomeKeeps(s, Step(s, request).tokens, clock, request.now);
  }

  /** After every run each family has at most one unrevoked token and one user. */
  lemma {:induction false} RunKeeps(s: Sessions, requests: seq<Timed>, clock: int)
    requires WellFormed(s, clock) && InOrder(requests, clock)
    ensures WellFormed(Run(s, requests), Clock(requests, clock))
    decreases |requests|
  {
    if requests == [] {
    } else {
      StepKeeps(s, requests[0], clock);
      RunKeeps(Step(s, requests[0]), requests[1..], requests[0].now);
    }
  }

  // ----- ended families -----

  /** A family that was opened and has no unrevoked token. */
  ghost predicate Ended(s: Sessions, family: nat) {
    family < s.nextFamily && forall t | t in s.tokens :: t.family == family ==> t.revokedAt.Some?
  }

  lemma PrunedEnds(tokens: seq<Token>, user: Id, now: int, family: nat)
    requires forall t | t in tokens :: t.family == family ==> t.revokedAt.Some?
    ensures forall t | t in Pruned(tokens, user, now) :: t.family == family ==> t.revokedAt.Some?
  {
    var kept := WithoutStale(tokens, user, now);
    WithoutStaleSelects(tokens, user, now);
    var active := Live(kept, user, now);
    if active > MAX_ACTIVE - 1 {
      RevokeOldestRevokes(kept, user, now, active - (MAX_ACTIVE - 1));
      forall t | t in Pruned(tokens, user, now) && t.family == family
        ensures t.revokedAt.Some?
      {
        var i :| 0 <= i < |kept| && Pruned(tokens, user, now)[i] == t;
        assert kept[i] in kept;
      }
    }
  }

  /** No request revives an ended family: a refresh with any of its tokens fails. */
  lemma StepKeepsEnded(s: Sessions, request: Timed, family: nat)
    requires Ended(s, family)
    ensures Ended(Step(s, request), family)
  {
    match request.op
    case Login(user, credentialsOk, lifetime) =>
      PrunedEnds(s.tokens, user, request.now, family);
    case Refresh(presented, lifetime) =>
      if Refreshed(s, presented, request.now, lifetime).Ok? {
        var i := RefreshedRotates(s, presented, request.now, lifetime);
        var t := Rotated(s, i, request.now, lifetime);
        assert s.tokens[i] in s.tokens;
        forall u | u in t.tokens && u.family == family
          ensures u.revokedAt.Some?
        {
          var k :| 0 <= k < |t.tokens| && t.tokens[k] == u;
          if k < |s.tokens| {
            assert s.tokens[k] in s.tokens;
          }
        }
      }
    case SetActive(_) =>
    case _ =>
      forall u | u in Step(s, request).tokens && u.family == family
        ensures u.revokedAt.Some?
      {
        var k :| 0 <= k < |s.tokens| && Step(s, request).tokens[k] == u;
        assert s.tokens[k] in s.tokens;
      }
  }

  lemma {:induction false} RunKeepsEnded(s: Sessions, requests: seq<Timed>, family: nat)
    requires Ended(s, family)
    ensures Ended(Run(s, requests), family)
    decreases |requests|
  {
    if requests == [] {
    } else {
      StepKeepsEnded(s, requests[0], family);
      RunKeepsEnded(Step(s, requests[0]), requests[1..], family);
    }
  }

  /** A token of an ended family is worthless, within the grace period too, now and
      after any further run. */
  lemma EndedIsFinal(
      s: Sessions, requests: seq<Timed>, clock: int, family: nat, presented: nat, now: int, lifetime: nat)
    requires WellFormed(s, clock) && InOrder(requests, clock) && Ended(s, family)
    requires exists t | t in Run(s, requests).tokens :: t.id == presented && t.family == family
    ensures Ended(Run(s, requests), family)
    ensures Refreshed(Run(s, requests), presented, now, lifetime).Err?
  {
    var t := Run(s, requests);
    RunKeepsEnded(s, requests, family);
    RunKeeps(s, requests, clock);
    if Refreshed(t, presented, now, lifetime).Ok? {
      var i := RefreshedRotates(t, presented, now, lifetime);
      var a :| a in t.tokens && a.id == presented && a.family == family;
      var b :| b in t.tokens && b.id == presented && b.family == t.tokens[i].family;
      assert t.tokens[i] in t.tokens;
      SameIdSameToken(t.tokens, a, b);
    }
  }

  lemma SameIdSameToken(tokens: seq<Token>, a: Token, b: Token)
    requires Ordered(tokens) && a in tokens && b in tokens && a.id == b.id
    ensures a == b
  {
    var i: nat :| i < |tokens| && tokens[i] == a;
    var j: nat :| j < |tokens| && tokens[j] == b;
  }

  /** Logging out with a live token, revoking its session, or logging its user out
      everywhere ends its family. */
  lemma LogoutEnds(s: Sessions, clock: int, i: nat, now: int)
    requires WellFormed(s, clock) && i < |s.tokens| && s.tokens[i].revokedAt.None?
    ensures Ended(LoggedOut(s, s.tokens[i].id, now), s.tokens[i].family)
    ensures SessionRevoked(s, s.tokens[i].user, s.tokens[i].id, now) == Ok(LoggedOut(s, s.tokens[i].id, now))
    ensures Ended(LoggedOutAll(s, s.tokens[i].user, now), s.tokens[i].family)
  {
    var token := s.tokens[i];
    var p := IndexOf(s.tokens, token.id);
    assert token in s.tokens && s.tokens[p] in s.tokens;
    SameIdSameToken(s.tokens, token, s.tokens[p]);
    forall u | u in LoggedOut(s, token.id, now).tokens && u.family == token.family
      ensures u.revokedAt.Some?
    {
      var k :| 0 <= k < |s.tokens| && LoggedOut(s, token.id, now).tokens[k] == u;
    }
    forall u | u in LoggedOutAll(s, token.user, now).tokens && u.family == token.family
      ensures u.revokedAt.Some?
    {
      var k :| 0 <= k < |s.tokens| && LoggedOutAll(s, token.user, now).tokens[k] == u;
    }
  }

  /** Only a login brings a family into being. */
  lemma OnlyLoginOpens(s: Sessions, request: Timed, clock: int)
    requires WellFormed(s, clock) && clock <= request.now && !request.op.Login?
    ensures Step(s, request).nextFamily == s.nextFamily
    ensures forall t | t in Step(s, request).tokens :: exists u | u in s.tokens :: u.family == t.family
  {
    forall t | t in Step(s, request).tokens
      ensures exists u | u in s.tokens :: u.family == t.family
    {
      var k :| 0 <= k < |Step(s, request).tokens| && Step(s, request).tokens[k] == t;
      if request.op.Refresh? && Refreshed(s, request.op.presented, request.now, request.op.lifetime).Ok? {
        var i := RefreshedRotates(s, request.op.presented, request.now, request.op.lifetime);
        assert s.tokens[i] in s.tokens;
        if k < |s.tokens| {
          assert s.tokens[k] in s.tokens && s.tokens[k].family == t.family;
        }
      } else {
        assert s.tokens[k] in s.tokens && s.tokens[k].family == t.family;
      }
    }
  }

  // ----- whose tokens change -----

  /** Logging a user out everywhere revokes that user's unrevoked tokens, and no others. */
  lemma LogoutAllRevokesOwn(s: Sessions, user: Id, now: int, i: nat)
    requires i < |s.tokens|
    ensures var t := LoggedOutAll(s, user, now);
            && t == s.(tokens := t.tokens) && |t.tokens| == |s.tokens|
            && t.tokens[i] == (if s.tokens[i].user == user && s.tokens[i].revokedAt.None?
                               then s.tokens[i].(revokedAt := Some(now)) else s.tokens[i])
  {
  }

  /** A logout revokes the presented token, if it is unrevoked, and no other. */
  lemma LogoutRevokesOne(s: Sessions, clock: int, presented: nat, now: int, i: nat)
    requires WellFormed(s, clock) && i < |s.tokens|
    ensures var t := LoggedOut(s, presented, now);
            && t == s.(tokens := t.tokens) && |t.tokens| == |s.tokens|
            && t.tokens[i] == (if s.tokens[i].id == presented && s.tokens[i].revokedAt.None?
                               then s.tokens[i].(revokedAt := Some(now)) else s.tokens[i])
  {
    OnlyIndex(s, clock, presented, i);
  }

  lemma OnlyIndex(s: Sessions, clock: int, id: nat, i: nat)
    requires WellFormed(s, clock) && i < |s.tokens|
    ensures s.tokens[i].id == id <==> IndexOf(s.tokens, id) == i
  {
    var k := IndexOf(s.tokens, id);
    assert k < i ==> Precedes(s.tokens[k], s.tokens[i]);
  }

  /** A session is revoked exactly when it is the user's and unrevoked, and no other is. */
  lemma SessionRevokedExactlyWhen(s: Sessions, clock: int, user: Id, id: nat, now: int, i: nat)
    requires WellFormed(s, clock) && i < |s.tokens|
    ensures SessionRevoked(s, user, id, now).Ok?
            <==> exists t | t in s.tokens :: t.id == id && t.user == user && t.revokedAt.None?
    ensures SessionRevoked(s, user, id, now).Ok? ==>
              var t := SessionRevoked(s, user, id, now).value;
              && t == s.(tokens := t.tokens) && |t.tokens| == |s.tokens|
              && t.tokens[i] == (if s.tokens[i].id == id then s.tokens[i].(revokedAt := Some(now)) else s.tokens[i])
  {
    var k := IndexOf(s.tokens, id);
    OnlyIndex(s, clock, id, i);
    if SessionRevoked(s, user, id, now).Ok? {
      assert s.tokens[k] in s.tokens;
    }
    if exists t | t in s.tokens :: t.id == id && t.user == user && t.revokedAt.None? {
      var t :| t in s.tokens && t.id == id && t.user == user && t.revokedAt.None?;
      var j: nat :| j < |s.tokens| && s.tokens[j] == t;
      OnlyIndex(s, clock, id, j);
    }
  }

  lemma {:induction false} TipExists(tokens: seq<Token>, family: nat, now: int, n: nat, i: nat)
    requires i < n <= |tokens|
    requires tokens[i].family == family && tokens[i].revokedAt.None? && tokens[i].expiresAt > now
    ensures TipBefore(tokens, family, now, n) < |tokens|
  {
    if i == n - 1 {
    } else {
      TipExists(tokens, family, now, n - 1, i);
    }
  }

  /** A token that is unrevoked and unexpired. */
  predicate Usable(t: Token, now: int) {
    t.revokedAt.None? && t.expiresAt > now
  }

  /** What a presented token must be for a refresh: usable, or revoked within thirty seconds
      while its family has a usable one. */
  ghost predicate Refreshable(s: Sessions, t: Token, now: int) {
    || Usable(t, now)
    || (t.revokedAt.Some? && now - t.revokedAt.value <= 30_000
        && exists u | u in s.tokens :: u.family == t.family && Usable(u, now))
  }

  /** A refresh succeeds exactly when an active user presents a refreshable stored token. */
  lemma RefreshesExactlyWhen(s: Sessions, clock: int, presented: nat, now: int, lifetime: nat)
    requires WellFormed(s, clock)
    ensures Refreshed(s, presented, now, lifetime).Ok? <==>
              exists t | t in s.tokens :: t.id == presented && t.user in s.activeUsers && Refreshable(s, t, now)
  {
    var k := IndexOf(s.tokens, presented);
    if Refreshed(s, presented, now, lifetime).Ok? {
      var i := RefreshedRotates(s, presented, now, lifetime);
      assert s.tokens[k] in s.tokens && s.tokens[i] in s.tokens;
      assert s.tokens[i].family == s.tokens[k].family && Usable(s.tokens[i], now);
    }
    if t :| t in s.tokens && t.id == presented && t.user in s.activeUsers && Refreshable(s, t, now) {
      RefreshableRefreshes(s, clock, presented, now, lifetime, t);
    }
  }

  lemma RefreshableRefreshes(s: Sessions, clock: int, presented: nat, now: int, lifetime: nat, t: Token)
    requires WellFormed(s, clock) && t in s.tokens && t.id == presented && t.user in s.activeUsers
    requires Refreshable(s, t, now)
    ensures Refreshed(s, presented, now, lifetime).Ok?
  {
    var i: nat :| i < |s.tokens| && s.tokens[i] == t;
    OnlyIndex(s, clock, presented, i);
    if !Usable(t, now) {
      var u :| u in s.tokens && u.family == t.family && Usable(u, now);
      var j: nat :| j < |s.tokens| && s.tokens[j] == u;
      TipExists(s.tokens, t.family, now, |s.tokens|, j);
      var tip := TipBefore(s.tokens, t.family, now, |s.tokens|);
      assert tip != i;
      assert Precedes(s.tokens[if tip < i then tip else i], s.tokens[if tip < i then i else tip]);
    }
  }

  /** What a refresh does: the family's usable token is revoked now and names its successor,
      which belongs to the same user and family and lasts the lifetime; nothing else changes. */
  lemma RefreshReplaces(s: Sessions, presented: nat, now: int, lifetime: nat) returns (i: nat)
    requires Refreshed(s, presented, now, lifetime).Ok?
    ensures i < |s.tokens| && Usable(s.tokens[i], now)
    ensures exists t | t in s.tokens :: t.id == presented && t.family == s.tokens[i].family
    ensures var spent := s.tokens[i];
            var t := Refreshed(s, presented, now, lifetime).value;
            && t.nextId == s.nextId + 1 && t.nextFamily == s.nextFamily && t.activeUsers == s.activeUsers
            && |t.tokens| == |s.tokens| + 1
            && t.tokens[i] == spent.(revokedAt := Some(now), replacedBy := Some(s.nextId))
            && t.tokens[|s.tokens|]
                == Token(s.nextId, spent.user, spent.family, now, now + lifetime, None, None)
            && (forall k | 0 <= k < |s.tokens| && k != i :: t.tokens[k] == s.tokens[k])
  {
    i := RefreshedRotates(s, presented, now, lifetime);
  }

  /** A login succeeds exactly for an active user with valid credentials, and then adds one
      token that opens a family of its own. */
  lemma LoginOpensExactlyWhen(s: Sessions, user: Id, credentialsOk: bool, now: int, lifetime: nat)
    ensures var r := LoggedIn(s, user, credentialsOk, now, lifetime);
            && (r.Ok? <==> user in s.activeUsers && credentialsOk)
            && (r == Err(Forbidden) <==> user !in s.activeUsers)
            && (r == Err(Unauthorized) <==> user in s.activeUsers && !credentialsOk)
    ensures LoggedIn(s, user, credentialsOk, now, lifetime).Ok? ==>
              var t := LoggedIn(s, user, credentialsOk, now, lifetime).value;
              && t == s.(tokens := t.tokens, nextId := s.nextId + 1, nextFamily := s.nextFamily + 1)
              && t.tokens
                  == Pruned(s.tokens, user, now)
                     + [Token(s.nextId, user, s.nextFamily, now, now + lifetime, None, None)]
  {
  }

  /** Expired, or revoked more than thirty days ago. */
  predicate Forgotten(t: Token, now: int) {
    t.expiresAt < now || (t.revokedAt.Some? && t.revokedAt.value < now - 2_592_000_000)
  }

  /** `r` is a usable token of the user, revoked now. */
  predicate RevokedNow(tokens: seq<Token>, user: Id, now: int, r: Token) {
    r.revokedAt == Some(now) && r.(revokedAt := None) in tokens && r.user == user && r.expiresAt > now
  }

  /** Pruning leaves other users' tokens alone and deletes exactly the forgotten ones of the
      user's; what it changes of the rest is to revoke some that are usable. */
  lemma PruningDeletesExactly(tokens: seq<Token>, user: Id, now: int, t: Token)
    ensures var pruned := Pruned(tokens, user, now);
            && (t in pruned ==> t in tokens || RevokedNow(tokens, user, now, t))
            && (t in tokens && t.user != user ==> t in pruned)
            && (t in tokens && t.user == user && !Usable(t, now) ==> (t in pruned <==> !Forgotten(t, now)))
            && (t in tokens && t.user == user && Usable(t, now) ==> t in pruned || t.(revokedAt := Some(now)) in pruned)
  {
    var kept := WithoutStale(tokens, user, now);
    var active := Live(kept, user, now);
    WithoutStaleSelects(tokens, user, now);
    if active > MAX_ACTIVE - 1 {
      RevokeOldestTouches(kept, user, now, active - (MAX_ACTIVE - 1), t);
    }
  }

  lemma {:induction false} RevokeOldestTouches(tokens: seq<Token>, user: Id, now: int, n: nat, t: Token)
    ensures var r := RevokeOldest(tokens, user, now, n);
            && (t in r ==> t in tokens || RevokedNow(tokens, user, now, t))
            && (t in tokens && !t.LiveFor(user, now) ==> t in r)
            && (t in tokens ==> t in r || t.(revokedAt := Some(now)) in r)
  {
    if tokens == [] || n == 0 {
    } else {
      var m := if tokens[0].LiveFor(user, now) then n - 1 else n;
      var r := RevokeOldest(tokens, user, now, n);
      RevokeOldestTouches(tokens[1..], user, now, m, t);
      assert tokens == [tokens[0]] + tokens[1..] && r == [r[0]] + RevokeOldest(tokens[1..], user, now, m);
    }
  }

  // ----- the session cap -----

  /** No user has more live tokens than the cap allows. */
  ghost predicate Capped(s: Sessions, now: int) {
    forall user: Id :: Live(s.tokens, user, now) <= 20
  }

  lemma {:induction false} LiveFades(tokens: seq<Token>, user: Id, now: int, later: int)
    requires now <= later
    ensures Live(tokens, user, later) <= Live(tokens, user, now)
  {
    if tokens == [] {
    } else {
      LiveFades(tokens[1..], user, now, later);
    }
  }

  lemma {:induction false} LiveAppend(tokens: seq<Token>, t: Token, user: Id, now: int)
    ensures Live(tokens + [t], user, now) == Live(tokens, user, now) + (if t.LiveFor(user, now) then 1 else 0)
  {
    if tokens == [] {
      assert tokens + [t] == [t] && [t][1..] == [];
    } else {
      LiveAppend(tokens[1..], t, user, now);
      assert (tokens + [t])[1..] == tokens[1..] + [t];
    }
  }

  lemma {:induction false} LiveUpdate(tokens: seq<Token>, i: nat, t: Token, user: Id, now: int)
    requires i < |tokens|
    ensures Live(tokens[i := t], user, now)
         == Live(tokens, user, now) - (if tokens[i].LiveFor(user, now) then 1 else 0)
             + (if t.LiveFor(user, now) then 1 else 0)
  {
    if i == 0 {
      assert tokens[i := t][1..] == tokens[1..];
    } else {
      LiveUpdate(tokens[1..], i - 1, t, user, now);
      assert tokens[i := t][1..] == tokens[1..][i - 1 := t];
    }
  }

  lemma {:induction false} LiveUnderRevocation(a: seq<Token>, b: seq<Token>, user: Id, now: int, at: int)
    requires RevokesSome(a, b, at)
    ensures Live(b, user, now) <= Live(a, user, now)
  {
    if a == [] {
    } else {
      LiveUnderRevocation(a[1..], b[1..], user, now, at);
    }
  }

  lemma {:induction false} LiveWithoutStale(tokens: seq<Token>, user: Id, now: int, other: Id)
    ensures Live(WithoutStale(tokens, user, now), other, now) == Live(tokens, other, now)
  {
    if tokens == [] {
    } else {
      LiveWithoutStale(tokens[1..], user, now, other);
      var rest := WithoutStale(tokens[1..], user, now);
      assert ([tokens[0]] + rest)[1..] == rest && [] + rest == rest;
    }
  }

  /** Revoking the n oldest lowers the user's live tokens by n, as far as they go. */
  lemma {:induction false} LiveRevokeOldest(tokens: seq<Token>, user: Id, now: int, n: nat)
    ensures var live := Live(tokens, user, now);
            Live(RevokeOldest(tokens, user, now, n), user, now) == if n <= live then live - n else 0
  {
    if tokens == [] || n == 0 {
    } else {
      LiveRevokeOldest(tokens[1..], user, now, if tokens[0].LiveFor(user, now) then n - 1 else n);
    }
  }

  lemma {:induction false} LiveOfOthers(tokens: seq<Token>, user: Id, now: int, n: nat, other: Id)
    requires other != user
    ensures Live(RevokeOldest(tokens, user, now, n), other, now) == Live(tokens, other, now)
  {
    if tokens == [] || n == 0 {
    } else {
      var m := if tokens[0].LiveFor(user, now) then n - 1 else n;
      LiveOfOthers(tokens[1..], user, now, m, other);
      assert RevokeOldest(tokens, user, now, n)[1..] == RevokeOldest(tokens[1..], user, now, m);
    }
  }

  /** Pruning makes room for one more token, ends no more sessions than that takes, and
      none of anybody else's. */
  lemma PrunedMakesRoom(tokens: seq<Token>, user: Id, now: int, other: Id)
    ensures var live := Live(tokens, user, now);
            Live(Pruned(tokens, user, now), user, now) == if live <= 19 then live else 19
    ensures other != user ==> Live(Pruned(tokens, user, now), other, now) == Live(tokens, other, now)
  {
    var kept := WithoutStale(tokens, user, now);
    var active := Live(kept, user, now);
    LiveWithoutStale(tokens, user, now, other);
    LiveWithoutStale(tokens, user, now, user);
    if active > MAX_ACTIVE - 1 {
      LiveRevokeOldest(kept, user, now, active - (MAX_ACTIVE - 1));
      if other != user {
        LiveOfOthers(kept, user, now, active - (MAX_ACTIVE - 1), other);
      }
    }
  }

  /** The oldest go first: where a token is revoked, every older live one is too. */
  lemma {:induction false} OldestGoFirst(tokens: seq<Token>, user: Id, now: int, n: nat, i: nat, j: nat)
    requires i < j < |tokens| && tokens[i].LiveFor(user, now)
    requires RevokeOldest(tokens, user, now, n)[j] != tokens[j]
    ensures RevokeOldest(tokens, user, now, n)[i] == Revoke(tokens[i], now)
  {
    var m := if tokens[0].LiveFor(user, now) then n - 1 else n;
    if i == 0 {
    } else {
      OldestGoFirst(tokens[1..], user, now, m, i - 1, j - 1);
    }
  }

  lemma RotatedLive(s: Sessions, i: nat, now: int, lifetime: nat, user: Id)
    requires i < |s.tokens| && s.tokens[i].revokedAt.None? && s.tokens[i].expiresAt > now
    ensures Live(Rotated(s, i, now, lifetime).tokens, user, now) <= Live(s.tokens, user, now)
  {
    var spent := s.tokens[i];
    var token := NewToken(s, spent.user, spent.family, now, lifetime);
    LiveAppend(s.tokens, token, user, now);
    LiveUpdate(s.tokens + [token], i, spent.(revokedAt := Some(now), replacedBy := Some(token.id)), user, now);
  }

  lemma StepCaps(s: Sessions, request: Timed, clock: int)
    requires Capped(s, clock) && clock <= request.now
    ensures Capped(Step(s, request), request.now)
  {
    var now := request.now;
    forall user: Id
      ensures Live(Step(s, request).tokens, user, now) <= 20
    {
      LiveFades(s.tokens, user, clock, now);
      match request.op
      case Login(who, credentialsOk, lifetime) =>
        PrunedMakesRoom(s.tokens, who, now, user);
        LiveAppend(Pruned(s.tokens, who, now), NewToken(s, who, s.nextFamily, now, lifetime), user, now);
      case Refresh(presented, lifetime) =>
        if Refreshed(s, presented, now, lifetime).Ok? {
          var i := RefreshedRotates(s, presented, now, lifetime);
          RotatedLive(s, i, now, lifetime, user);
        }
      case _ =>
        LiveUnderRevocation(s.tokens, Step(s, request).tokens, user, now, now);
    }
  }

  /** At no time in any run does a user have more than twenty live tokens. */
  lemma {:induction false} RunCaps(s: Sessions, requests: seq<Timed>, clock: int, now: int)
    requires Capped(s, clock) && InOrder(requests, clock) && Clock(requests, clock) <= now
    ensures Capped(Run(s, requests), now)
    decreases |requests|
  {
    if requests == [] {
      forall user: Id
        ensures Live(s.tokens, user, now) <= 20
      {
        LiveFades(s.tokens, user, clock, now);
      }
    } else {
      StepCaps(s, requests[0], clock);
      RunCaps(Step(s, requests[0]), requests[1..], requests[0].now, now);
    }
  }

  // ----- replacement chains -----

  /** u is the token that replaced t. */
  ghost predicate Succeeds(u: Token, t: Token) {
    && t.replacedBy == Some(u.id) && t.id < u.id
    && u.family == t.family && u.user == t.user && t.revokedAt == Some(u.createdAt)
  }

  /** Every replacement is still stored. */
  ghost predicate Linked(tokens: seq<Token>) {
    forall t | t in tokens && t.replacedBy.Some? :: exists u | u in tokens :: Succeeds(u, t)
  }

  /** The replacement outlives the token it replaced: it expires no sooner than that one
      expires, or no sooner than that one's revocation is forgotten. */
  predicate Outlives(u: Token, t: Token) {
    u.expiresAt >= t.expiresAt || u.expiresAt >= u.createdAt + KEEP_REVOKED
  }

  /** A replaced token that pruning deletes whenever it next looks. */
  predicate Overdue(t: Token, u: Token, clock: int) {
    t.expiresAt < clock || u.createdAt + KEEP_REVOKED < clock
  }

  /** No stored replacement can be deleted while what it replaced stays. */
  ghost predicate Lasting(tokens: seq<Token>, clock: int) {
    forall t, u | t in tokens && u in tokens && Succeeds(u, t) :: Outlives(u, t) || Overdue(t, u, clock)
  }

  ghost predicate Whole(tokens: seq<Token>, clock: int) {
    Linked(tokens) && Lasting(tokens, clock)
  }

  lemma RevokesSomeLinked(s: Sessions, tokens: seq<Token>, clock: int, now: int)
    requires WellFormed(s, clock) && RevokesSome(s.tokens, tokens, now) && Linked(s.tokens)
    ensures Linked(tokens)
  {
    forall t | t in tokens && t.replacedBy.Some?
      ensures exists u | u in tokens :: Succeeds(u, t)
    {
      var i :| 0 <= i < |tokens| && tokens[i] == t;
      assert s.tokens[i] in s.tokens;
      var u :| u in s.tokens && Succeeds(u, s.tokens[i]);
      var k :| 0 <= k < |tokens| && s.tokens[k] == u;
      assert Succeeds(tokens[k], t);
    }
  }

  lemma RevokedFrom(a: seq<Token>, b: seq<Token>, now: int, t: Token) returns (was: Token)
    requires RevokesSome(a, b, now) && t in b
    ensures was in a && (t == was || (was.revokedAt.None? && t == Revoke(was, now)))
  {
    var i :| 0 <= i < |b| && b[i] == t;
    was := a[i];
  }

  lemma RevokesSomeWhole(s: Sessions, tokens: seq<Token>, clock: int, now: int)
    requires WellFormed(s, clock) && clock <= now && RevokesSome(s.tokens, tokens, now) && Whole(s.tokens, clock)
    ensures Whole(tokens, now)
  {
    RevokesSomeLinked(s, tokens, clock, now);
    forall t, u | t in tokens && u in tokens && Succeeds(u, t)
      ensures Outlives(u, t) || Overdue(t, u, now)
    {
      var before := RevokedFrom(s.tokens, tokens, now, t);
      var after := RevokedFrom(s.tokens, tokens, now, u);
      assert Plausible(before, s.nextId, s.nextFamily, clock);
      assert Succeeds(after, before);
    }
  }

  /** A replacement is revoked no sooner than what it replaced; when it lasts, it is not
      stale sooner either. */
  lemma WithoutStaleWhole(s: Sessions, user: Id, clock: int, now: int)
    requires WellFormed(s, clock) && clock <= now && Whole(s.tokens, clock)
    ensures Whole(WithoutStale(s.tokens, user, now), now)
  {
    var kept := WithoutStale(s.tokens, user, now);
    WithoutStaleSelects(s.tokens, user, now);
    forall t | t in kept && t.replacedBy.Some?
      ensures exists u | u in kept :: Succeeds(u, t)
    {
      var u :| u in s.tokens && Succeeds(u, t);
      assert Plausible(t, s.nextId, s.nextFamily, clock) && Plausible(u, s.nextId, s.nextFamily, clock);
      assert !Stale(u, user, now);
    }
  }

  lemma PrunedWhole(s: Sessions, user: Id, clock: int, now: int)
    requires WellFormed(s, clock) && clock <= now && Whole(s.tokens, clock)
    ensures Whole(Pruned(s.tokens, user, now), now)
  {
    var kept := WithoutStale(s.tokens, user, now);
    WithoutStaleSelects(s.tokens, user, now);
    WithoutStaleWhole(s, user, clock, now);
    var active := Live(kept, user, now);
    if active > MAX_ACTIVE - 1 {
      RevokeOldestRevokes(kept, user, now, active - (MAX_ACTIVE - 1));
      RevokesSomeWhole(s.(tokens := kept), Pruned(s.tokens, user, now), now, now);
    }
  }

  lemma LoggedInWhole(s: Sessions, user: Id, clock: int, now: int, lifetime: nat)
    requires WellFormed(s, clock) && clock <= now && Whole(s.tokens, clock) && user in s.activeUsers
    ensures Whole(LoggedIn(s, user, true, now, lifetime).value.tokens, now)
  {
    var pruned := Pruned(s.tokens, user, now);
    var t := LoggedIn(s, user, true, now, lifetime).value.tokens;
    PrunedWhole(s, user, clock, now);
    PrunedKeeps(s, user, clock, now);
    forall a | a in t && a.replacedBy.Some?
      ensures a in pruned && exists u | u in pruned && u in t :: Succeeds(u, a)
    {
      var u :| u in pruned && Succeeds(u, a);
    }
    forall a, u | a in t && u in t && Succeeds(u, a)
      ensures a in pruned && u in pruned
    {
      var v :| v in pruned && Succeeds(v, a);
    }
  }

  // ----- which refreshes keep chains whole -----

  /** What a caller can test before refreshing: the new token will expire no sooner than
      the spent one would have, or lives at least as long as revoked tokens are kept. */
  predicate LongEnough(spent: Token, now: int, lifetime: nat) {
    now + lifetime >= spent.expiresAt || lifetime >= KEEP_REVOKED
  }

  predicate Guarded(s: Sessions, request: Timed) {
    request.op.Refresh? && SpentBy(s, request.op.presented, request.now).Ok? ==>
      LongEnough(s.tokens[SpentBy(s, request.op.presented, request.now).value], request.now, request.op.lifetime)
  }

  predicate RunGuarded(s: Sessions, requests: seq<Timed>)
    decreases |requests|
  {
    requests != [] ==> Guarded(s, requests[0]) && RunGuarded(Step(s, requests[0]), requests[1..])
  }

  /** A replaced token other than the spent one keeps its replacement under a rotation. */
  lemma RotationKeepsLink(s: Sessions, i: nat, clock: int, now: int, lifetime: nat, a: Token) returns (m: nat)
    requires WellFormed(s, clock) && Linked(s.tokens) && i < |s.tokens| && s.tokens[i].revokedAt.None?
    requires a in Rotated(s, i, now, lifetime).tokens && a.replacedBy.Some?
              && a != Rotated(s, i, now, lifetime).tokens[i]
    ensures a in s.tokens && m < |s.tokens| && Succeeds(s.tokens[m], a)
    ensures Succeeds(Rotated(s, i, now, lifetime).tokens[m], a) && a.replacedBy.value < s.nextId
  {
    var t := Rotated(s, i, now, lifetime).tokens;
    var k :| 0 <= k < |t| && t[k] == a;
    assert s.tokens[k] in s.tokens;
    var u :| u in s.tokens && Succeeds(u, a);
    m :| 0 <= m < |s.tokens| && s.tokens[m] == u;
  }

  /** A rotation adds one link, from the spent token to its successor. */
  lemma RotatedLinked(s: Sessions, i: nat, clock: int, now: int, lifetime: nat)
    requires WellFormed(s, clock) && Linked(s.tokens) && i < |s.tokens| && s.tokens[i].revokedAt.None?
    ensures var t := Rotated(s, i, now, lifetime).tokens;
            Linked(t) && Succeeds(t[|s.tokens|], t[i])
  {
    var t := Rotated(s, i, now, lifetime).tokens;
    assert s.tokens[i] in s.tokens;
    forall a | a in t && a.replacedBy.Some?
      ensures exists u | u in t :: Succeeds(u, a)
    {
      if a == t[i] {
        assert Succeeds(t[|s.tokens|], a);
      } else {
        var m := RotationKeepsLink(s, i, clock, now, lifetime, a);
        assert t[m] in t;
      }
    }
  }

  lemma RotatedLasts(s: Sessions, i: nat, clock: int, now: int, lifetime: nat, a: Token, u: Token)
    requires WellFormed(s, clock) && clock <= now && Whole(s.tokens, clock)
    requires i < |s.tokens| && s.tokens[i].revokedAt.None?
    requires a in Rotated(s, i, now, lifetime).tokens && u in Rotated(s, i, now, lifetime).tokens && Succeeds(u, a)
    ensures var t := Rotated(s, i, now, lifetime).tokens;
            (a == t[i] && u == t[|s.tokens|]) || Outlives(u, a) || Overdue(a, u, now)
  {
    var t := Rotated(s, i, now, lifetime).tokens;
    var k :| 0 <= k < |t| && t[k] == u;
    if k < |s.tokens| {
      assert s.tokens[k] in s.tokens && u.id == s.tokens[k].id < s.nextId;
    }
    if a != t[i] {
      var m := RotationKeepsLink(s, i, clock, now, lifetime, a);
      assert s.tokens[m] in s.tokens && s.tokens[k] in s.tokens;
      assert Succeeds(s.tokens[k], a);
    }
  }

  lemma RotatedWhole(s: Sessions, i: nat, clock: int, now: int, lifetime: nat)
    requires WellFormed(s, clock) && clock <= now && Whole(s.tokens, clock)
    requires i < |s.tokens| && s.tokens[i].revokedAt.None? && LongEnough(s.tokens[i], now, lifetime)
    ensures Whole(Rotated(s, i, now, lifetime).tokens, now)
  {
    var t := Rotated(s, i, now, lifetime).tokens;
    RotatedLinked(s, i, clock, now, lifetime);
    forall a, u | a in t && u in t && Succeeds(u, a)
      ensures Outlives(u, a) || Overdue(a, u, now)
    {
      RotatedLasts(s, i, clock, now, lifetime, a, u);
    }
  }

  lemma StepWhole(s: Sessions, request: Timed, clock: int)
    requires WellFormed(s, clock) && clock <= request.now && Whole(s.tokens, clock) && Guarded(s, request)
    ensures Whole(Step(s, request).tokens, request.now)
  {
    var now := request.now;
    RevokesSomeWhole(s, s.tokens, clock, now);
    match request.op
    case Login(user, credentialsOk, lifetime) =>
      if LoggedIn(s, user, credentialsOk, now, lifetime).Ok? {
        LoggedInWhole(s, user, clock, now, lifetime);
      }
    case Refresh(presented, lifetime) =>
      if SpentBy(s, presented, now).Ok? {
        RotatedWhole(s, SpentBy(s, presented, now).value, clock, now, lifetime);
      }
    case SetActive(_) =>
    case _ =>
      RevokesSomeWhole(s, Step(s, request).tokens, clock, now);
  }

  /** While every refresh issues a token that lives long enough, every replacement a
      stored token names is itself stored, through all pruning. */
  lemma {:induction false} RunWhole(s: Sessions, requests: seq<Timed>, clock: int)
    requires WellFormed(s, clock) && Whole(s.tokens, clock) && InOrder(requests, clock) && RunGuarded(s, requests)
    ensures Whole(Run(s, requests).tokens, Clock(requests, clock))
    decreases |requests|
  {
    if requests == [] {
    } else {
      StepKeeps(s, requests[0], clock);
      StepWhole(s, requests[0], clock);
      RunWhole(Step(s, requests[0]), requests[1..], requests[0].now);
    }
  }

  // ----- what breaks a chain -----

  lemma {:induction false} RevokedStays(tokens: seq<Token>, user: Id, now: int, n: nat, t: Token)
    requires t in tokens && t.revokedAt.Some?
    ensures t in RevokeOldest(tokens, user, now, n)
  {
    if tokens == [] || n == 0 {
    } else if t == tokens[0] {
      assert RevokeOldest(tokens, user, now, n)[0] == t;
    } else {
      RevokedStays(tokens[1..], user, now, if tokens[0].LiveFor(user, now) then n - 1 else n, t);
    }
  }

  /** Pruning deletes stale tokens for good and keeps the other revoked ones. */
  lemma PrunedSelects(s: Sessions, clock: int, user: Id, now: int, t: Token, u: Token)
    requires WellFormed(s, clock) && t in s.tokens && u in s.tokens
    requires t.revokedAt.Some? && !Stale(t, user, now) && Stale(u, user, now)
    ensures t in Pruned(s.tokens, user, now)
    ensures forall v | v in Pruned(s.tokens, user, now) :: v.id != u.id
  {
    var kept := WithoutStale(s.tokens, user, now);
    var pruned := Pruned(s.tokens, user, now);
    var active := Live(kept, user, now);
    WithoutStaleSelects(s.tokens, user, now);
    if active > MAX_ACTIVE - 1 {
      RevokeOldestRevokes(kept, user, now, active - (MAX_ACTIVE - 1));
      RevokedStays(kept, user, now, active - (MAX_ACTIVE - 1), t);
    }
    forall v | v in pruned
      ensures v.id != u.id
    {
      var k :| 0 <= k < |pruned| && pruned[k] == v;
      assert kept[k] in kept;
      if v.id == u.id {
        SameIdSameToken(s.tokens, kept[k], u);
      }
    }
  }

  /** A login deletes a replacement and keeps what it replaced when the one is stale and
      the other is not. */
  lemma LoginBreaks(s: Sessions, clock: int, t: Token, u: Token, now: int, lifetime: nat)
    requires WellFormed(s, clock) && t in s.tokens && u in s.tokens && Succeeds(u, t) && t.user in s.activeUsers
    requires u.expiresAt < now && !Overdue(t, u, now)
    ensures !Linked(Step(s, Timed(Login(t.user, true, lifetime), now)).tokens)
  {
    var after := Step(s, Timed(Login(t.user, true, lifetime), now)).tokens;
    PrunedSelects(s, clock, t.user, now, t, u);
    assert t in after;
    assert forall v | v in after :: v.id != u.id;
  }

  /** Chains hold from here on as long as refreshes are guarded. */
  ghost predicate HoldsFrom(s: Sessions, clock: int) {
    forall rest | InOrder(rest, clock) && RunGuarded(s, rest) :: Linked(Run(s, rest).tokens)
  }

  /** The run that breaks a link that does not last: when the replacement has expired,
      the user logs in. */
  lemma BreakingRun(s: Sessions, clock: int, t: Token, u: Token)
    requires WellFormed(s, clock) && t in s.tokens && u in s.tokens && Succeeds(u, t)
    requires !Outlives(u, t) && !Overdue(t, u, clock)
    ensures var now := if clock <= u.expiresAt then u.expiresAt + 1 else clock;
            var rest := [Timed(SetActive({t.user}), now), Timed(Login(t.user, true, 0), now)];
            InOrder(rest, clock) && RunGuarded(s, rest) && !Linked(Run(s, rest).tokens)
  {
    var now := if clock <= u.expiresAt then u.expiresAt + 1 else clock;
    var rest := [Timed(SetActive({t.user}), now), Timed(Login(t.user, true, 0), now)];
    var active := Step(s, rest[0]);
    assert WellFormed(active, clock);
    LoginBreaks(active, clock, t, u, now, 0);
    assert rest[1..] == [rest[1]] && rest[1..][1..] == [];
    assert Run(s, rest) == Run(active, rest[1..]) == Run(Step(active, rest[1]), []);
  }

  /** Chains that are linked hold from here on exactly when every link lasts. */
  lemma HoldsExactlyWhen(s: Sessions, clock: int)
    requires WellFormed(s, clock) && Linked(s.tokens)
    ensures HoldsFrom(s, clock) <==> Lasting(s.tokens, clock)
  {
    if Lasting(s.tokens, clock) {
      forall rest | InOrder(rest, clock) && RunGuarded(s, rest)
        ensures Linked(Run(s, rest).tokens)
      {
        RunWhole(s, rest, clock);
      }
    } else {
      var t, u :| t in s.tokens && u in s.tokens && Succeeds(u, t) && !(Outlives(u, t) || Overdue(t, u, clock));
      BreakingRun(s, clock, t, u);
    }
  }

  /** One refresh leaves chains that hold exactly when its token lives long enough. */
  lemma StepHoldsExactlyWhen(s: Sessions, request: Timed, clock: int)
    requires WellFormed(s, clock) && clock <= request.now && Whole(s.tokens, clock)
    ensures HoldsFrom(Step(s, request), request.now) <==> Guarded(s, request)
  {
    var t := Step(s, request);
    StepKeeps(s, request, clock);
    if Guarded(s, request) {
      StepWhole(s, request, clock);
    } else {
      var i := SpentBy(s, request.op.presented, request.now).value;
      RotatedLinked(s, i, clock, request.now, request.op.lifetime);
      assert t.tokens[i] in t.tokens && t.tokens[|s.tokens|] in t.tokens;
      assert !Lasting(t.tokens, request.now);
    }
    HoldsExactlyWhen(t, request.now);
  }

  /** At every point of a run chains hold from there on. */
  ghost predicate HoldsAlong(s: Sessions, requests: seq<Timed>, clock: int)
    decreases |requests|
  {
    && HoldsFrom(s, clock)
    && (requests != [] ==> HoldsAlong(Step(s, requests[0]), requests[1..], requests[0].now))
  }

  /** Over whole runs: chains hold at every point exactly when every refresh on the way
      issues a token that lives long enough. */
  lemma {:induction false} RunHoldsExactlyWhen(s: Sessions, requests: seq<Timed>, clock: int)
    requires WellFormed(s, clock) && Whole(s.tokens, clock) && InOrder(requests, clock)
    ensures HoldsAlong(s, requests, clock) <==> RunGuarded(s, requests)
    decreases |requests|
  {
    HoldsExactlyWhen(s, clock);
    if requests == [] {
    } else {
      var next := Step(s, requests[0]);
      StepHoldsExactlyWhen(s, requests[0], clock);
      if Guarded(s, requests[0]) {
        StepKeeps(s, requests[0], clock);
        StepWhole(s, requests[0], clock);
        RunHoldsExactlyWhen(next, requests[1..], requests[0].now);
      }
    }
  }

  // ----- one lifetime -----

  ghost predicate LastFor(tokens: seq<Token>, lifetime: int) {
    forall t | t in tokens :: t.expiresAt == t.createdAt + lifetime
  }

  predicate LifetimeIs(op: Op, lifetime: nat) {
    (op.Login? || op.Refresh?) ==> op.lifetime == lifetime
  }

  lemma LastForLasts(s: Sessions, clock: int, lifetime: int)
    requires WellFormed(s, clock) && LastFor(s.tokens, lifetime)
    ensures Lasting(s.tokens, clock)
  {
  }

  lemma StepLastsFor(s: Sessions, request: Timed, lifetime: nat)
    requires LastFor(s.tokens, lifetime) && LifetimeIs(request.op, lifetime)
    ensures LastFor(Step(s, request).tokens, lifetime)
  {
    var t := Step(s, request).tokens;
    forall a | a in t
      ensures a.expiresAt == a.createdAt + lifetime
    {
      var k :| 0 <= k < |t| && t[k] == a;
      if request.op.Login? && LoggedIn(s, request.op.user, request.op.credentialsOk, request.now, lifetime).Ok? {
        PrunedDates(s.tokens, request.op.user, request.now, lifetime);
      } else if k < |s.tokens| {
        assert s.tokens[k] in s.tokens;
      }
    }
  }

  lemma RevokedDates(a: seq<Token>, b: seq<Token>, now: int, lifetime: nat)
    requires RevokesSome(a, b, now) && LastFor(a, lifetime)
    ensures LastFor(b, lifetime)
  {
    forall t | t in b
      ensures t.expiresAt == t.createdAt + lifetime
    {
      var was := RevokedFrom(a, b, now, t);
    }
  }

  lemma KeptDates(tokens: seq<Token>, user: Id, now: int, lifetime: nat)
    requires LastFor(tokens, lifetime)
    ensures LastFor(WithoutStale(tokens, user, now), lifetime)
  {
    WithoutStaleSelects(tokens, user, now);
  }

  lemma PrunedDates(tokens: seq<Token>, user: Id, now: int, lifetime: nat)
    requires LastFor(tokens, lifetime)
    ensures LastFor(Pruned(tokens, user, now), lifetime)
  {
    var kept := WithoutStale(tokens, user, now);
    var active := Live(kept, user, now);
    KeptDates(tokens, user, now, lifetime);
    if active > MAX_ACTIVE - 1 {
      RevokeOldestRevokes(kept, user, now, active - (MAX_ACTIVE - 1));
      RevokedDates(kept, Pruned(tokens, user, now), now, lifetime);
    }
  }

  lemma {:induction false} OneLifetimeIsGuarded(s: Sessions, requests: seq<Timed>, clock: int, lifetime: nat)
    requires WellFormed(s, clock) && LastFor(s.tokens, lifetime) && InOrder(requests, clock)
    requires forall i | 0 <= i < |requests| :: LifetimeIs(requests[i].op, lifetime)
    ensures RunGuarded(s, requests)
    decreases |requests|
  {
    if requests == [] {
    } else {
      var request := requests[0];
      if request.op.Refresh? && SpentBy(s, request.op.presented, request.now).Ok? {
        assert s.tokens[SpentBy(s, request.op.presented, request.now).value] in s.tokens;
      }
      StepKeeps(s, request, clock);
      StepLastsFor(s, request, lifetime);
      assert forall i | 0 <= i < |requests[1..]| :: requests[1..][i] == requests[i + 1];
      OneLifetimeIsGuarded(Step(s, request), requests[1..], request.now, lifetime);
    }
  }

  /** With one refresh lifetime throughout every refresh is guarded, so every replacement
      a stored token names is itself stored, after every run and all its pruning. */
  lemma {:induction false} RunLinked(s: Sessions, requests: seq<Timed>, clock: int, lifetime: nat)
    requires WellFormed(s, clock) && Linked(s.tokens) && LastFor(s.tokens, lifetime) && InOrder(requests, clock)
    requires forall i | 0 <= i < |requests| :: LifetimeIs(requests[i].op, lifetime)
    ensures Linked(Run(s, requests).tokens)
  {
    LastForLasts(s, clock, lifetime);
    OneLifetimeIsGuarded(s, requests, clock, lifetime);
    RunWhole(s, requests, clock);
  }

  /** Following replacements from any stored token ends, in its own family, at a
      stored token that nothing replaced. */
  ghost function ChainEnd(s: Sessions, clock: int, i: nat): (end: nat)
    requires WellFormed(s, clock) && Linked(s.tokens) && i < |s.tokens|
    ensures end < |s.tokens| && s.tokens[end].family == s.tokens[i].family && s.tokens[end].replacedBy.None?
    decreases s.nextId - s.tokens[i].id
  {
    assert s.tokens[i] in s.tokens;
    if s.tokens[i].replacedBy.None? then i
    else
      var u :| u in s.tokens && Succeeds(u, s.tokens[i]);
      var k := IndexOf(s.tokens, s.tokens[i].replacedBy.value);
      assert k < |s.tokens| && s.tokens[k] in s.tokens && u in s.tokens;
      SameIdSameToken(s.tokens, u, s.tokens[k]);
      ChainEnd(s, clock, k)
  }

  /** For instance ten days, then one: the successor expires first, and a login deletes it. */
  lemma ShorterLifetimeBreaksChains()
    ensures var day := 24 * 60 * 60 * 1000;
            var s := Run(Sessions([], 0, 0, {0}),
                         [Timed(Login(0, true, 10 * day), 0), Timed(Refresh(0, day), 1),
                             Timed(Login(0, true, day), 5 * day)]);
            !Linked(s.tokens)
  {
    var day := 24 * 60 * 60 * 1000;
    var r := [Timed(Login(0, true, 10 * day), 0), Timed(Refresh(0, day), 1), Timed(Login(0, true, day), 5 * day)];
    var s0 := Sessions([], 0, 0, {0});
    var s1 := Step(s0, r[0]);
    var s2 := Step(s1, r[1]);
    assert s1.tokens == [Token(0, 0, 0, 0, 10 * day, None, None)];
    StepKeeps(s0, r[0], 0);
    StepKeeps(s1, r[1], 0);
    assert s2.tokens[0] in s2.tokens && s2.tokens[1] in s2.tokens;
    LoginBreaks(s2, 1, s2.tokens[0], s2.tokens[1], 5 * day, day);
    assert Run(s0, r) == Run(s1, r[1..]) == Run(s2, r[1..][1..]) == Run(Step(s2, r[2]), r[1..][1..][1..]);
  }
}
