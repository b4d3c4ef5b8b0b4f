/** When the token endpoint grants, in the terms of what is stored; and what a deactivated user can still get. */
module GrantRules {
  import opened Common
  import opened Tokens
  import Scopes

  // ---- The refresh grant ---------------------------------------------------------------------

  /** A refresh is granted exactly when the token was issued and has not expired, its row is stored, live and
      unexpired, it belongs to the asking client, which may refresh in public, and its user is active. */
  lemma RefreshGrantedExactly(s: State, client: Id, used: Id, jti: Id)
    ensures RefreshGrant(s, client, used, jti).verdict.Granted? <==>
              && used in s.issued && s.now / 1_000_000 <= s.issued[used].exp
              && used in s.rows && !s.rows[used].revoked && s.now <= s.rows[used].expiresAt
              && s.issued[used].client == client
              && client in s.clients && s.clients[client].isActive && !s.clients[client].isConfidential
              && REFRESH_TOKEN in s.clients[client].grantTypes
              && s.issued[used].sub in s.users && s.users[s.issued[used].sub]
  {
  }

  /** Every other answer, in the order of the checks; only reuse changes anything. */
  lemma RefreshRefusals(s: State, client: Id, used: Id, jti: Id)
    ensures var o := RefreshGrant(s, client, used, jti);
            var decodes := used in s.issued && s.now / 1_000_000 <= s.issued[used].exp;
            && (o.verdict == BadToken <==> !decodes)
            && (o.verdict == TokenNotFound <==> decodes && used !in s.rows)
            && (o.verdict == TokenReused <==> decodes && used in s.rows && s.rows[used].revoked)
            && (o.verdict == TokenExpired <==>
                  decodes && used in s.rows && !s.rows[used].revoked && s.rows[used].expiresAt < s.now)
            && o.verdict != LockedOut && o.verdict != BadCredentials
            && (!o.verdict.Granted? && o.verdict != TokenReused ==> o.state == s)
  {
    hide RefreshAllowed, RevokeChain;
  }

  /** A granted refresh hands on user, client and scope with the client's lifetime, kills the used row and adds the
      new one to its session; no other row changes. */
  lemma RefreshEffect(s: State, client: Id, used: Id, jti: Id)
    requires used != jti && RefreshGrant(s, client, used, jti).verdict.Granted?
    ensures used in s.issued && used in s.rows && client in s.clients
    ensures var o := RefreshGrant(s, client, used, jti);
            var p, t := o.verdict.payload, o.state;
            && o.verdict.jti == jti
            && p.sub == s.issued[used].sub && p.client == client && p.scope == s.issued[used].scope
            && p.exp * 1_000_000 <= s.now + s.clients[client].refreshLifetime * 1_000_000 < (p.exp + 1) * 1_000_000
            && t == s.(issued := s.issued[jti := p], rows := t.rows, log := t.log)
            && t.rows == s.rows[used := s.rows[used].(revoked := true, revokedAt := Some(s.now))][jti := t.rows[jti]]
            && t.rows[jti] == Row(p.sub, p.client, p.scope, p.exp * 1_000_000, false, None, Some(used), s.rows[used].session, s.now)
            && t.log == s.log[jti := t.rows[jti]]
  {
    hide RevokeChain;
  }

  // ---- The password grant --------------------------------------------------------------------

  /** A login is granted exactly when it is not locked out, the client may log users in in public, the password
      matched that of an active user, and the requested scopes, if any, are among the client's. */
  lemma PasswordGrantedExactly(
    s: State, client: Id, who: Option<Id>, scope: Option<string>, lockedOut: bool, jti: Id, session: Id)
    ensures PasswordGrant(s, client, who, scope, lockedOut, jti, session).verdict.Granted? <==>
              && !lockedOut
              && client in s.clients && s.clients[client].isActive && !s.clients[client].isConfidential
              && PASSWORD in s.clients[client].grantTypes
              && who.Some? && who.value in s.users && s.users[who.value]
              && (scope.None? || scope.value == ""
                  || Scopes.ScopeSet(scope.value) <= Scopes.ScopeSet(s.clients[client].allowedScopes))
    ensures var o := PasswordGrant(s, client, who, scope, lockedOut, jti, session);
            && (lockedOut ==> o.verdict == LockedOut)
            && (!lockedOut && !o.verdict.Granted? ==> o.verdict == BadCredentials)
            && (!o.verdict.Granted? ==> o.state == s)
  {
    if client in s.clients {
      Scopes.GrantedWithinAllowed(s.clients[client].allowedScopes, scope);
    }
  }

  /** A granted login signs a token of that user with the requested scopes, or with all the client has, and starts
      a session with it; no other row changes. */
  lemma PasswordEffect(
    s: State, client: Id, who: Option<Id>, scope: Option<string>, lockedOut: bool, jti: Id, session: Id)
    requires PasswordGrant(s, client, who, scope, lockedOut, jti, session).verdict.Granted?
    ensures client in s.clients && who.Some?
    ensures var o := PasswordGrant(s, client, who, scope, lockedOut, jti, session);
            var p, t, allowed := o.verdict.payload, o.state, s.clients[client].allowedScopes;
            && o.verdict.jti == jti
            && p.sub == who.value && p.client == client
            && (if scope.None? || scope.value == "" then p.scope == allowed
                else Scopes.ScopeSet(p.scope) == Scopes.ScopeSet(scope.value))
            && p.exp * 1_000_000 <= s.now + s.clients[client].refreshLifetime * 1_000_000 < (p.exp + 1) * 1_000_000
            && t == s.(issued := s.issued[jti := p], rows := s.rows[jti := t.rows[jti]], log := s.log[jti := t.rows[jti]])
            && t.rows[jti] == Row(p.sub, p.client, p.scope, p.exp * 1_000_000, false, None, None, session, s.now)
  {
    Scopes.GrantedWithinAllowed(s.clients[client].allowedScopes, scope);
  }

  // ---- Everything else ------------------------------------------------------------------------

  /** The other events: time passes, clients are added but never changed, users are created or (de)activated, live rows
      of a user's session or of all but one are revoked, and rows expired for the given days are deleted. */
  lemma OtherEffect(s: State, e: Event)
    requires !IsGrant(e)
    ensures var t := Step(s, e);
            && t.issued == s.issued && t.log == s.log
            && t.now == (if e.Tick? then s.now + e.elapsed else s.now)
            && t.clients == (if e.AddClient? && e.client !in s.clients then s.clients[e.client := e.data] else s.clients)
            && t.users == (if e.SetUser? then s.users[e.user := e.isActive] else s.users)
            && (e.Tick? || e.AddClient? || e.SetUser? ==> t.rows == s.rows)
            && (e.RevokeSession? || e.RevokeAll? ==>
                  && t.rows.Keys == s.rows.Keys
                  && forall j :: j in s.rows ==>
                       var row := s.rows[j];
                       var mine := if e.RevokeSession? then row.session == e.session
                                   else e.except.None? || e.except.value == Blank || row.session != e.except.value;
                       t.rows[j] == if !row.revoked && row.user == e.user && mine
                                    then row.(revoked := true, revokedAt := Some(s.now)) else row)
            && (e.Cleanup? ==>
                  && (forall j :: j in t.rows <==> j in s.rows && s.now <= s.rows[j].expiresAt + e.daysToKeep * 86_400_000_000)
                  && forall j :: j in t.rows ==> t.rows[j] == s.rows[j])
  {
  }

  // ---- Deactivated users ---------------------------------------------------------------------

  lemma StepStaysInactive(s: State, user: Id, e: Event)
    requires user in s.users && !s.users[user] && e != SetUser(user, true)
    ensures var t := Step(s, e); user in t.users && !t.users[user]
  {
  }

  lemma {:induction false} StaysInactive(s: State, user: Id, events: seq<Event>)
    requires user in s.users && !s.users[user] && SetUser(user, true) !in events
    ensures var t := Run(s, events); user in t.users && !t.users[user]
    decreases |events|
  {
    if events == [] {
    } else {
      StepStaysInactive(s, user, events[0]);
      StaysInactive(Step(s, events[0]), user, events[1..]);
    }
  }

  lemma InactiveIsRefused(s: State, user: Id, e: Event)
    requires user in s.users && !s.users[user] && IsGrant(e)
    ensures Grant(s, e).verdict.Granted? ==> Grant(s, e).verdict.payload.sub != user
  {
    match e
    case Password(client, who, scope, lockedOut, jti, session) =>
      PasswordGrantedExactly(s, client, who, scope, lockedOut, jti, session);
    case Refresh(client, used, jti) =>
      RefreshGrantedExactly(s, client, used, jti);
  }

  /** From a user's deactivation until the user is active again no grant of any kind, to any client and for any
      token or password, gives out a token of that user. */
  lemma DeactivatedGetsNothing(s: State, user: Id, events: seq<Event>, e: Event)
    requires SetUser(user, true) !in events && IsGrant(e)
    ensures var t := Run(Step(s, SetUser(user, false)), events);
            Grant(t, e).verdict.Granted? ==> Grant(t, e).verdict.payload.sub != user
  {
    var s1 := Step(s, SetUser(user, false));
    StaysInactive(s1, user, events);
    InactiveIsRefused(Run(s1, events), user, e);
  }
}
