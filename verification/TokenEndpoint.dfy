/** The token endpoint: the two grant handlers, as they update the database and the counters step by step. */
module TokenEndpoint {
  import opened Common
  import opened Tokens
  import RefreshTokenService
  import BruteForce
  import LoginLockout
  import Scopes

  predicate Named(rows: Table) {
    Blank !in rows && forall j :: j in rows ==> rows[j].session != Blank
  }

  lemma RevokingStaysNamed(rows: Table, jti: Id, now: nat)
    requires Named(rows) && jti in rows
    ensures Named(RevokeChain(rows, jti, now))
  {
  }

  lemma SavingStaysNamed(rows: Table, jti: Id, p: Payload, session: Id, now: nat)
    requires Named(rows) && jti != Blank && session != Blank
    ensures Named(rows[jti := NewRow(p, None, session, now)])
  {
  }

  lemma RotatingStaysNamed(rows: Table, used: Id, jti: Id, p: Payload, now: nat)
    requires Named(rows) && used in rows && jti != Blank
    ensures rows[used].session != Blank && used != Blank
    ensures RevokeOne(rows, used, now)[used].session == rows[used].session
    ensures Named(RevokeOne(rows, used, now)[jti := NewRow(p, Some(used), rows[used].session, now)])
  {
  }

  class Endpoint {
    const db: RefreshTokenService.Database
    const refreshTokens: RefreshTokenService.Service
    const bruteForce: BruteForce.Service
    var now: nat
    var clients: map<Id, Client>
    var users: map<Id, bool>
    var issued: map<Id, Payload>
    ghost var log: Table

    constructor (
      db: RefreshTokenService.Database, refreshTokens: RefreshTokenService.Service, bruteForce: BruteForce.Service)
      ensures this.db == db && this.refreshTokens == refreshTokens && this.bruteForce == bruteForce
      ensures View() == State(0, map[], map[], map[], db.rows, map[])
    {
      this.db, this.refreshTokens, this.bruteForce := db, refreshTokens, bruteForce;
      now, clients, users, issued, log := 0, map[], map[], map[], map[];
    }

    ghost function View(): State
      reads this, db
    {
      State(now, clients, users, issued, db.rows, log)
    }

    /** Generated ids are never empty strings. */
    ghost predicate Valid()
      reads this, db
    {
      Named(db.rows)
    }

    method AuthenticatePasswordGrant(client: Id, who: Option<Id>, scope: Option<string>, jti: Id)
      returns (token: Option<Payload>)
      modifies this`issued
      ensures token.Some? <==> PasswordAllowed(old(View()), client, who, scope)
      ensures token.Some? ==>
                var granted := Scopes.ValidateScope(clients[client].allowedScopes, scope).scope;
                && token.value == NewPayload(old(View()), who.value, client, granted)
                && View() == Issue(old(View()), jti, token.value)
      ensures token.None? ==> View() == old(View())
    {
      if client !in clients || !clients[client].isActive || clients[client].isConfidential {
        return None;
      }
      if PASSWORD !in clients[client].grantTypes {
        return None;
      }
      if who.None? || who.value !in users || !users[who.value] {
        return None;
      }
      var checked := Scopes.ValidateScope(clients[client].allowedScopes, scope);
      if !checked.valid {
        return None;
      }
      var payload := Payload(who.value, client, checked.scope, Seconds(now + Micros(clients[client].refreshLifetime)));
      issued := issued[jti := payload];
      return Some(payload);
    }

    method AuthenticateRefreshGrant(client: Id, used: Id, jti: Id) returns (token: Option<Payload>)
      modifies this`issued
      ensures token.Some? <==> RefreshAllowed(old(View()), client, used)
      ensures token.Some? ==>
                && token.value == NewPayload(old(View()), old(issued)[used].sub, client, old(issued)[used].scope)
                && View() == Issue(old(View()), jti, token.value)
      ensures token.None? ==> View() == old(View())
    {
      if client !in clients || !clients[client].isActive || clients[client].isConfidential {
        return None;
      }
      if REFRESH_TOKEN !in clients[client].grantTypes {
        return None;
      }
      if used !in issued || Seconds(now) > issued[used].exp {
        return None;
      }
      var payload := issued[used];
      if payload.client != client {
        return None;
      }
      if payload.sub !in users || !users[payload.sub] {
        return None;
      }
      var next := Payload(payload.sub, client, payload.scope, Seconds(now + Micros(clients[client].refreshLifetime)));
      issued := issued[jti := next];
      return Some(next);
    }

    /** A locked request is turned away before anything is recorded; a failure is recorded; a success resets. */
    method HandlePasswordGrant(
      client: Id, username: Id, ip: Id, who: Option<Id>, scope: Option<string>, jti: Id, session: Id)
      returns (verdict: Verdict)
      requires Valid() && Legal(View(), Password(client, who, scope, false, jti, session))
      modifies this`issued, this`log, db, bruteForce.redis
      ensures Valid()
      ensures var locked := BruteForce.LockedOut(old(bruteForce.redis.store), bruteForce.policy, username, ip, now);
              Outcome(View(), verdict) == PasswordGrant(old(View()), client, who, scope, locked, jti, session)
      ensures BruteForce.State(now, bruteForce.redis.store)
              == BruteForce.Step(BruteForce.State(now, old(bruteForce.redis.store)), bruteForce.policy,
                                 BruteForce.Attempt(username, ip, verdict.Granted?))
      ensures LoginLockout.Outcome(LoginLockout.State(View(), bruteForce.redis.store), verdict)
              == LoginLockout.Answer(LoginLockout.State(old(View()), old(bruteForce.redis.store)), bruteForce.policy,
                                     LoginLockout.Login(client, username, ip, who, scope, jti, session))
    {
      hide Named, NewRow, PasswordAllowed, NewPayload, Scopes.ValidateScope, BruteForce.LockedOut, BruteForce.Recorded, BruteForce.Cleared;
      var locked := bruteForce.IsLockedOut(username, ip, now);
      if locked {
        return LockedOut;
      }
      var token := AuthenticatePasswordGrant(client, who, scope, jti);
      if token.None? {
        bruteForce.RecordFailedAttempt(username, ip, now);
        return BadCredentials;
      }
      bruteForce.ResetFailedAttempts(username, ip);
      SavingStaysNamed(db.rows, jti, token.value, session, now);
      refreshTokens.SaveRefreshToken(db, jti, token.value, None, Some(session), Blank, now);
      log := log[jti := db.rows[jti]];
      return Granted(jti, token.value);
    }

    method HandleRefreshGrant(client: Id, used: Id, jti: Id, generated: Id) returns (verdict: Verdict)
      requires Valid() && Legal(View(), Refresh(client, used, jti))
      modifies this`issued, this`log, db
      ensures Valid()
      ensures Outcome(View(), verdict) == RefreshGrant(old(View()), client, used, jti)
    {
      hide RevokeChain, Named, NewRow;
      if used !in issued || Seconds(now) > issued[used].exp {
        return BadToken;
      }
      var validity := refreshTokens.ValidateRefreshToken(db, used, now);
      match validity {
        case NotFound => return TokenNotFound;
        case Reused =>
          RevokingStaysNamed(old(db.rows), used, now);
          return TokenReused;
        case Expired => return TokenExpired;
        case Valid =>
      }
      var token := AuthenticateRefreshGrant(client, used, jti);
      if token.None? {
        return Refused;
      }
      RotatingStaysNamed(db.rows, used, jti, token.value, now);
      var _ := refreshTokens.RevokeToken(db, used, now);
      var oldToken := refreshTokens.GetByJti(db, used);
      var session := if oldToken.Some? then Some(oldToken.value.session) else None;
      refreshTokens.SaveRefreshToken(db, jti, token.value, Some(used), session, generated, now);
      log := log[jti := db.rows[jti]];
      return Granted(jti, token.value);
    }
  }
}
