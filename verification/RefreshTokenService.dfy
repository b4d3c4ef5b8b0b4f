/** The refresh-token table and the service that reads and updates it in place. */
module RefreshTokenService {
  import opened Common
  import opened Tokens

  /** A database session on the refresh_tokens table. */
  class Database {
    var rows: Table

    constructor ()
      ensures rows == map[]
    {
      rows := map[];
    }
  }

  /** The jtis of the rows a query selects. */
  function Selected(rows: Table, q: Query): set<Id> {
    set j | j in rows && Hits(q, rows[j])
  }

  /** The table once the rows of `which` are marked. */
  function Marked(rows: Table, which: set<Id>, now: nat): Table {
    map j | j in rows :: if j in which then Revoke(rows[j], now) else rows[j]
  }

  lemma MarkingOne(rows: Table, which: set<Id>, jti: Id, now: nat)
    requires jti in rows && jti !in which
    ensures Marked(rows, which, now).Keys == rows.Keys && Marked(rows, which, now)[jti] == rows[jti]
    ensures Marked(rows, which, now)[jti := Revoke(rows[jti], now)] == Marked(rows, which + {jti}, now)
  {
  }

  /** Marking each selected row is the statement's effect on the table. */
  lemma MarkingEach(rows: Table, q: Query, now: nat)
    ensures Marked(rows, {}, now) == rows
    ensures Marked(rows, Selected(rows, q), now) == RevokeWhere(rows, q, now)
  {
  }

  function Elements(tokens: seq<Id>): set<Id> { set j | j in tokens }

  lemma OneMore(tokens: seq<Id>, n: nat)
    requires n < |tokens| && forall i, k :: 0 <= i < k < |tokens| ==> tokens[i] != tokens[k]
    ensures tokens[n] in tokens && tokens[n] !in tokens[..n]
    ensures Elements(tokens[..n + 1]) == Elements(tokens[..n]) + {tokens[n]}
  {
    assert tokens[..n + 1] == tokens[..n] + [tokens[n]];
  }

  lemma MarkingStartsAndEnds(rows: Table, q: Query, tokens: seq<Id>, now: nat)
    requires forall j :: j in tokens <==> j in Selected(rows, q)
    ensures forall j :: j in tokens ==> j in rows
    ensures Marked(rows, Elements(tokens[..0]), now) == rows
    ensures Marked(rows, Elements(tokens[..|tokens|]), now) == RevokeWhere(rows, q, now)
  {
    MarkingEach(rows, q, now);
    assert tokens[..|tokens|] == tokens && Elements(tokens) == Selected(rows, q) && Elements([]) == {};
    hide Marked, RevokeWhere;
  }

  /** One round of the loop. */
  lemma MarkNext(rows: Table, tokens: seq<Id>, n: nat, now: nat)
    requires n < |tokens| && forall i, k :: 0 <= i < k < |tokens| ==> tokens[i] != tokens[k]
    requires forall j :: j in tokens ==> j in rows
    ensures var before := Marked(rows, Elements(tokens[..n]), now);
            && tokens[n] in before
            && Marked(rows, Elements(tokens[..n + 1]), now) == before[tokens[n] := Revoke(before[tokens[n]], now)]
  {
    OneMore(tokens, n);
    MarkingOne(rows, Elements(tokens[..n]), tokens[n], now);
    hide *;
  }

  // ---- The statements' effects, column by column ------------------------------------------------

  lemma SessionRevocation(rows: Table, user: Id, session: Id, now: nat)
    ensures var t := RevokeWhere(rows, OfSession(user, session), now);
            && t.Keys == rows.Keys
            && forall j :: j in rows ==>
                 t[j] == if !rows[j].revoked && rows[j].user == user && rows[j].session == session
                         then rows[j].(revoked := true, revokedAt := Some(now)) else rows[j]
    ensures Selected(rows, OfSession(user, session))
            == set j | j in rows && !rows[j].revoked && rows[j].user == user && rows[j].session == session
    ensures Selected(rows, OfSession(user, session)) == {} <==>
              forall j :: j in rows && rows[j].user == user && rows[j].session == session ==> rows[j].revoked
  {
    if j :| j in rows && rows[j].user == user && rows[j].session == session && !rows[j].revoked {
      assert j in Selected(rows, OfSession(user, session));
    }
  }

  lemma ChainRevocation(rows: Table, jti: Id, now: nat)
    requires jti in rows
    ensures var t := RevokeChain(rows, jti, now);
            && t.Keys == rows.Keys
            && forall j :: j in rows ==>
                 t[j] == if j == jti
                            || (!rows[j].revoked && rows[j].user == rows[jti].user && rows[j].client == rows[jti].client)
                         then rows[j].(revoked := true, revokedAt := Some(now)) else rows[j]
  {
  }

  /** The rows cleanup keeps are those that expired no longer than the given days ago, or not yet. */
  lemma CleanupKeeps(rows: Table, daysToKeep: int, now: nat)
    ensures var t := Purge(rows, now - Days(daysToKeep));
            && (forall j :: j in t <==> j in rows && now <= rows[j].expiresAt + daysToKeep * 86_400_000_000)
            && (forall j :: j in t ==> t[j] == rows[j])
  {
  }

  class Service {

    constructor () {}

    /** A blank parent or session id counts as not given; a session not given is the one generated here. */
    method SaveRefreshToken(
      db: Database, jti: Id, payload: Payload, parent: Option<Id>, session: Option<Id>, generated: Id, now: nat)
      modifies db
      ensures db.rows == old(db.rows)[jti := NewRow(payload, Given(parent), GivenOr(session, generated), now)]
      ensures db.rows[jti] == Row(
                payload.sub, payload.client, payload.scope, payload.exp * 1_000_000, false, None,
                if parent == Some(Blank) then None else parent,
                if session.None? || session.value == Blank then generated else session.value, now)
    {
      var parentHash := if parent.Some? && parent.value != Blank then parent else None;
      var sessionId := generated;
      if session.Some? && session.value != Blank {
        sessionId := session.value;
      }
      db.rows := db.rows[jti := NewRow(payload, parentHash, sessionId, now)];
    }

    method GetByJti(db: Database, jti: Id) returns (token: Option<Row>)
      ensures token.Some? <==> jti in db.rows
      ensures token.Some? ==> token.value == db.rows[jti]
    {
      token := if jti in db.rows then Some(db.rows[jti]) else None;
    }

    /** Reuse is not only reported: it revokes every live token of the same user and client. */
    method ValidateRefreshToken(db: Database, jti: Id, now: nat) returns (validity: Validity)
      modifies db
      ensures validity == Validate(old(db.rows), jti, now)
      ensures db.rows == if validity.Reused? then RevokeChain(old(db.rows), jti, now) else old(db.rows)
      ensures validity.NotFound? <==> jti !in old(db.rows)
      ensures validity.Reused? <==> jti in old(db.rows) && old(db.rows)[jti].revoked
      ensures validity.Valid? <==>
                jti in old(db.rows) && !old(db.rows)[jti].revoked && now <= old(db.rows)[jti].expiresAt
    {
      var token := GetByJti(db, jti);
      if token.None? {
        return NotFound;
      }
      if token.value.revoked {
        RevokeTokenChain(db, jti, now);
        return Reused;
      }
      if token.value.IsExpired(now) {
        return Expired;
      }
      return Valid;
    }

    method RevokeToken(db: Database, jti: Id, now: nat) returns (found: bool)
      modifies db
      ensures found <==> jti in old(db.rows)
      ensures db.rows == RevokeOne(old(db.rows), jti, now)
      ensures found ==> db.rows == old(db.rows)[jti := old(db.rows)[jti].(revoked := true, revokedAt := Some(now))]
    {
      var token := GetByJti(db, jti);
      if token.None? {
        return false;
      }
      db.rows := db.rows[jti := Revoke(token.value, now)];
      return true;
    }

    /** Mark each selected row in turn. */
    method RevokeEach(db: Database, q: Query, now: nat) returns (count: nat)
      modifies db
      ensures db.rows == RevokeWhere(old(db.rows), q, now)
      ensures count == |Selected(old(db.rows), q)|
    {
      hide *;
      ghost var before := db.rows;
      var tokens := Enumerate(Selected(db.rows, q));
      MarkingStartsAndEnds(before, q, tokens, now);
      count := 0;
      while count < |tokens|
        invariant count <= |tokens|
        invariant db.rows == Marked(before, Elements(tokens[..count]), now)
      {
        var token := tokens[count];
        MarkNext(before, tokens, count, now);
        db.rows := db.rows[token := Revoke(db.rows[token], now)];
        count := count + 1;
      }
    }

    method RevokeTokenChain(db: Database, jti: Id, now: nat)
      requires jti in db.rows
      modifies db
      ensures db.rows == RevokeChain(old(db.rows), jti, now)
      ensures db.rows.Keys == old(db.rows).Keys
      ensures forall j :: j in db.rows ==>
                var row, reused := old(db.rows)[j], old(db.rows)[jti];
                db.rows[j] == if j == jti || (!row.revoked && row.user == reused.user && row.client == reused.client)
                              then row.(revoked := true, revokedAt := Some(now)) else row
    {
      ChainRevocation(db.rows, jti, now);
      db.rows := db.rows[jti := Revoke(db.rows[jti], now)];
      var _ := RevokeEach(db, OfPair(db.rows[jti].user, db.rows[jti].client), now);
    }

    method CleanupExpiredTokens(db: Database, daysToKeep: int, now: nat) returns (count: nat)
      modifies db
      ensures db.rows == Purge(old(db.rows), now - Days(daysToKeep))
      ensures count == |old(db.rows)| - |db.rows|
      ensures forall j :: j in db.rows <==>
                j in old(db.rows) && now <= old(db.rows)[j].expiresAt + daysToKeep * 86_400_000_000
      ensures forall j :: j in db.rows ==> db.rows[j] == old(db.rows)[j]
    {
      CleanupKeeps(db.rows, daysToKeep, now);
      var cutoff := now - Days(daysToKeep);
      db.rows, count := DeleteEach(db.rows, set j | j in db.rows && db.rows[j].expiresAt < cutoff);
    }

    method RevokeSession(db: Database, user: Id, session: Id, now: nat) returns (anyRevoked: bool)
      modifies db
      ensures db.rows == RevokeWhere(old(db.rows), OfSession(user, session), now)
      ensures anyRevoked <==> Selected(old(db.rows), OfSession(user, session)) != {}
      ensures anyRevoked <==> exists j :: j in old(db.rows) && !old(db.rows)[j].revoked
                                          && old(db.rows)[j].user == user && old(db.rows)[j].session == session
      ensures db.rows.Keys == old(db.rows).Keys
      ensures forall j :: j in db.rows ==>
                var row := old(db.rows)[j];
                db.rows[j] == if !row.revoked && row.user == user && row.session == session
                              then row.(revoked := true, revokedAt := Some(now)) else row
    {
      SessionRevocation(db.rows, user, session, now);
      var count := RevokeEach(db, OfSession(user, session), now);
      return count > 0;
    }
  }
}
