/**
 The refresh-token protocol as a state machine.

 A signed JWT is "a payload that was issued", `hash_token_jti` is injective (rows are keyed by jti),
 new jtis and session ids are fresh, and one handler call is one step at one instant.
 */
module Tokens {
  import opened Common
  import Scopes

  datatype GrantType = PASSWORD | REFRESH_TOKEN | AUTHORIZATION_CODE | CLIENT_CREDENTIALS

  datatype Client = Client(
    isActive: bool,
    isConfidential: bool,
    allowedScopes: string,
    grantTypes: set<GrantType>,
    refreshLifetime: nat)

  /** The claims of a refresh token the service looks at. */
  datatype Payload = Payload(sub: Id, client: Id, scope: string, exp: nat)

  /** A row of the refresh_tokens table. */
  datatype Row = Row(
    user: Id,
    client: Id,
    scope: string,
    expiresAt: nat,
    revoked: bool,
    revokedAt: Option<nat>,
    parent: Option<Id>,
    session: Id,
    createdAt: nat)
  {
    predicate IsExpired(now: nat) { now > expiresAt }
  }

  type Table = map<Id, Row>

  /** The WHERE clauses of the revoking statements; each also asks for `revoked == False`. */
  datatype Query =
    | OfPair(user: Id, client: Id)
    | OfSession(user: Id, session: Id)
    | OfUser(user: Id, except: Option<Id>)

  /** `except_session_id and token.session_id == except_session_id`: an empty id spares nothing. */
  predicate Spared(row: Row, except: Option<Id>) {
    except.Some? && except.value != Blank && row.session == except.value
  }

  predicate Hits(q: Query, row: Row) {
    && !row.revoked
    && match q
       case OfPair(user, client) => row.user == user && row.client == client
       case OfSession(user, session) => row.user == user && row.session == session
       case OfUser(user, except) => row.user == user && !Spared(row, except)
  }

  // ---- Table operations ------------------------------------------------------------------

  function Revoke(row: Row, now: nat): Row {
    row.(revoked := true, revokedAt := Some(now))
  }

  function RevokeOne(rows: Table, jti: Id, now: nat): Table {
    if jti in rows then rows[jti := Revoke(rows[jti], now)] else rows
  }

  function RevokeWhere(rows: Table, q: Query, now: nat): Table {
    map j | j in rows :: if Hits(q, rows[j]) then Revoke(rows[j], now) else rows[j]
  }

  /** The reused row itself, then every live row of its user and client. */
  function RevokeChain(rows: Table, jti: Id, now: nat): Table
    requires jti in rows
  {
    RevokeWhere(RevokeOne(rows, jti, now), OfPair(rows[jti].user, rows[jti].client), now)
  }

  function Purge(rows: Table, cutoff: int): Table {
    map j | j in rows && rows[j].expiresAt >= cutoff :: rows[j]
  }

  function NewRow(p: Payload, parent: Option<Id>, session: Id, now: nat): Row {
    Row(p.sub, p.client, p.scope, Micros(p.exp), false, None, parent, session, now)
  }

  datatype Validity = Valid | NotFound | Reused | Expired

  /** The order of the checks is the code's: a revoked row counts as reused even when expired. */
  function Validate(rows: Table, jti: Id, now: nat): Validity {
    if jti !in rows then NotFound
    else if rows[jti].revoked then Reused
    else if rows[jti].IsExpired(now) then Expired
    else Valid
  }

  // ---- States and handlers ---------------------------------------------------------------

  /** `issued` holds every payload ever signed. `log` is a history variable: every row as first saved. */
  datatype State = State(
    now: nat,
    clients: map<Id, Client>,
    users: map<Id, bool>,
    issued: map<Id, Payload>,
    rows: Table,
    log: Table)

  /** Decoding succeeds: issued as a refresh token, and `exp` is not before the current whole second. */
  predicate Decodes(s: State, jti: Id) {
    jti in s.issued && Seconds(s.now) <= s.issued[jti].exp
  }

  /** `validate_client` is called without a secret, so a confidential client never passes. */
  predicate ClientPasses(s: State, client: Id, grant: GrantType) {
    && client in s.clients
    && s.clients[client].isActive
    && !s.clients[client].isConfidential
    && grant in s.clients[client].grantTypes
  }

  /** `authenticate_refresh_grant`: client, grant type, token, matching client_id, active user. */
  predicate RefreshAllowed(s: State, client: Id, jti: Id) {
    && ClientPasses(s, client, REFRESH_TOKEN)
    && Decodes(s, jti)
    && s.issued[jti].client == client
    && s.issued[jti].sub in s.users
    && s.users[s.issued[jti].sub]
  }

  /** `authenticate_password_grant`; `who` is the user whose stored password matched. */
  predicate PasswordAllowed(s: State, client: Id, who: Option<Id>, scope: Option<string>) {
    && ClientPasses(s, client, PASSWORD)
    && who.Some?
    && who.value in s.users
    && s.users[who.value]
    && Scopes.ValidateScope(s.clients[client].allowedScopes, scope).valid
  }

  function NewPayload(s: State, user: Id, client: Id, scope: string): Payload
    requires client in s.clients
  {
    Payload(user, client, scope, Seconds(s.now + Micros(s.clients[client].refreshLifetime)))
  }

  function Issue(s: State, jti: Id, p: Payload): State {
    s.(issued := s.issued[jti := p])
  }

  function Save(s: State, jti: Id, parent: Option<Id>, session: Id): State
    requires jti in s.issued
  {
    var row := NewRow(s.issued[jti], parent, session, s.now);
    s.(rows := s.rows[jti := row], log := s.log[jti := row])
  }

  datatype Verdict =
    | LockedOut
    | BadCredentials
    | BadToken
    | TokenNotFound
    | TokenReused
    | TokenExpired
    | Refused
    | Granted(jti: Id, payload: Payload)

  datatype Outcome = Outcome(state: State, verdict: Verdict)

  function PasswordGrant(
    s: State, client: Id, who: Option<Id>, scope: Option<string>, lockedOut: bool, jti: Id, session: Id): Outcome
  {
    if lockedOut then Outcome(s, LockedOut)
    else if !PasswordAllowed(s, client, who, scope) then Outcome(s, BadCredentials)
    else
      var granted := Scopes.ValidateScope(s.clients[client].allowedScopes, scope).scope;
      var p := NewPayload(s, who.value, client, granted);
      Outcome(Save(Issue(s, jti, p), jti, None, session), Granted(jti, p))
  }

  /** The successful branch: sign the new pair, revoke the old row, save the new one in its session. */
  function Rotate(s: State, client: Id, used: Id, jti: Id): Outcome
    requires used in s.rows && RefreshAllowed(s, client, used)
  {
    var p := NewPayload(s, s.issued[used].sub, client, s.issued[used].scope);
    var signed := Issue(s, jti, p);
    var revoked := signed.(rows := RevokeOne(signed.rows, used, s.now));
    Outcome(Save(revoked, jti, Some(used), revoked.rows[used].session), Granted(jti, p))
  }

  function RefreshGrant(s: State, client: Id, used: Id, jti: Id): Outcome {
    if !Decodes(s, used) then Outcome(s, BadToken)
    else match Validate(s.rows, used, s.now)
      case NotFound => Outcome(s, TokenNotFound)
      case Reused => Outcome(s.(rows := RevokeChain(s.rows, used, s.now)), TokenReused)
      case Expired => Outcome(s, TokenExpired)
      case Valid =>
        if !RefreshAllowed(s, client, used) then Outcome(s, Refused)
        else Rotate(s, client, used, jti)
  }

  // ---- Runs ------------------------------------------------------------------------------

  datatype Event =
    | Tick(elapsed: nat)
    | AddClient(client: Id, data: Client)
    | SetUser(user: Id, isActive: bool)
    | Password(client: Id, who: Option<Id>, scope: Option<string>, lockedOut: bool, jti: Id, session: Id)
    | Refresh(client: Id, used: Id, jti: Id)
    | RevokeSession(user: Id, session: Id)
    | RevokeAll(user: Id, except: Option<Id>)
    | Cleanup(daysToKeep: int)

  predicate IsGrant(e: Event) { e.Password? || e.Refresh? }

  function Grant(s: State, e: Event): Outcome
    requires IsGrant(e)
  {
    match e
    case Password(client, who, scope, lockedOut, jti, session) =>
      PasswordGrant(s, client, who, scope, lockedOut, jti, session)
    case Refresh(client, used, jti) => RefreshGrant(s, client, used, jti)
  }

  function Step(s: State, e: Event): State {
    match e
    case Tick(elapsed) => s.(now := s.now + elapsed)
    case AddClient(client, data) => if client in s.clients then s else s.(clients := s.clients[client := data])
    case SetUser(user, isActive) => s.(users := s.users[user := isActive])
    case RevokeSession(user, session) => s.(rows := RevokeWhere(s.rows, OfSession(user, session), s.now))
    case RevokeAll(user, except) => s.(rows := RevokeWhere(s.rows, OfUser(user, except), s.now))
    case Cleanup(days) => s.(rows := Purge(s.rows, s.now - Days(days)))
    case _ => Grant(s, e).state
  }

  predicate Fresh(s: State, jti: Id) { jti != Blank && jti !in s.issued && jti !in s.log }

  /** The ids an event draws are nonempty and were never drawn before. */
  predicate Legal(s: State, e: Event) {
    match e
    case Password(_, _, _, _, jti, session) =>
      Fresh(s, jti) && session != Blank && forall j :: j in s.log ==> s.log[j].session != session
    case Refresh(_, _, jti) => Fresh(s, jti)
    case _ => true
  }

  function Run(s: State, events: seq<Event>): State
    decreases |events|
  {
    if events == [] then s else Run(Step(s, events[0]), events[1..])
  }

  predicate LegalRun(s: State, events: seq<Event>)
    decreases |events|
  {
    events != [] ==> Legal(s, events[0]) && LegalRun(Step(s, events[0]), events[1..])
  }

  predicate Initial(s: State) { s.issued == map[] && s.rows == map[] && s.log == map[] }
}
