/**
 What every run of the token protocol keeps: the tokens of a session form one linear rotation chain,
 only its newest may be live, and cleanup removes the chain from its oldest end.
 */
module Chains {
  import opened Common
  import opened Tokens
  import Scopes

  // ---- Invariants about single rows and parent links --------------------------------------

  /** A stored row is the row once saved, possibly revoked since. */
  predicate Stems(row: Row, saved: Row) {
    && row.(revoked := false, revokedAt := None) == saved
    && (row.revoked <==> row.revokedAt.Some?)
  }

  /** A saved row repeats its signed payload and was given its client's lifetime. */
  predicate Backed(s: State, jti: Id, row: Row) {
    && jti in s.issued
    && row == NewRow(s.issued[jti], row.parent, row.session, row.createdAt)
    && row.createdAt <= s.now
    && row.client in s.clients
    && s.issued[jti].exp == Seconds(row.createdAt + Micros(s.clients[row.client].refreshLifetime))
  }

  /** A rotation keeps the owner, the scope and the session, and never shortens the expiry. */
  predicate Rotates(parent: Row, child: Row) {
    && child.user == parent.user
    && child.client == parent.client
    && child.scope == parent.scope
    && child.session == parent.session
    && parent.createdAt <= child.createdAt
    && parent.expiresAt <= child.expiresAt
  }

  /** A rotated token is dead from then on, and cleanup never takes it after its child. */
  ghost predicate Linked(s: State) {
    forall j :: j in s.log && s.log[j].parent.Some? ==>
      var p := s.log[j].parent.value;
      && p in s.log
      && Rotates(s.log[p], s.log[j])
      && (p in s.rows ==> s.rows[p].revoked && j in s.rows)
  }

  ghost predicate Signed(s: State) {
    && s.issued.Keys == s.log.Keys
    && forall j :: j in s.log ==> Backed(s, j, s.log[j])
  }

  ghost predicate Stored(s: State) {
    forall j :: j in s.rows ==> j in s.log && Stems(s.rows[j], s.log[j])
  }

  ghost predicate Inv(s: State) { Signed(s) && Stored(s) && Linked(s) }

  lemma RevokingKeeps(s: State, rows: Table)
    requires Inv(s)
    requires rows.Keys == s.rows.Keys
    requires forall j :: j in rows ==> rows[j] == s.rows[j] || rows[j] == Revoke(s.rows[j], s.now)
    ensures Inv(s.(rows := rows))
  {
  }

  lemma PurgingKeeps(s: State, cutoff: int)
    requires Inv(s)
    ensures Inv(s.(rows := Purge(s.rows, cutoff)))
  {
  }

  lemma SavingKeepsSigned(s: State, jti: Id, p: Payload, parent: Option<Id>, session: Id)
    requires Signed(s) && Fresh(s, jti)
    requires p.client in s.clients && p == NewPayload(s, p.sub, p.client, p.scope)
    ensures Signed(Save(Issue(s, jti, p), jti, parent, session))
  {
  }

  lemma SavingKeepsLinked(s: State, jti: Id, p: Payload, parent: Option<Id>, session: Id)
    requires Linked(s) && Fresh(s, jti) && s.rows.Keys <= s.log.Keys
    requires parent.Some? ==>
               && parent.value in s.rows
               && s.rows[parent.value].revoked
               && Rotates(s.log[parent.value], NewRow(p, parent, session, s.now))
    ensures Linked(Save(Issue(s, jti, p), jti, parent, session))
  {
    hide Rotates;
  }

  /** Saving a freshly signed token keeps the invariant, given a parent that it rotates and that is dead. */
  lemma SavingKeeps(s: State, jti: Id, p: Payload, parent: Option<Id>, session: Id)
    requires Inv(s) && Fresh(s, jti)
    requires p.client in s.clients && p == NewPayload(s, p.sub, p.client, p.scope)
    requires parent.Some? ==>
               && parent.value in s.rows
               && s.rows[parent.value].revoked
               && Rotates(s.log[parent.value], NewRow(p, parent, session, s.now))
    ensures Inv(Save(Issue(s, jti, p), jti, parent, session))
  {
    hide Signed, Linked, Rotates;
    SavingKeepsSigned(s, jti, p, parent, session);
    SavingKeepsLinked(s, jti, p, parent, session);
  }

  lemma LaterInstant(a: nat, b: nat)
    requires a <= b
    ensures Micros(Seconds(a)) <= Micros(Seconds(b))
  {
  }

  /** The owner, scope and session come from the used token, and its client's lifetime has not changed. */
  lemma NewRowRotates(s: State, client: Id, used: Id, jti: Id)
    requires Signed(s) && Stored(s)
    requires used in s.rows && RefreshAllowed(s, client, used)
    ensures used in s.log
    ensures var p := NewPayload(s, s.issued[used].sub, client, s.issued[used].scope);
            Rotates(s.log[used], NewRow(p, Some(used), s.rows[used].session, s.now))
  {
    assert Stems(s.rows[used], s.log[used]) && Backed(s, used, s.log[used]);
    hide Signed, Stored;
    LaterInstant(s.log[used].createdAt + Micros(s.clients[client].refreshLifetime),
                 s.now + Micros(s.clients[client].refreshLifetime));
    hide Seconds, Micros;
  }

  lemma RotateKeeps(s: State, client: Id, used: Id, jti: Id)
    requires Inv(s)
    requires Legal(s, Refresh(client, used, jti))
    requires used in s.rows && !s.rows[used].revoked && RefreshAllowed(s, client, used)
    ensures Inv(Rotate(s, client, used, jti).state)
  {
    NewRowRotates(s, client, used, jti);
    hide Signed, Stored, Linked, Rotates;
    var revoked := s.(rows := RevokeOne(s.rows, used, s.now));
    RevokingKeeps(s, revoked.rows);
    hide Inv;
    SavingKeeps(revoked, jti, NewPayload(s, s.issued[used].sub, client, s.issued[used].scope), Some(used), s.rows[used].session);
  }

  lemma EnvironmentKeeps(s: State, e: Event)
    requires Inv(s) && (e.Tick? || e.AddClient? || e.SetUser?)
    ensures Inv(Step(s, e))
  {
    hide Stems, Rotates, NewRow, Seconds, Micros;
  }

  lemma StepKeeps(s: State, e: Event)
    requires Inv(s) && Legal(s, e)
    ensures Inv(Step(s, e))
  {
    hide Inv;
    match e
    case RevokeSession(user, session) =>
      RevokingKeeps(s, RevokeWhere(s.rows, OfSession(user, session), s.now));
    case RevokeAll(user, except) =>
      RevokingKeeps(s, RevokeWhere(s.rows, OfUser(user, except), s.now));
    case Cleanup(days) =>
      PurgingKeeps(s, s.now - Days(days));
    case Password(client, who, scope, lockedOut, jti, session) =>
      if !lockedOut && PasswordAllowed(s, client, who, scope) {
        var granted := Scopes.ValidateScope(s.clients[client].allowedScopes, scope).scope;
        SavingKeeps(s, jti, NewPayload(s, who.value, client, granted), None, session);
      }
    case Refresh(client, used, jti) =>
      if Decodes(s, used) {
        var validity := Validate(s.rows, used, s.now);
        if validity.Reused? {
          RevokingKeeps(s, RevokeChain(s.rows, used, s.now));
        } else if validity.Valid? && RefreshAllowed(s, client, used) {
          RotateKeeps(s, client, used, jti);
        }
      }
    case _ => EnvironmentKeeps(s, e);
  }

  // ---- Chains ----------------------------------------------------------------------------

  /** The tokens of each session in order of issue. */
  type ChainMap = map<Id, seq<Id>>

  /** `chain` starts at a token without parent and goes from parent to child. */
  ghost predicate IsChain(log: Table, session: Id, chain: seq<Id>) {
    && chain != []
    && (forall i :: 0 <= i < |chain| ==> chain[i] in log && log[chain[i]].session == session)
    && log[chain[0]].parent == None
    && (forall i, k :: 0 <= i < k < |chain| && k == i + 1 ==> log[chain[k]].parent == Some(chain[i]))
  }

  /** Every token ever saved is on the chain of its session. */
  ghost predicate Chained(log: Table, chains: ChainMap) {
    && (forall j :: j in log ==> log[j].session in chains && j in chains[log[j].session])
    && (forall session :: session in chains ==> IsChain(log, session, chains[session]))
  }

  /** Saving one more token does not disturb the chains of other sessions. */
  lemma ChainStays(log: Table, jti: Id, row: Row, session: Id, chain: seq<Id>)
    requires IsChain(log, session, chain) && jti !in log
    ensures IsChain(log[jti := row], session, chain)
  {
  }

  lemma NewSessionChained(log: Table, chains: ChainMap, jti: Id, row: Row)
    requires Chained(log, chains) && jti !in log
    requires row.parent == None && row.session !in chains
    ensures Chained(log[jti := row], chains[row.session := [jti]])
  {
    forall session | session in chains ensures IsChain(log[jti := row], session, chains[session]) {
      ChainStays(log, jti, row, session, chains[session]);
    }
  }

  lemma ChainExtends(log: Table, session: Id, chain: seq<Id>, jti: Id, row: Row)
    requires IsChain(log, session, chain) && jti !in log
    requires row.session == session && row.parent == Some(chain[|chain| - 1])
    ensures IsChain(log[jti := row], session, chain + [jti])
  {
  }

  lemma RotationChained(log: Table, chains: ChainMap, jti: Id, row: Row, used: Id)
    requires Chained(log, chains) && jti !in log
    requires row.parent == Some(used) && row.session in chains && chains[row.session] != []
    requires chains[row.session][|chains[row.session]| - 1] == used
    ensures Chained(log[jti := row], chains[row.session := chains[row.session] + [jti]])
  {
    hide IsChain;
    var after := chains[row.session := chains[row.session] + [jti]];
    ChainExtends(log, row.session, chains[row.session], jti, row);
    forall session | session in chains ensures IsChain(log[jti := row], session, after[session]) {
      if session != row.session {
        ChainStays(log, jti, row, session, chains[session]);
      }
    }
    assert after[row.session][|chains[row.session]|] == jti;
  }

  /** The parent of a saved token is dead, so all but the newest of a chain are. */
  lemma OlderAreDead(s: State, session: Id, chain: seq<Id>)
    requires Linked(s) && IsChain(s.log, session, chain)
    ensures forall i :: 0 <= i < |chain| - 1 && chain[i] in s.rows ==> s.rows[chain[i]].revoked
  {
    forall i | 0 <= i < |chain| - 1 && chain[i] in s.rows ensures s.rows[chain[i]].revoked {
      assert s.log[chain[i + 1]].parent == Some(chain[i]);
    }
  }

  lemma LiveIsLast(s: State, session: Id, chain: seq<Id>, jti: Id)
    requires Linked(s) && IsChain(s.log, session, chain)
    requires jti in chain && jti in s.rows && !s.rows[jti].revoked
    ensures chain[|chain| - 1] == jti
  {
    OlderAreDead(s, session, chain);
    hide *;
  }

  /** A live row is the newest of its session's chain. */
  lemma LiveIsNewest(s: State, chains: ChainMap, jti: Id)
    requires Inv(s) && Chained(s.log, chains)
    requires jti in s.rows && !s.rows[jti].revoked
    ensures var session := s.rows[jti].session;
            && session in chains
            && chains[session] != []
            && chains[session][|chains[session]| - 1] == jti
  {
    hide Linked, Backed, IsChain;
    assert Stems(s.rows[jti], s.log[jti]);
    var session := s.rows[jti].session;
    assert session in chains && IsChain(s.log, session, chains[session]);
    hide Inv, Chained;
    LiveIsLast(s, session, chains[session], jti);
  }

  /** Steps that save nothing only revoke or delete rows. */
  ghost predicate OnlyRowsDie(s: State, t: State) {
    && t.issued == s.issued
    && t.log == s.log
    && (forall j :: j in t.rows ==> j in s.rows && (s.rows[j].revoked ==> t.rows[j].revoked))
  }

  lemma PasswordShape(s: State, e: Event)
    requires e.Password?
    ensures var t := Step(s, e);
            || t == s
            || (e.jti in t.issued && t == Save(Issue(s, e.jti, t.issued[e.jti]), e.jti, None, e.session))
  {
    hide PasswordAllowed, NewPayload, Scopes.ValidateScope, NewRow;
  }

  lemma RefreshShape(s: State, e: Event)
    requires e.Refresh?
    ensures var t := Step(s, e);
            || OnlyRowsDie(s, t)
            || (e.used in s.rows && !s.rows[e.used].revoked && RefreshAllowed(s, e.client, e.used)
                && t == Rotate(s, e.client, e.used, e.jti).state)
  {
    hide RefreshAllowed, Decodes, Rotate;
  }

  /** The only steps that save a token are an accepted password grant and a rotation of a live token. */
  lemma StepShape(s: State, e: Event)
    requires Legal(s, e)
    ensures var t := Step(s, e);
            || OnlyRowsDie(s, t)
            || (e.Password? && e.jti in t.issued
                && t == Save(Issue(s, e.jti, t.issued[e.jti]), e.jti, None, e.session))
            || (e.Refresh? && e.used in s.rows && !s.rows[e.used].revoked && RefreshAllowed(s, e.client, e.used)
                && t == Rotate(s, e.client, e.used, e.jti).state)
  {
    hide Grant, RefreshAllowed, Save, Issue, Rotate;
    if e.Password? {
      PasswordShape(s, e);
    } else if e.Refresh? {
      RefreshShape(s, e);
    }
  }

  /** What a rotation adds to the log: a child of the used token, in the same session. */
  lemma RotationLogs(s: State, client: Id, used: Id, jti: Id)
    requires used in s.rows && RefreshAllowed(s, client, used)
    ensures var log := Rotate(s, client, used, jti).state.log;
            && jti in log
            && log == s.log[jti := log[jti]]
            && log[jti].parent == Some(used)
            && log[jti].session == s.rows[used].session
  {
    hide RefreshAllowed;
  }

  lemma NewSessionIsUnchained(s: State, chains: ChainMap, session: Id)
    requires Chained(s.log, chains)
    requires forall j :: j in s.log ==> s.log[j].session != session
    ensures session !in chains
  {
    assert session in chains ==> IsChain(s.log, session, chains[session]);
  }

  lemma RotationChains(s: State, chains: ChainMap, client: Id, used: Id, jti: Id) returns (after: ChainMap)
    requires Inv(s) && Chained(s.log, chains) && Fresh(s, jti)
    requires used in s.rows && !s.rows[used].revoked && RefreshAllowed(s, client, used)
    ensures Chained(Rotate(s, client, used, jti).state.log, after)
  {
    hide Inv, Chained, RefreshAllowed, Rotate;
    RotationLogs(s, client, used, jti);
    LiveIsNewest(s, chains, used);
    var log := Rotate(s, client, used, jti).state.log;
    RotationChained(s.log, chains, jti, log[jti], used);
    after := chains[log[jti].session := chains[log[jti].session] + [jti]];
  }

  lemma PasswordChains(s: State, chains: ChainMap, jti: Id, p: Payload, session: Id)
    requires Chained(s.log, chains) && jti !in s.log
    requires forall j :: j in s.log ==> s.log[j].session != session
    ensures Chained(Save(Issue(s, jti, p), jti, None, session).log, chains[session := [jti]])
  {
    hide Chained;
    NewSessionIsUnchained(s, chains, session);
    NewSessionChained(s.log, chains, jti, NewRow(p, None, session, s.now));
  }

  lemma StepChains(s: State, e: Event, chains: ChainMap) returns (after: ChainMap)
    requires Inv(s) && Chained(s.log, chains) && Legal(s, e)
    ensures Chained(Step(s, e).log, after)
  {
    hide Step, Inv, Chained, RefreshAllowed, Rotate, Save, Issue;
    StepShape(s, e);
    var t := Step(s, e);
    if OnlyRowsDie(s, t) {
      after := chains;
    } else if e.Password? {
      PasswordChains(s, chains, e.jti, t.issued[e.jti], e.session);
      after := chains[e.session := [e.jti]];
    } else {
      after := RotationChains(s, chains, e.client, e.used, e.jti);
    }
  }

  lemma {:induction false} RunKeeps(s: State, events: seq<Event>, chains: ChainMap) returns (after: ChainMap)
    requires Inv(s) && Chained(s.log, chains) && LegalRun(s, events)
    ensures Inv(Run(s, events)) && Chained(Run(s, events).log, after)
    decreases |events|
  {
    if events == [] {
      after := chains;
    } else {
      StepKeeps(s, events[0]);
      var next := StepChains(s, events[0], chains);
      after := RunKeeps(Step(s, events[0]), events[1..], next);
    }
  }

  // ---- The statement for every reachable state --------------------------------------------

  /** `chain` is the whole story of one session: its tokens in order, one owner and scope, times that
      never decrease, all but the newest dead, and of the rows exactly a final segment not yet cleaned up. */
  ghost predicate SessionHistory(s: State, session: Id, chain: seq<Id>) {
    && IsChain(s.log, session, chain)
    && (forall j :: j in s.log && s.log[j].session == session ==> j in chain)
    && (forall i, k :: 0 <= i < k < |chain| ==>
          && chain[i] != chain[k]
          && Rotates(s.log[chain[i]], s.log[chain[k]])
          && (chain[i] in s.rows ==> chain[k] in s.rows))
    && (forall i :: 0 <= i < |chain| - 1 && chain[i] in s.rows ==> s.rows[chain[i]].revoked)
  }

  lemma {:induction false} NoRepeats(log: Table, session: Id, chain: seq<Id>, i: nat, k: nat)
    requires IsChain(log, session, chain) && i < k < |chain|
    ensures chain[i] != chain[k]
  {
    assert log[chain[k]].parent == Some(chain[k - 1]);
    if i > 0 {
      NoRepeats(log, session, chain, i - 1, k - 1);
      assert log[chain[i]].parent == Some(chain[i - 1]);
    }
  }

  lemma {:induction false} AlongChain(s: State, session: Id, chain: seq<Id>, i: nat, k: nat)
    requires Linked(s) && IsChain(s.log, session, chain) && i < k < |chain|
    ensures Rotates(s.log[chain[i]], s.log[chain[k]])
    ensures chain[i] in s.rows ==> chain[k] in s.rows
  {
    assert s.log[chain[k]].parent == Some(chain[k - 1]);
    if i < k - 1 {
      AlongChain(s, session, chain, i, k - 1);
    }
  }

  lemma ChainIsHistory(s: State, chains: ChainMap, session: Id)
    requires Inv(s) && Chained(s.log, chains) && session in chains
    ensures SessionHistory(s, session, chains[session])
  {
    var chain := chains[session];
    assert IsChain(s.log, session, chain);
    OlderAreDead(s, session, chain);
    forall i, k | 0 <= i < k < |chain|
      ensures chain[i] != chain[k] && Rotates(s.log[chain[i]], s.log[chain[k]])
      ensures chain[i] in s.rows ==> chain[k] in s.rows
    {
      NoRepeats(s.log, session, chain, i, k);
      AlongChain(s, session, chain, i, k);
    }
  }

  /** In every reachable state, whatever was granted, revoked, cleaned up or toggled on the way,
      the tokens of each session form one linear rotation chain. */
  lemma EverySessionIsAChain(s0: State, events: seq<Event>)
    requires Initial(s0) && LegalRun(s0, events)
    ensures var s := Run(s0, events);
            forall j :: j in s.log ==> exists chain :: SessionHistory(s, s.log[j].session, chain)
  {
    var s := Run(s0, events);
    var chains := RunKeeps(s0, events, map[]);
    forall j | j in s.log ensures exists chain :: SessionHistory(s, s.log[j].session, chain) {
      ChainIsHistory(s, chains, s.log[j].session);
    }
  }

  ghost predicate OneLivePerSession(rows: Table) {
    forall j, k :: j in rows && k in rows && j != k && rows[j].session == rows[k].session
                   ==> rows[j].revoked || rows[k].revoked
  }

  lemma OneLive(s: State, chains: ChainMap)
    requires Inv(s) && Chained(s.log, chains)
    ensures OneLivePerSession(s.rows)
  {
    hide Inv, Chained;
    forall j, k | j in s.rows && k in s.rows && j != k && s.rows[j].session == s.rows[k].session
      ensures s.rows[j].revoked || s.rows[k].revoked
    {
      if !s.rows[j].revoked && !s.rows[k].revoked {
        LiveIsNewest(s, chains, j);
        LiveIsNewest(s, chains, k);
      }
    }
  }

  /** In every reachable state no two tokens of one session are live. */
  lemma NeverTwoLive(s0: State, events: seq<Event>)
    requires Initial(s0) && LegalRun(s0, events)
    ensures OneLivePerSession(Run(s0, events).rows)
  {
    var chains := RunKeeps(s0, events, map[]);
    OneLive(Run(s0, events), chains);
  }

  /** In every reachable state a stored row still shows what was signed for it. */
  lemma RowsShowPayloads(s0: State, events: seq<Event>)
    requires Initial(s0) && LegalRun(s0, events)
    ensures var s := Run(s0, events);
            forall j :: j in s.rows ==>
              && j in s.issued
              && Payload(s.rows[j].user, s.rows[j].client, s.rows[j].scope, s.issued[j].exp) == s.issued[j]
              && s.rows[j].expiresAt == Micros(s.issued[j].exp)
  {
    var s := Run(s0, events);
    var _ := RunKeeps(s0, events, map[]);
    forall j | j in s.rows
      ensures j in s.issued
      ensures Payload(s.rows[j].user, s.rows[j].client, s.rows[j].scope, s.issued[j].exp) == s.issued[j]
      ensures s.rows[j].expiresAt == Micros(s.issued[j].exp)
    {
      assert Stems(s.rows[j], s.log[j]) && Backed(s, j, s.log[j]);
    }
  }
}
