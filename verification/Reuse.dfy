/** Reuse detection: presenting a revoked token kills the family of its user and client for good. */
module Reuse {
  import opened Common
  import opened Tokens
  import Chains

  predicate OfFamily(row: Row, user: Id, client: Id) { row.user == user && row.client == client }

  /** `used` decodes and its stored row is revoked, for whatever reason. */
  predicate Replayed(s: State, used: Id) {
    Decodes(s, used) && used in s.rows && s.rows[used].revoked
  }

  /** What the request itself does: the whole family is dead, nothing else changes. */
  lemma ReplayKillsFamily(s: State, client: Id, used: Id, jti: Id)
    requires Replayed(s, used)
    ensures var r := RefreshGrant(s, client, used, jti);
            var t := r.state;
            && r.verdict == TokenReused
            && t == s.(rows := t.rows)
            && t.rows.Keys == s.rows.Keys
            && (forall j :: j in s.rows && OfFamily(s.rows[j], s.rows[used].user, s.rows[used].client) ==>
                  t.rows[j].revoked)
            && (forall j :: j in s.rows && !OfFamily(s.rows[j], s.rows[used].user, s.rows[used].client) ==>
                  t.rows[j] == s.rows[j])
            && (forall j :: j in s.rows ==> t.rows[j] == s.rows[j] || t.rows[j] == Revoke(s.rows[j], s.now))
  {
  }

  /** Since `log` was the history, the family's tokens of then stay dead and later ones are of new sessions. */
  ghost predicate DeadSince(log: Table, user: Id, client: Id, s: State) {
    && (forall b :: b in log ==> b in s.log && s.log[b] == log[b])
    && (forall b :: b in log && OfFamily(log[b], user, client) && b in s.rows ==> s.rows[b].revoked)
    && (forall j, b :: j in s.log && j !in log && OfFamily(s.log[j], user, client) && b in log ==>
          s.log[j].session != log[b].session)
  }

  lemma SavingStaysDead(
    log: Table, user: Id, client: Id, s: State, jti: Id, p: Payload, parent: Option<Id>, session: Id)
    requires DeadSince(log, user, client, s)
    requires jti !in s.log
    requires OfFamily(NewRow(p, parent, session, s.now), user, client) ==>
               forall b :: b in log ==> log[b].session != session
    ensures DeadSince(log, user, client, Save(Issue(s, jti, p), jti, parent, session))
  {
  }

  lemma OnlyRowsDieStaysDead(log: Table, user: Id, client: Id, s: State, t: State)
    requires DeadSince(log, user, client, s) && Chains.OnlyRowsDie(s, t)
    ensures DeadSince(log, user, client, t)
  {
  }

  lemma PasswordStaysDead(log: Table, user: Id, client: Id, s: State, e: Event, p: Payload)
    requires DeadSince(log, user, client, s)
    requires e.Password? && Legal(s, e)
    ensures DeadSince(log, user, client, Save(Issue(s, e.jti, p), e.jti, None, e.session))
  {
    SavingStaysDead(log, user, client, s, e.jti, p, None, e.session);
  }

  /** A token of the family that still rotates was saved later, so its session is new. */
  lemma RotationStaysDead(log: Table, user: Id, client: Id, s: State, e: Event)
    requires Chains.Inv(s) && DeadSince(log, user, client, s)
    requires e.Refresh? && Legal(s, e)
    requires e.used in s.rows && !s.rows[e.used].revoked && RefreshAllowed(s, e.client, e.used)
    ensures DeadSince(log, user, client, Rotate(s, e.client, e.used, e.jti).state)
  {
    var used := e.used;
    assert Chains.Stems(s.rows[used], s.log[used]) && Chains.Backed(s, used, s.log[used]);
    var p := NewPayload(s, s.issued[used].sub, e.client, s.issued[used].scope);
    var session := s.rows[used].session;
    assert OfFamily(NewRow(p, Some(used), session, s.now), user, client) ==> used !in log;
    hide Chains.Inv, Chains.Backed, Chains.Stems, RefreshAllowed;
    var revoked := s.(rows := RevokeOne(s.rows, used, s.now));
    OnlyRowsDieStaysDead(log, user, client, s, revoked);
    SavingStaysDead(log, user, client, revoked, e.jti, p, Some(used), session);
  }

  lemma StepStaysDead(log: Table, user: Id, client: Id, s: State, e: Event)
    requires Chains.Inv(s) && Legal(s, e)
    requires DeadSince(log, user, client, s)
    ensures DeadSince(log, user, client, Step(s, e))
  {
    Chains.StepShape(s, e);
    hide *;
    var t := Step(s, e);
    if Chains.OnlyRowsDie(s, t) {
      OnlyRowsDieStaysDead(log, user, client, s, t);
    } else if e.Password? {
      PasswordStaysDead(log, user, client, s, e, t.issued[e.jti]);
    } else {
      RotationStaysDead(log, user, client, s, e);
    }
  }

  lemma {:induction false} RunStaysDead(log: Table, user: Id, client: Id, s: State, events: seq<Event>)
    requires Chains.Inv(s) && LegalRun(s, events)
    requires DeadSince(log, user, client, s)
    ensures DeadSince(log, user, client, Run(s, events))
    decreases |events|
  {
    if events == [] {
    } else {
      StepStaysDead(log, user, client, s, events[0]);
      Chains.StepKeeps(s, events[0]);
      RunStaysDead(log, user, client, Step(s, events[0]), events[1..]);
    }
  }

  /** No client gets anything for a token that the family had been issued by `s`. */
  ghost predicate NeverGranted(s: State, t: State, user: Id, client: Id) {
    forall x, c, n :: x in s.issued && s.issued[x].sub == user && s.issued[x].client == client ==>
      !RefreshGrant(t, c, x, n).verdict.Granted?
  }

  /** The chain of the live token `j` starts at a password grant made after `s`. */
  ghost predicate FromLaterGrant(s: State, t: State, j: Id)
    requires j in t.rows
  {
    exists chain :: Chains.IsChain(t.log, t.rows[j].session, chain) && j in chain && chain[0] !in s.log
  }

  lemma FamilyDeadNow(s: State, r: State, user: Id, client: Id)
    requires Chains.Inv(s) && r == s.(rows := r.rows) && r.rows.Keys == s.rows.Keys
    requires forall j :: j in s.rows && OfFamily(s.rows[j], user, client) ==> r.rows[j].revoked
    ensures DeadSince(s.log, user, client, r)
  {
    forall b | b in s.log && OfFamily(s.log[b], user, client) && b in r.rows ensures r.rows[b].revoked {
      assert Chains.Stems(s.rows[b], s.log[b]);
    }
  }

  lemma RevokedIsRefused(t: State, client: Id, used: Id, jti: Id)
    requires used in t.rows ==> t.rows[used].revoked
    ensures !RefreshGrant(t, client, used, jti).verdict.Granted?
  {
  }

  lemma FamilyNeverGranted(s: State, t: State, user: Id, client: Id)
    requires Chains.Inv(s) && DeadSince(s.log, user, client, t)
    ensures NeverGranted(s, t, user, client)
  {
    hide RefreshGrant;
    forall x, c, n | x in s.issued && s.issued[x].sub == user && s.issued[x].client == client
      ensures !RefreshGrant(t, c, x, n).verdict.Granted?
    {
      assert Chains.Backed(s, x, s.log[x]);
      RevokedIsRefused(t, c, x, n);
    }
  }

  lemma LiveIsNew(s: State, t: State, chains: Chains.ChainMap, user: Id, client: Id, j: Id)
    requires DeadSince(s.log, user, client, t) && Chains.Inv(t) && Chains.Chained(t.log, chains)
    requires j in t.rows && !t.rows[j].revoked && OfFamily(t.rows[j], user, client)
    ensures FromLaterGrant(s, t, j)
  {
    assert Chains.Stems(t.rows[j], t.log[j]);
    var chain := chains[t.rows[j].session];
    assert Chains.IsChain(t.log, t.rows[j].session, chain);
    assert j !in s.log;
    assert t.log[chain[0]].session == t.log[j].session;
  }

  lemma FamilyStaysDead(s: State, chains: Chains.ChainMap, r: State, user: Id, client: Id, after: seq<Event>)
    requires Chains.Inv(s) && Chains.Chained(s.log, chains)
    requires Chains.Inv(r) && r == s.(rows := r.rows) && r.rows.Keys == s.rows.Keys && LegalRun(r, after)
    requires forall j :: j in s.rows && OfFamily(s.rows[j], user, client) ==> r.rows[j].revoked
    ensures var t := Run(r, after);
            && NeverGranted(s, t, user, client)
            && forall j :: j in t.rows && !t.rows[j].revoked && OfFamily(t.rows[j], user, client) ==>
                 FromLaterGrant(s, t, j)
  {
    hide *;
    var t := Run(r, after);
    FamilyDeadNow(s, r, user, client);
    RunStaysDead(s.log, user, client, r, after);
    var later := Chains.RunKeeps(r, after, chains);
    FamilyNeverGranted(s, t, user, client);
    forall j | j in t.rows && !t.rows[j].revoked && OfFamily(t.rows[j], user, client)
      ensures FromLaterGrant(s, t, j)
    {
      LiveIsNew(s, t, later, user, client, j);
    }
  }

  /** After a replay, in every continuation: no token the family had by then is accepted again by any client,
      and a live token of the family descends from a password grant made after the replay. */
  lemma ReplayIsForever(
    s0: State, before: seq<Event>, client: Id, used: Id, jti: Id, after: seq<Event>)
    requires Initial(s0) && LegalRun(s0, before)
    requires Replayed(Run(s0, before), used)
    requires LegalRun(RefreshGrant(Run(s0, before), client, used, jti).state, after)
    ensures var s := Run(s0, before);
            var user, owner := s.rows[used].user, s.rows[used].client;
            var t := Run(RefreshGrant(s, client, used, jti).state, after);
            && NeverGranted(s, t, user, owner)
            && forall j :: j in t.rows && !t.rows[j].revoked && OfFamily(t.rows[j], user, owner) ==>
                 FromLaterGrant(s, t, j)
  {
    var s := Run(s0, before);
    var chains := Chains.RunKeeps(s0, before, map[]);
    var r := RefreshGrant(s, client, used, jti).state;
    ReplayKillsFamily(s, client, used, jti);
    hide *;
    Chains.RevokingKeeps(s, r.rows);
    FamilyStaysDead(s, chains, r, s.rows[used].user, s.rows[used].client, after);
  }
}
