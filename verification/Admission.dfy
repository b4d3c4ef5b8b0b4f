/**
 One live token per session when handlers interleave: exactly which refreshes may be let in beside those
 under way.
 */
module Admission {
  import opened Common
  import opened Tokens
  import opened Interleaving
  import Chains
  import Scopes

  // ---- The admission condition ---------------------------------------------------------------

  /** Authentication of this client with this token may succeed, now or once its user is active (again). */
  predicate MayPass(s: State, client: Id, used: Id) {
    used in s.issued && s.issued[used].client == client && ClientPasses(s, client, REFRESH_TOKEN)
  }

  /** The handler may still save a child of `used`: a token presented by another client is sure to be refused. */
  predicate Contends(s: State, task: Task, used: Id) {
    match task
    case Validated(client, u) => u == used && MayPass(s, client, used)
    case Prepared(u, _) => u == used
    case Rotated(u, _) => u == used
    case LoggedIn(_) => false
  }

  /** The request would be validated and may go on to save a child of `used`. */
  predicate MayRotate(s: State, client: Id, used: Id) {
    Decodes(s, used) && Validate(s.rows, used, s.now).Valid? && MayPass(s, client, used)
  }

  /** A refresh that may rotate its token is let in only when no handler contends for it. */
  predicate Admitted(m: System, u: Micro) {
    u.Arrive? && MayRotate(m.s, u.client, u.used) ==> forall r :: r in m.tasks ==> !Contends(m.s, m.tasks[r], u.used)
  }

  predicate AdmittedRun(m: System, us: seq<Micro>)
    decreases |us|
  {
    us != [] ==> Admitted(m, us[0]) && AdmittedRun(Interleaving.Step(m, us[0]), us[1..])
  }

  predicate NoArrivals(us: seq<Micro>) { forall u :: u in us ==> !u.Arrive? }

  /** However the handlers under way go on, no session gets two live tokens. */
  ghost predicate Safe(m: System) {
    forall us :: Interleaving.LegalRun(m, us) && NoArrivals(us) ==>
                   Chains.OneLivePerSession(Interleaving.Run(m, us).s.rows)
  }

  // ---- Lifetimes: a rotated token lasts as long as the one it replaces --------------------------

  ghost predicate Timely(s: State) {
    forall j :: j in s.issued ==>
      && s.issued[j].client in s.clients
      && s.issued[j].exp <= Seconds(s.now + Micros(s.clients[s.issued[j].client].refreshLifetime))
  }

  ghost predicate Outlasting(m: System) {
    forall r :: r in m.tasks && m.tasks[r].Prepared? ==>
      var task := m.tasks[r];
      task.used in m.s.issued && task.jti in m.s.issued && m.s.issued[task.used].exp <= m.s.issued[task.jti].exp
  }

  /** Signed payloads, and clients once they exist, do not change. */
  predicate Grows(s: State, t: State) {
    && (forall j :: j in s.issued ==> j in t.issued && t.issued[j] == s.issued[j])
    && (forall c :: c in s.clients ==> c in t.clients && t.clients[c] == s.clients[c])
  }

  lemma LaterSecond(a: nat, b: nat)
    requires a <= b
    ensures Seconds(a) <= Seconds(b)
  {
  }

  lemma LaterTimely(s: State, t: State)
    requires Timely(s) && Grows(s, t) && s.now <= t.now && t.issued.Keys == s.issued.Keys
    ensures Timely(t)
  {
    forall j | j in t.issued
      ensures t.issued[j].client in t.clients
      ensures t.issued[j].exp <= Seconds(t.now + Micros(t.clients[t.issued[j].client].refreshLifetime))
    {
      var lifetime := Micros(s.clients[s.issued[j].client].refreshLifetime);
      LaterSecond(s.now + lifetime, t.now + lifetime);
    }
  }

  lemma IssuingTimely(s: State, jti: Id, user: Id, client: Id, scope: string)
    requires Timely(s) && client in s.clients && Fresh(s, jti)
    ensures Timely(Issue(s, jti, NewPayload(s, user, client, scope)))
    ensures Grows(s, Issue(s, jti, NewPayload(s, user, client, scope)))
  {
  }

  lemma OtherGrows(s: State, e: Event)
    requires !IsGrant(e)
    ensures var t := Tokens.Step(s, e); Grows(s, t) && s.now <= t.now && t.issued == s.issued
  {
  }

  lemma OtherTimely(s: State, e: Event)
    requires Timely(s) && !IsGrant(e)
    ensures Timely(Tokens.Step(s, e)) && Grows(s, Tokens.Step(s, e))
  {
    OtherGrows(s, e);
    LaterTimely(s, Tokens.Step(s, e));
    hide Tokens.Step, Timely, Grows;
  }

  lemma AuthenticateTimely(m: System, request: Id, jti: Id)
    requires Timely(m.s) && Fresh(m.s, jti)
    ensures var t := Interleaving.Step(m, Authenticate(request, jti)).s; Timely(t) && Grows(m.s, t)
  {
    hide Timely;
    if request in m.tasks && m.tasks[request].Validated? {
      var client, used := m.tasks[request].client, m.tasks[request].used;
      if RefreshAllowed(m.s, client, used) {
        IssuingTimely(m.s, jti, m.s.issued[used].sub, client, m.s.issued[used].scope);
      }
    }
  }

  lemma SignsNothing(m: System, u: Micro)
    requires !u.Other? && !u.Login? && !u.Authenticate?
    ensures var t := Interleaving.Step(m, u).s; Grows(m.s, t) && t.issued == m.s.issued && t.now == m.s.now
  {
  }

  lemma LoginTimely(m: System, request: Id, client: Id, who: Option<Id>, scope: Option<string>, jti: Id)
    requires Timely(m.s) && Fresh(m.s, jti)
    ensures var t := Interleaving.Step(m, Login(request, client, who, scope, jti)).s; Timely(t) && Grows(m.s, t)
  {
    hide Scopes.ValidateScope, Timely;
    if PasswordAllowed(m.s, client, who, scope) {
      IssuingTimely(m.s, jti, who.value, client, Scopes.ValidateScope(m.s.clients[client].allowedScopes, scope).scope);
    }
  }

  lemma StepTimely(m: System, u: Micro)
    requires Timely(m.s) && Interleaving.Legal(m, u)
    ensures Timely(Interleaving.Step(m, u).s) && Grows(m.s, Interleaving.Step(m, u).s)
  {
    hide Timely, Grows, Continue, Begin, PasswordAllowed;
    var t := Interleaving.Step(m, u).s;
    match u
    case Other(e) => OtherTimely(m.s, e);
    case Login(request, client, who, scope, jti) =>
      LoginTimely(m, request, client, who, scope, jti);
    case Authenticate(request, jti) =>
      AuthenticateTimely(m, request, jti);
    case _ =>
      SignsNothing(m, u);
      LaterTimely(m.s, t);
  }

  /** Apart from a signing handler, no handler is newly prepared. */
  predicate SamePrepared(m: System, t: System) {
    forall r :: r in t.tasks && t.tasks[r].Prepared? ==> r in m.tasks && m.tasks[r] == t.tasks[r]
  }

  lemma PreparedBefore(m: System, u: Micro)
    requires !u.Authenticate?
    ensures SamePrepared(m, Interleaving.Step(m, u))
  {
    hide Tokens.Step, PasswordAllowed, RefreshAllowed, Decodes;
  }

  lemma SameOutlasting(m: System, t: System)
    requires Outlasting(m) && Grows(m.s, t.s) && SamePrepared(m, t)
    ensures Outlasting(t)
  {
  }

  /** The new token's expiry counts from now, the old one's from an earlier instant. */
  lemma AuthenticateOutlasting(m: System, request: Id, jti: Id)
    requires Timely(m.s) && Outlasting(m) && Fresh(m.s, jti)
    ensures Outlasting(Interleaving.Step(m, Authenticate(request, jti)))
  {
    hide Micros, Seconds;
    if request in m.tasks && m.tasks[request].Validated? {
      var client, used := m.tasks[request].client, m.tasks[request].used;
      if RefreshAllowed(m.s, client, used) {
        var p := NewPayload(m.s, m.s.issued[used].sub, client, m.s.issued[used].scope);
        assert used in m.s.issued && m.s.issued[used].exp <= p.exp && used != jti;
        hide Timely, RefreshAllowed, NewPayload;
      }
    }
  }

  lemma StepOutlasting(m: System, u: Micro)
    requires Timely(m.s) && Outlasting(m) && Interleaving.Legal(m, u)
    ensures Outlasting(Interleaving.Step(m, u))
  {
    if u.Authenticate? {
      AuthenticateOutlasting(m, u.request, u.jti);
    } else {
      StepTimely(m, u);
      PreparedBefore(m, u);
      SameOutlasting(m, Interleaving.Step(m, u));
    }
    hide Timely, Outlasting, Interleaving.Step, SamePrepared, Grows;
  }

  lemma {:induction false} RunTimely(m: System, us: seq<Micro>)
    requires Timely(m.s) && Outlasting(m) && Interleaving.LegalRun(m, us)
    ensures Timely(Interleaving.Run(m, us).s) && Outlasting(Interleaving.Run(m, us))
    decreases |us|
  {
    if us == [] {
    } else {
      StepTimely(m, us[0]);
      StepOutlasting(m, us[0]);
      RunTimely(Interleaving.Step(m, us[0]), us[1..]);
    }
  }

  // ---- Admitted runs keep one live token per session ---------------------------------------------

  /** The handler may still save a token in that session. */
  predicate InSession(s: State, task: Task, session: Id) {
    !task.LoggedIn? && Contends(s, task, task.used) && task.used in s.log && s.log[task.used].session == session
  }

  /** Per session: one live token, one contending refresh, and if both then that refresh uses that token. */
  ghost predicate OneHead(m: System) {
    && Chains.OneLivePerSession(m.s.rows)
    && (forall r, q, session :: r in m.tasks && q in m.tasks && InSession(m.s, m.tasks[r], session) ==>
          InSession(m.s, m.tasks[q], session) ==> r == q)
    && (forall r, j :: r in m.tasks && j in m.s.rows && InSession(m.s, m.tasks[r], m.s.rows[j].session) ==>
          m.s.rows[j].revoked || m.tasks[r].used == j)
  }

  /** No handler starts to contend as long as nothing is saved. */
  lemma ContendingBefore(s: State, t: State, task: Task, session: Id)
    requires Timely(s) && Grows(s, t) && t.log == s.log && LogHeld(s)
    requires InSession(t, task, session)
    ensures InSession(s, task, session)
  {
  }

  lemma DyingOneHead(m: System, t: State)
    requires OneHead(m) && Timely(m.s) && LogHeld(m.s) && Grows(m.s, t) && t.log == m.s.log
    requires forall j :: j in t.rows ==>
               j in m.s.rows && (t.rows[j] == m.s.rows[j] || t.rows[j] == Revoke(m.s.rows[j], m.s.now))
    ensures OneHead(m.(s := t))
  {
    forall task, session | InSession(t, task, session) ensures InSession(m.s, task, session) {
      ContendingBefore(m.s, t, task, session);
    }
    hide InSession, Timely, LogHeld, Grows;
  }

  lemma DoneOneHead(m: System, request: Id)
    requires OneHead(m)
    ensures OneHead(Done(m, request))
  {
    hide InSession;
  }

  /** A handler moving on with the same token, or one that rotates none. */
  lemma TaskOneHead(m: System, request: Id, task: Task)
    requires OneHead(m)
    requires forall session :: InSession(m.s, task, session) ==>
               request in m.tasks && InSession(m.s, m.tasks[request], session) && m.tasks[request].used == task.used
    ensures OneHead(m.(tasks := m.tasks[request := task]))
  {
  }

  lemma StoredStems(s: State, jti: Id)
    requires RowsHeld(s) && jti in s.rows
    ensures jti in s.log && Chains.Stems(s.rows[jti], s.log[jti])
  {
  }

  /** The session of a token that is live and not contended for has no contender at all. */
  lemma SessionIsQuiet(m: System, client: Id, used: Id)
    requires RowsHeld(m.s) && OneHead(m) && Admitted(m, Arrive(Blank, client, used)) && MayRotate(m.s, client, used)
    ensures used in m.s.log && m.s.log[used].session == m.s.rows[used].session
    ensures forall r :: r in m.tasks ==> !InSession(m.s, m.tasks[r], m.s.rows[used].session)
  {
    hide Decodes, MayPass, RowsHeld;
    assert Chains.Stems(m.s.rows[used], m.s.log[used]) by { StoredStems(m.s, used); }
    forall r | r in m.tasks ensures !InSession(m.s, m.tasks[r], m.s.rows[used].session) {
      assert !Contends(m.s, m.tasks[r], used);
    }
  }

  lemma NewcomerSession(s: State, client: Id, used: Id)
    ensures forall session :: InSession(s, Validated(client, used), session) ==>
              MayPass(s, client, used) && used in s.log && s.log[used].session == session
  {
  }

  lemma ArrivingOneHead(m: System, request: Id, client: Id, used: Id)
    requires RowsHeld(m.s) && OneHead(m) && request !in m.tasks && Admitted(m, Arrive(request, client, used))
    requires Decodes(m.s, used) && Validate(m.s.rows, used, m.s.now).Valid?
    ensures OneHead(m.(tasks := m.tasks[request := Validated(client, used)]))
  {
    hide RowsHeld, MayPass, Decodes;
    if MayPass(m.s, client, used) {
      SessionIsQuiet(m, client, used);
    }
    NewcomerSession(m.s, client, used);
    hide InSession;
  }

  lemma SavingOneHead(m: System, jti: Id, parent: Option<Id>, session: Id)
    requires OneHead(m) && Unsaved(m.s, jti)
    requires forall j :: j in m.s.rows && m.s.rows[j].session == session ==> m.s.rows[j].revoked
    requires forall r :: r in m.tasks ==> !InSession(m.s, m.tasks[r], session)
    requires forall r :: r in m.tasks && !m.tasks[r].LoggedIn? ==> m.tasks[r].used in m.s.log
    ensures OneHead(m.(s := Save(m.s, jti, parent, session)))
  {
    var t := Save(m.s, jti, parent, session);
    forall r, other | r in m.tasks ensures InSession(t, m.tasks[r], other) <==> InSession(m.s, m.tasks[r], other) {
    }
    hide InSession;
  }

  /** Once its old token is revoked, a refresh finds its session without live token and without other contender. */
  lemma SessionIsFree(m: System, request: Id, used: Id, jti: Id, session: Id)
    requires RowsHeld(m.s) && OneHead(m)
    requires request in m.tasks && m.tasks[request] == Rotated(used, jti) && TaskHeld(m.s, m.tasks[request])
    requires used in m.s.rows && m.s.rows[used].session == session
    ensures forall j :: j in m.s.rows && m.s.rows[j].session == session ==> m.s.rows[j].revoked
    ensures forall r :: r in m.tasks && r != request ==> !InSession(m.s, m.tasks[r], session)
  {
    assert Chains.Stems(m.s.rows[used], m.s.log[used]);
    hide RowsHeld;
    assert InSession(m.s, m.tasks[request], session);
    forall r | r in m.tasks && r != request ensures !InSession(m.s, m.tasks[r], session) {
      assert m.s.log[m.tasks[request].used].session == session;
    }
  }

  lemma NewSessionIsFree(m: System, session: Id)
    requires RowsHeld(m.s) && SessionFresh(m.s, session)
    ensures forall j :: j in m.s.rows ==> m.s.rows[j].session != session
    ensures forall r :: r in m.tasks ==> !InSession(m.s, m.tasks[r], session)
  {
    forall j | j in m.s.rows ensures m.s.rows[j].session != session {
      assert Chains.Stems(m.s.rows[j], m.s.log[j]);
    }
  }

  lemma UsedAreLogged(m: System)
    requires TasksHeld(m)
    ensures forall r :: r in m.tasks && !m.tasks[r].LoggedIn? ==> m.tasks[r].used in m.s.log
  {
    assert forall r :: r in m.tasks ==> TaskHeld(m.s, m.tasks[r]);
  }

  lemma SaveNewOneHead(m: System, request: Id, used: Id, jti: Id, generated: Id)
    requires Held(m) && OneHead(m) && SessionFresh(m.s, generated)
    requires request in m.tasks && m.tasks[request] == Rotated(used, jti)
    ensures OneHead(Continue(m, SaveNew(request, generated), Rotated(used, jti)))
  {
    hide OneHead, RowsHeld, LogHeld, TasksHeld, InSession, Decodes, Save, SessionFresh;
    HeldTask(m, request);
    UsedAreLogged(m);
    DoneOneHead(m, request);
    if used in m.s.rows {
      SessionIsFree(m, request, used, jti, m.s.rows[used].session);
      SavingOneHead(Done(m, request), jti, Some(used), m.s.rows[used].session);
    } else {
      NewSessionIsFree(m, generated);
      SavingOneHead(Done(m, request), jti, Some(used), generated);
    }
  }

  lemma SaveLoginOneHead(m: System, request: Id, jti: Id, session: Id)
    requires Held(m) && OneHead(m) && SessionFresh(m.s, session)
    requires request in m.tasks && m.tasks[request] == LoggedIn(jti)
    ensures OneHead(Continue(m, SaveLogin(request, session), LoggedIn(jti)))
  {
    hide OneHead, RowsHeld, LogHeld, TasksHeld, InSession, Decodes, Save, SessionFresh;
    HeldTask(m, request);
    UsedAreLogged(m);
    DoneOneHead(m, request);
    NewSessionIsFree(m, session);
    SavingOneHead(Done(m, request), jti, None, session);
  }

  lemma AuthenticateOneHead(m: System, request: Id, jti: Id, client: Id, used: Id)
    requires OneHead(m) && Timely(m.s) && LogHeld(m.s) && Fresh(m.s, jti)
    requires request in m.tasks && m.tasks[request] == Validated(client, used)
    ensures OneHead(Continue(m, Authenticate(request, jti), Validated(client, used)))
  {
    if RefreshAllowed(m.s, client, used) {
      var t := Issue(m.s, jti, NewPayload(m.s, m.s.issued[used].sub, client, m.s.issued[used].scope));
      DyingOneHead(m, t);
      hide OneHead;
      TaskOneHead(m.(s := t), request, Prepared(used, jti));
    } else {
      DoneOneHead(m, request);
    }
  }

  lemma RevokeOldOneHead(m: System, request: Id, used: Id, jti: Id)
    requires OneHead(m) && Timely(m.s) && LogHeld(m.s)
    requires request in m.tasks && m.tasks[request] == Prepared(used, jti)
    ensures OneHead(Continue(m, RevokeOld(request), Prepared(used, jti)))
  {
    var t := m.s.(rows := RevokeOne(m.s.rows, used, m.s.now));
    DyingOneHead(m, t);
    hide OneHead;
    TaskOneHead(m.(s := t), request, Rotated(used, jti));
  }

  lemma ContinueOneHead(m: System, u: Micro, task: Task)
    requires Held(m) && OneHead(m) && Timely(m.s) && Interleaving.Legal(m, u)
    requires !u.Other? && u.request in m.tasks && m.tasks[u.request] == task
    ensures OneHead(Continue(m, u, task))
  {
    assert LogHeld(m.s);
    hide OneHead, Held, LogHeld, Timely, RefreshAllowed, NewPayload;
    match (u, task)
    case (Authenticate(request, jti), Validated(client, used)) => AuthenticateOneHead(m, request, jti, client, used);
    case (RevokeOld(request), Prepared(used, jti)) => RevokeOldOneHead(m, request, used, jti);
    case (SaveNew(request, generated), Rotated(used, jti)) => SaveNewOneHead(m, request, used, jti, generated);
    case (SaveLogin(request, session), LoggedIn(jti)) => SaveLoginOneHead(m, request, jti, session);
    case (Abort(request), _) => DoneOneHead(m, request);
    case _ =>
  }

  lemma ReusedOneHead(m: System, used: Id)
    requires OneHead(m) && Timely(m.s) && LogHeld(m.s) && used in m.s.rows
    ensures OneHead(m.(s := m.s.(rows := RevokeChain(m.s.rows, used, m.s.now))))
  {
    hide OneHead, Timely, LogHeld;
    DyingOneHead(m, m.s.(rows := RevokeChain(m.s.rows, used, m.s.now)));
  }

  lemma BeginOneHead(m: System, request: Id, client: Id, used: Id)
    requires Held(m) && OneHead(m) && Timely(m.s) && request !in m.tasks && Admitted(m, Arrive(request, client, used))
    ensures OneHead(Begin(m, request, client, used))
  {
    hide OneHead, Timely, Admitted, RowsHeld, LogHeld, TasksHeld;
    if Decodes(m.s, used) {
      var validity := Validate(m.s.rows, used, m.s.now);
      if validity.Reused? {
        ReusedOneHead(m, used);
      } else if validity.Valid? {
        ArrivingOneHead(m, request, client, used);
      }
    }
  }

  lemma LoginOneHead(m: System, request: Id, client: Id, who: Option<Id>, scope: Option<string>, jti: Id)
    requires Held(m) && OneHead(m) && Timely(m.s) && request !in m.tasks && Fresh(m.s, jti)
    ensures OneHead(Interleaving.Step(m, Login(request, client, who, scope, jti)))
  {
    hide OneHead, Timely;
    if PasswordAllowed(m.s, client, who, scope) {
      var granted := Scopes.ValidateScope(m.s.clients[client].allowedScopes, scope).scope;
      IssuingTimely(m.s, jti, who.value, client, granted);
      var t := Issue(m.s, jti, NewPayload(m.s, who.value, client, granted));
      DyingOneHead(m, t);
      TaskOneHead(m.(s := t), request, LoggedIn(jti));
    }
  }

  lemma OtherOneHead(m: System, e: Event)
    requires Held(m) && OneHead(m) && Timely(m.s) && !IsGrant(e)
    ensures OneHead(m.(s := Tokens.Step(m.s, e)))
  {
    OtherTimely(m.s, e);
    OtherRowsDie(m.s, e);
    hide OneHead, Timely, Grows, Tokens.Step;
    DyingOneHead(m, Tokens.Step(m.s, e));
  }

  lemma StepOneHead(m: System, u: Micro)
    requires Held(m) && OneHead(m) && Timely(m.s) && Interleaving.Legal(m, u) && Admitted(m, u)
    ensures OneHead(Interleaving.Step(m, u))
  {
    hide OneHead, Held, Timely, Continue, Begin, Admitted, PasswordAllowed;
    match u
    case Other(e) => OtherOneHead(m, e);
    case Arrive(request, client, used) => BeginOneHead(m, request, client, used);
    case Login(request, client, who, scope, jti) => LoginOneHead(m, request, client, who, scope, jti);
    case _ =>
      if u.request in m.tasks {
        ContinueOneHead(m, u, m.tasks[u.request]);
      }
  }

  /** Everything an admitted run keeps. */
  ghost predicate Kept(m: System) { Held(m) && OneHead(m) && Timely(m.s) && Outlasting(m) }

  lemma {:induction false} RunKept(m: System, us: seq<Micro>)
    requires Kept(m) && Interleaving.LegalRun(m, us) && AdmittedRun(m, us)
    ensures Kept(Interleaving.Run(m, us))
    decreases |us|
  {
    hide OneHead, Held, Timely, Outlasting, Interleaving.Step, Interleaving.Legal, Admitted;
    if us == [] {
    } else {
      StepOneHead(m, us[0]);
      StepHeld(m, us[0]);
      StepTimely(m, us[0]);
      StepOutlasting(m, us[0]);
      RunKept(Interleaving.Step(m, us[0]), us[1..]);
    }
  }

  /** Whatever interleaves: as long as every arriving refresh is admitted, no session has two live tokens. */
  lemma AdmittedKeepsOneLive(m0: System, us: seq<Micro>)
    requires Starts(m0) && Interleaving.LegalRun(m0, us) && AdmittedRun(m0, us)
    ensures Chains.OneLivePerSession(Interleaving.Run(m0, us).s.rows)
  {
    RunKept(m0, us);
  }

  // ---- A refresh let in beside a contender can fork the session ----------------------------------

  lemma UnusedFrom(ids: set<Id>, n: nat) returns (id: Id)
    ensures id.Name? && id.number >= n && id !in ids
    decreases |ids|
  {
    id := Name(n);
    if id in ids {
      id := UnusedFrom(ids - {id}, n + 1);
    }
  }

  lemma NewSession(log: Table) returns (session: Id)
    ensures session != Blank && forall j :: j in log ==> log[j].session != session
  {
    var sessions := set j | j in log :: log[j].session;
    session := UnusedFrom(sessions, 0);
    assert forall j :: j in log ==> log[j].session in sessions;
  }

  lemma NewIds(s: State) returns (jti: Id, session: Id)
    ensures Fresh(s, jti) && SessionFresh(s, session)
  {
    jti := UnusedFrom(s.issued.Keys + s.log.Keys, 0);
    session := NewSession(s.log);
  }

  /** The last two pieces of a refresh whose old row is still stored. */
  lemma FinishRefresh(m: System, request: Id, used: Id, jti: Id, generated: Id)
    requires request in m.tasks && m.tasks[request] == Prepared(used, jti)
    requires used in m.s.rows && Decodes(m.s, jti) && SessionFresh(m.s, generated)
    requires m.s.rows[used].session != generated
    ensures var m1 := Interleaving.Step(m, RevokeOld(request));
            var t := Interleaving.Step(m1, SaveNew(request, generated));
            var row := NewRow(m.s.issued[jti], Some(used), m.s.rows[used].session, m.s.now);
            && Interleaving.Legal(m, RevokeOld(request)) && Interleaving.Legal(m1, SaveNew(request, generated))
            && t.tasks == m.tasks - {request}
            && t.s == m.s.(rows := RevokeOne(m.s.rows, used, m.s.now)[jti := row], log := m.s.log[jti := row])
            && SessionFresh(t.s, generated)
  {
    var m1 := Interleaving.Step(m, RevokeOld(request));
    assert m1.tasks[request] == Rotated(used, jti) && Decodes(m1.s, jti);
    assert m1.tasks - {request} == m.tasks - {request};
  }

  /** Two handlers that have signed a child of the same stored token both save it. */
  lemma BothFinish(m: System, used: Id, r: Id, q: Id, a: Id, b: Id, generated: Id)
    requires r != q && r in m.tasks && q in m.tasks
    requires m.tasks[r] == Prepared(used, a) && m.tasks[q] == Prepared(used, b)
    requires used in m.s.rows && a != used && b != used && a != b
    requires Decodes(m.s, a) && Decodes(m.s, b)
    requires SessionFresh(m.s, generated) && m.s.rows[used].session != generated
    ensures var first, second := [RevokeOld(r), SaveNew(r, generated)], [RevokeOld(q), SaveNew(q, generated)];
            var m3 := Interleaving.Run(m, first);
            var rows := Interleaving.Run(m3, second).s.rows;
            && Interleaving.LegalRun(m, first) && Interleaving.LegalRun(m3, second)
            && a in rows && b in rows
            && !rows[a].revoked && !rows[b].revoked
            && rows[a].session == rows[b].session == m.s.rows[used].session
  {
    hide Interleaving.Run, Interleaving.LegalRun, Interleaving.Legal, Interleaving.Step;
    var first, second := [RevokeOld(r), SaveNew(r, generated)], [RevokeOld(q), SaveNew(q, generated)];
    TwoSteps(m, first[0], first[1]);
    FinishRefresh(m, r, used, a, generated);
    var m3 := Interleaving.Run(m, first);
    TwoSteps(m3, second[0], second[1]);
    FinishRefresh(m3, q, used, b, generated);
  }

  lemma OneStep(m: System, u: Micro)
    ensures Interleaving.Run(m, [u]) == Interleaving.Step(m, u)
    ensures Interleaving.LegalRun(m, [u]) <==> Interleaving.Legal(m, u)
  {
    assert Interleaving.Run(Interleaving.Step(m, u), []) == Interleaving.Step(m, u);
  }

  /** What is left of `m` once a contender has signed its token. */
  predicate HasSigned(m: System, t: System, r: Id, used: Id, jti: Id) {
    && t == m.(s := m.s.(issued := t.s.issued), tasks := m.tasks[r := Prepared(used, jti)])
    && (forall j :: j in m.s.issued ==> j in t.s.issued && t.s.issued[j] == m.s.issued[j])
    && Decodes(t.s, jti)
  }

  lemma ValidatedSigns(m: System, r: Id, client: Id, used: Id) returns (us: seq<Micro>, jti: Id)
    requires r in m.tasks && m.tasks[r].Validated? && RefreshAllowed(m.s, client, used)
    requires Contends(m.s, m.tasks[r], used)
    ensures Interleaving.LegalRun(m, us) && NoArrivals(us)
    ensures HasSigned(m, Interleaving.Run(m, us), r, used, jti)
  {
    var unused, _ := NewIds(m.s);
    jti := unused;
    us := [Authenticate(r, jti)];
    OneStep(m, us[0]);
    hide Interleaving.Run, Interleaving.LegalRun, SessionFresh;
  }

  /** A contender that has not signed its token yet does so now; one that has, has one that still decodes. */
  lemma ContenderSigns(m: System, r: Id, client: Id, used: Id) returns (us: seq<Micro>, jti: Id)
    requires Held(m) && Timely(m.s) && Outlasting(m)
    requires used in m.s.rows && !m.s.rows[used].revoked && RefreshAllowed(m.s, client, used)
    requires r in m.tasks && Contends(m.s, m.tasks[r], used)
    ensures Interleaving.LegalRun(m, us) && NoArrivals(us)
    ensures HasSigned(m, Interleaving.Run(m, us), r, used, jti)
  {
    hide RowsHeld, LogHeld, TasksHeld, Timely, ClientPasses, Interleaving.Legal, Interleaving.Step;
    if m.tasks[r].Validated? {
      us, jti := ValidatedSigns(m, r, client, used);
    } else {
      us, jti := [], m.tasks[r].jti;
      HeldTask(m, r);
      assert m.tasks == m.tasks[r := Prepared(used, jti)];
    }
  }

  /** Activating its user, if need be, lets a token that may be rotated pass now. */
  lemma Activated(m: System, client: Id, used: Id) returns (activate: Micro)
    requires MayRotate(m.s, client, used)
    ensures Interleaving.Legal(m, activate) && NoArrivals([activate])
    ensures var t := Interleaving.Step(m, activate);
            && t == m.(s := m.s.(users := t.s.users))
            && RefreshAllowed(t.s, client, used)
            && used in t.s.rows && !t.s.rows[used].revoked
            && (forall r :: r in m.tasks && Contends(m.s, m.tasks[r], used) ==> Contends(t.s, m.tasks[r], used))
  {
    activate := Other(SetUser(m.s.issued[used].sub, true));
  }

  /** Legal runs without arrivals, one after the other. */
  lemma Extend(m: System, a: seq<Micro>, b: seq<Micro>)
    requires Interleaving.LegalRun(m, a) && Interleaving.LegalRun(Interleaving.Run(m, a), b)
    requires NoArrivals(a) && NoArrivals(b)
    ensures Interleaving.LegalRun(m, a + b) && NoArrivals(a + b)
    ensures Interleaving.Run(m, a + b) == Interleaving.Run(Interleaving.Run(m, a), b)
  {
    Concat(m, a, b);
    hide Interleaving.Run, Interleaving.LegalRun;
  }

  lemma SignedFork(m: System, used: Id, r: Id, q: Id, a: Id, b: Id) returns (us: seq<Micro>)
    requires Held(m) && used in m.s.rows && r != q && r in m.tasks && q in m.tasks
    requires m.tasks[r] == Prepared(used, a) && m.tasks[q] == Prepared(used, b)
    requires Decodes(m.s, a) && Decodes(m.s, b)
    ensures Interleaving.LegalRun(m, us) && NoArrivals(us)
    ensures var rows := Interleaving.Run(m, us).s.rows;
            && a != b && a in rows && b in rows && !rows[a].revoked && !rows[b].revoked
            && rows[a].session == rows[b].session == m.s.rows[used].session
  {
    hide LogHeld, Interleaving.Run, Interleaving.LegalRun, Decodes;
    assert TaskHeld(m.s, m.tasks[r]) && TaskHeld(m.s, m.tasks[q]);
    assert Chains.Stems(m.s.rows[used], m.s.log[used]);
    var generated := NewSession(m.s.log);
    BothFinish(m, used, r, q, a, b, generated);
    var first, second := [RevokeOld(r), SaveNew(r, generated)], [RevokeOld(q), SaveNew(q, generated)];
    Extend(m, first, second);
    us := first + second;
  }

  /** The other contender has not been affected. */
  lemma SignedKeeps(m: System, t: System, r: Id, q: Id, client: Id, used: Id, jti: Id)
    requires HasSigned(m, t, r, used, jti) && RefreshAllowed(m.s, client, used)
    requires r != q && q in m.tasks && Contends(m.s, m.tasks[q], used)
    ensures t.s.rows == m.s.rows && RefreshAllowed(t.s, client, used)
    ensures q in t.tasks && Contends(t.s, t.tasks[q], used)
  {
  }

  lemma SignedTwice(m: System, m1: System, t: System, r: Id, q: Id, used: Id, a: Id, b: Id)
    requires HasSigned(m, m1, r, used, a) && HasSigned(m1, t, q, used, b) && r != q
    ensures t.s.rows == m.s.rows
    ensures r in t.tasks && t.tasks[r] == Prepared(used, a) && Decodes(t.s, a)
    ensures q in t.tasks && t.tasks[q] == Prepared(used, b) && Decodes(t.s, b)
  {
  }

  lemma BothSign(m: System, r: Id, q: Id, client: Id, used: Id) returns (us: seq<Micro>, a: Id, b: Id)
    requires Held(m) && Timely(m.s) && Outlasting(m)
    requires used in m.s.rows && !m.s.rows[used].revoked && RefreshAllowed(m.s, client, used)
    requires r != q && r in m.tasks && q in m.tasks
    requires Contends(m.s, m.tasks[r], used) && Contends(m.s, m.tasks[q], used)
    ensures Interleaving.LegalRun(m, us) && NoArrivals(us)
    ensures var t := Interleaving.Run(m, us);
            && Held(t) && t.s.rows == m.s.rows
            && r in t.tasks && t.tasks[r] == Prepared(used, a) && Decodes(t.s, a)
            && q in t.tasks && t.tasks[q] == Prepared(used, b) && Decodes(t.s, b)
  {
    hide *;
    var first, second;
    first, a := ContenderSigns(m, r, client, used);
    var m1 := Interleaving.Run(m, first);
    RunHeld(m, first);
    RunTimely(m, first);
    SignedKeeps(m, m1, r, q, client, used, a);
    second, b := ContenderSigns(m1, q, client, used);
    RunHeld(m1, second);
    Extend(m, first, second);
    us := first + second;
    SignedTwice(m, m1, Interleaving.Run(m, us), r, q, used, a, b);
  }

  /** When two handlers contend for a token that may be rotated, they can go on to leave two live tokens
      in its session, with no further refresh arriving. */
  lemma OverlapForks(m: System, r: Id, q: Id, client: Id, used: Id) returns (us: seq<Micro>, a: Id, b: Id)
    requires Held(m) && Timely(m.s) && Outlasting(m) && MayRotate(m.s, client, used)
    requires r != q && r in m.tasks && q in m.tasks
    requires Contends(m.s, m.tasks[r], used) && Contends(m.s, m.tasks[q], used)
    ensures Interleaving.LegalRun(m, us) && NoArrivals(us)
    ensures var rows := Interleaving.Run(m, us).s.rows;
            && a != b && a in rows && b in rows && !rows[a].revoked && !rows[b].revoked
            && rows[a].session == rows[b].session == m.s.rows[used].session
  {
    hide *;
    var activate := Activated(m, client, used);
    var m1 := Interleaving.Step(m, activate);
    OneStep(m, activate);
    RunHeld(m, [activate]);
    RunTimely(m, [activate]);
    var signing, forking;
    signing, a, b := BothSign(m1, r, q, client, used);
    forking := SignedFork(Interleaving.Run(m1, signing), used, r, q, a, b);
    Extend(m1, signing, forking);
    Extend(m, [activate], signing + forking);
    us := [activate] + (signing + forking);
  }

  lemma {:induction false} NoArrivalsAdmitted(m: System, us: seq<Micro>)
    requires NoArrivals(us)
    ensures AdmittedRun(m, us)
    decreases |us|
  {
    if us == [] {
    } else {
      assert us[0] in us;
      NoArrivalsAdmitted(Interleaving.Step(m, us[0]), us[1..]);
    }
  }

  lemma AdmittedIsSafe(m: System, q: Id, client: Id, used: Id)
    requires Kept(m) && q !in m.tasks && Admitted(m, Arrive(q, client, used))
    ensures Safe(Interleaving.Step(m, Arrive(q, client, used)))
  {
    var u := Arrive(q, client, used);
    var t := Interleaving.Step(m, u);
    StepOneHead(m, u);
    StepHeld(m, u);
    StepTimely(m, u);
    StepOutlasting(m, u);
    forall us | Interleaving.LegalRun(t, us) && NoArrivals(us)
      ensures Chains.OneLivePerSession(Interleaving.Run(t, us).s.rows)
    {
      NoArrivalsAdmitted(t, us);
      RunKept(t, us);
      hide Held, Timely, Outlasting;
    }
  }

  /** The arriving refresh becomes a contender of its own. */
  lemma ArrivedContends(m: System, r: Id, q: Id, client: Id, used: Id)
    requires q !in m.tasks && MayRotate(m.s, client, used)
    requires r in m.tasks && Contends(m.s, m.tasks[r], used)
    ensures var t := Interleaving.Step(m, Arrive(q, client, used));
            && Interleaving.Legal(m, Arrive(q, client, used))
            && MayRotate(t.s, client, used)
            && r != q && r in t.tasks && q in t.tasks
            && Contends(t.s, t.tasks[r], used) && Contends(t.s, t.tasks[q], used)
  {
  }

  lemma RefusedIsUnsafe(m: System, r: Id, q: Id, client: Id, used: Id)
    requires Kept(m) && q !in m.tasks && MayRotate(m.s, client, used)
    requires r in m.tasks && Contends(m.s, m.tasks[r], used)
    ensures !Safe(Interleaving.Step(m, Arrive(q, client, used)))
  {
    hide Held, OneHead, Timely, Outlasting, MayRotate, Contends, Interleaving.Step, Interleaving.Run, Interleaving.LegalRun;
    var u := Arrive(q, client, used);
    var t := Interleaving.Step(m, u);
    ArrivedContends(m, r, q, client, used);
    StepHeld(m, u);
    StepTimely(m, u);
    StepOutlasting(m, u);
    var us, a, b := OverlapForks(t, r, q, client, used);
  }

  /** In every state that admitted runs reach, and for every refresh that arrives: letting it in is safe
      exactly when it is admitted. */
  lemma AdmissionIsExact(m0: System, us: seq<Micro>, q: Id, client: Id, used: Id)
    requires Starts(m0) && Interleaving.LegalRun(m0, us) && AdmittedRun(m0, us)
    requires q !in Interleaving.Run(m0, us).tasks
    ensures var m := Interleaving.Run(m0, us);
            Safe(Interleaving.Step(m, Arrive(q, client, used))) <==> Admitted(m, Arrive(q, client, used))
  {
    var m := Interleaving.Run(m0, us);
    RunKept(m0, us);
    if Admitted(m, Arrive(q, client, used)) {
      AdmittedIsSafe(m, q, client, used);
    } else {
      var r :| r in m.tasks && Contends(m.s, m.tasks[r], used);
      RefusedIsUnsafe(m, r, q, client, used);
    }
  }

  // ---- A simple sufficient policy ------------------------------------------------------------------

  /** A refresh starts only when no other refresh of the same token is under way. */
  predicate Apart(m: System, u: Micro) {
    u.Arrive? ==> forall r :: r in m.tasks && !m.tasks[r].LoggedIn? ==> m.tasks[r].used != u.used
  }

  predicate ApartRun(m: System, us: seq<Micro>)
    decreases |us|
  {
    us != [] ==> Apart(m, us[0]) && ApartRun(Interleaving.Step(m, us[0]), us[1..])
  }

  lemma {:induction false} ApartIsAdmitted(m: System, us: seq<Micro>)
    requires ApartRun(m, us)
    ensures AdmittedRun(m, us)
    decreases |us|
  {
    if us == [] {
    } else {
      ApartIsAdmitted(Interleaving.Step(m, us[0]), us[1..]);
    }
  }

  /** If refreshes of the same token never overlap, no interleaving leaves a session with two live tokens. */
  lemma ApartKeepsOneLive(m0: System, us: seq<Micro>)
    requires Starts(m0) && Interleaving.LegalRun(m0, us) && ApartRun(m0, us)
    ensures Chains.OneLivePerSession(Interleaving.Run(m0, us).s.rows)
  {
    ApartIsAdmitted(m0, us);
    AdmittedKeepsOneLive(m0, us);
  }
}
