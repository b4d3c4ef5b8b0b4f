/**
 The token endpoint when handlers interleave at every commit.

 What still holds: revocation is final, parents are dead and of one owner, parent links have no cycle.
 What happens to one live token per session is the subject of module Admission.
 */
module Interleaving {
  import opened Common
  import opened Tokens
  import Chains
  import Scopes

  /** How far a handler has got; `jti` is the token it has signed but not saved yet. */
  datatype Task =
    | Validated(client: Id, used: Id)
    | Prepared(used: Id, jti: Id)
    | Rotated(used: Id, jti: Id)
    | LoggedIn(jti: Id)

  datatype System = System(s: State, tasks: map<Id, Task>)

  /** One committed piece of one handler; every other step of the protocol is a single piece already. */
  datatype Micro =
    | Other(e: Event)
    | Arrive(request: Id, client: Id, used: Id)
    | Authenticate(request: Id, jti: Id)
    | RevokeOld(request: Id)
    | SaveNew(request: Id, generated: Id)
    | Login(request: Id, client: Id, who: Option<Id>, scope: Option<string>, jti: Id)
    | SaveLogin(request: Id, session: Id)
    | Abort(request: Id)

  predicate SessionFresh(s: State, session: Id) {
    session != Blank && forall j :: j in s.log ==> s.log[j].session != session
  }

  predicate Legal(m: System, u: Micro) {
    match u
    case Other(e) => !IsGrant(e)
    case Arrive(request, _, _) => request !in m.tasks
    case Authenticate(_, jti) => Fresh(m.s, jti)
    case Login(request, _, _, _, jti) => request !in m.tasks && Fresh(m.s, jti)
    case SaveNew(_, generated) => SessionFresh(m.s, generated)
    case SaveLogin(_, session) => SessionFresh(m.s, session)
    case _ => true
  }

  function Done(m: System, request: Id): System { m.(tasks := m.tasks - {request}) }

  /** A saved token is decoded once more first, and a token expired by then is not saved. */
  function Finish(m: System, request: Id, jti: Id, parent: Option<Id>, session: Id): System {
    if Decodes(m.s, jti) then Done(m.(s := Save(m.s, jti, parent, session)), request) else Done(m, request)
  }

  /** Validate; reuse revokes the family in the same commit. */
  function Begin(m: System, request: Id, client: Id, used: Id): System {
    if !Decodes(m.s, used) then m
    else match Validate(m.s.rows, used, m.s.now)
      case Valid => m.(tasks := m.tasks[request := Validated(client, used)])
      case Reused => m.(s := m.s.(rows := RevokeChain(m.s.rows, used, m.s.now)))
      case _ => m
  }

  function Continue(m: System, u: Micro, task: Task): System
    requires !u.Other?
  {
    match (u, task)
    case (Authenticate(request, jti), Validated(client, used)) =>
      if RefreshAllowed(m.s, client, used) then
        m.(s := Issue(m.s, jti, NewPayload(m.s, m.s.issued[used].sub, client, m.s.issued[used].scope)),
           tasks := m.tasks[request := Prepared(used, jti)])
      else Done(m, request)
    case (RevokeOld(request), Prepared(used, jti)) =>
      m.(s := m.s.(rows := RevokeOne(m.s.rows, used, m.s.now)), tasks := m.tasks[request := Rotated(used, jti)])
    case (SaveNew(request, generated), Rotated(used, jti)) =>
      Finish(m, request, jti, Some(used), if used in m.s.rows then m.s.rows[used].session else generated)
    case (SaveLogin(request, session), LoggedIn(jti)) => Finish(m, request, jti, None, session)
    case (Abort(request), _) => Done(m, request)
    case _ => m
  }

  function Step(m: System, u: Micro): System {
    match u
    case Other(e) => m.(s := Tokens.Step(m.s, e))
    case Arrive(request, client, used) => Begin(m, request, client, used)
    case Login(request, client, who, scope, jti) =>
      if PasswordAllowed(m.s, client, who, scope) then
        var granted := Scopes.ValidateScope(m.s.clients[client].allowedScopes, scope).scope;
        m.(s := Issue(m.s, jti, NewPayload(m.s, who.value, client, granted)),
           tasks := m.tasks[request := LoggedIn(jti)])
      else m
    case _ => if u.request in m.tasks then Continue(m, u, m.tasks[u.request]) else m
  }

  function Run(m: System, us: seq<Micro>): System
    decreases |us|
  {
    if us == [] then m else Run(Step(m, us[0]), us[1..])
  }

  predicate LegalRun(m: System, us: seq<Micro>)
    decreases |us|
  {
    us != [] ==> Legal(m, us[0]) && LegalRun(Step(m, us[0]), us[1..])
  }

  predicate Starts(m: System) { Initial(m.s) && m.tasks == map[] }

  // ---- What holds under every interleaving -------------------------------------------------

  predicate SameOwner(a: Row, b: Row) {
    a.user == b.user && a.client == b.client && a.scope == b.scope
  }

  predicate Signed(p: Payload, row: Row) {
    row.user == p.sub && row.client == p.client && row.scope == p.scope
  }

  ghost predicate RowsHeld(s: State) {
    forall j :: j in s.rows ==> j in s.log && Chains.Stems(s.rows[j], s.log[j])
  }

  /** The parent of a saved token was saved before, had the same owner and scope, and is dead if still stored. */
  ghost predicate LogHeld(s: State) {
    forall j :: j in s.log ==>
      && j in s.issued
      && Signed(s.issued[j], s.log[j])
      && (s.log[j].parent.Some? ==>
            var p := s.log[j].parent.value;
            p in s.log && SameOwner(s.log[p], s.log[j]) && (p in s.rows ==> s.rows[p].revoked))
  }

  predicate Unsaved(s: State, jti: Id) { jti in s.issued && jti !in s.log }

  predicate TaskHeld(s: State, task: Task) {
    match task
    case Validated(_, used) => used in s.log
    case Prepared(used, jti) => used in s.log && Unsaved(s, jti) && Signed(s.issued[jti], s.log[used])
    case Rotated(used, jti) =>
      && used in s.log && Unsaved(s, jti) && Signed(s.issued[jti], s.log[used])
      && (used in s.rows ==> s.rows[used].revoked)
    case LoggedIn(jti) => Unsaved(s, jti)
  }

  /** Different handlers have signed different tokens. */
  ghost predicate TasksHeld(m: System) {
    && (forall r :: r in m.tasks ==> TaskHeld(m.s, m.tasks[r]))
    && (forall r, q :: r in m.tasks && q in m.tasks && r != q && !m.tasks[r].Validated? && !m.tasks[q].Validated? ==>
          m.tasks[r].jti != m.tasks[q].jti)
  }

  ghost predicate Held(m: System) { RowsHeld(m.s) && LogHeld(m.s) && TasksHeld(m) }

  /** Nothing is signed or saved, and rows are only revoked or deleted. */
  ghost predicate RowsDie(s: State, t: State) {
    && t.issued == s.issued
    && t.log == s.log
    && (forall j :: j in t.rows ==>
          j in s.rows && (t.rows[j] == s.rows[j] || t.rows[j] == Revoke(s.rows[j], s.now)))
  }

  lemma DyingHeld(m: System, t: State)
    requires Held(m) && RowsDie(m.s, t)
    ensures Held(m.(s := t))
  {
  }

  lemma IssuingHeld(m: System, jti: Id, p: Payload)
    requires Held(m) && Fresh(m.s, jti)
    ensures Held(m.(s := Issue(m.s, jti, p)))
    ensures forall r :: r in m.tasks && !m.tasks[r].Validated? ==> m.tasks[r].jti != jti
  {
  }

  lemma TaskSet(m: System, request: Id, task: Task)
    requires Held(m) && TaskHeld(m.s, task)
    requires !task.Validated? ==>
               forall r :: r in m.tasks && r != request && !m.tasks[r].Validated? ==> m.tasks[r].jti != task.jti
    ensures Held(m.(tasks := m.tasks[request := task]))
  {
  }

  lemma DoneHeld(m: System, request: Id)
    requires Held(m)
    ensures Held(Done(m, request))
  {
  }

  lemma SavedRowsHeld(s: State, jti: Id, parent: Option<Id>, session: Id)
    requires RowsHeld(s) && jti in s.issued
    ensures RowsHeld(Save(s, jti, parent, session))
  {
    var t := Save(s, jti, parent, session);
    assert Chains.Stems(t.rows[jti], t.log[jti]);
  }

  lemma SavedLogHeld(s: State, jti: Id, parent: Option<Id>, session: Id)
    requires LogHeld(s) && Unsaved(s, jti)
    requires parent.Some? ==>
               && parent.value in s.log
               && Signed(s.issued[jti], s.log[parent.value])
               && (parent.value in s.rows ==> s.rows[parent.value].revoked)
    ensures LogHeld(Save(s, jti, parent, session))
  {
  }

  lemma SavedTasksHeld(m: System, jti: Id, t: State)
    requires TasksHeld(m) && LogHeld(m.s)
    requires forall r :: r in m.tasks && !m.tasks[r].Validated? ==> m.tasks[r].jti != jti
    requires jti in m.s.issued && jti !in m.s.log && jti in t.log
    requires t == m.s.(rows := m.s.rows[jti := t.log[jti]], log := m.s.log[jti := t.log[jti]])
    ensures TasksHeld(m.(s := t))
  {
  }

  /** What the invariant says about one handler. */
  lemma HeldTask(m: System, request: Id)
    requires TasksHeld(m) && request in m.tasks
    ensures TaskHeld(m.s, m.tasks[request])
    ensures !m.tasks[request].Validated? ==>
              forall r :: r in m.tasks && r != request && !m.tasks[r].Validated? ==>
                m.tasks[r].jti != m.tasks[request].jti
  {
  }

  lemma SavingHeld(m: System, request: Id, parent: Option<Id>, session: Id)
    requires Held(m) && request in m.tasks
    requires m.tasks[request].LoggedIn? || m.tasks[request].Rotated?
    requires parent == if m.tasks[request].Rotated? then Some(m.tasks[request].used) else None
    ensures Held(Finish(m, request, m.tasks[request].jti, parent, session))
  {
    hide TasksHeld, RowsHeld, LogHeld, Decodes, Signed;
    var jti := m.tasks[request].jti;
    HeldTask(m, request);
    DoneHeld(m, request);
    SavedRowsHeld(m.s, jti, parent, session);
    SavedLogHeld(m.s, jti, parent, session);
    SavedTasksHeld(Done(m, request), jti, Save(m.s, jti, parent, session));
  }

  lemma AuthenticateHeld(m: System, request: Id, jti: Id, client: Id, used: Id)
    requires Held(m) && Fresh(m.s, jti) && request in m.tasks && m.tasks[request] == Validated(client, used)
    ensures Held(Continue(m, Authenticate(request, jti), Validated(client, used)))
  {
    if RefreshAllowed(m.s, client, used) {
      var p := NewPayload(m.s, m.s.issued[used].sub, client, m.s.issued[used].scope);
      assert TaskHeld(m.s, m.tasks[request]);
      assert Signed(p, m.s.log[used]);
      IssuingHeld(m, jti, p);
      TaskSet(m.(s := Issue(m.s, jti, p)), request, Prepared(used, jti));
    } else {
      DoneHeld(m, request);
    }
  }

  lemma RevokedTaskHeld(s: State, used: Id, jti: Id)
    requires TaskHeld(s, Prepared(used, jti))
    ensures var t := s.(rows := RevokeOne(s.rows, used, s.now)); RowsDie(s, t) && TaskHeld(t, Rotated(used, jti))
  {
  }

  lemma RevokeOldHeld(m: System, request: Id, used: Id, jti: Id)
    requires Held(m) && request in m.tasks && m.tasks[request] == Prepared(used, jti)
    ensures Held(Continue(m, RevokeOld(request), Prepared(used, jti)))
  {
    hide RowsHeld, LogHeld, TasksHeld, TaskHeld, RowsDie, RevokeOne;
    HeldTask(m, request);
    var t := m.s.(rows := RevokeOne(m.s.rows, used, m.s.now));
    RevokedTaskHeld(m.s, used, jti);
    DyingHeld(m, t);
    TaskSet(m.(s := t), request, Rotated(used, jti));
  }

  lemma ContinueHeld(m: System, u: Micro, task: Task)
    requires Held(m) && Legal(m, u) && !u.Other? && u.request in m.tasks && m.tasks[u.request] == task
    ensures Held(Continue(m, u, task))
  {
    assert TaskHeld(m.s, task);
    match (u, task)
    case (Authenticate(request, jti), Validated(client, used)) =>
      AuthenticateHeld(m, request, jti, client, used);
    case (RevokeOld(request), Prepared(used, jti)) =>
      RevokeOldHeld(m, request, used, jti);
    case (SaveNew(request, generated), Rotated(used, jti)) =>
      SavingHeld(m, request, Some(used), if used in m.s.rows then m.s.rows[used].session else generated);
    case (SaveLogin(request, session), LoggedIn(jti)) =>
      SavingHeld(m, request, None, session);
    case (Abort(request), _) => DoneHeld(m, request);
    case _ =>
  }

  lemma ChainDies(s: State, used: Id)
    requires used in s.rows
    ensures RowsDie(s, s.(rows := RevokeChain(s.rows, used, s.now)))
  {
  }

  lemma ValidIsLogged(s: State, used: Id)
    requires RowsHeld(s) && used in s.rows
    ensures used in s.log
  {
  }

  lemma BeginHeld(m: System, request: Id, client: Id, used: Id)
    requires Held(m)
    ensures Held(Begin(m, request, client, used))
  {
    hide RowsHeld, LogHeld, TasksHeld, RevokeChain, RowsDie, Decodes;
    if Decodes(m.s, used) {
      var validity := Validate(m.s.rows, used, m.s.now);
      if validity.Reused? {
        ChainDies(m.s, used);
        DyingHeld(m, m.s.(rows := RevokeChain(m.s.rows, used, m.s.now)));
      } else if validity.Valid? {
        ValidIsLogged(m.s, used);
        TaskSet(m, request, Validated(client, used));
      }
    }
  }

  lemma SignedLoginHeld(m: System, request: Id, jti: Id, p: Payload)
    requires Held(m) && Fresh(m.s, jti)
    ensures Held(m.(s := Issue(m.s, jti, p), tasks := m.tasks[request := LoggedIn(jti)]))
  {
    hide Held;
    IssuingHeld(m, jti, p);
    TaskSet(m.(s := Issue(m.s, jti, p)), request, LoggedIn(jti));
  }

  lemma LoginHeld(m: System, request: Id, client: Id, who: Option<Id>, scope: Option<string>, jti: Id)
    requires Held(m) && Fresh(m.s, jti)
    ensures Held(Step(m, Login(request, client, who, scope, jti)))
  {
    hide Held, Scopes.ValidateScope;
    if PasswordAllowed(m.s, client, who, scope) {
      var granted := Scopes.ValidateScope(m.s.clients[client].allowedScopes, scope).scope;
      var p := NewPayload(m.s, who.value, client, granted);
      SignedLoginHeld(m, request, jti, p);
    }
  }

  lemma OtherRowsDie(s: State, e: Event)
    requires !IsGrant(e)
    ensures RowsDie(s, Tokens.Step(s, e))
  {
  }

  lemma StepHeld(m: System, u: Micro)
    requires Held(m) && Legal(m, u)
    ensures Held(Step(m, u))
  {
    hide Held, Begin, Continue, Tokens.Step, PasswordAllowed, RowsDie;
    match u
    case Other(e) =>
      OtherRowsDie(m.s, e);
      DyingHeld(m, Tokens.Step(m.s, e));
    case Arrive(request, client, used) => BeginHeld(m, request, client, used);
    case Login(request, client, who, scope, jti) => LoginHeld(m, request, client, who, scope, jti);
    case _ =>
      if u.request in m.tasks {
        ContinueHeld(m, u, m.tasks[u.request]);
      }
  }

  lemma {:induction false} RunHeld(m: System, us: seq<Micro>)
    requires Held(m) && LegalRun(m, us)
    ensures Held(Run(m, us))
    decreases |us|
  {
    if us == [] {
    } else {
      StepHeld(m, us[0]);
      RunHeld(Step(m, us[0]), us[1..]);
    }
  }

  // ---- Revocation is final -----------------------------------------------------------------

  /** A token saved by `s` is never brought back in `t`, neither as a row nor to life. */
  ghost predicate Final(s: State, t: State) {
    forall j :: j in s.log ==>
      && j in t.log
      && (j in t.rows ==> j in s.rows && (s.rows[j].revoked ==> t.rows[j].revoked))
  }

  function ParentOf(task: Task): Option<Id> {
    if task.Rotated? then Some(task.used) else None
  }

  /** A rotated token stays in the session of the row it replaces, if that is still stored. */
  function SessionFor(m: System, u: Micro): Id {
    match u
    case SaveNew(request, generated) =>
      if request in m.tasks && m.tasks[request].Rotated? && m.tasks[request].used in m.s.rows
      then m.s.rows[m.tasks[request].used].session else generated
    case SaveLogin(_, session) => session
    case _ => Blank
  }

  /** The only steps that touch the log save the token their handler has signed. */
  predicate Saves(m: System, u: Micro, t: State) {
    && (u.SaveNew? || u.SaveLogin?)
    && u.request in m.tasks
    && !m.tasks[u.request].Validated?
    && m.tasks[u.request].jti in m.s.issued
    && t == Save(m.s, m.tasks[u.request].jti, ParentOf(m.tasks[u.request]), SessionFor(m, u))
  }

  lemma ContinueGrowth(m: System, u: Micro, task: Task)
    requires !u.Other? && !u.Arrive? && !u.Login? && u.request in m.tasks && m.tasks[u.request] == task
    ensures var t := Continue(m, u, task).s; RowsDie(m.s, t.(issued := m.s.issued)) || Saves(m, u, t)
  {
    hide RefreshAllowed, NewPayload, NewRow;
  }

  lemma NothingDies(s: State)
    ensures RowsDie(s, s)
  {
  }

  lemma BeginGrowth(m: System, request: Id, client: Id, used: Id)
    ensures RowsDie(m.s, Begin(m, request, client, used).s)
  {
    hide Decodes, RowsDie, RevokeChain;
    assert RowsDie(m.s, m.s) by { NothingDies(m.s); }
    if used in m.s.rows {
      ChainDies(m.s, used);
    }
  }

  lemma OtherSignsNothing(s: State, e: Event)
    requires !IsGrant(e)
    ensures Tokens.Step(s, e).issued == s.issued
  {
  }

  lemma BeginSignsNothing(m: System, request: Id, client: Id, used: Id)
    ensures Begin(m, request, client, used).s.issued == m.s.issued
  {
    hide RevokeChain, Decodes, Validate;
  }

  lemma LogGrowth(m: System, u: Micro)
    requires Legal(m, u)
    ensures var t := Step(m, u).s; RowsDie(m.s, t.(issued := m.s.issued)) || Saves(m, u, t)
  {
    hide RowsDie, Saves, Continue, Begin, Tokens.Step, PasswordAllowed, NewPayload;
    NothingDies(m.s);
    var t := Step(m, u).s;
    if u.Other? {
      OtherRowsDie(m.s, u.e);
      assert t.(issued := m.s.issued) == t by { OtherSignsNothing(m.s, u.e); }
    } else if u.Arrive? {
      BeginGrowth(m, u.request, u.client, u.used);
      assert t.(issued := m.s.issued) == t by { BeginSignsNothing(m, u.request, u.client, u.used); }
    } else if u.Login? {
      assert t.(issued := m.s.issued) == m.s;
    } else if u.request in m.tasks {
      ContinueGrowth(m, u, m.tasks[u.request]);
    } else {
      assert t.(issued := m.s.issued) == m.s;
    }
  }

  lemma StepFinal(m: System, u: Micro)
    requires Held(m) && Legal(m, u)
    ensures Final(m.s, Step(m, u).s)
  {
    LogGrowth(m, u);
    assert RowsHeld(m.s);
    assert Saves(m, u, Step(m, u).s) ==> TaskHeld(m.s, m.tasks[u.request]);
    hide Step, Held, LogHeld, TasksHeld;
  }

  lemma {:induction false} RunFinal(m: System, us: seq<Micro>)
    requires Held(m) && LegalRun(m, us)
    ensures Final(m.s, Run(m, us).s)
    decreases |us|
  {
    if us == [] {
    } else {
      StepFinal(m, us[0]);
      StepHeld(m, us[0]);
      RunFinal(Step(m, us[0]), us[1..]);
    }
  }

  // ---- Parent links have no cycle -----------------------------------------------------------

  /** `path` goes from child to parent, all but its end stored. */
  ghost predicate ParentPath(rows: Table, path: seq<Id>)
    decreases |path|
  {
    |path| >= 2 ==> path[0] in rows && rows[path[0]].parent == Some(path[1]) && ParentPath(rows, path[1..])
  }

  ghost predicate Acyclic(rows: Table) {
    forall path :: |path| >= 2 && ParentPath(rows, path) ==> path[0] != path[|path| - 1]
  }

  ghost predicate Ranked(log: Table, rank: map<Id, nat>) {
    forall j :: j in log ==>
      j in rank && (log[j].parent.Some? ==> log[j].parent.value in rank && rank[log[j].parent.value] < rank[j])
  }

  lemma SavingRanked(s: State, jti: Id, parent: Option<Id>, session: Id, rank: map<Id, nat>) returns (after: map<Id, nat>)
    requires LogHeld(s) && Ranked(s.log, rank) && Unsaved(s, jti)
    requires parent.Some? ==> parent.value in s.log
    ensures Ranked(Save(s, jti, parent, session).log, after)
  {
    after := rank[jti := if parent.Some? then rank[parent.value] + 1 else 0];
    assert forall j :: j in s.log && s.log[j].parent.Some? ==> s.log[j].parent.value != jti;
  }

  lemma {:induction false} RunRanked(m: System, us: seq<Micro>, rank: map<Id, nat>) returns (after: map<Id, nat>)
    requires Held(m) && LegalRun(m, us) && Ranked(m.s.log, rank)
    ensures Ranked(Run(m, us).s.log, after)
    decreases |us|
  {
    if us == [] {
      after := rank;
    } else {
      LogGrowth(m, us[0]);
      StepHeld(m, us[0]);
      var t, next := Step(m, us[0]), rank;
      if Saves(m, us[0], t.s) {
        var task := m.tasks[us[0].request];
        assert TaskHeld(m.s, task);
        next := SavingRanked(m.s, task.jti, ParentOf(task), SessionFor(m, us[0]), rank);
      }
      hide Step, Held, Saves, SessionFor;
      after := RunRanked(t, us[1..], next);
    }
  }

  lemma {:induction false} PathDescends(rows: Table, log: Table, rank: map<Id, nat>, path: seq<Id>)
    requires Ranked(log, rank)
    requires forall j :: j in rows ==> j in log && Chains.Stems(rows[j], log[j])
    requires |path| >= 2 && ParentPath(rows, path)
    ensures path[0] in rank && path[|path| - 1] in rank && rank[path[|path| - 1]] < rank[path[0]]
    decreases |path|
  {
    assert Chains.Stems(rows[path[0]], log[path[0]]);
    if |path| > 2 {
      PathDescends(rows, log, rank, path[1..]);
    }
  }

  lemma StoredParents(s: State)
    requires RowsHeld(s) && LogHeld(s)
    ensures forall j :: j in s.rows ==> (s.rows[j].revoked <==> s.rows[j].revokedAt.Some?)
    ensures forall j :: j in s.rows && s.rows[j].parent.Some? && s.rows[j].parent.value in s.rows ==>
              var parent := s.rows[s.rows[j].parent.value];
              parent.revoked && SameOwner(parent, s.rows[j])
  {
    forall j | j in s.rows && s.rows[j].parent.Some? && s.rows[j].parent.value in s.rows
      ensures var parent := s.rows[s.rows[j].parent.value]; parent.revoked && SameOwner(parent, s.rows[j])
    {
      assert Chains.Stems(s.rows[j], s.log[j]);
      assert Chains.Stems(s.rows[s.rows[j].parent.value], s.log[s.rows[j].parent.value]);
    }
  }

  /** However handlers interleave: a row is revoked exactly when it has a revocation time, the stored parent of a
      stored token is dead and has the same user, client and scope, and following parents never comes back. */
  lemma AnyInterleaving(m0: System, us: seq<Micro>)
    requires Starts(m0) && LegalRun(m0, us)
    ensures var rows := Run(m0, us).s.rows;
            && (forall j :: j in rows ==> (rows[j].revoked <==> rows[j].revokedAt.Some?))
            && (forall j :: j in rows && rows[j].parent.Some? && rows[j].parent.value in rows ==>
                  var parent := rows[rows[j].parent.value];
                  parent.revoked && SameOwner(parent, rows[j]))
            && Acyclic(rows)
  {
    RunHeld(m0, us);
    var rank := RunRanked(m0, us, map[]);
    hide Run, LegalRun;
    var s := Run(m0, us).s;
    StoredParents(s);
    forall path | |path| >= 2 && ParentPath(s.rows, path) ensures path[0] != path[|path| - 1] {
      PathDescends(s.rows, s.log, rank, path);
    }
  }

  // ---- Uninterrupted handlers are the atomic ones ---------------------------------------------

  lemma {:induction false} Concat(m: System, a: seq<Micro>, b: seq<Micro>)
    ensures Run(m, a + b) == Run(Run(m, a), b)
    ensures LegalRun(m, a + b) <==> LegalRun(m, a) && LegalRun(Run(m, a), b)
    decreases |a|
  {
    if a == [] {
      assert a + b == b;
    } else {
      assert (a + b)[1..] == a[1..] + b;
      Concat(Step(m, a[0]), a[1..], b);
    }
  }

  lemma TwoSteps(m: System, u: Micro, v: Micro)
    ensures Run(m, [u, v]) == Step(Step(m, u), v)
    ensures LegalRun(m, [u, v]) <==> Legal(m, u) && Legal(Step(m, u), v)
  {
    assert [u, v][1..] == [v] && [v][1..] == [];
    assert Run(Step(m, u), [v]) == Step(Step(m, u), v);
    assert LegalRun(Step(m, u), [v]) <==> Legal(Step(m, u), v);
  }

  lemma RotationPieces(m: System, m2: System, request: Id, client: Id, used: Id, jti: Id, generated: Id)
    requires used in m.s.rows && RefreshAllowed(m.s, client, used) && Fresh(m.s, jti) && request !in m.tasks
    requires m2.tasks == m.tasks[request := Prepared(used, jti)]
    requires m2.s == Issue(m.s, jti, NewPayload(m.s, m.s.issued[used].sub, client, m.s.issued[used].scope))
    ensures Step(Step(m2, RevokeOld(request)), SaveNew(request, generated))
            == m.(s := Rotate(m.s, client, used, jti).state)
  {
    var m3 := Step(m2, RevokeOld(request));
    assert m3.tasks[request] == Rotated(used, jti) && Decodes(m3.s, jti);
    assert m3.tasks - {request} == m.tasks;
  }

  lemma AbortIsDone(m: System, request: Id)
    requires request in m.tasks
    ensures Step(m, Abort(request)) == Done(m, request)
  {
  }

  /** A handler that gives up leaves the state as it is, and none of its remaining pieces does anything. */
  lemma AbortedIsIdle(m: System, request: Id, u: Micro)
    requires !u.Other? && !u.Arrive? && !u.Login? && u.request == request
    ensures var t := Step(m, Abort(request)); t.s == m.s && request !in t.tasks && Step(t, u) == t
  {
    hide Continue;
    if request in m.tasks {
      AbortIsDone(m, request);
    }
  }

  /** A refresh that is validated is left to its handler; any other is answered at once. */
  lemma BeginAnswers(m: System, request: Id, client: Id, used: Id, jti: Id)
    requires request !in m.tasks
    ensures var m1, grant := Begin(m, request, client, used), RefreshGrant(m.s, client, used, jti);
            if request in m1.tasks then
              && m1 == m.(tasks := m.tasks[request := Validated(client, used)])
              && used in m.s.rows
              && grant == if RefreshAllowed(m.s, client, used) then Rotate(m.s, client, used, jti) else Outcome(m.s, Refused)
            else m1 == m.(s := grant.state)
  {
    hide RevokeChain, Rotate, RefreshAllowed, Decodes;
  }

  /** The last piece: a token that has expired meanwhile is not saved; the others join the session of the row they
      replace, or a new one when that row is gone. */
  lemma SavingPiece(m: System, request: Id, used: Id, jti: Id, generated: Id)
    requires request in m.tasks && m.tasks[request] == Rotated(used, jti) && jti in m.s.issued
    ensures var t := Step(m, SaveNew(request, generated));
            && t.tasks == m.tasks - {request}
            && if m.s.issued[jti].exp < m.s.now / 1_000_000 then t.s == m.s
               else
                 && t.s == m.s.(rows := m.s.rows[jti := t.s.rows[jti]], log := m.s.log[jti := t.s.rows[jti]])
                 && t.s.rows[jti].parent == Some(used)
                 && t.s.rows[jti].session == if used in m.s.rows then m.s.rows[used].session else generated
  {
  }

  lemma IdleStep(m: System, u: Micro)
    requires !u.Other? && !u.Arrive? && !u.Login? && u.request !in m.tasks
    ensures Step(m, u) == m
  {
  }

  /** A validated refresh either signs its token or is refused and done. */
  lemma AuthenticatePiece(m: System, request: Id, client: Id, used: Id, jti: Id)
    requires request !in m.tasks
    ensures var m2 := Step(m.(tasks := m.tasks[request := Validated(client, used)]), Authenticate(request, jti));
            if RefreshAllowed(m.s, client, used) then
              && m2.tasks == m.tasks[request := Prepared(used, jti)]
              && m2.s == Issue(m.s, jti, NewPayload(m.s, m.s.issued[used].sub, client, m.s.issued[used].scope))
            else m2 == m
  {
    hide RefreshAllowed, NewPayload;
    assert m.tasks[request := Validated(client, used)] - {request} == m.tasks;
  }

  /** The pieces of one refresh, run without interruption, are the refresh grant of the atomic protocol. */
  lemma UninterruptedIsAtomic(m: System, request: Id, client: Id, used: Id, jti: Id, generated: Id)
    requires request !in m.tasks && Fresh(m.s, jti)
    ensures Run(m, [Arrive(request, client, used), Authenticate(request, jti)] + [RevokeOld(request), SaveNew(request, generated)])
            == m.(s := RefreshGrant(m.s, client, used, jti).state)
  {
    var arrive, authenticate := Arrive(request, client, used), Authenticate(request, jti);
    var revoke, save := RevokeOld(request), SaveNew(request, generated);
    Concat(m, [arrive, authenticate], [revoke, save]);
    TwoSteps(m, arrive, authenticate);
    TwoSteps(Run(m, [arrive, authenticate]), revoke, save);
    assert Step(m, arrive) == Begin(m, request, client, used);
    BeginAnswers(m, request, client, used, jti);
    hide *;
    var m1 := Begin(m, request, client, used);
    if request in m1.tasks {
      AuthenticatePiece(m, request, client, used, jti);
      var m2 := Step(m1, authenticate);
      if RefreshAllowed(m.s, client, used) {
        RotationPieces(m, m2, request, client, used, jti, generated);
      } else {
        IdleStep(m2, revoke);
        IdleStep(m2, save);
      }
    } else {
      IdleStep(m1, authenticate);
      IdleStep(m1, revoke);
      IdleStep(m1, save);
    }
  }

  lemma LoginPieces(m: System, m1: System, request: Id, client: Id, who: Option<Id>, scope: Option<string>, jti: Id, session: Id)
    requires PasswordAllowed(m.s, client, who, scope) && request !in m.tasks
    requires m1 == Step(m, Login(request, client, who, scope, jti))
    ensures Step(m1, SaveLogin(request, session)) == m.(s := PasswordGrant(m.s, client, who, scope, false, jti, session).state)
  {
    hide Scopes.ValidateScope;
    assert m1.tasks == m.tasks[request := LoggedIn(jti)] && Decodes(m1.s, jti);
    assert m1.tasks - {request} == m.tasks;
  }

  /** The two pieces of a login, run without interruption, are the password grant of the atomic protocol. */
  lemma UninterruptedLoginIsAtomic(
    m: System, request: Id, client: Id, who: Option<Id>, scope: Option<string>, jti: Id, session: Id)
    requires request !in m.tasks
    ensures Run(m, [Login(request, client, who, scope, jti), SaveLogin(request, session)])
            == m.(s := PasswordGrant(m.s, client, who, scope, false, jti, session).state)
  {
    var login, save := Login(request, client, who, scope, jti), SaveLogin(request, session);
    TwoSteps(m, login, save);
    hide Run, PasswordAllowed, NewPayload, Save, Issue;
    if PasswordAllowed(m.s, client, who, scope) {
      LoginPieces(m, Step(m, login), request, client, who, scope, jti, session);
    }
  }
}
