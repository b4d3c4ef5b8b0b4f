/**
 Password reset when confirm handlers interleave at their commits: the password is committed before the token is
 marked, so overlapping confirmations of one token may both change it; and exactly which may be let in.
 */
module InterleavedReset {
  import opened Common
  import opened PasswordReset
  import BruteForce

  /** A handler that has verified its token, or has changed the password and must still mark the token. */
  datatype Task =
    | Checked(token: Id, user: Id, password: Id, ip: Id)
    | Written(token: Id, ip: Id)

  datatype System = System(s: State, policy: BruteForce.Policy, tasks: map<Id, Task>)

  /** One committed piece of one confirmation; every other step is a single piece already. */
  datatype Micro =
    | Other(e: Event)
    | Begin(request: Id, token: Id, password: Id, matches: bool, strong: bool, ip: Id)
    | Write(request: Id)
    | Mark(request: Id)
    | Abort(request: Id)

  predicate Legal(m: System, u: Micro) {
    match u
    case Other(e) => !e.Attempt? && PasswordReset.Legal(m.s, e)
    case Begin(request, _, _, _, _, _) => request !in m.tasks
    case _ => true
  }

  /** What the whole handler would reply right now. */
  function Answer(m: System, u: Micro): Outcome
    requires u.Begin?
  {
    Confirm(m.s, m.policy, u.token, u.password, u.matches, u.strong, u.ip)
  }

  /** A handler gives up, if at all, before it changes the password. */
  function Continue(m: System, u: Micro, task: Task): System
    requires !u.Other?
  {
    match (u, task)
    case (Write(request), Checked(token, user, password, ip)) =>
      m.(s := m.s.(passwords := m.s.passwords[user := password], changes := m.s.changes + [Change(token, user, m.s.now)]),
         tasks := m.tasks[request := Written(token, ip)])
    case (Mark(request), Written(token, ip)) =>
      m.(s := m.s.(tokens := Used(m.s.tokens, token, m.s.now),
                   counters := BruteForce.Cleared(m.s.counters, RESET_USERNAME, ip)),
         tasks := m.tasks - {request})
    case (Abort(request), Checked(_, _, _, _)) => m.(tasks := m.tasks - {request})
    case _ => m
  }

  function Step(m: System, u: Micro): System {
    match u
    case Other(e) => m.(s := PasswordReset.Step(m.s, m.policy, e))
    case Begin(request, token, password, _, _, ip) =>
      var answer := Answer(m, u);
      if answer.reply.Changed? then m.(tasks := m.tasks[request := Checked(token, answer.reply.user, password, ip)])
      else m.(s := answer.state)
    case _ => if u.request in m.tasks then Continue(m, u, m.tasks[u.request]) else m
  }

  function Run(m: System, us: seq<Micro>): System
    decreases |us|
  {
    if us == [] then m else Run(Step(m, us[0]), us[1..])
  }

  predicate LegalRun(m: System, us: seq<Micro>)
    decreases |us|
  {
    us != [] ==> Legal(m, us[0]) && LegalRun(Step(m, us[0]), us[1..])
  }

  predicate Starts(m: System) { Initial(m.s) && m.tasks == map[] }

  lemma TwoSteps(m: System, u: Micro, v: Micro)
    ensures Run(m, [u, v]) == Step(Step(m, u), v)
    ensures LegalRun(m, [u, v]) <==> Legal(m, u) && Legal(Step(m, u), v)
  {
    assert [u, v][1..] == [v] && [v][1..] == [];
    assert Run(Step(m, u), [v]) == Step(Step(m, u), v);
    assert LegalRun(Step(m, u), [v]) <==> Legal(Step(m, u), v);
  }

  /** A handler may give up until it has changed the password, and then leaves nothing; after that it goes on. */
  lemma AbortedIsIdle(m: System, request: Id)
    requires request in m.tasks
    ensures var t := Step(m, Abort(request));
            if m.tasks[request].Checked? then
              t.s == m.s && request !in t.tasks && Step(t, Write(request)) == t && Step(t, Mark(request)) == t
            else t == m
  {
  }

  /** The pieces of one confirmation, run without interruption, are the atomic handler. */
  lemma UninterruptedIsConfirm(m: System, u: Micro)
    requires u.Begin? && u.request !in m.tasks
    ensures Run(Step(m, u), [Write(u.request), Mark(u.request)]) == m.(s := Answer(m, u).state)
  {
    var begun := Step(m, u);
    TwoSteps(begun, Write(u.request), Mark(u.request));
    hide Run;
    if Answer(m, u).reply.Changed? {
      var written := Step(begun, Write(u.request));
      assert written.tasks == m.tasks[u.request := Written(u.token, u.ip)];
      assert written.tasks - {u.request} == m.tasks;
    }
  }

  // ---- The admission condition ---------------------------------------------------------------------

  /** Every token has changed one password at most. */
  ghost predicate OnceEach(changes: seq<Change>) {
    forall i, k :: 0 <= i < k < |changes| ==> changes[i].token != changes[k].token
  }

  /** A confirmation that would succeed is let in only when none under way holds its token. */
  predicate Admitted(m: System, u: Micro) {
    u.Begin? && Answer(m, u).reply.Changed? ==> forall r :: r in m.tasks ==> m.tasks[r].token != u.token
  }

  predicate AdmittedRun(m: System, us: seq<Micro>)
    decreases |us|
  {
    us != [] ==> Admitted(m, us[0]) && AdmittedRun(Step(m, us[0]), us[1..])
  }

  predicate NoneBegin(us: seq<Micro>) { forall u :: u in us ==> !u.Begin? }

  /** However the handlers under way go on, no token changes a second password. */
  ghost predicate Safe(m: System) {
    forall us :: LegalRun(m, us) && NoneBegin(us) ==> OnceEach(Run(m, us).s.changes)
  }

  // ---- Admitted runs use every token once --------------------------------------------------------------

  ghost predicate HasChanged(changes: seq<Change>, token: Id) {
    exists i :: 0 <= i < |changes| && changes[i].token == token
  }

  /** Tokens are of the users they were created for, and so are the changes. */
  ghost predicate Own(s: State) {
    && Blank !in s.log
    && (forall t :: t in s.tokens ==> t in s.log && s.tokens[t].user == s.log[t].user)
    && (forall c :: c in s.changes ==> c.token in s.log && c.user == s.log[c.token].user)
  }

  /** Handlers hold different tokens: those that have changed a password already, and those that have not. */
  ghost predicate Holding(m: System) {
    && (forall r, q :: r in m.tasks && q in m.tasks && m.tasks[r].token == m.tasks[q].token ==> r == q)
    && (forall r :: r in m.tasks ==>
          var task := m.tasks[r];
          && task.token in m.s.log
          && (task.Written? <==> HasChanged(m.s.changes, task.token))
          && (task.Checked? ==> task.user == m.s.log[task.token].user))
  }

  /** A token that has changed a password is used up, or its handler is about to mark it. */
  ghost predicate Marked(m: System) {
    forall t :: t in m.s.tokens && !m.s.tokens[t].IsUsed() && HasChanged(m.s.changes, t) ==>
      exists r :: r in m.tasks && m.tasks[r].token == t
  }

  ghost predicate Kept(m: System) { OnceEach(m.s.changes) && Own(m.s) && Holding(m) && Marked(m) }

  lemma ChangedIsLogged(s: State, token: Id)
    requires Own(s)
    ensures HasChanged(s.changes, token) ==> token in s.log
  {
  }

  lemma CreateKept(m: System, user: Id, token: Id)
    requires Kept(m) && token != Blank && token !in m.s.log
    ensures Kept(Step(m, Other(Create(user, token))))
  {
    hide HasChanged, OnceEach;
    ChangedIsLogged(m.s, token);
  }

  lemma QuietKept(m: System, e: Event)
    requires Kept(m) && (e.Tick? || e.Cleanup?)
    ensures Kept(Step(m, Other(e)))
  {
    hide HasChanged, OnceEach;
  }

  lemma OtherKept(m: System, e: Event)
    requires Kept(m) && !e.Attempt? && PasswordReset.Legal(m.s, e)
    ensures Kept(Step(m, Other(e)))
  {
    match e
    case Create(user, token) => CreateKept(m, user, token);
    case _ => QuietKept(m, e);
  }

  /** A handler that matters for `Marked` still holds its token. */
  lemma MarkedStays(m: System, t: System)
    requires Marked(m) && t.s.changes == m.s.changes
    requires forall k :: k in t.s.tokens ==> k in m.s.tokens && (m.s.tokens[k].IsUsed() ==> t.s.tokens[k].IsUsed())
    requires forall r :: r in m.tasks && m.tasks[r].token in t.s.tokens && HasChanged(m.s.changes, m.tasks[r].token) ==>
               t.s.tokens[m.tasks[r].token].IsUsed() || (r in t.tasks && t.tasks[r].token == m.tasks[r].token)
    ensures Marked(t)
  {
    hide HasChanged;
    forall k | k in t.s.tokens && !t.s.tokens[k].IsUsed() && HasChanged(t.s.changes, k)
      ensures exists r :: r in t.tasks && t.tasks[r].token == k
    {
      var r :| r in m.tasks && m.tasks[r].token == k;
      assert t.tasks[r].token == k;
    }
  }

  lemma CountersDoNotMatter(m: System, t: System)
    requires Kept(m) && t == m.(s := m.s.(counters := t.s.counters))
    ensures Kept(t)
  {
    hide HasChanged, OnceEach;
  }

  lemma NotYetChanged(m: System, token: Id)
    requires Marked(m) && token in m.s.tokens && !m.s.tokens[token].IsUsed()
    requires forall r :: r in m.tasks ==> m.tasks[r].token != token
    ensures !HasChanged(m.s.changes, token)
  {
    hide HasChanged;
  }

  /** A token that is verified and that no handler holds. */
  lemma HoldingKept(m: System, request: Id, task: Task)
    requires Kept(m) && request !in m.tasks && task.Checked?
    requires task.token in m.s.tokens && !m.s.tokens[task.token].IsUsed() && m.s.tokens[task.token].user == task.user
    requires forall r :: r in m.tasks ==> m.tasks[r].token != task.token
    ensures Kept(m.(tasks := m.tasks[request := task]))
  {
    hide HasChanged, OnceEach, Marked;
    NotYetChanged(m, task.token);
    MarkedStays(m, m.(tasks := m.tasks[request := task]));
  }

  lemma AnswerIsVerified(m: System, u: Micro)
    requires u.Begin?
    ensures var answer := Answer(m, u);
            if answer.reply.Changed? then
              && u.token in m.s.tokens && !m.s.tokens[u.token].IsUsed()
              && m.s.tokens[u.token].user == answer.reply.user
            else answer.state == m.s.(counters := answer.state.counters)
  {
  }

  lemma BeginKept(m: System, u: Micro)
    requires Kept(m) && u.Begin? && u.request !in m.tasks && Admitted(m, u)
    ensures Kept(Step(m, u))
  {
    hide Kept, Answer;
    AnswerIsVerified(m, u);
    var answer := Answer(m, u);
    if answer.reply.Changed? {
      HoldingKept(m, u.request, Checked(u.token, answer.reply.user, u.password, u.ip));
    } else {
      CountersDoNotMatter(m, Step(m, u));
    }
  }

  lemma WriteChanges(changes: seq<Change>, c: Change)
    ensures forall token :: HasChanged(changes + [c], token) <==> HasChanged(changes, token) || token == c.token
    ensures OnceEach(changes) && !HasChanged(changes, c.token) ==> OnceEach(changes + [c])
  {
    forall token ensures HasChanged(changes + [c], token) <==> HasChanged(changes, token) || token == c.token {
      if HasChanged(changes, token) {
        var i :| 0 <= i < |changes| && changes[i].token == token;
        assert (changes + [c])[i].token == token;
      }
      assert (changes + [c])[|changes|] == c;
    }
  }

  lemma WriteMarked(m: System, request: Id, task: Task)
    requires Marked(m) && request in m.tasks && m.tasks[request] == task && task.Checked?
    ensures Marked(Continue(m, Write(request), task))
  {
    hide HasChanged;
    var t := Continue(m, Write(request), task);
    WriteChanges(m.s.changes, Change(task.token, task.user, m.s.now));
    forall token | token in t.s.tokens && !t.s.tokens[token].IsUsed() && HasChanged(t.s.changes, token)
      ensures exists r :: r in t.tasks && t.tasks[r].token == token
    {
      var r :| r in m.tasks && m.tasks[r].token == token;
      assert t.tasks[r].token == token;
    }
  }

  lemma WriteOwn(m: System, request: Id, task: Task)
    requires Own(m.s) && Holding(m) && request in m.tasks && m.tasks[request] == task && task.Checked?
    ensures Own(Continue(m, Write(request), task).s)
  {
    hide HasChanged;
  }

  lemma WriteHolding(m: System, request: Id, task: Task)
    requires Holding(m) && request in m.tasks && m.tasks[request] == task && task.Checked?
    ensures Holding(Continue(m, Write(request), task))
  {
    hide HasChanged;
    WriteChanges(m.s.changes, Change(task.token, task.user, m.s.now));
  }

  lemma WriteOnce(m: System, request: Id, task: Task)
    requires OnceEach(m.s.changes) && Holding(m) && request in m.tasks && m.tasks[request] == task && task.Checked?
    ensures OnceEach(Continue(m, Write(request), task).s.changes)
  {
    hide HasChanged, OnceEach;
    WriteChanges(m.s.changes, Change(task.token, task.user, m.s.now));
  }

  lemma WriteKept(m: System, request: Id, task: Task)
    requires Kept(m) && request in m.tasks && m.tasks[request] == task && task.Checked?
    ensures Kept(Continue(m, Write(request), task))
  {
    hide HasChanged, OnceEach, Marked, Own;
    WriteOwn(m, request, task);
    WriteHolding(m, request, task);
    WriteMarked(m, request, task);
    WriteOnce(m, request, task);
  }

  lemma MarkKept(m: System, request: Id, task: Task)
    requires Kept(m) && request in m.tasks && m.tasks[request] == task && task.Written?
    ensures Kept(Continue(m, Mark(request), task))
  {
    hide HasChanged, OnceEach, Marked;
    MarkedStays(m, Continue(m, Mark(request), task));
  }

  lemma AbortKept(m: System, request: Id, task: Task)
    requires Kept(m) && request in m.tasks && m.tasks[request] == task && task.Checked?
    ensures Kept(Continue(m, Abort(request), task))
  {
    hide HasChanged, OnceEach, Marked;
    MarkedStays(m, Continue(m, Abort(request), task));
  }

  lemma StepKept(m: System, u: Micro)
    requires Kept(m) && Legal(m, u) && Admitted(m, u)
    ensures Kept(Step(m, u))
  {
    hide Kept, Admitted;
    match u
    case Other(e) => OtherKept(m, e);
    case Begin(_, _, _, _, _, _) => BeginKept(m, u);
    case _ =>
      if u.request in m.tasks {
        var task := m.tasks[u.request];
        match (u, task)
        case (Write(request), Checked(_, _, _, _)) => WriteKept(m, request, task);
        case (Mark(request), Written(_, _)) => MarkKept(m, request, task);
        case (Abort(request), Checked(_, _, _, _)) => AbortKept(m, request, task);
        case _ =>
      }
  }

  lemma {:induction false} RunKept(m: System, us: seq<Micro>)
    requires Kept(m) && LegalRun(m, us) && AdmittedRun(m, us)
    ensures Kept(Run(m, us))
    decreases |us|
  {
    hide Kept, Step, Legal, Admitted;
    if us == [] {
    } else {
      StepKept(m, us[0]);
      RunKept(Step(m, us[0]), us[1..]);
    }
  }

  /** Whatever interleaves: as long as every confirmation is admitted, a token changes one password at most,
      once, and its own user's. */
  lemma AdmittedWorkOnce(m0: System, us: seq<Micro>)
    requires Starts(m0) && LegalRun(m0, us) && AdmittedRun(m0, us)
    ensures OnceEach(Run(m0, us).s.changes)
    ensures forall c :: c in Run(m0, us).s.changes ==>
              c.token in Run(m0, us).s.log && c.user == Run(m0, us).s.log[c.token].user
  {
    RunKept(m0, us);
  }

  // ---- A confirmation let in beside another of its token can change a second password ----------------------

  lemma OneStep(m: System, u: Micro)
    ensures Run(m, [u]) == Step(m, u)
    ensures LegalRun(m, [u]) <==> Legal(m, u)
  {
    assert Run(Step(m, u), []) == Step(m, u);
  }

  lemma OverlapChangesTwice(m: System, r: Id, q: Id) returns (us: seq<Micro>)
    requires Holding(m.(tasks := m.tasks - {q}))
    requires r in m.tasks && q in m.tasks && r != q && m.tasks[q].Checked? && m.tasks[r].token == m.tasks[q].token
    ensures LegalRun(m, us) && NoneBegin(us) && !OnceEach(Run(m, us).s.changes)
  {
    var token, n := m.tasks[q].token, |m.s.changes|;
    var others := m.tasks - {q};
    assert r in others && others[r] == m.tasks[r];
    if m.tasks[r].Checked? {
      us := [Write(r), Write(q)];
      TwoSteps(m, us[0], us[1]);
      var changes := Run(m, us).s.changes;
      assert changes[n].token == changes[n + 1].token;
    } else {
      us := [Write(q)];
      OneStep(m, us[0]);
      var i :| 0 <= i < n && m.s.changes[i].token == token;
      var changes := Run(m, us).s.changes;
      assert changes[i].token == changes[n].token;
    }
  }

  lemma {:induction false} NoneBeginAdmitted(m: System, us: seq<Micro>)
    requires NoneBegin(us)
    ensures AdmittedRun(m, us)
    decreases |us|
  {
    if us == [] {
    } else {
      assert us[0] in us;
      NoneBeginAdmitted(Step(m, us[0]), us[1..]);
    }
  }

  lemma AdmittedIsSafe(m: System, u: Micro)
    requires Kept(m) && u.Begin? && u.request !in m.tasks && Admitted(m, u)
    ensures Safe(Step(m, u))
  {
    StepKept(m, u);
    hide Step, Admitted;
    forall us | LegalRun(Step(m, u), us) && NoneBegin(us) ensures OnceEach(Run(Step(m, u), us).s.changes) {
      NoneBeginAdmitted(Step(m, u), us);
      RunKept(Step(m, u), us);
    }
  }

  lemma RefusedIsUnsafe(m: System, u: Micro)
    requires Kept(m) && u.Begin? && u.request !in m.tasks && !Admitted(m, u)
    ensures !Safe(Step(m, u))
  {
    var t := Step(m, u);
    var r :| r in m.tasks && m.tasks[r].token == u.token;
    assert t.tasks - {u.request} == m.tasks;
    hide Answer, Holding, OnceEach;
    var us := OverlapChangesTwice(t, r, u.request);
  }

  /** In every state that admitted runs reach, and for every confirmation that arrives: letting it in is safe
      exactly when it is admitted. */
  lemma AdmissionIsExact(m0: System, us: seq<Micro>, u: Micro)
    requires Starts(m0) && LegalRun(m0, us) && AdmittedRun(m0, us)
    requires u.Begin? && u.request !in Run(m0, us).tasks
    ensures Safe(Step(Run(m0, us), u)) <==> Admitted(Run(m0, us), u)
  {
    var m := Run(m0, us);
    RunKept(m0, us);
    hide Run, LegalRun, Kept;
    if Admitted(m, u) {
      AdmittedIsSafe(m, u);
    } else {
      RefusedIsUnsafe(m, u);
    }
  }
}
