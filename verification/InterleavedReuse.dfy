/**
 Reuse detection when handlers interleave: a replay still kills the family for good, except for what requests
 already under way go on to save.
 */
module InterleavedReuse {
  import opened Common
  import opened Tokens
  import opened Interleaving
  import Chains
  import Reuse

  /** A request under way at `m` had validated the parent of `jti`, or had signed `jti` itself. */
  ghost predicate InFlight(m: System, jti: Id, parent: Id) {
    exists r :: r in m.tasks && if m.tasks[r].Validated? then m.tasks[r].used == parent else m.tasks[r].jti == jti
  }

  /** A request that had validated `used` was under way at `m`. */
  ghost predicate ValidatedAt(m: System, used: Id) {
    exists r :: r in m.tasks && m.tasks[r].Validated? && m.tasks[r].used == used
  }

  /** What a handler does with a token the family had by `past` it had begun to do by past. */
  ghost predicate BegunBefore(past: System, user: Id, client: Id, task: Task) {
    !task.LoggedIn? && task.used in past.s.log && Reuse.OfFamily(past.s.log[task.used], user, client) ==>
      if task.Validated? then ValidatedAt(past, task.used) else InFlight(past, task.jti, task.used)
  }

  /** The family's tokens of `past` are dead; its later ones have no parent among them unless a request was in flight. */
  ghost predicate DeadSince(past: System, user: Id, client: Id, s: State) {
    && (forall b :: b in past.s.log ==> b in s.log && s.log[b] == past.s.log[b])
    && (forall b :: b in past.s.log && Reuse.OfFamily(past.s.log[b], user, client) && b in s.rows ==> s.rows[b].revoked)
    && (forall j :: j in s.log && j !in past.s.log && Reuse.OfFamily(s.log[j], user, client) && s.log[j].parent.Some? ==>
          s.log[j].parent.value in past.s.log ==> InFlight(past, j, s.log[j].parent.value))
  }

  ghost predicate HandlersBegun(past: System, user: Id, client: Id, m: System) {
    forall r :: r in m.tasks ==> BegunBefore(past, user, client, m.tasks[r])
  }

  lemma DyingStaysDead(past: System, user: Id, client: Id, s: State, t: State)
    requires DeadSince(past, user, client, s) && RowsDie(s, t.(issued := s.issued))
    ensures DeadSince(past, user, client, t)
  {
    hide InFlight;
  }

  lemma SavingStaysDead(past: System, user: Id, client: Id, s: State, jti: Id, parent: Option<Id>, session: Id)
    requires DeadSince(past, user, client, s) && Unsaved(s, jti)
    requires parent.Some? && parent.value in past.s.log && Reuse.OfFamily(past.s.log[parent.value], user, client) ==>
               InFlight(past, jti, parent.value)
    requires parent.Some? ==> parent.value in s.log && Signed(s.issued[jti], s.log[parent.value])
    ensures DeadSince(past, user, client, Save(s, jti, parent, session))
  {
    hide InFlight;
  }

  lemma SavedStaysDead(past: System, user: Id, client: Id, m: System, u: Micro, t: State)
    requires Held(m) && Saves(m, u, t)
    requires DeadSince(past, user, client, m.s) && HandlersBegun(past, user, client, m)
    ensures DeadSince(past, user, client, t)
  {
    var task := m.tasks[u.request];
    assert TaskHeld(m.s, task) && BegunBefore(past, user, client, task);
    hide Held, DeadSince, HandlersBegun, InFlight;
    SavingStaysDead(past, user, client, m.s, task.jti, ParentOf(task), SessionFor(m, u));
  }

  lemma StepStaysDead(past: System, user: Id, client: Id, m: System, u: Micro)
    requires Held(m) && Interleaving.Legal(m, u)
    requires DeadSince(past, user, client, m.s) && HandlersBegun(past, user, client, m)
    ensures DeadSince(past, user, client, Interleaving.Step(m, u).s)
  {
    LogGrowth(m, u);
    hide *;
    var t := Interleaving.Step(m, u).s;
    if RowsDie(m.s, t.(issued := m.s.issued)) {
      DyingStaysDead(past, user, client, m.s, t);
    } else {
      SavedStaysDead(past, user, client, m, u, t);
    }
  }

  /** A handler that starts later validates a live token, so none the family had by `past`. */
  lemma ArrivingBegun(past: System, user: Id, client: Id, m: System, request: Id, presenter: Id, used: Id)
    requires DeadSince(past, user, client, m.s) && HandlersBegun(past, user, client, m)
    ensures HandlersBegun(past, user, client, Begin(m, request, presenter, used))
  {
    hide InFlight, ValidatedAt;
  }

  lemma ValidatedIsInFlight(past: System, user: Id, client: Id, task: Task, jti: Id)
    requires task.Validated? && BegunBefore(past, user, client, task)
    ensures BegunBefore(past, user, client, Prepared(task.used, jti))
  {
  }

  lemma StepBegun(past: System, user: Id, client: Id, m: System, u: Micro)
    requires DeadSince(past, user, client, m.s) && HandlersBegun(past, user, client, m)
    ensures HandlersBegun(past, user, client, Interleaving.Step(m, u))
  {
    hide DeadSince, Begin, Tokens.Step, PasswordAllowed, RefreshAllowed, Decodes;
    match u
    case Arrive(request, presenter, used) => ArrivingBegun(past, user, client, m, request, presenter, used);
    case Authenticate(request, jti) =>
      if request in m.tasks && m.tasks[request].Validated? {
        ValidatedIsInFlight(past, user, client, m.tasks[request], jti);
      }
    case _ =>
  }

  lemma {:induction false} RunStaysDead(past: System, user: Id, client: Id, m: System, us: seq<Micro>)
    requires Held(m) && Interleaving.LegalRun(m, us)
    requires DeadSince(past, user, client, m.s) && HandlersBegun(past, user, client, m)
    ensures DeadSince(past, user, client, Interleaving.Run(m, us).s)
    decreases |us|
  {
    hide Held, DeadSince, HandlersBegun, Interleaving.Step, Interleaving.Legal;
    if us == [] {
    } else {
      StepStaysDead(past, user, client, m, us[0]);
      StepBegun(past, user, client, m, us[0]);
      StepHeld(m, us[0]);
      RunStaysDead(past, user, client, Interleaving.Step(m, us[0]), us[1..]);
    }
  }

  // ---- Where a later live token comes from ------------------------------------------------------

  /** `path` goes from child to parent, all of it saved. */
  ghost predicate Ancestry(log: Table, path: seq<Id>) {
    && path != []
    && (forall i :: 0 <= i < |path| ==> path[i] in log)
    && (forall i, k :: 0 <= i < k < |path| && k == i + 1 ==> log[path[i]].parent == Some(path[k]))
  }

  /** The token descends, by tokens saved after `past` only, from a login saved later or from a token whose
      request was in flight. */
  ghost predicate FromLater(past: System, log: Table, path: seq<Id>) {
    && Ancestry(log, path)
    && (forall i :: 0 <= i < |path| ==> path[i] !in past.s.log)
    && var root := path[|path| - 1];
       log[root].parent.Some? ==> InFlight(past, root, log[root].parent.value)
  }

  lemma {:induction false} Trace(past: System, user: Id, client: Id, s: State, rank: map<Id, nat>, j: Id)
    returns (path: seq<Id>)
    requires LogHeld(s) && Ranked(s.log, rank) && DeadSince(past, user, client, s)
    requires j in s.log && j !in past.s.log && Reuse.OfFamily(s.log[j], user, client)
    ensures FromLater(past, s.log, path) && path[0] == j
    decreases rank[j]
  {
    hide InFlight;
    path := [j];
    if s.log[j].parent.Some? && s.log[j].parent.value !in past.s.log {
      var parent := s.log[j].parent.value;
      assert SameOwner(s.log[parent], s.log[j]);
      var rest := Trace(past, user, client, s, rank, parent);
      path := [j] + rest;
      assert path[|path| - 1] == rest[|rest| - 1];
    }
  }

  lemma StartsHeld(m: System)
    requires Starts(m)
    ensures Held(m) && Ranked(m.s.log, map[])
  {
  }

  lemma ReplayRevokes(m: System, q: Id, client: Id, used: Id)
    requires Reuse.Replayed(m.s, used)
    ensures Interleaving.Step(m, Arrive(q, client, used)) == m.(s := m.s.(rows := RevokeChain(m.s.rows, used, m.s.now)))
    ensures RowsDie(m.s, m.s.(rows := RevokeChain(m.s.rows, used, m.s.now)))
  {
  }

  lemma FamilyRevoked(m: System, used: Id)
    requires Held(m) && used in m.s.rows
    ensures DeadSince(m, m.s.rows[used].user, m.s.rows[used].client, m.s.(rows := RevokeChain(m.s.rows, used, m.s.now)))
  {
    hide InFlight, LogHeld, TasksHeld;
    var user, owner, rows := m.s.rows[used].user, m.s.rows[used].client, RevokeChain(m.s.rows, used, m.s.now);
    forall b | b in m.s.log && Reuse.OfFamily(m.s.log[b], user, owner) && b in rows ensures rows[b].revoked {
      assert Chains.Stems(m.s.rows[b], m.s.log[b]);
    }
  }

  lemma BegunAlready(m: System, user: Id, client: Id)
    ensures forall r :: r in m.tasks ==> BegunBefore(m, user, client, m.tasks[r])
  {
  }

  lemma ReplayBegins(m: System, q: Id, client: Id, used: Id)
    requires Held(m) && Reuse.Replayed(m.s, used)
    ensures var t := Interleaving.Step(m, Arrive(q, client, used));
            && Held(t) && t.s.log == m.s.log
            && DeadSince(m, m.s.rows[used].user, m.s.rows[used].client, t.s)
            && HandlersBegun(m, m.s.rows[used].user, m.s.rows[used].client, t)
  {
    ReplayRevokes(m, q, client, used);
    DyingHeld(m, m.s.(rows := RevokeChain(m.s.rows, used, m.s.now)));
    hide Held, Interleaving.Step, RevokeChain, Reuse.Replayed;
    FamilyRevoked(m, used);
    BegunAlready(m, m.s.rows[used].user, m.s.rows[used].client);
  }

  lemma LiveIsFromLater(past: System, user: Id, owner: Id, m: System, rank: map<Id, nat>)
    requires DeadSince(past, user, owner, m.s) && Held(m) && Ranked(m.s.log, rank)
    ensures forall b :: b in past.s.log && Reuse.OfFamily(past.s.log[b], user, owner) ==> !Validate(m.s.rows, b, m.s.now).Valid?
    ensures forall j :: j in m.s.rows && !m.s.rows[j].revoked && Reuse.OfFamily(m.s.rows[j], user, owner) ==>
              exists path :: FromLater(past, m.s.log, path) && path[0] == j
  {
    hide TasksHeld, InFlight;
    forall j | j in m.s.rows && !m.s.rows[j].revoked && Reuse.OfFamily(m.s.rows[j], user, owner)
      ensures exists path :: FromLater(past, m.s.log, path) && path[0] == j
    {
      assert Chains.Stems(m.s.rows[j], m.s.log[j]);
      var path := Trace(past, user, owner, m.s, rank, j);
    }
  }

  /** After a replay, under every interleaving: the tokens the family had been issued and saved by then are never
      validated again, and a live token of the family descends from a login saved later or from a token that a
      request in flight at the replay had signed or whose parent it had validated. */
  lemma ReplayUnderInterleaving(m0: System, before: seq<Micro>, q: Id, client: Id, used: Id, after: seq<Micro>)
    requires Starts(m0) && Interleaving.LegalRun(m0, before)
    requires q !in Interleaving.Run(m0, before).tasks && Reuse.Replayed(Interleaving.Run(m0, before).s, used)
    requires Interleaving.LegalRun(Interleaving.Step(Interleaving.Run(m0, before), Arrive(q, client, used)), after)
    ensures var past := Interleaving.Run(m0, before);
            var user, owner := past.s.rows[used].user, past.s.rows[used].client;
            var t := Interleaving.Run(Interleaving.Step(past, Arrive(q, client, used)), after).s;
            && (forall b :: b in past.s.log && Reuse.OfFamily(past.s.log[b], user, owner) ==>
                  !Validate(t.rows, b, t.now).Valid?)
            && (forall j :: j in t.rows && !t.rows[j].revoked && Reuse.OfFamily(t.rows[j], user, owner) ==>
                  exists path :: FromLater(past, t.log, path) && path[0] == j)
  {
    hide Starts, Held, Interleaving.Step, Interleaving.Run, Interleaving.LegalRun, DeadSince, HandlersBegun;
    var past := Interleaving.Run(m0, before);
    var user, owner := past.s.rows[used].user, past.s.rows[used].client;
    var m1 := Interleaving.Step(past, Arrive(q, client, used));
    StartsHeld(m0);
    var rank := RunRanked(m0, before, map[]);
    RunHeld(m0, before);
    ReplayBegins(past, q, client, used);
    RunStaysDead(past, user, owner, m1, after);
    RunHeld(m1, after);
    var later := RunRanked(m1, after, rank);
    LiveIsFromLater(past, user, owner, Interleaving.Run(m1, after), later);
  }
}
