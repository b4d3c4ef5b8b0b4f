/** Logins and the brute-force counters together: over whole runs, who is turned away and who is not. */
module LoginLockout {
  import opened Common
  import opened Redis
  import Tokens
  import BruteForce
  import GrantRules

  datatype State = State(tokens: Tokens.State, counters: Store)

  /** A login names the username it counts under; `who` is the user whose stored password matched. */
  datatype Event =
    | Login(client: Id, username: Id, ip: Id, who: Option<Id>, scope: Option<string>, jti: Id, session: Id)
    | Other(e: Tokens.Event)

  datatype Outcome = Outcome(state: State, verdict: Tokens.Verdict)

  /** The password handler: check the lock, authenticate and save, then record the failure or reset. */
  function Answer(s: State, policy: BruteForce.Policy, e: Event): Outcome
    requires e.Login?
  {
    var now := s.tokens.now;
    var locked := BruteForce.LockedOut(s.counters, policy, e.username, e.ip, now);
    var grant := Tokens.PasswordGrant(s.tokens, e.client, e.who, e.scope, locked, e.jti, e.session);
    var attempt := BruteForce.Attempt(e.username, e.ip, grant.verdict.Granted?);
    var counters := BruteForce.Step(BruteForce.State(now, s.counters), policy, attempt).store;
    Outcome(State(grant.state, counters), grant.verdict)
  }

  function Step(s: State, policy: BruteForce.Policy, e: Event): State {
    match e
    case Login(_, _, _, _, _, _, _) => Answer(s, policy, e).state
    case Other(other) => s.(tokens := Tokens.Step(s.tokens, other))
  }

  function Run(s: State, policy: BruteForce.Policy, events: seq<Event>): State
    decreases |events|
  {
    if events == [] then s else Run(Step(s, policy, events[0]), policy, events[1..])
  }

  /** The counters that decide about a login, and the number of failures at which each locks. */
  predicate Locks(policy: BruteForce.Policy, key: Key, limit: nat, e: Event)
    requires e.Login?
  {
    || (key == FailedUsername(e.username) && limit == policy.threshold)
    || (key == FailedIp(e.ip) && limit == 2 * policy.threshold)
  }

  // ---- One login ---------------------------------------------------------------------------------

  /** A login is answered with the lock exactly when one of its counters has reached its limit. */
  lemma LockedExactly(s: State, policy: BruteForce.Policy, e: Event)
    requires e.Login?
    ensures Answer(s, policy, e).verdict == Tokens.LockedOut <==>
              || BruteForce.Reached(s.counters, FailedUsername(e.username), policy.threshold, s.tokens.now)
              || BruteForce.Reached(s.counters, FailedIp(e.ip), 2 * policy.threshold, s.tokens.now)
  {
    GrantRules.PasswordGrantedExactly(
      s.tokens, e.client, e.who, e.scope,
      BruteForce.LockedOut(s.counters, policy, e.username, e.ip, s.tokens.now), e.jti, e.session);
  }

  /** What it leaves: a locked login nothing at all; a refused one a failure more on both its counters, the first of
      which starts the lockout; a granted one neither of its counters. Other counters never change. */
  lemma CountersAfter(s: State, policy: BruteForce.Policy, e: Event)
    requires e.Login?
    ensures var o, now := Answer(s, policy, e), s.tokens.now;
            var t := o.state.counters;
            && (forall key :: key in s.counters && key != FailedUsername(e.username) && key != FailedIp(e.ip) ==>
                  key in t && t[key] == s.counters[key])
            && (o.verdict == Tokens.LockedOut ==> o.state == s)
            && (o.verdict == Tokens.BadCredentials ==>
                  && o.state.tokens == s.tokens
                  && forall key :: key == FailedUsername(e.username) || key == FailedIp(e.ip) ==>
                       && key in t
                       && (if BruteForce.Reached(s.counters, key, 0, now)
                           then t[key].count == s.counters[key].count + 1
                                && (t[key].count > 1 ==> t[key].deadline == s.counters[key].deadline)
                           else t[key].count == 1)
                       && (t[key].count == 1 && policy.duration > 0 ==> t[key].deadline == Some(now + policy.duration)))
            && (o.verdict.Granted? ==> FailedUsername(e.username) !in t && FailedIp(e.ip) !in t)
            && (o.verdict == Tokens.LockedOut || o.verdict == Tokens.BadCredentials || o.verdict.Granted?)
  {
    GrantRules.PasswordGrantedExactly(
      s.tokens, e.client, e.who, e.scope,
      BruteForce.LockedOut(s.counters, policy, e.username, e.ip, s.tokens.now), e.jti, e.session);
  }

  // ---- Nobody gets in before the deadline -----------------------------------------------------------

  lemma TimeGoesOn(s: Tokens.State, e: Tokens.Event)
    ensures s.now <= Tokens.Step(s, e).now
  {
  }

  lemma TimeStands(s: State, policy: BruteForce.Policy, e: Event)
    requires e.Login?
    ensures Answer(s, policy, e).state.tokens.now == s.tokens.now
  {
  }

  lemma StepKeepsCounter(s: State, policy: BruteForce.Policy, e: Event, key: Key)
    requires key.FailedUsername? || key.FailedIp?
    requires BruteForce.Reached(s.counters, key, if key.FailedIp? then 2 * policy.threshold else policy.threshold, s.tokens.now)
    ensures var t := Step(s, policy, e);
            && key in t.counters && t.counters[key] == s.counters[key] && s.tokens.now <= t.tokens.now
  {
    if e.Login? {
      LockedExactly(s, policy, e);
      CountersAfter(s, policy, e);
      TimeStands(s, policy, e);
    } else {
      TimeGoesOn(s.tokens, e.e);
    }
  }

  lemma {:induction false} RunTime(s: State, policy: BruteForce.Policy, events: seq<Event>)
    ensures s.tokens.now <= Run(s, policy, events).tokens.now
    decreases |events|
  {
    if events == [] {
    } else {
      if events[0].Login? {
        TimeStands(s, policy, events[0]);
      } else {
        TimeGoesOn(s.tokens, events[0].e);
      }
      RunTime(Step(s, policy, events[0]), policy, events[1..]);
    }
  }

  lemma {:induction false} CounterStays(s: State, policy: BruteForce.Policy, events: seq<Event>, key: Key)
    requires key.FailedUsername? || key.FailedIp?
    requires BruteForce.Reached(s.counters, key, if key.FailedIp? then 2 * policy.threshold else policy.threshold, s.tokens.now)
    ensures var t := Run(s, policy, events);
            (s.counters[key].deadline.Some? ==> t.tokens.now < s.counters[key].deadline.value) ==>
              key in t.counters && t.counters[key] == s.counters[key]
    decreases |events|
  {
    if events == [] {
    } else {
      var next := Step(s, policy, events[0]);
      StepKeepsCounter(s, policy, events[0], key);
      RunTime(next, policy, events[1..]);
      if s.counters[key].deadline.Some? ==> next.tokens.now < s.counters[key].deadline.value {
        CounterStays(next, policy, events[1..], key);
      }
    }
  }

  /** Once a username has failed as often as the threshold, or an address twice as often, every login with it is
      turned away until that counter's deadline, whatever anyone does meanwhile and even with the right password:
      nothing is signed, saved or counted. */
  lemma LockedGetsNothing(s: State, policy: BruteForce.Policy, events: seq<Event>, e: Event, key: Key, limit: nat)
    requires e.Login? && Locks(policy, key, limit, e)
    requires BruteForce.Reached(s.counters, key, limit, s.tokens.now)
    ensures var t := Run(s, policy, events);
            (s.counters[key].deadline.Some? ==> t.tokens.now < s.counters[key].deadline.value) ==>
              && !Answer(t, policy, e).verdict.Granted?
              && Answer(t, policy, e).state.tokens.issued == t.tokens.issued
              && Answer(t, policy, e).state.tokens.rows == t.tokens.rows
              && Answer(t, policy, e).state.counters == t.counters
  {
    CounterStays(s, policy, events, key);
    var t := Run(s, policy, events);
    LockedExactly(t, policy, e);
    CountersAfter(t, policy, e);
  }

  // ---- And nobody is kept out earlier ------------------------------------------------------------------

  predicate Concerns(e: Event, key: Key) {
    e.Login? && (key == FailedUsername(e.username) || key == FailedIp(e.ip))
  }

  /** The failed logins of a username or an address since its last granted one. */
  function Failures(s: State, policy: BruteForce.Policy, events: seq<Event>, key: Key, sofar: nat): nat
    decreases |events|
  {
    if events == [] then sofar
    else
      var e := events[0];
      var next :=
        if !Concerns(e, key) then sofar
        else match Answer(s, policy, e).verdict
          case Granted(_, _) => 0
          case BadCredentials => sofar + 1
          case _ => sofar;
      Failures(Step(s, policy, e), policy, events[1..], key, next)
  }

  /** Counters count failures, none of them twice. */
  predicate Counts(counters: Store, key: Key, sofar: nat) { key in counters ==> counters[key].count <= sofar }

  lemma StepCounts(s: State, policy: BruteForce.Policy, e: Event, key: Key, sofar: nat)
    requires Counts(s.counters, key, sofar) && (key.FailedUsername? || key.FailedIp?)
    ensures Counts(Step(s, policy, e).counters, key,
              if Concerns(e, key) && Answer(s, policy, e).verdict.Granted? then 0
              else if Concerns(e, key) && Answer(s, policy, e).verdict.BadCredentials? then sofar + 1 else sofar)
  {
    if e.Login? {
      CountersAfter(s, policy, e);
    }
  }

  lemma {:induction false} RunCounts(s: State, policy: BruteForce.Policy, events: seq<Event>, key: Key, sofar: nat)
    requires Counts(s.counters, key, sofar) && (key.FailedUsername? || key.FailedIp?)
    ensures Counts(Run(s, policy, events).counters, key, Failures(s, policy, events, key, sofar))
    decreases |events|
  {
    if events == [] {
    } else {
      var e := events[0];
      StepCounts(s, policy, e, key, sofar);
      if e.Login? {
        CountersAfter(s, policy, e);
      }
      var next := if Concerns(e, key) && Answer(s, policy, e).verdict.Granted? then 0
                  else if Concerns(e, key) && Answer(s, policy, e).verdict.BadCredentials? then sofar + 1 else sofar;
      RunCounts(Step(s, policy, e), policy, events[1..], key, next);
    }
  }

  /** With fewer failures than the threshold for the username, and than twice the threshold for the address, since
      the last granted login of each, a login is decided by its credentials alone. */
  lemma FewFailuresDoNotLock(s0: State, policy: BruteForce.Policy, events: seq<Event>, e: Event)
    requires s0.counters == map[] && e.Login?
    requires Failures(s0, policy, events, FailedUsername(e.username), 0) < policy.threshold
    requires Failures(s0, policy, events, FailedIp(e.ip), 0) < 2 * policy.threshold
    ensures var t := Run(s0, policy, events);
            Answer(t, policy, e).verdict
            == Tokens.PasswordGrant(t.tokens, e.client, e.who, e.scope, false, e.jti, e.session).verdict
  {
    RunCounts(s0, policy, events, FailedUsername(e.username), 0);
    RunCounts(s0, policy, events, FailedIp(e.ip), 0);
    LockedExactly(Run(s0, policy, events), policy, e);
    GrantRules.PasswordGrantedExactly(
      Run(s0, policy, events).tokens, e.client, e.who, e.scope,
      BruteForce.LockedOut(Run(s0, policy, events).counters, policy, e.username, e.ip, Run(s0, policy, events).tokens.now),
      e.jti, e.session);
  }
}
