/** Password reset: one-time tokens, the confirm handler, and what whole runs of them guarantee. */
module PasswordReset {
  import opened Common
  import BruteForce
  import Redis

  const TOKEN_EXPIRATION_MINUTES := 30

  /** Confirmations are counted under one fixed username, "password_reset". */
  const RESET_USERNAME := Name(0)

  datatype ResetToken = ResetToken(user: Id, createdAt: nat, expiresAt: nat, usedAt: Option<nat>) {
    predicate IsExpired(now: nat) { now > expiresAt }
    predicate IsUsed() { usedAt.Some? }
  }

  /** The password_reset_tokens table, keyed by token since hashing is injective. */
  type Table = map<Id, ResetToken>

  function NewToken(user: Id, now: nat): ResetToken {
    ResetToken(user, now, now + Micros(TOKEN_EXPIRATION_MINUTES * 60), None)
  }

  /** The user a token may reset: it is stored, not expired and not used. */
  function Verified(tokens: Table, token: Id, now: nat): Option<Id> {
    if token != Blank && token in tokens && !tokens[token].IsExpired(now) && !tokens[token].IsUsed()
    then Some(tokens[token].user) else None
  }

  function Used(tokens: Table, token: Id, now: nat): Table {
    if token != Blank && token in tokens then tokens[token := tokens[token].(usedAt := Some(now))] else tokens
  }

  function Purged(tokens: Table, now: nat): Table {
    map t | t in tokens && tokens[t].expiresAt >= now :: tokens[t]
  }

  function Outdated(tokens: Table, now: nat): set<Id> {
    set t | t in tokens && tokens[t].expiresAt < now
  }

  lemma PurgedIsDeletion(tokens: Table, now: nat)
    ensures Outdated(tokens, now) <= tokens.Keys && tokens - Outdated(tokens, now) == Purged(tokens, now)
    ensures forall t :: t in Purged(tokens, now) <==> t in tokens && now <= tokens[t].expiresAt
    ensures forall t :: t in Purged(tokens, now) ==> Purged(tokens, now)[t] == tokens[t]
  {
  }

  datatype Reply = Mismatch | WeakPassword | TooManyAttempts | InvalidToken | Changed(user: Id)

  /** `changes` is a history variable: every password change a token has made. */
  datatype Change = Change(token: Id, user: Id, at: nat)

  /** `log` is a history variable: every token as created. */
  datatype State = State(
    now: nat,
    passwords: map<Id, Id>,
    tokens: Table,
    counters: Redis.Store,
    changes: seq<Change>,
    log: Table)

  datatype Outcome = Outcome(state: State, reply: Reply)

  function Confirm(
    s: State, policy: BruteForce.Policy, token: Id, password: Id, matches: bool, strong: bool, ip: Id): Outcome
  {
    if !matches then Outcome(s, Mismatch)
    else if !strong then Outcome(s, WeakPassword)
    else if BruteForce.LockedOut(s.counters, policy, RESET_USERNAME, ip, s.now) then Outcome(s, TooManyAttempts)
    else
      var user := Verified(s.tokens, token, s.now);
      if user.None? then
        Outcome(s.(counters := BruteForce.Recorded(s.counters, policy, RESET_USERNAME, ip, s.now)), InvalidToken)
      else if user.value !in s.passwords then Outcome(s, InvalidToken)
      else
        Outcome(
          s.(passwords := s.passwords[user.value := password],
             tokens := Used(s.tokens, token, s.now),
             counters := BruteForce.Cleared(s.counters, RESET_USERNAME, ip),
             changes := s.changes + [Change(token, user.value, s.now)]),
          Changed(user.value))
  }

  /** The replies of the confirm endpoint, in the terms of what is stored. */
  lemma ConfirmDecides(
    s: State, policy: BruteForce.Policy, token: Id, password: Id, matches: bool, strong: bool, ip: Id)
    ensures var reply := Confirm(s, policy, token, password, matches, strong, ip).reply;
            var locked :=
              || BruteForce.Reached(s.counters, Redis.FailedUsername(RESET_USERNAME), policy.threshold, s.now)
              || BruteForce.Reached(s.counters, Redis.FailedIp(ip), 2 * policy.threshold, s.now);
            var works := token != Blank && token in s.tokens && s.now <= s.tokens[token].expiresAt
                         && s.tokens[token].usedAt.None?;
            && (reply == Mismatch <==> !matches)
            && (reply == WeakPassword <==> matches && !strong)
            && (reply == TooManyAttempts <==> matches && strong && locked)
            && (reply.Changed? <==> matches && strong && !locked && works && s.tokens[token].user in s.passwords)
            && (reply.Changed? ==> reply.user == s.tokens[token].user)
  {
    BruteForce.LockedExactly(s.counters, policy, RESET_USERNAME, ip, s.now);
    hide BruteForce.LockedOut, BruteForce.Recorded, BruteForce.Cleared, Used;
  }

  /** What a confirmation leaves: a change sets that user's password, uses up the token and clears the counters; a token
      that does not work counts as a failure of the endpoint and of the address; any other reply changes nothing. */
  lemma ConfirmEffect(
    s: State, policy: BruteForce.Policy, token: Id, password: Id, matches: bool, strong: bool, ip: Id)
    ensures var o := Confirm(s, policy, token, password, matches, strong, ip);
            var t, keys := o.state, {Redis.FailedUsername(RESET_USERNAME), Redis.FailedIp(ip)};
            && (o.reply.Changed? ==>
                  token in s.tokens
                  && t == s.(passwords := s.passwords[o.reply.user := password],
                             tokens := s.tokens[token := s.tokens[token].(usedAt := Some(s.now))],
                             counters := s.counters - keys,
                             changes := s.changes + [Change(token, o.reply.user, s.now)]))
            && (!o.reply.Changed? ==> t == s.(counters := t.counters))
            && (!o.reply.Changed? && o.reply != InvalidToken ==> t == s)
            && (o.reply == InvalidToken ==>
                  if token != Blank && token in s.tokens && s.now <= s.tokens[token].expiresAt && s.tokens[token].usedAt.None?
                  then t == s
                  else forall key :: key in keys ==>
                         && key in t.counters
                         && t.counters[key].count
                            == if BruteForce.Reached(s.counters, key, 0, s.now) then s.counters[key].count + 1 else 1)
  {
    BruteForce.RecordedExactly(s.counters, policy, RESET_USERNAME, ip, s.now);
    hide BruteForce.LockedOut, BruteForce.Recorded;
  }

  class Service {
    const bruteForce: BruteForce.Service
    var now: nat
    var passwords: map<Id, Id>
    var tokens: Table
    ghost var changes: seq<Change>
    ghost var log: Table

    constructor (bruteForce: BruteForce.Service, now: nat, passwords: map<Id, Id>)
      ensures this.bruteForce == bruteForce
      ensures View() == State(now, passwords, map[], bruteForce.redis.store, [], map[])
    {
      this.bruteForce, this.now, this.passwords := bruteForce, now, passwords;
      tokens, changes, log := map[], [], map[];
    }

    ghost function View(): State
      reads this, bruteForce.redis
    {
      State(now, passwords, tokens, bruteForce.redis.store, changes, log)
    }

    method CreateToken(user: Id, token: Id)
      modifies this`tokens, this`log
      ensures View() == Step(old(View()), bruteForce.policy, Create(user, token))
      ensures tokens == old(tokens)[token := ResetToken(user, now, now + 30 * 60_000_000, None)]
    {
      tokens := tokens[token := NewToken(user, now)];
      log := log[token := NewToken(user, now)];
    }

    method VerifyToken(token: Id) returns (user: Option<Id>)
      ensures user == Verified(tokens, token, now)
      ensures user.Some? <==>
                token != Blank && token in tokens && now <= tokens[token].expiresAt && tokens[token].usedAt.None?
      ensures user.Some? ==> user.value == tokens[token].user
    {
      if token == Blank || token !in tokens {
        return None;
      }
      var resetToken := tokens[token];
      if resetToken.IsExpired(now) {
        return None;
      }
      if resetToken.IsUsed() {
        return None;
      }
      return Some(resetToken.user);
    }

    method MarkTokenUsed(token: Id) returns (marked: bool)
      modifies this`tokens
      ensures tokens == Used(old(tokens), token, now)
      ensures marked <==> token != Blank && token in old(tokens)
      ensures tokens == if marked then old(tokens)[token := old(tokens)[token].(usedAt := Some(now))] else old(tokens)
    {
      if token == Blank || token !in tokens {
        return false;
      }
      tokens := tokens[token := tokens[token].(usedAt := Some(now))];
      return true;
    }

    method CleanupExpiredTokens() returns (deletedCount: nat)
      modifies this`tokens
      ensures View() == Step(old(View()), bruteForce.policy, Cleanup)
      ensures deletedCount == |old(tokens)| - |tokens|
      ensures forall t :: t in tokens <==> t in old(tokens) && now <= old(tokens)[t].expiresAt
      ensures forall t :: t in tokens ==> tokens[t] == old(tokens)[t]
    {
      PurgedIsDeletion(tokens, now);
      hide Purged, Confirm;
      tokens, deletedCount := DeleteEach(tokens, Outdated(tokens, now));
    }

    method ConfirmPasswordReset(token: Id, password: Id, matches: bool, strong: bool, ip: Id) returns (reply: Reply)
      modifies this`passwords, this`tokens, this`changes, bruteForce.redis
      ensures Outcome(View(), reply) == Confirm(old(View()), bruteForce.policy, token, password, matches, strong, ip)
    {
      if !matches {
        return Mismatch;
      }
      if !strong {
        return WeakPassword;
      }
      var locked := bruteForce.IsLockedOut(RESET_USERNAME, ip, now);
      if locked {
        return TooManyAttempts;
      }
      var user := VerifyToken(token);
      if user.None? {
        bruteForce.RecordFailedAttempt(RESET_USERNAME, ip, now);
        return InvalidToken;
      }
      if user.value !in passwords {
        return InvalidToken;
      }
      passwords := passwords[user.value := password];
      changes := changes + [Change(token, user.value, now)];
      var _ := MarkTokenUsed(token);
      bruteForce.ResetFailedAttempts(RESET_USERNAME, ip);
      return Changed(user.value);
    }
  }

  // ---- Runs ------------------------------------------------------------------------------------------

  datatype Event =
    | Tick(elapsed: nat)
    | Create(user: Id, token: Id)
    | Attempt(token: Id, password: Id, matches: bool, strong: bool, ip: Id)
    | Cleanup

  function Step(s: State, policy: BruteForce.Policy, e: Event): State {
    match e
    case Tick(elapsed) => s.(now := s.now + elapsed)
    case Create(user, token) =>
      s.(tokens := s.tokens[token := NewToken(user, s.now)], log := s.log[token := NewToken(user, s.now)])
    case Attempt(token, password, matches, strong, ip) =>
      Confirm(s, policy, token, password, matches, strong, ip).state
    case Cleanup => s.(tokens := Purged(s.tokens, s.now))
  }

  /** Generated tokens are fresh. */
  predicate Legal(s: State, e: Event) { e.Create? ==> e.token != Blank && e.token !in s.log }

  function Run(s: State, policy: BruteForce.Policy, events: seq<Event>): State
    decreases |events|
  {
    if events == [] then s else Run(Step(s, policy, events[0]), policy, events[1..])
  }

  predicate LegalRun(s: State, policy: BruteForce.Policy, events: seq<Event>)
    decreases |events|
  {
    events != [] ==> Legal(s, events[0]) && LegalRun(Step(s, policy, events[0]), policy, events[1..])
  }

  predicate Initial(s: State) { s.tokens == map[] && s.changes == [] && s.log == map[] }

  // ---- One change per token, in time -------------------------------------------------------------------

  /** The change was made by a token created for that user at most 30 minutes before. */
  predicate InTime(log: Table, c: Change) {
    && c.token in log
    && c.user == log[c.token].user
    && log[c.token].createdAt <= c.at <= log[c.token].createdAt + 30 * 60_000_000
  }

  ghost predicate OneTime(s: State) {
    && (forall t :: t in s.log ==> s.log[t] == NewToken(s.log[t].user, s.log[t].createdAt) && s.log[t].createdAt <= s.now)
    && (forall t :: t in s.tokens ==> t in s.log && s.tokens[t].(usedAt := None) == s.log[t])
    && (forall c :: c in s.changes ==> InTime(s.log, c) && (c.token in s.tokens ==> s.tokens[c.token].IsUsed()))
    && (forall i, k :: 0 <= i < k < |s.changes| ==> s.changes[i].token != s.changes[k].token)
  }

  lemma ChangingOneTime(s: State, token: Id, user: Id, password: Id)
    requires OneTime(s) && Verified(s.tokens, token, s.now) == Some(user)
    ensures OneTime(s.(passwords := s.passwords[user := password],
                       tokens := Used(s.tokens, token, s.now),
                       changes := s.changes + [Change(token, user, s.now)]))
  {
    assert s.log[token] == s.tokens[token];
  }

  lemma CountersDoNotMatter(s: State, t: State)
    requires OneTime(t) && s == t.(counters := s.counters)
    ensures OneTime(s)
  {
    hide InTime;
  }

  lemma AttemptOneTime(s: State, policy: BruteForce.Policy, e: Event)
    requires OneTime(s) && e.Attempt?
    ensures OneTime(Step(s, policy, e))
  {
    var t := Step(s, policy, e);
    var user := Verified(s.tokens, e.token, s.now);
    if t.changes != s.changes {
      ChangingOneTime(s, e.token, user.value, e.password);
      hide Verified, Used, BruteForce.LockedOut, InTime, NewToken;
      CountersDoNotMatter(t, s.(passwords := t.passwords, tokens := t.tokens, changes := t.changes));
    } else {
      hide Used, InTime, NewToken;
      CountersDoNotMatter(t, s);
    }
    hide OneTime;
  }

  lemma OtherOneTime(s: State, policy: BruteForce.Policy, e: Event)
    requires OneTime(s) && Legal(s, e) && !e.Attempt?
    ensures OneTime(Step(s, policy, e))
  {
    hide Confirm;
  }

  lemma StepOneTime(s: State, policy: BruteForce.Policy, e: Event)
    requires OneTime(s) && Legal(s, e)
    ensures OneTime(Step(s, policy, e))
  {
    hide Confirm, InTime;
    if e.Attempt? {
      AttemptOneTime(s, policy, e);
    } else {
      OtherOneTime(s, policy, e);
    }
    hide OneTime, Step;
  }

  lemma {:induction false} RunOneTime(s: State, policy: BruteForce.Policy, events: seq<Event>)
    requires OneTime(s) && LegalRun(s, policy, events)
    ensures OneTime(Run(s, policy, events))
    decreases |events|
  {
    if events == [] {
    } else {
      StepOneTime(s, policy, events[0]);
      RunOneTime(Step(s, policy, events[0]), policy, events[1..]);
    }
  }

  /** A fresh token still works when 30 minutes have passed, and no longer after that. */
  lemma WorksForThirtyMinutes(
    s: State, policy: BruteForce.Policy, user: Id, token: Id, elapsed: nat, password: Id, ip: Id)
    requires token != Blank && user in s.passwords
    requires !BruteForce.LockedOut(s.counters, policy, RESET_USERNAME, ip, s.now + elapsed)
    ensures var t := Step(Step(s, policy, Create(user, token)), policy, Tick(elapsed));
            Confirm(t, policy, token, password, true, true, ip).reply
            == if elapsed <= 30 * 60_000_000 then Changed(user) else InvalidToken
  {
    hide BruteForce.LockedOut, BruteForce.Recorded, BruteForce.Cleared;
  }

  /** Over any run a token changes one password at most, once, its own user's, within 30 minutes of its creation. */
  lemma TokensWorkOnce(s0: State, policy: BruteForce.Policy, events: seq<Event>)
    requires Initial(s0) && LegalRun(s0, policy, events)
    ensures var s := Run(s0, policy, events);
            && (forall c :: c in s.changes ==> InTime(s.log, c))
            && (forall i, k :: 0 <= i < k < |s.changes| ==> s.changes[i].token != s.changes[k].token)
  {
    RunOneTime(s0, policy, events);
  }

  // ---- Cleanup cannot be noticed -------------------------------------------------------------------------

  function Replies(s: State, policy: BruteForce.Policy, events: seq<Event>): seq<Reply>
    decreases |events|
  {
    if events == [] then []
    else
      var e := events[0];
      (if e.Attempt? then [Confirm(s, policy, e.token, e.password, e.matches, e.strong, e.ip).reply] else [])
      + Replies(Step(s, policy, e), policy, events[1..])
  }

  function Strip(events: seq<Event>): seq<Event> {
    if events == [] then []
    else (if events[0].Cleanup? then [] else [events[0]]) + Strip(events[1..])
  }

  /** `kept` still has the tokens cleanup deleted; all of them have expired. */
  ghost predicate Shadows(kept: State, s: State) {
    && kept == s.(tokens := kept.tokens)
    && (forall t :: t in s.tokens ==> t in kept.tokens && kept.tokens[t] == s.tokens[t])
    && (forall t :: t in kept.tokens && t !in s.tokens ==> t in s.log && kept.tokens[t].IsExpired(s.now))
    && (forall t :: t in s.tokens ==> t in s.log)
  }

  /** A token is verified alike: those cleaned up have expired. */
  lemma SameVerified(kept: State, s: State, token: Id)
    requires Shadows(kept, s)
    ensures Verified(kept.tokens, token, s.now) == Verified(s.tokens, token, s.now)
  {
  }

  lemma UsedShadows(kept: State, s: State, token: Id)
    requires Shadows(kept, s) && Verified(s.tokens, token, s.now).Some?
    ensures Shadows(kept.(tokens := Used(kept.tokens, token, s.now)), s.(tokens := Used(s.tokens, token, s.now)))
  {
  }

  lemma AttemptShadows(kept: State, s: State, policy: BruteForce.Policy, e: Event)
    requires Shadows(kept, s) && e.Attempt?
    ensures Shadows(Step(kept, policy, e), Step(s, policy, e))
    ensures Confirm(kept, policy, e.token, e.password, e.matches, e.strong, e.ip).reply
            == Confirm(s, policy, e.token, e.password, e.matches, e.strong, e.ip).reply
  {
    hide Verified, Used, BruteForce.LockedOut, BruteForce.Recorded, BruteForce.Cleared;
    SameVerified(kept, s, e.token);
    if Verified(s.tokens, e.token, s.now).Some? {
      UsedShadows(kept, s, e.token);
    }
  }

  lemma StepShadows(kept: State, s: State, policy: BruteForce.Policy, e: Event)
    requires Shadows(kept, s) && Legal(s, e)
    ensures Shadows(if e.Cleanup? then kept else Step(kept, policy, e), Step(s, policy, e))
    ensures e.Attempt? ==>
              Confirm(kept, policy, e.token, e.password, e.matches, e.strong, e.ip).reply
              == Confirm(s, policy, e.token, e.password, e.matches, e.strong, e.ip).reply
  {
    hide Confirm;
    if e.Attempt? {
      AttemptShadows(kept, s, policy, e);
      hide Shadows, Step;
    }
  }

  lemma {:induction false} RunShadows(kept: State, s: State, policy: BruteForce.Policy, events: seq<Event>)
    requires Shadows(kept, s)
    ensures LegalRun(s, policy, events) <==> LegalRun(kept, policy, Strip(events))
    ensures LegalRun(s, policy, events) ==>
              && Replies(s, policy, events) == Replies(kept, policy, Strip(events))
              && Run(s, policy, events).passwords == Run(kept, policy, Strip(events)).passwords
    decreases |events|
  {
    if events == [] {
    } else {
      var e, rest := events[0], events[1..];
      if Legal(s, e) {
        StepShadows(kept, s, policy, e);
        RunShadows(if e.Cleanup? then kept else Step(kept, policy, e), Step(s, policy, e), policy, rest);
      }
      var stripped := Strip(events);
      assert if e.Cleanup? then stripped == Strip(rest) else stripped[0] == e && stripped[1..] == Strip(rest);
    }
  }

  /** Cleanup steps, wherever they are inserted, change no reply of the confirm endpoint and no password. */
  lemma CleanupIsUnseen(s0: State, policy: BruteForce.Policy, events: seq<Event>)
    requires Initial(s0)
    ensures LegalRun(s0, policy, events) <==> LegalRun(s0, policy, Strip(events))
    ensures LegalRun(s0, policy, events) ==>
              && Replies(s0, policy, events) == Replies(s0, policy, Strip(events))
              && Run(s0, policy, events).passwords == Run(s0, policy, Strip(events)).passwords
  {
    RunShadows(s0, s0, policy, events);
  }
}
