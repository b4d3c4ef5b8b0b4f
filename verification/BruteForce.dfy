/** Brute-force protection: failed-attempt counters per username and per IP, and lockout over whole runs. */
module BruteForce {
  import opened Common
  import opened Redis
  import FixedWindow

  /** The settings: attempts before a username locks (an IP locks at twice that), and for how long. */
  datatype Policy = Policy(threshold: nat, duration: nat)

  predicate LockedOut(store: Store, policy: Policy, username: Id, ip: Id, now: nat) {
    || (Exists(store, FailedUsername(username), now) && store[FailedUsername(username)].count >= policy.threshold)
    || (Exists(store, FailedIp(ip), now) && store[FailedIp(ip)].count >= policy.threshold * 2)
  }

  function Recorded(store: Store, policy: Policy, username: Id, ip: Id, now: nat): Store {
    Bump(Bump(store, FailedUsername(username), policy.duration, now), FailedIp(ip), policy.duration, now)
  }

  function Cleared(store: Store, username: Id, ip: Id): Store {
    store - {FailedUsername(username), FailedIp(ip)}
  }

  /** Counting both keys before setting either deadline comes to the same. */
  lemma CountedTogether(store: Store, policy: Policy, username: Id, ip: Id, now: nat)
    ensures var usernameKey, ipKey := FailedUsername(username), FailedIp(ip);
            var counted := Incr(Incr(store, usernameKey, now), ipKey, now);
            var first := if Count(Incr(store, usernameKey, now), usernameKey, now) == 1
                         then Expire(counted, usernameKey, policy.duration, now) else counted;
            Recorded(store, policy, username, ip, now)
            == if Count(counted, ipKey, now) == 1 then Expire(first, ipKey, policy.duration, now) else first
  {
  }

  /** A key exists with at least that count. */
  predicate Reached(store: Store, key: Key, limit: nat, now: nat) {
    && key in store && store[key].count >= limit
    && (store[key].deadline.Some? ==> now < store[key].deadline.value)
  }

  /** The lock is on exactly when one of the two counters has reached its limit. */
  lemma LockedExactly(store: Store, policy: Policy, username: Id, ip: Id, now: nat)
    ensures LockedOut(store, policy, username, ip, now) <==>
              || Reached(store, FailedUsername(username), policy.threshold, now)
              || Reached(store, FailedIp(ip), 2 * policy.threshold, now)
  {
  }

  /** One failure more on both counters; a new counter starts the lockout; no other counter changes. */
  lemma RecordedExactly(store: Store, policy: Policy, username: Id, ip: Id, now: nat)
    ensures var t := Recorded(store, policy, username, ip, now);
            && t.Keys == store.Keys + {FailedUsername(username), FailedIp(ip)}
            && (forall key :: key in store && key != FailedUsername(username) && key != FailedIp(ip) ==> t[key] == store[key])
            && forall key :: key == FailedUsername(username) || key == FailedIp(ip) ==>
                 && t[key].count == (if Reached(store, key, 0, now) then store[key].count + 1 else 1)
                 && (t[key].count == 1 && policy.duration > 0 ==> t[key].deadline == Some(now + policy.duration))
                 && (t[key].count > 1 ==> t[key].deadline == store[key].deadline)
  {
  }

  class Service {
    const redis: Connection
    const policy: Policy

    constructor (redis: Connection, policy: Policy)
      ensures this.redis == redis && this.policy == policy
    {
      this.redis := redis;
      this.policy := policy;
    }

    method RecordFailedAttempt(username: Id, ip: Id, now: nat)
      modifies redis
      ensures redis.store == Recorded(old(redis.store), policy, username, ip, now)
    {
      CountedTogether(redis.store, policy, username, ip, now);
      hide Incr, Expire, Count, Recorded;
      var usernameKey, ipKey := FailedUsername(username), FailedIp(ip);
      var usernameCount := redis.INCR(usernameKey, now);
      var ipCount := redis.INCR(ipKey, now);
      if usernameCount == 1 {
        redis.EXPIRE(usernameKey, policy.duration, now);
      }
      if ipCount == 1 {
        redis.EXPIRE(ipKey, policy.duration, now);
      }
    }

    method IsLockedOut(username: Id, ip: Id, now: nat) returns (locked: bool)
      ensures locked <==> LockedOut(redis.store, policy, username, ip, now)
      ensures locked <==>
                || Reached(redis.store, FailedUsername(username), policy.threshold, now)
                || Reached(redis.store, FailedIp(ip), 2 * policy.threshold, now)
    {
      var usernameCount := redis.GET(FailedUsername(username), now);
      if usernameCount.Some? && usernameCount.value >= policy.threshold {
        return true;
      }
      var ipCount := redis.GET(FailedIp(ip), now);
      return ipCount.Some? && ipCount.value >= policy.threshold * 2;
    }

    method ResetFailedAttempts(username: Id, ip: Id)
      modifies redis
      ensures redis.store == Cleared(old(redis.store), username, ip)
      ensures redis.store == old(redis.store) - {FailedUsername(username), FailedIp(ip)}
    {
      redis.DEL({FailedUsername(username), FailedIp(ip)});
    }

    method GetFailedAttemptsCount(username: Id, now: nat) returns (count: nat)
      ensures count == Count(redis.store, FailedUsername(username), now)
    {
      var stored := redis.GET(FailedUsername(username), now);
      count := if stored.Some? then stored.value else 0;
    }
  }

  // ---- Runs of guarded attempts --------------------------------------------------------------

  /** A handler checks the lock, then authenticates, then records the failure or resets. */
  datatype Op =
    | Tick(elapsed: nat)
    | Attempt(username: Id, ip: Id, succeeds: bool)

  datatype State = State(now: nat, store: Store)

  predicate Refused(s: State, policy: Policy, op: Op) {
    op.Attempt? && LockedOut(s.store, policy, op.username, op.ip, s.now)
  }

  function Step(s: State, policy: Policy, op: Op): State {
    match op
    case Tick(elapsed) => s.(now := s.now + elapsed)
    case Attempt(username, ip, succeeds) =>
      if LockedOut(s.store, policy, username, ip, s.now) then s
      else if succeeds then s.(store := Cleared(s.store, username, ip))
      else s.(store := Recorded(s.store, policy, username, ip, s.now))
  }

  function Run(s: State, policy: Policy, ops: seq<Op>): State
    decreases |ops|
  {
    if ops == [] then s else Run(Step(s, policy, ops[0]), policy, ops[1..])
  }

  // ---- Counters stay at their thresholds ------------------------------------------------------

  function Cap(policy: Policy, key: Key): nat {
    if key.FailedIp? then policy.threshold * 2 else policy.threshold
  }

  /** Every counter is between 1 and its threshold and has a deadline at most one lockout away. */
  ghost predicate Capped(s: State, policy: Policy) {
    forall key :: key in s.store ==>
      && 1 <= s.store[key].count <= Cap(policy, key)
      && s.store[key].deadline.Some?
      && s.store[key].deadline.value <= s.now + policy.duration
  }

  lemma BumpCapped(s: State, policy: Policy, key: Key)
    requires policy.threshold >= 1 && policy.duration >= 1 && Capped(s, policy)
    requires Exists(s.store, key, s.now) ==> s.store[key].count < Cap(policy, key)
    ensures Capped(s.(store := Bump(s.store, key, policy.duration, s.now)), policy)
  {
  }

  lemma StepCapped(s: State, policy: Policy, op: Op)
    requires policy.threshold >= 1 && policy.duration >= 1 && Capped(s, policy)
    ensures Capped(Step(s, policy, op), policy)
  {
    if op.Attempt? && !Refused(s, policy, op) && !op.succeeds {
      BumpCapped(s, policy, FailedUsername(op.username));
      var first := s.(store := Bump(s.store, FailedUsername(op.username), policy.duration, s.now));
      BumpCapped(first, policy, FailedIp(op.ip));
    }
  }

  /** A lockout later, with nothing else recorded, nobody is locked any more. */
  lemma LockRunsOut(s: State, policy: Policy, username: Id, ip: Id)
    requires policy.threshold >= 1 && policy.duration >= 1 && Capped(s, policy)
    ensures var t := Step(s, policy, Tick(policy.duration)); !LockedOut(t.store, policy, username, ip, t.now)
  {
  }

  /** Locked requests are turned away before they are recorded, so no counter ever passes its threshold. */
  lemma {:induction false} RunCapped(s: State, policy: Policy, ops: seq<Op>)
    requires policy.threshold >= 1 && policy.duration >= 1 && Capped(s, policy)
    ensures Capped(Run(s, policy, ops), policy)
    decreases |ops|
  {
    if ops == [] {
    } else {
      StepCapped(s, policy, ops[0]);
      RunCapped(Step(s, policy, ops[0]), policy, ops[1..]);
    }
  }

  // ---- A lock holds ---------------------------------------------------------------------------

  /** The counters that decide about an attempt. */
  predicate Decides(key: Key, username: Id, ip: Id) {
    key == FailedUsername(username) || key == FailedIp(ip)
  }

  lemma LockStays(s: State, policy: Policy, op: Op, key: Key)
    requires key.FailedUsername? || key.FailedIp?
    requires Exists(s.store, key, s.now) && s.store[key].count >= Cap(policy, key)
    ensures key in Step(s, policy, op).store && Step(s, policy, op).store[key] == s.store[key]
  {
  }

  lemma {:induction false} TimePasses(s: State, policy: Policy, ops: seq<Op>)
    ensures s.now <= Run(s, policy, ops).now
    decreases |ops|
  {
    if ops == [] {
    } else {
      TimePasses(Step(s, policy, ops[0]), policy, ops[1..]);
    }
  }

  /** Once a username or an address has reached its threshold, nothing anyone attempts lifts the lock before its deadline. */
  lemma {:induction false} LockHolds(s: State, policy: Policy, ops: seq<Op>, key: Key, username: Id, ip: Id)
    requires Decides(key, username, ip)
    requires Exists(s.store, key, s.now) && s.store[key].count >= Cap(policy, key) && s.store[key].deadline.Some?
    ensures var t := Run(s, policy, ops);
            t.now < s.store[key].deadline.value ==> LockedOut(t.store, policy, username, ip, t.now)
    decreases |ops|
  {
    if ops == [] {
    } else {
      var next := Step(s, policy, ops[0]);
      TimePasses(next, policy, ops[1..]);
      if next.now < s.store[key].deadline.value {
        LockStays(s, policy, ops[0], key);
        LockHolds(next, policy, ops[1..], key, username, ip);
      }
    }
  }

  // ---- Failed authentications per lockout interval ---------------------------------------------

  function NextFailures(s: State, policy: Policy, op: Op, username: Id, sofar: seq<FixedWindow.Hit>): seq<FixedWindow.Hit> {
    if !op.Attempt? || op.username != username || Refused(s, policy, op) then sofar
    else if op.succeeds then []
    else sofar + [FixedWindow.Hit(s.now, Count(s.store, FailedUsername(username), s.now) + 1)]
  }

  /** The recorded failures of a username since its last reset, in order. */
  function Failures(s: State, policy: Policy, ops: seq<Op>, username: Id, sofar: seq<FixedWindow.Hit>): seq<FixedWindow.Hit>
    decreases |ops|
  {
    if ops == [] then sofar
    else Failures(Step(s, policy, ops[0]), policy, ops[1..], username, NextFailures(s, policy, ops[0], username, sofar))
  }

  lemma BumpTracks(
    hits: seq<FixedWindow.Hit>, limit: nat, window: nat, store: Store, key: Key, now: nat)
    requires limit >= 1 && FixedWindow.Tracks(hits, limit, window, store, key, now)
    requires key in store ==> store[key].count >= 1
    ensures FixedWindow.Tracks(
              FixedWindow.AddHit(hits, limit, now, Count(store, key, now) + 1), limit, window,
              Bump(store, key, window, now), key, now)
  {
    hide FixedWindow.Tracks;
    var counted := Incr(store, key, now);
    FixedWindow.IncrTracks(hits, limit, window, store, key, now);
    if Count(counted, key, now) == 1 {
      var longer := FixedWindow.AddHit(hits, limit, now, 1);
      FixedWindow.ExpireTracks(longer, limit, window, counted, key, now);
    }
  }

  lemma BumpOther(store: Store, key: Key, other: Key, ttl: nat, now: nat)
    requires key != other
    ensures other in Bump(store, key, ttl, now) <==> other in store
    ensures other in store ==> Bump(store, key, ttl, now)[other] == store[other]
  {
  }

  lemma FailureTracks(s: State, policy: Policy, username: Id, ip: Id, sofar: seq<FixedWindow.Hit>)
    requires policy.threshold >= 1 && Capped(s, policy)
    requires !LockedOut(s.store, policy, username, ip, s.now)
    requires FixedWindow.Tracks(sofar, policy.threshold, policy.duration, s.store, FailedUsername(username), s.now)
    ensures FixedWindow.Tracks(
              sofar + [FixedWindow.Hit(s.now, Count(s.store, FailedUsername(username), s.now) + 1)],
              policy.threshold, policy.duration,
              Recorded(s.store, policy, username, ip, s.now), FailedUsername(username), s.now)
  {
    hide FixedWindow.Tracks, Bump;
    var key := FailedUsername(username);
    var bumped := Bump(s.store, key, policy.duration, s.now);
    var longer := sofar + [FixedWindow.Hit(s.now, Count(s.store, key, s.now) + 1)];
    BumpTracks(sofar, policy.threshold, policy.duration, s.store, key, s.now);
    assert longer == FixedWindow.AddHit(sofar, policy.threshold, s.now, Count(s.store, key, s.now) + 1);
    BumpOther(bumped, FailedIp(ip), key, policy.duration, s.now);
    FixedWindow.FrameTracks(longer, policy.threshold, policy.duration, bumped, key, s.now,
      Recorded(s.store, policy, username, ip, s.now), s.now);
  }

  /** What other usernames do, what is refused and the passing of time leave a username's counter alone. */
  lemma OthersKeep(s: State, policy: Policy, op: Op, username: Id)
    requires op.Attempt? && op.username == username ==> Refused(s, policy, op)
    ensures var t, key := Step(s, policy, op), FailedUsername(username);
            && s.now <= t.now
            && (key in t.store <==> key in s.store)
            && (key in s.store ==> t.store[key] == s.store[key])
  {
  }

  lemma StepTracks(s: State, policy: Policy, op: Op, username: Id, sofar: seq<FixedWindow.Hit>)
    requires policy.threshold >= 1 && Capped(s, policy)
    requires FixedWindow.Tracks(sofar, policy.threshold, policy.duration, s.store, FailedUsername(username), s.now)
    ensures FixedWindow.Tracks(
              NextFailures(s, policy, op, username, sofar), policy.threshold, policy.duration,
              Step(s, policy, op).store, FailedUsername(username), Step(s, policy, op).now)
  {
    hide Capped, Recorded, LockedOut;
    var key, t := FailedUsername(username), Step(s, policy, op);
    if !op.Attempt? || op.username != username || Refused(s, policy, op) {
      OthersKeep(s, policy, op, username);
      hide FixedWindow.Tracks, Step;
      FixedWindow.FrameTracks(sofar, policy.threshold, policy.duration, s.store, key, s.now, t.store, t.now);
    } else if op.succeeds {
      assert key !in t.store;
    } else {
      hide FixedWindow.Tracks;
      FailureTracks(s, policy, username, op.ip, sofar);
    }
  }

  lemma {:induction false} RunTracks(s: State, policy: Policy, ops: seq<Op>, username: Id, sofar: seq<FixedWindow.Hit>)
    requires policy.threshold >= 1 && policy.duration >= 1 && Capped(s, policy)
    requires FixedWindow.Tracks(sofar, policy.threshold, policy.duration, s.store, FailedUsername(username), s.now)
    ensures FixedWindow.Windowed(Failures(s, policy, ops, username, sofar), policy.threshold, policy.duration)
    decreases |ops|
  {
    if ops == [] {
    } else {
      StepTracks(s, policy, ops[0], username, sofar);
      StepCapped(s, policy, ops[0]);
      hide FixedWindow.Tracks, Capped;
      RunTracks(Step(s, policy, ops[0]), policy, ops[1..], username, NextFailures(s, policy, ops[0], username, sofar));
    }
  }

  /** Since its last reset a username sees at most 2 * threshold - 1 failed authentications
      in any interval of one lockout duration, whatever the IPs. */
  lemma FailuresPerLockout(now: nat, policy: Policy, ops: seq<Op>, username: Id, from: nat)
    requires policy.threshold >= 1 && policy.duration >= 1
    ensures var failures := Failures(State(now, map[]), policy, ops, username, []);
            |FixedWindow.Within(failures, from, policy.duration)| <= 2 * policy.threshold - 1
  {
    var s0 := State(now, map[]);
    RunTracks(s0, policy, ops, username, []);
    FixedWindow.AtMostTwoLimitsLessOne(
      Failures(s0, policy, ops, username, []), policy.threshold, policy.duration, from);
  }
}
