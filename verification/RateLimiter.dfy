/** The rate limiter, and what it guarantees when the INCR and EXPIRE of many requests interleave. */
module RateLimiter {
  import opened Common
  import opened Redis
  import FixedWindow

  const RATE_LIMIT_PER_IP := 5
  const RATE_LIMIT_PER_USERNAME := 10

  class Service {
    const redis: Connection

    constructor (redis: Connection)
      ensures this.redis == redis
    {
      this.redis := redis;
    }

    method CheckRateLimitIp(ip: Id, limit: Option<int>, window: nat, now: nat) returns (allowed: bool, remaining: nat)
      modifies redis
      ensures redis.store == Bump(old(redis.store), RateLimitIp(ip), Micros(window), now)
      ensures var limit := if limit.Some? then limit.value else 5;
              var used := Count(old(redis.store), RateLimitIp(ip), now);
              && (allowed <==> used < limit)
              && remaining == if allowed then limit - used - 1 else 0
    {
      var effective := if limit.Some? then limit.value else RATE_LIMIT_PER_IP;
      allowed, remaining := Check(RateLimitIp(ip), effective, window, now);
    }

    method CheckRateLimitUsername(username: Id, limit: Option<int>, window: nat, now: nat)
      returns (allowed: bool, remaining: nat)
      modifies redis
      ensures redis.store == Bump(old(redis.store), RateLimitUsername(username), Micros(window), now)
      ensures var limit := if limit.Some? then limit.value else 10;
              var used := Count(old(redis.store), RateLimitUsername(username), now);
              && (allowed <==> used < limit)
              && remaining == if allowed then limit - used - 1 else 0
    {
      var effective := if limit.Some? then limit.value else RATE_LIMIT_PER_USERNAME;
      allowed, remaining := Check(RateLimitUsername(username), effective, window, now);
    }

    method Check(key: Key, limit: int, window: nat, now: nat) returns (allowed: bool, remaining: nat)
      modifies redis
      ensures redis.store == Bump(old(redis.store), key, Micros(window), now)
      ensures allowed <==> Count(old(redis.store), key, now) < limit
      ensures remaining == if allowed then limit - Count(old(redis.store), key, now) - 1 else 0
    {
      var current := redis.INCR(key, now);
      if current == 1 {
        redis.EXPIRE(key, Micros(window), now);
      }
      allowed := current <= limit;
      remaining := if limit - current > 0 then limit - current else 0;
    }

    method Reset(key: Key)
      modifies redis
      ensures redis.store == old(redis.store) - {key}
    {
      redis.DEL({key});
    }
  }

  // ---- Interleaved requests ----------------------------------------------------------------

  /** One INCR of the run: what it counted, when, and the value it read back. */
  datatype Counted = Counted(key: Key, at: nat, value: nat)

  /** `pending` are the requests that read 1 and have their EXPIRE still to do; `counted` records every INCR. */
  datatype State = State(now: nat, store: Store, pending: map<Id, Key>, counted: seq<Counted>)

  datatype Op =
    | Tick(elapsed: nat)
    | Begin(request: Id, key: Key)
    | Finish(request: Id)
    | Reset(key: Key)

  predicate Legal(s: State, op: Op) { op.Begin? ==> op.request !in s.pending }

  function Step(s: State, op: Op, window: nat): State {
    match op
    case Tick(elapsed) => s.(now := s.now + elapsed)
    case Begin(request, key) =>
      var store := Incr(s.store, key, s.now);
      var value := Count(store, key, s.now);
      s.(store := store,
         pending := if value == 1 then s.pending[request := key] else s.pending,
         counted := s.counted + [Counted(key, s.now, value)])
    case Finish(request) =>
      if request !in s.pending then s
      else s.(store := Expire(s.store, s.pending[request], window, s.now), pending := s.pending - {request})
    case Reset(key) => s.(store := s.store - {key})
  }

  function Run(s: State, ops: seq<Op>, window: nat): State
    decreases |ops|
  {
    if ops == [] then s else Run(Step(s, ops[0], window), ops[1..], window)
  }

  predicate LegalRun(s: State, ops: seq<Op>, window: nat)
    decreases |ops|
  {
    ops != [] ==> Legal(s, ops[0]) && LegalRun(Step(s, ops[0], window), ops[1..], window)
  }

  predicate Initial(s: State) { s.store == map[] && s.pending == map[] && s.counted == [] }

  // ---- No counter is left without an expiry -------------------------------------------------

  /** A counter without deadline has a request that will still set it, and no deadline is further than a window away. */
  ghost predicate WillExpire(s: State, window: nat) {
    && (forall key :: key in s.store && s.store[key].deadline.None? ==>
          exists request :: request in s.pending && s.pending[request] == key)
    && (forall key :: key in s.store && s.store[key].deadline.Some? ==> s.store[key].deadline.value <= s.now + window)
  }

  lemma StepWillExpire(s: State, op: Op, window: nat)
    requires WillExpire(s, window) && Legal(s, op)
    ensures WillExpire(Step(s, op, window), window)
  {
    var t := Step(s, op, window);
    forall key | key in t.store && t.store[key].deadline.None?
      ensures exists request :: request in t.pending && t.pending[request] == key
    {
      if op.Begin? && op.key == key && !Exists(s.store, key, s.now) {
        assert t.pending[op.request] == key;
      } else {
        var request :| request in s.pending && s.pending[request] == key;
        assert t.pending[request] == key;
      }
    }
  }

  /** For any interleaving of requests, expiries and resets: once all requests have finished,
      every counter that exists goes away within a window. */
  lemma {:induction false} RunWillExpire(s: State, ops: seq<Op>, window: nat)
    requires WillExpire(s, window) && LegalRun(s, ops, window)
    ensures WillExpire(Run(s, ops, window), window)
    ensures var t := Run(s, ops, window);
            t.pending == map[] ==>
              forall key :: key in t.store ==>
                t.store[key].deadline.Some? && t.store[key].deadline.value <= t.now + window
    decreases |ops|
  {
    if ops == [] {
    } else {
      StepWillExpire(s, ops[0], window);
      RunWillExpire(Step(s, ops[0], window), ops[1..], window);
    }
  }

  // ---- The bound on allowed requests --------------------------------------------------------

  /** The allowed requests of one key, in order. */
  function Allowed(counted: seq<Counted>, key: Key, limit: nat): seq<FixedWindow.Hit> {
    if counted == [] then []
    else
      var last := counted[|counted| - 1];
      var before := Allowed(counted[..|counted| - 1], key, limit);
      if last.key == key then FixedWindow.AddHit(before, limit, last.at, last.value) else before
  }

  /** Without a reset, the requests about to set a key's deadline find it without one, and there is one at most. */
  ghost predicate OnePending(s: State, key: Key) {
    && (forall request :: request in s.pending && s.pending[request] == key ==>
          key in s.store && s.store[key].deadline.None?)
    && (forall request, other :: request in s.pending && other in s.pending && request != other ==>
          s.pending[request] != key || s.pending[other] != key)
    && (key in s.store ==> s.store[key].count >= 1)
  }

  /** What links a key's counter to its allowed requests, as long as nothing resets it. */
  ghost predicate Bounded(s: State, key: Key, limit: nat, window: nat) {
    && FixedWindow.Tracks(Allowed(s.counted, key, limit), limit, window, s.store, key, s.now)
    && OnePending(s, key)
  }

  lemma StepOnePending(s: State, op: Op, key: Key, window: nat)
    requires OnePending(s, key) && Legal(s, op) && op != Reset(key)
    ensures OnePending(Step(s, op, window), key)
  {
  }

  lemma StepTracks(s: State, op: Op, key: Key, limit: nat, window: nat)
    requires limit >= 1 && Bounded(s, key, limit, window) && op != Reset(key)
    ensures var t := Step(s, op, window);
            FixedWindow.Tracks(Allowed(t.counted, key, limit), limit, window, t.store, key, t.now)
  {
    var t := Step(s, op, window);
    var hits := Allowed(s.counted, key, limit);
    hide FixedWindow.Tracks;
    if op.Begin? && op.key == key {
      assert t.counted[..|t.counted| - 1] == s.counted;
      FixedWindow.IncrTracks(hits, limit, window, s.store, key, s.now);
    } else if op.Finish? && op.request in s.pending && s.pending[op.request] == key {
      FixedWindow.ExpireTracks(hits, limit, window, s.store, key, s.now);
    } else {
      assert op.Begin? ==> t.counted[..|t.counted| - 1] == s.counted;
      FixedWindow.FrameTracks(hits, limit, window, s.store, key, s.now, t.store, t.now);
    }
  }

  lemma {:induction false} RunBounded(s: State, ops: seq<Op>, key: Key, limit: nat, window: nat)
    requires limit >= 1 && Bounded(s, key, limit, window) && LegalRun(s, ops, window) && Reset(key) !in ops
    ensures Bounded(Run(s, ops, window), key, limit, window)
    decreases |ops|
  {
    if ops == [] {
    } else {
      StepTracks(s, ops[0], key, limit, window);
      StepOnePending(s, ops[0], key, window);
      RunBounded(Step(s, ops[0], window), ops[1..], key, limit, window);
    }
  }

  /** However requests interleave, a key that is not reset has at most 2 * limit - 1 allowed requests
      in any half-open interval of one window. */
  lemma AllowedPerWindow(s0: State, ops: seq<Op>, key: Key, limit: nat, window: nat, from: nat)
    requires limit >= 1
    requires Initial(s0) && LegalRun(s0, ops, window) && Reset(key) !in ops
    ensures |FixedWindow.Within(Allowed(Run(s0, ops, window).counted, key, limit), from, window)| <= 2 * limit - 1
  {
    RunBounded(s0, ops, key, limit, window);
    FixedWindow.AtMostTwoLimitsLessOne(Allowed(Run(s0, ops, window).counted, key, limit), limit, window, from);
  }

  // ---- The bound is tight -------------------------------------------------------------------

  /** An uninterrupted check is a Begin directly followed by its Finish. */
  lemma CheckIsBeginFinish(s: State, request: Id, key: Key, window: nat)
    requires request !in s.pending
    ensures var t := Run(s, [Begin(request, key), Finish(request)], window);
            t.store == Bump(s.store, key, window, s.now) && t.pending == s.pending
  {
    var begun := Step(s, Begin(request, key), window);
    assert [Begin(request, key), Finish(request)][1..] == [Finish(request)];
    assert Run(begun, [Finish(request)], window) == Step(begun, Finish(request), window);
    assert begun.pending - {request} == s.pending;
  }

  /** After a reset the next request of that key, and of no other, counts from one again. */
  lemma ResetStartsAnew(s: State, request: Id, key: Key, reset: Key, window: nat)
    ensures var t := Step(Step(s, Reset(reset), window), Begin(request, key), window);
            && |t.counted| == |s.counted| + 1
            && t.counted[|s.counted|] == Counted(key, s.now, if key == reset then 1 else Count(s.store, key, s.now) + 1)
  {
  }

  lemma {:induction false} Concat(s: State, a: seq<Op>, b: seq<Op>, window: nat)
    ensures Run(s, a + b, window) == Run(Run(s, a, window), b, window)
    ensures LegalRun(s, a + b, window) <==> LegalRun(s, a, window) && LegalRun(Run(s, a, window), b, window)
    decreases |a|
  {
    if a == [] {
      assert a + b == b;
    } else {
      assert (a + b)[1..] == a[1..] + b;
      Concat(Step(s, a[0], window), a[1..], b, window);
    }
  }

  function Repeat(op: Op, n: nat): seq<Op> { seq(n, _ => op) }

  /** A burst of requests on a live counter just counts on. */
  lemma {:induction false} Burst(s: State, key: Key, n: nat, window: nat)
    requires Exists(s.store, key, s.now) && s.store[key].count >= 1 && s.pending == map[]
    ensures var t := Run(s, Repeat(Begin(Blank, key), n), window);
            var count := s.store[key].count;
            && LegalRun(s, Repeat(Begin(Blank, key), n), window)
            && t == State(s.now, s.store[key := s.store[key].(count := count + n)], map[],
                          s.counted + seq(n, i requires i >= 0 => Counted(key, s.now, count + 1 + i)))
    decreases n
  {
    var count := s.store[key].count;
    if n > 0 {
      var next := Step(s, Begin(Blank, key), window);
      assert Repeat(Begin(Blank, key), n)[1..] == Repeat(Begin(Blank, key), n - 1);
      Burst(next, key, n - 1, window);
      assert next.counted + seq(n - 1, i requires i >= 0 => Counted(key, s.now, count + 2 + i))
          == s.counted + seq(n, i requires i >= 0 => Counted(key, s.now, count + 1 + i));
    }
  }

  lemma {:induction false} AllAllowed(counted: seq<Counted>, key: Key, limit: nat)
    requires forall i :: 0 <= i < |counted| ==> counted[i].key == key && counted[i].value <= limit
    ensures var hits := Allowed(counted, key, limit);
            && |hits| == |counted|
            && forall i :: 0 <= i < |counted| ==> hits[i].at == counted[i].at
    decreases |counted|
  {
    if counted == [] {
    } else {
      AllAllowed(counted[..|counted| - 1], key, limit);
    }
  }

  /** One hit at the start of a window, then limit - 1 at its last instant and limit at the next. */
  lemma TightCount(counted: seq<Counted>, key: Key, limit: nat, window: nat)
    requires limit >= 1 && window >= 2 && |counted| == 2 * limit
    requires forall i :: 0 <= i < |counted| ==> counted[i].key == key && counted[i].value <= limit
    requires forall i :: 0 <= i < |counted| ==>
               counted[i].at == if i == 0 then 0 else if i < limit then window - 1 else window
    ensures |FixedWindow.Within(Allowed(counted, key, limit), window - 1, window)| == 2 * limit - 1
  {
    AllAllowed(counted, key, limit);
    FixedWindow.RangeSize(FixedWindow.Within(Allowed(counted, key, limit), window - 1, window), 1, 2 * limit - 1);
  }

  lemma OpeningRequest(s0: State, key: Key, window: nat)
    requires Initial(s0) && s0.now == 0 && window >= 1
    ensures var early := [Begin(Blank, key), Finish(Blank), Tick(window - 1)];
            && LegalRun(s0, early, window)
            && Run(s0, early, window)
               == State(window - 1, map[key := Counter(1, Some(window))], map[], [Counted(key, 0, 1)])
  {
    var early := [Begin(Blank, key), Finish(Blank), Tick(window - 1)];
    assert early[1..] == [Finish(Blank), Tick(window - 1)] && early[1..][1..] == [Tick(window - 1)];
    var begun := Step(s0, early[0], window);
    var finished := Step(begun, early[1], window);
    assert finished.pending == map[];
    assert Run(finished, [Tick(window - 1)], window) == Step(finished, Tick(window - 1), window);
    assert Run(begun, early[1..], window) == Run(finished, [Tick(window - 1)], window);
    assert LegalRun(finished, [Tick(window - 1)], window) && LegalRun(begun, early[1..], window);
  }

  lemma NextWindow(s: State, key: Key, window: nat)
    requires s.pending == map[] && s.store.Keys == {key} && s.store[key].deadline == Some(s.now + 1)
    ensures var late := [Tick(1), Begin(Blank, key), Finish(Blank)];
            && LegalRun(s, late, window)
            && Run(s, late, window)
               == State(s.now + 1, map[key := Counter(1, Some(s.now + 1 + window))], map[],
                        s.counted + [Counted(key, s.now + 1, 1)])
  {
    var late := [Tick(1), Begin(Blank, key), Finish(Blank)];
    assert late[1..] == [Begin(Blank, key), Finish(Blank)] && late[1..][1..] == [Finish(Blank)];
    var ticked := Step(s, late[0], window);
    var begun := Step(ticked, late[1], window);
    var finished := Step(begun, late[2], window);
    assert finished.pending == map[];
    assert Run(begun, [Finish(Blank)], window) == finished;
    assert Run(ticked, late[1..], window) == Run(begun, [Finish(Blank)], window);
    assert LegalRun(begun, [Finish(Blank)], window) && LegalRun(ticked, late[1..], window);
  }

  /** One early request, a burst at the end of its window and a full window right after: 2 * limit - 1 allowed
      requests within one window's time. */
  lemma BoundIsReached(key: Key, limit: nat, window: nat) returns (s0: State, ops: seq<Op>, from: nat)
    requires limit >= 1 && window >= 2
    ensures Initial(s0) && LegalRun(s0, ops, window) && Reset(key) !in ops
    ensures |FixedWindow.Within(Allowed(Run(s0, ops, window).counted, key, limit), from, window)| == 2 * limit - 1
  {
    hide Run, LegalRun, Step, Allowed, FixedWindow.Within;
    s0 := State(0, map[], map[], []);
    from := window - 1;
    var early := [Begin(Blank, key), Finish(Blank), Tick(window - 1)];
    var late := [Tick(1), Begin(Blank, key), Finish(Blank)];
    var burst := Repeat(Begin(Blank, key), limit - 1);
    var s1 := State(window - 1, map[key := Counter(1, Some(window))], map[], [Counted(key, 0, 1)]);
    OpeningRequest(s0, key, window);
    Burst(s1, key, limit - 1, window);
    var s2 := Run(s1, burst, window);
    var s3 := State(window, map[key := Counter(1, Some(2 * window))], map[], s2.counted + [Counted(key, window, 1)]);
    NextWindow(s2, key, window);
    Burst(s3, key, limit - 1, window);
    var s4 := Run(s3, burst, window);
    ops := early + burst + late + burst;
    Concat(s0, early, burst, window);
    Concat(s0, early + burst, late, window);
    Concat(s0, early + burst + late, burst, window);
    TightCount(s4.counted, key, limit, window);
  }
}
