/**
 Fixed-window counting: how often a counter that is incremented on every hit, and expires a window
 after it was new, can stay within its limit.
 */
module FixedWindow {
  import opened Redis

  /** A hit within the limit: its instant and the value the counter showed. */
  datatype Hit = Hit(at: nat, value: nat)

  /** Hits count 1, 2, ... from each start of a window, and starts are at least a window apart. */
  ghost predicate Windowed(hits: seq<Hit>, limit: nat, window: nat) {
    && (hits != [] ==> hits[0].value == 1)
    && (forall i :: 0 <= i < |hits| ==> 1 <= hits[i].value <= limit)
    && (forall i, k :: 0 <= i < k < |hits| && k == i + 1 ==> hits[k].value in {1, hits[i].value + 1})
    && (forall i, k :: 0 <= i < k < |hits| ==> hits[i].at <= hits[k].at)
    && (forall i, k :: 0 <= i < k < |hits| && hits[i].value == hits[k].value == 1 ==> hits[i].at + window <= hits[k].at)
  }

  /** Among any `limit` hits in a row after hit `i` there is a new start. */
  lemma {:induction false} NextStart(hits: seq<Hit>, limit: nat, window: nat, i: nat, n: nat) returns (start: nat)
    requires Windowed(hits, limit, window) && i < |hits|
    requires hits[i].value + n == limit && i + n + 1 < |hits|
    ensures i < start <= i + n + 1 && hits[start].value == 1
    decreases n
  {
    start := i + 1;
    if hits[start].value != 1 {
      assert hits[start].value == hits[i].value + 1;
      start := NextStart(hits, limit, window, i + 1, n - 1);
    }
  }

  /** Any 2 * limit hits in a row span at least a window. */
  lemma TwoLimitsSpanWindow(hits: seq<Hit>, limit: nat, window: nat, i: nat)
    requires limit >= 1 && Windowed(hits, limit, window)
    requires i + 2 * limit - 1 < |hits|
    ensures forall k :: i + 2 * limit - 1 <= k < |hits| ==> hits[i].at + window <= hits[k].at
  {
    var next := NextStart(hits, limit, window, i, limit - hits[i].value);
    if hits[i].value != 1 {
      var second := NextStart(hits, limit, window, next, limit - 1);
      assert hits[next].at + window <= hits[second].at;
    }
  }

  /** The hits of the half-open interval from `from` of length `window`. */
  ghost function Within(hits: seq<Hit>, from: nat, window: nat): set<nat> {
    set i: nat | i < |hits| && from <= hits[i].at < from + window
  }

  lemma {:induction false} RangeSize(s: set<nat>, low: nat, n: nat)
    requires forall i :: i in s ==> low <= i < low + n
    ensures |s| <= n
    ensures (forall i :: low <= i < low + n ==> i in s) ==> |s| == n
  {
    if n == 0 {
      assert s == {};
    } else {
      var last := low + n - 1;
      RangeSize(s - {last}, low, n - 1);
      assert last in s ==> s == s - {last} + {last};
      assert last !in s ==> s == s - {last};
    }
  }

  lemma Least(s: set<nat>) returns (low: nat)
    requires s != {}
    ensures low in s && forall i :: i in s ==> low <= i
  {
    low :| low in s;
    var rest := s - {low};
    assert s == rest + {low};
    if rest != {} {
      var other := Least(rest);
      low := if other < low then other else low;
    }
  }

  /** The tight bound: at most 2 * limit - 1 hits in any interval of one window. */
  lemma AtMostTwoLimitsLessOne(hits: seq<Hit>, limit: nat, window: nat, from: nat)
    requires limit >= 1 && Windowed(hits, limit, window)
    ensures |Within(hits, from, window)| <= 2 * limit - 1
  {
    var s := Within(hits, from, window);
    if s != {} {
      var low := Least(s);
      if low + 2 * limit - 1 < |hits| {
        TwoLimitsSpanWindow(hits, limit, window, low);
      }
      RangeSize(s, low, 2 * limit - 1);
    }
  }

  // ---- The counter behind the hits ---------------------------------------------------------

  /** The stored counter agrees with the hits so far: it shows the last value, and it outlives the
      window of every start. */
  ghost predicate Tracks(hits: seq<Hit>, limit: nat, window: nat, store: Store, key: Key, now: nat) {
    && Windowed(hits, limit, window)
    && (hits == [] <==> key !in store)
    && (hits != [] ==>
          && store[key].count >= 1
          && hits[|hits| - 1].value == (if store[key].count <= limit then store[key].count else limit)
          && hits[|hits| - 1].at <= now
          && (store[key].deadline.Some? ==>
                forall i :: 0 <= i < |hits| && hits[i].value == 1 ==> hits[i].at + window <= store[key].deadline.value))
  }

  function AddHit(hits: seq<Hit>, limit: nat, at: nat, value: nat): seq<Hit> {
    if value <= limit then hits + [Hit(at, value)] else hits
  }

  lemma AppendWindowed(hits: seq<Hit>, limit: nat, window: nat, hit: Hit)
    requires Windowed(hits, limit, window)
    requires 1 <= hit.value <= limit
    requires hits == [] ==> hit.value == 1
    requires hits != [] ==> hit.value in {1, hits[|hits| - 1].value + 1} && hits[|hits| - 1].at <= hit.at
    requires hit.value == 1 ==> forall i :: 0 <= i < |hits| && hits[i].value == 1 ==> hits[i].at + window <= hit.at
    ensures Windowed(hits + [hit], limit, window)
  {
    var more := hits + [hit];
    assert forall i :: 0 <= i < |hits| ==> more[i] == hits[i];
    assert hits != [] ==> forall i :: 0 <= i < |hits| ==> hits[i].at <= hits[|hits| - 1].at;
  }

  lemma IncrTracks(hits: seq<Hit>, limit: nat, window: nat, store: Store, key: Key, now: nat)
    requires limit >= 1 && Tracks(hits, limit, window, store, key, now)
    ensures var after := Incr(store, key, now);
            Tracks(AddHit(hits, limit, now, Count(after, key, now)), limit, window, after, key, now)
  {
    hide Windowed;
    var value := Count(Incr(store, key, now), key, now);
    if value <= limit {
      AppendWindowed(hits, limit, window, Hit(now, value));
    }
  }

  lemma ExpireTracks(hits: seq<Hit>, limit: nat, window: nat, store: Store, key: Key, now: nat)
    requires Tracks(hits, limit, window, store, key, now)
    requires key in store ==> store[key].deadline.None?
    ensures Tracks(hits, limit, window, Expire(store, key, window, now), key, now)
  {
    assert forall i :: 0 <= i < |hits| ==> hits[i].at <= hits[|hits| - 1].at;
  }

  /** Time passing and other keys' changes do not matter. */
  lemma FrameTracks(
    hits: seq<Hit>, limit: nat, window: nat, store: Store, key: Key, now: nat, after: Store, later: nat)
    requires Tracks(hits, limit, window, store, key, now) && now <= later
    requires key in after <==> key in store
    requires key in store ==> after[key] == store[key]
    ensures Tracks(hits, limit, window, after, key, later)
  {
  }
}
