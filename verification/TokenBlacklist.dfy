/** The token blacklist: expiring keys per revoked jti and an expiring index of jtis per user. */
module TokenBlacklist {
  import opened Common

  /** Why and by whom a token was revoked. */
  datatype Cause = Cause(reason: string, admin: Option<Id>)

  /** The JSON values of a metadata dictionary; `Ref` is an id written as a string. */
  datatype Json = Null | Number(number: int) | Text(text: string) | Ref(id: Id)

  type Metadata = map<string, Json>

  /** The dictionary every revocation stores; an empty admin id counts as none. */
  function Record(user: Id, cause: Cause, revokedAt: nat): Metadata {
    map[
      "user_id" := Ref(user),
      "reason" := Text(cause.reason),
      "revoked_at" := Number(revokedAt),
      "admin_id" := if Given(cause.admin).Some? then Ref(cause.admin.value) else Null]
  }

  datatype Entry = Entry(metadata: Metadata, deadline: nat)

  datatype Index = Index(members: set<Id>, deadline: nat)

  /** The three families of keys. A key whose deadline has come no longer exists. */
  datatype Store = Store(blacklist: map<Id, nat>, metadata: map<Id, Entry>, index: map<Id, Index>)

  /** A jti and the `exp` claim of its token. */
  datatype Token = Token(jti: Id, exp: nat)

  function Max(a: int, b: int): int { if a > b then a else b }

  predicate Expired(exp: nat, now: nat) { exp <= Seconds(now) }

  /** SETEX for the rest of the token's life, but for an hour at least. */
  function Deadline(exp: nat, now: nat): nat {
    now + Micros(Max(exp - Seconds(now), 3600))
  }

  predicate IsRevoked(s: Store, jti: Id, now: nat) { jti in s.blacklist && now < s.blacklist[jti] }

  predicate HasMetadata(s: Store, jti: Id, now: nat) { jti in s.metadata && now < s.metadata[jti].deadline }

  function Members(s: Store, user: Id, now: nat): set<Id> {
    if user in s.index && now < s.index[user].deadline then s.index[user].members else {}
  }

  /** The two SETEX of one live token. */
  function Blacklisted(s: Store, token: Token, metadata: Metadata, now: nat): Store {
    var deadline := Deadline(token.exp, now);
    s.(blacklist := s.blacklist[token.jti := deadline],
       metadata := s.metadata[token.jti := Entry(metadata, deadline)])
  }

  function Indexed(s: Store, user: Id, jtis: set<Id>, deadline: nat, now: nat): Store {
    s.(index := s.index[user := Index(Members(s, user, now) + jtis, deadline)])
  }

  /** `extra` is the caller's metadata, empty when there is none; it overrides the recorded entries. */
  function AfterRevoke(s: Store, user: Id, token: Token, cause: Cause, extra: Metadata, now: nat): Store {
    if Expired(token.exp, now) then s
    else
      var metadata := Record(user, cause, Seconds(now));
      var metadata := if extra == map[] then metadata else metadata + extra;
      Indexed(Blacklisted(s, token, metadata, now), user, {token.jti}, Deadline(token.exp, now), now)
  }

  function Live(tokens: seq<Token>, now: nat): seq<Token> {
    if tokens == [] then []
    else Live(tokens[..|tokens| - 1], now)
         + (if Expired(tokens[|tokens| - 1].exp, now) then [] else [tokens[|tokens| - 1]])
  }

  /** The batch's pipelined SETEX commands, in order. */
  function BlacklistAll(s: Store, user: Id, tokens: seq<Token>, cause: Cause, now: nat): Store {
    if tokens == [] then s
    else
      var before, last := BlacklistAll(s, user, tokens[..|tokens| - 1], cause, now), tokens[|tokens| - 1];
      if Expired(last.exp, now) then before else Blacklisted(before, last, Record(user, cause, Seconds(now)), now)
  }

  function MaxExp(tokens: seq<Token>): nat {
    if tokens == [] then 0 else Max(MaxExp(tokens[..|tokens| - 1]), tokens[|tokens| - 1].exp)
  }

  function Jtis(tokens: seq<Token>): set<Id> { set t | t in tokens :: t.jti }

  /** The index gets every jti of the list, expired ones too, once some token was live. */
  function AfterBatch(s: Store, user: Id, tokens: seq<Token>, cause: Cause, now: nat): Store {
    if Live(tokens, now) == [] then s
    else Indexed(BlacklistAll(s, user, tokens, cause, now), user, Jtis(tokens), Deadline(MaxExp(tokens), now), now)
  }

  /** SREM of every member no longer blacklisted; a set left empty disappears. */
  function AfterCleanup(s: Store, user: Id, now: nat): Store {
    var kept := set jti | jti in Members(s, user, now) && IsRevoked(s, jti, now);
    if Members(s, user, now) == {} then s
    else if kept == {} then s.(index := s.index - {user})
    else s.(index := s.index[user := s.index[user].(members := kept)])
  }

  lemma {:induction false} BatchOfExpired(s: Store, user: Id, tokens: seq<Token>, cause: Cause, now: nat)
    requires Live(tokens, now) == []
    ensures BlacklistAll(s, user, tokens, cause, now) == s
    decreases |tokens|
  {
    if tokens == [] {
    } else {
      BatchOfExpired(s, user, tokens[..|tokens| - 1], cause, now);
    }
  }

  /** The live tokens of a list, counted by position: one listed twice counts twice. */
  lemma {:induction false} LiveCount(tokens: seq<Token>, now: nat)
    ensures |Live(tokens, now)| == |set i | 0 <= i < |tokens| && tokens[i].exp > now / 1_000_000|
    decreases |tokens|
  {
    var live := set i | 0 <= i < |tokens| && tokens[i].exp > now / 1_000_000;
    if tokens == [] {
      assert live == {};
    } else {
      var n := |tokens| - 1;
      var front := set i | 0 <= i < n && tokens[..n][i].exp > now / 1_000_000;
      LiveCount(tokens[..n], now);
      assert live == if tokens[n].exp > now / 1_000_000 then front + {n} else front;
    }
  }

  lemma {:induction false} BatchKeepsIndex(s: Store, user: Id, tokens: seq<Token>, cause: Cause, now: nat)
    ensures BlacklistAll(s, user, tokens, cause, now).index == s.index
    decreases |tokens|
  {
    if tokens == [] {
    } else {
      BatchKeepsIndex(s, user, tokens[..|tokens| - 1], cause, now);
    }
  }

  /** A key's deadline: the rest of the token's life from now, an hour at least. */
  lemma DeadlineExactly(exp: nat, now: nat)
    ensures var second := now / 1_000_000;
            Deadline(exp, now) == now + 1_000_000 * (if exp - second < 3600 then 3600 else exp - second)
  {
  }

  /** The caller's entries win; of the recorded ones the others are there, and nothing else is. */
  predicate IsRecord(metadata: Metadata, user: Id, cause: Cause, extra: Metadata, second: nat) {
    && metadata.Keys == {"user_id", "reason", "revoked_at", "admin_id"} + extra.Keys
    && (forall key :: key in extra ==> metadata[key] == extra[key])
    && ("user_id" !in extra ==> metadata["user_id"] == Ref(user))
    && ("reason" !in extra ==> metadata["reason"] == Text(cause.reason))
    && ("revoked_at" !in extra ==> metadata["revoked_at"] == Number(second))
    && ("admin_id" !in extra ==>
          metadata["admin_id"] == if cause.admin.Some? && cause.admin.value != Blank then Ref(cause.admin.value) else Null)
  }

  lemma RecordEntries(user: Id, cause: Cause, extra: Metadata, second: nat)
    ensures IsRecord(if extra == map[] then Record(user, cause, second) else Record(user, cause, second) + extra, user, cause, extra, second)
  {
  }

  /** What revoking a live token writes, key by key. */
  lemma RevokedExactly(s: Store, user: Id, token: Token, cause: Cause, extra: Metadata, now: nat)
    ensures var second, t := now / 1_000_000, AfterRevoke(s, user, token, cause, extra, now);
            var deadline := now + 1_000_000 * (if token.exp - second < 3600 then 3600 else token.exp - second);
            token.exp > second ==>
              && t.blacklist == s.blacklist[token.jti := deadline]
              && token.jti in t.metadata
              && t.metadata == s.metadata[token.jti := Entry(t.metadata[token.jti].metadata, deadline)]
              && t.index == s.index[user := Index(
                   (if user in s.index && now < s.index[user].deadline then s.index[user].members else {}) + {token.jti},
                   deadline)]
              && IsRecord(t.metadata[token.jti].metadata, user, cause, extra, second)
  {
    hide IsRecord, Record;
    DeadlineExactly(token.exp, now);
    RecordEntries(user, cause, extra, Seconds(now));
  }

  /** What is left of the members once those of `seen` that are no longer blacklisted are taken out. */
  function Kept(s: Store, seen: seq<Id>, members: set<Id>, now: nat): set<Id> {
    set jti | jti in members && (jti in seen ==> IsRevoked(s, jti, now))
  }

  lemma KeptNext(s: Store, jtis: seq<Id>, n: nat, members: set<Id>, now: nat)
    requires n < |jtis| && forall i, k :: 0 <= i < k < |jtis| ==> jtis[i] != jtis[k]
    requires forall jti :: jti in jtis ==> jti in members
    ensures var before, after := Kept(s, jtis[..n], members, now), Kept(s, jtis[..n + 1], members, now);
            && jtis[n] in before
            && after == (if IsRevoked(s, jtis[n], now) then before else before - {jtis[n]})
            && |after| == |before| - (if IsRevoked(s, jtis[n], now) then 0 else 1)
  {
    hide IsRevoked;
    assert jtis[n] in jtis && jtis[..n + 1] == jtis[..n] + [jtis[n]];
  }

  /** Before the loop all members are kept; after it, those the cleanup keeps. */
  lemma KeptStartsAndEnds(s: Store, user: Id, jtis: seq<Id>, now: nat)
    requires forall jti :: jti in jtis <==> jti in Members(s, user, now)
    requires |jtis| == |Members(s, user, now)|
    ensures Kept(s, jtis[..0], Members(s, user, now), now) == Members(s, user, now)
    ensures var kept := Kept(s, jtis[..|jtis|], Members(s, user, now), now);
            var t := if kept == {} then s.(index := s.index - {user})
                     else s.(index := s.index[user := Index(kept, if user in s.index then s.index[user].deadline else 0)]);
            && (jtis == [] <==> Members(s, user, now) == {})
            && AfterCleanup(s, user, now) == (if jtis == [] then s else t)
            && (jtis != [] ==> user in s.index && now < s.index[user].deadline
                               && Members(t, user, now) == kept)
  {
    assert jtis[..|jtis|] == jtis;
    assert jtis != [] ==> jtis[0] in jtis;
    assert Kept(s, jtis, Members(s, user, now), now) == set jti | jti in Members(s, user, now) && IsRevoked(s, jti, now);
  }

  class Service {
    var redis: Store

    constructor (redis: Store)
      ensures this.redis == redis
    {
      this.redis := redis;
    }

    method RevokeToken(jti: Id, user: Id, exp: nat, cause: Cause, extra: Option<Metadata>, now: nat)
      returns (revoked: bool)
      modifies this
      ensures revoked <==> exp > Seconds(now)
      ensures redis == AfterRevoke(old(redis), user, Token(jti, exp), cause, if extra.Some? then extra.value else map[], now)
      ensures revoked ==> IsRevoked(redis, jti, now)
      ensures !revoked ==> redis == old(redis)
      ensures var second := now / 1_000_000;
              var deadline := now + 1_000_000 * (if exp - second < 3600 then 3600 else exp - second);
              revoked ==>
                && redis.blacklist == old(redis).blacklist[jti := deadline]
                && jti in redis.metadata
                && redis.metadata == old(redis).metadata[jti := Entry(redis.metadata[jti].metadata, deadline)]
                && redis.index == old(redis).index[user := Index(
                     (if user in old(redis).index && now < old(redis).index[user].deadline
                      then old(redis).index[user].members else {}) + {jti}, deadline)]
                && IsRecord(redis.metadata[jti].metadata, user, cause, if extra.Some? then extra.value else map[], second)
    {
      hide Record, IsRecord;
      RevokedExactly(redis, user, Token(jti, exp), cause, if extra.Some? then extra.value else map[], now);
      if exp <= Seconds(now) {
        return false;
      }
      var ttl := exp - Seconds(now);
      if ttl < 3600 {
        ttl := 3600;
      }
      var deadline := now + Micros(ttl);
      redis := redis.(blacklist := redis.blacklist[jti := deadline]);
      redis := redis.(index := redis.index[user := Index(Members(redis, user, now) + {jti}, deadline)]);
      var metadata := Record(user, cause, Seconds(now));
      if extra.Some? && extra.value != map[] {
        metadata := metadata + extra.value;
      }
      redis := redis.(metadata := redis.metadata[jti := Entry(metadata, deadline)]);
      return true;
    }

    /** The loop queues the commands; the pipeline runs them as one step. */
    method RevokeAllUserTokens(user: Id, tokens: seq<Token>, cause: Cause, now: nat) returns (revokedCount: nat)
      modifies this
      ensures redis == AfterBatch(old(redis), user, tokens, cause, now)
      ensures revokedCount == |Live(tokens, now)|
      ensures revokedCount == |set i | 0 <= i < |tokens| && tokens[i].exp > now / 1_000_000|
    {
      LiveCount(tokens, now);
      if tokens == [] {
        return 0;
      }
      var pipe := redis;
      revokedCount := 0;
      var maxExp := 0;
      for n := 0 to |tokens|
        invariant pipe == BlacklistAll(redis, user, tokens[..n], cause, now)
        invariant revokedCount == |Live(tokens[..n], now)|
        invariant maxExp == MaxExp(tokens[..n])
        invariant redis == old(redis)
      {
        assert tokens[..n + 1][..n] == tokens[..n];
        maxExp := Max(maxExp, tokens[n].exp);
        if tokens[n].exp <= Seconds(now) {
          continue;
        }
        pipe := Blacklisted(pipe, tokens[n], Record(user, cause, Seconds(now)), now);
        revokedCount := revokedCount + 1;
      }
      assert tokens[..|tokens|] == tokens;
      if revokedCount > 0 {
        BatchKeepsIndex(redis, user, tokens, cause, now);
        redis := Indexed(pipe, user, set t | t in tokens :: t.jti, Deadline(maxExp, now), now);
      } else {
        BatchOfExpired(redis, user, tokens, cause, now);
      }
    }

    method IsTokenRevoked(jti: Id, now: nat) returns (revoked: bool)
      ensures revoked <==> IsRevoked(redis, jti, now)
      ensures revoked <==> jti in redis.blacklist && now < redis.blacklist[jti]
    {
      return jti in redis.blacklist && now < redis.blacklist[jti];
    }

    method GetTokenMetadata(jti: Id, now: nat) returns (metadata: Option<Metadata>)
      ensures metadata.Some? <==> HasMetadata(redis, jti, now)
      ensures metadata.Some? <==> jti in redis.metadata && now < redis.metadata[jti].deadline
      ensures metadata.Some? ==> metadata.value == redis.metadata[jti].metadata
    {
      if jti !in redis.metadata || now >= redis.metadata[jti].deadline {
        return None;
      }
      return Some(redis.metadata[jti].metadata);
    }

    method CleanupUserTokens(user: Id, now: nat) returns (expiredCount: nat)
      modifies this
      ensures redis == AfterCleanup(old(redis), user, now)
      ensures expiredCount == |Members(old(redis), user, now)| - |Members(redis, user, now)|
    {
      hide *;
      var jtis := Enumerate(Members(redis, user, now));
      KeptStartsAndEnds(redis, user, jtis, now);
      if jtis == [] {
        return 0;
      }
      expiredCount := 0;
      var left := Members(redis, user, now);
      for n := 0 to |jtis|
        invariant left == Kept(redis, jtis[..n], Members(redis, user, now), now)
        invariant expiredCount == |Members(redis, user, now)| - |left|
        invariant redis == old(redis)
      {
        KeptNext(redis, jtis, n, Members(redis, user, now), now);
        if !IsRevoked(redis, jtis[n], now) {
          left := left - {jtis[n]};
          expiredCount := expiredCount + 1;
        }
      }
      if left == {} {
        redis := redis.(index := redis.index - {user});
      } else {
        redis := redis.(index := redis.index[user := redis.index[user].(members := left)]);
      }
    }
  }

  // ---- A batch refines a fold of single revocations ------------------------------------------

  /** Revoking one after the other at one instant. */
  function RevokeEach(s: Store, user: Id, tokens: seq<Token>, cause: Cause, now: nat): Store {
    if tokens == [] then s
    else
      var before := RevokeEach(s, user, tokens[..|tokens| - 1], cause, now);
      AfterRevoke(before, user, tokens[|tokens| - 1], cause, map[], now)
  }

  lemma {:induction false} FoldMaps(s: Store, user: Id, tokens: seq<Token>, cause: Cause, now: nat)
    ensures var fold, batch := RevokeEach(s, user, tokens, cause, now), BlacklistAll(s, user, tokens, cause, now);
            fold.blacklist == batch.blacklist && fold.metadata == batch.metadata
    decreases |tokens|
  {
    hide Deadline, Members, Record, Expired;
    if tokens == [] {
    } else {
      FoldMaps(s, user, tokens[..|tokens| - 1], cause, now);
    }
  }

  lemma ExpiredChangesNothing(s: Store, user: Id, token: Token, cause: Cause, now: nat)
    requires Expired(token.exp, now)
    ensures AfterRevoke(s, user, token, cause, map[], now) == s
  {
  }

  /** The fold's index after revoking tokens of which `live` were alive. */
  ghost predicate Folded(s: Store, fold: Store, user: Id, live: seq<Token>, now: nat) {
    if live == [] then fold == s
    else fold.index == s.index[user := Index(Members(s, user, now) + Jtis(live), Deadline(live[|live| - 1].exp, now))]
  }

  lemma JtisGrow(tokens: seq<Token>, token: Token)
    ensures Jtis(tokens + [token]) == Jtis(tokens) + {token.jti}
  {
    var all := tokens + [token];
    assert token in all && forall t :: t in all <==> t in tokens || t == token;
  }

  /** One more live token: its jti joins the index, which takes over its deadline. */
  lemma IndexGrows(before: Store, user: Id, token: Token, cause: Cause, now: nat)
    requires !Expired(token.exp, now)
    ensures AfterRevoke(before, user, token, cause, map[], now).index
            == before.index[user := Index(Members(before, user, now) + {token.jti}, Deadline(token.exp, now))]
  {
  }

  lemma FoldMembers(s: Store, fold: Store, user: Id, live: seq<Token>, now: nat)
    requires Folded(s, fold, user, live, now)
    ensures Members(fold, user, now) == Members(s, user, now) + Jtis(live)
  {
  }

  lemma FoldGrows(s: Store, fold: Store, user: Id, live: seq<Token>, token: Token, cause: Cause, now: nat)
    requires Folded(s, fold, user, live, now) && !Expired(token.exp, now)
    ensures Folded(s, AfterRevoke(fold, user, token, cause, map[], now), user, live + [token], now)
  {
    var more := live + [token];
    assert more[|more| - 1] == token;
    IndexGrows(fold, user, token, cause, now);
    JtisGrow(live, token);
    FoldMembers(s, fold, user, live, now);
    hide AfterRevoke, Jtis, Deadline, Members, Expired;
    var entry := Index(Members(s, user, now) + Jtis(more), Deadline(token.exp, now));
    assert Members(s, user, now) + Jtis(live) + {token.jti} == entry.members;
    assert fold.index[user := entry] == s.index[user := entry];
  }

  lemma {:induction false} FoldIndex(s: Store, user: Id, tokens: seq<Token>, cause: Cause, now: nat)
    ensures Folded(s, RevokeEach(s, user, tokens, cause, now), user, Live(tokens, now), now)
    decreases |tokens|
  {
    if tokens == [] {
    } else {
      var front, last := tokens[..|tokens| - 1], tokens[|tokens| - 1];
      var fold := RevokeEach(s, user, front, cause, now);
      FoldIndex(s, user, front, cause, now);
      if Expired(last.exp, now) {
        ExpiredChangesNothing(fold, user, last, cause, now);
        assert Live(tokens, now) == Live(front, now);
      } else {
        FoldGrows(s, fold, user, Live(front, now), last, cause, now);
      }
      hide Folded, AfterRevoke;
    }
  }

  lemma BatchIsFold(s: Store, user: Id, tokens: seq<Token>, cause: Cause, now: nat)
    ensures var fold, batch := RevokeEach(s, user, tokens, cause, now), BlacklistAll(s, user, tokens, cause, now);
            && fold.blacklist == batch.blacklist
            && fold.metadata == batch.metadata
            && Members(fold, user, now) == Members(s, user, now) + Jtis(Live(tokens, now))
            && forall other :: other != user ==>
                 (other in fold.index <==> other in s.index)
                 && (other in s.index ==> fold.index[other] == s.index[other])
  {
    FoldMaps(s, user, tokens, cause, now);
    FoldIndex(s, user, tokens, cause, now);
    hide RevokeEach, BlacklistAll, Live;
  }

  lemma {:induction false} LatestExp(tokens: seq<Token>)
    ensures forall t :: t in tokens ==> t.exp <= MaxExp(tokens)
    ensures tokens != [] ==> exists t :: t in tokens && t.exp == MaxExp(tokens)
    decreases |tokens|
  {
    if tokens == [] {
    } else {
      var front := tokens[..|tokens| - 1];
      LatestExp(front);
      assert tokens == front + [tokens[|tokens| - 1]];
      assert tokens[|tokens| - 1] in tokens;
    }
  }

  lemma {:induction false} LiveOnes(tokens: seq<Token>, now: nat)
    ensures forall t :: t in Live(tokens, now) <==> t in tokens && !Expired(t.exp, now)
    decreases |tokens|
  {
    if tokens == [] {
    } else {
      var front := tokens[..|tokens| - 1];
      LiveOnes(front, now);
      assert tokens == front + [tokens[|tokens| - 1]];
    }
  }

  /** The batch writes the same keys with the same expiries as single revocations at the same instant. Its index
      also holds the expired tokens of the list and lives exactly as long as the longest-lived key it wrote. */
  lemma BatchRefinesSingles(s: Store, user: Id, tokens: seq<Token>, cause: Cause, now: nat)
    ensures var fold, batch := RevokeEach(s, user, tokens, cause, now), AfterBatch(s, user, tokens, cause, now);
            && batch.blacklist == fold.blacklist
            && batch.metadata == fold.metadata
            && (Live(tokens, now) == [] ==> batch == s)
            && (Live(tokens, now) != [] ==>
                  && Members(batch, user, now) == Members(fold, user, now) + Jtis(tokens)
                  && (forall t :: t in Live(tokens, now) ==> Deadline(t.exp, now) <= batch.index[user].deadline)
                  && (exists t :: t in Live(tokens, now) && Deadline(t.exp, now) == batch.index[user].deadline))
  {
    BatchIsFold(s, user, tokens, cause, now);
    LatestExp(tokens);
    LiveOnes(tokens, now);
    hide BlacklistAll, RevokeEach, MaxExp, Live;
    if Live(tokens, now) == [] {
      BatchOfExpired(s, user, tokens, cause, now);
    } else {
      BatchKeepsIndex(s, user, tokens, cause, now);
      var live := Live(tokens, now)[0];
      assert live in tokens && !Expired(live.exp, now);
      var latest :| latest in tokens && latest.exp == MaxExp(tokens);
      assert latest in Live(tokens, now);
      assert Jtis(Live(tokens, now)) <= Jtis(tokens);
    }
  }

  /** The batch and the fold agree on the index too exactly when no token was live, or the expired jtis of the
      list were indexed anyway and the last live token has the longest-lived key. */
  lemma IndexesAgree(s: Store, user: Id, tokens: seq<Token>, cause: Cause, now: nat)
    ensures var fold, live := RevokeEach(s, user, tokens, cause, now), Live(tokens, now);
            AfterBatch(s, user, tokens, cause, now) == fold <==>
              || live == []
              || (Jtis(tokens) <= Members(s, user, now) + Jtis(live)
                  && Deadline(live[|live| - 1].exp, now) == Deadline(MaxExp(tokens), now))
  {
    var fold, batch := RevokeEach(s, user, tokens, cause, now), AfterBatch(s, user, tokens, cause, now);
    BatchIsFold(s, user, tokens, cause, now);
    FoldIndex(s, user, tokens, cause, now);
    if Live(tokens, now) != [] {
      BatchKeepsIndex(s, user, tokens, cause, now);
      assert Jtis(Live(tokens, now)) <= Jtis(tokens) by { LiveOnes(tokens, now); }
      hide RevokeEach, BlacklistAll, Live, MaxExp, Deadline;
      assert batch == fold <==> batch.index[user] == fold.index[user];
    }
  }

  /** Cleaning up right after a batch keeps just the members that are blacklisted, and nothing else changes. */
  lemma CleanupLeavesBlacklisted(s: Store, user: Id, now: nat)
    ensures var t := AfterCleanup(s, user, now);
            && t.blacklist == s.blacklist && t.metadata == s.metadata
            && (forall jti :: jti in Members(t, user, now) <==> jti in Members(s, user, now) && IsRevoked(s, jti, now))
            && (forall other, at :: other != user ==> Members(t, other, at) == Members(s, other, at))
  {
  }

  // ---- A blacklisted token stays blacklisted until it expires ---------------------------------

  datatype State = State(now: nat, store: Store)

  datatype Op =
    | Tick(elapsed: nat)
    | Revoke(user: Id, token: Token, cause: Cause, extra: Metadata)
    | RevokeBatch(user: Id, tokens: seq<Token>, cause: Cause)
    | Cleanup(user: Id)

  function Step(s: State, op: Op): State {
    match op
    case Tick(elapsed) => s.(now := s.now + elapsed)
    case Revoke(user, token, cause, extra) => s.(store := AfterRevoke(s.store, user, token, cause, extra, s.now))
    case RevokeBatch(user, tokens, cause) => s.(store := AfterBatch(s.store, user, tokens, cause, s.now))
    case Cleanup(user) => s.(store := AfterCleanup(s.store, user, s.now))
  }

  function Run(s: State, ops: seq<Op>): State
    decreases |ops|
  {
    if ops == [] then s else Run(Step(s, ops[0]), ops[1..])
  }

  function TokensOf(op: Op): seq<Token> {
    match op
    case Revoke(_, token, _, _) => [token]
    case RevokeBatch(_, tokens, _) => tokens
    case _ => []
  }

  /** `exp` is a claim of the token: wherever its jti is revoked, it comes with the same `exp`. */
  predicate Consistent(op: Op, token: Token) {
    forall t :: t in TokensOf(op) && t.jti == token.jti ==> t.exp == token.exp
  }

  /** If the token is blacklisted at all, its key outlives it, and lasts for an hour from `since`. */
  predicate Covers(s: Store, token: Token, since: nat) {
    token.jti in s.blacklist ==>
      Micros(token.exp) <= s.blacklist[token.jti] && since + Micros(3600) <= s.blacklist[token.jti]
  }

  lemma {:induction false} BatchCovers(
    s: Store, user: Id, tokens: seq<Token>, cause: Cause, now: nat, token: Token, since: nat)
    requires Covers(s, token, since) && since <= now
    requires forall t :: t in tokens && t.jti == token.jti ==> t.exp == token.exp
    ensures var t := BlacklistAll(s, user, tokens, cause, now);
            Covers(t, token, since) && s.blacklist.Keys <= t.blacklist.Keys
    decreases |tokens|
  {
    if tokens == [] {
    } else {
      assert tokens[|tokens| - 1] in tokens;
      BatchCovers(s, user, tokens[..|tokens| - 1], cause, now, token, since);
    }
  }

  /** The cleanup step of a run keeps just the members that are blacklisted. */
  lemma CleanupStep(s: State, user: Id)
    ensures var t := Step(s, Cleanup(user));
            && t.now == s.now && t.store.blacklist == s.store.blacklist
            && forall jti :: jti in Members(t.store, user, t.now) <==>
                 jti in Members(s.store, user, s.now) && jti in s.store.blacklist && s.now < s.store.blacklist[jti]
  {
    CleanupLeavesBlacklisted(s.store, user, s.now);
  }

  lemma StepCovers(s: State, op: Op, token: Token, since: nat)
    requires Covers(s.store, token, since) && since <= s.now && Consistent(op, token)
    ensures Covers(Step(s, op).store, token, since) && since <= Step(s, op).now
    ensures s.store.blacklist.Keys <= Step(s, op).store.blacklist.Keys
  {
    match op
    case Revoke(_, t, _, _) => assert t in TokensOf(op);
    case RevokeBatch(user, tokens, cause) => BatchCovers(s.store, user, tokens, cause, s.now, token, since);
    case _ =>
  }

  lemma {:induction false} RunCovers(s: State, ops: seq<Op>, token: Token, since: nat)
    requires Covers(s.store, token, since) && since <= s.now
    requires forall op :: op in ops ==> Consistent(op, token)
    ensures Covers(Run(s, ops).store, token, since)
    ensures s.store.blacklist.Keys <= Run(s, ops).store.blacklist.Keys
    decreases |ops|
  {
    if ops == [] {
    } else {
      StepCovers(s, ops[0], token, since);
      RunCovers(Step(s, ops[0]), ops[1..], token, since);
    }
  }

  lemma {:induction false} BatchBlacklistsLive(s: Store, user: Id, tokens: seq<Token>, cause: Cause, now: nat, token: Token)
    requires token in Live(tokens, now)
    requires forall t :: t in tokens && t.jti == token.jti ==> t.exp == token.exp
    ensures var t := BlacklistAll(s, user, tokens, cause, now);
            token.jti in t.blacklist && t.blacklist[token.jti] == Deadline(token.exp, now)
    decreases |tokens|
  {
    if tokens == [] {
    } else {
      var front, last := tokens[..|tokens| - 1], tokens[|tokens| - 1];
      assert last in tokens;
      if last.jti != token.jti {
        BatchBlacklistsLive(s, user, front, cause, now, token);
      } else {
        LiveOnes(tokens, now);
      }
    }
  }

  /** A live token is given its deadline whether it is revoked alone or in a batch. */
  lemma RevokingSetsDeadline(s: State, op: Op, token: Token)
    requires Consistent(op, token) && token in TokensOf(op) && !Expired(token.exp, s.now)
    ensures var t := Step(s, op).store;
            token.jti in t.blacklist && t.blacklist[token.jti] == Deadline(token.exp, s.now)
  {
    if op.RevokeBatch? {
      LiveOnes(op.tokens, s.now);
      BatchBlacklistsLive(s.store, op.user, op.tokens, op.cause, s.now, token);
    }
  }

  ghost predicate RevokedBy(now: nat, op: Op, jti: Id, at: nat) {
    exists t :: t in TokensOf(op) && t.jti == jti && t.exp > now / 1_000_000
                && at < now + 1_000_000 * (if t.exp - now / 1_000_000 < 3600 then 3600 else t.exp - now / 1_000_000)
  }

  /** Some step of the run revoked the token while it was alive, and not longer before `at` than the rest of its life
      then, or an hour. */
  ghost predicate RevokedIn(s: State, ops: seq<Op>, jti: Id, at: nat)
    decreases |ops|
  {
    ops != [] && (RevokedIn(Step(s, ops[0]), ops[1..], jti, at) || RevokedBy(s.now, ops[0], jti, at))
  }

  lemma {:induction false} BatchOnlyRevokes(s: Store, user: Id, tokens: seq<Token>, cause: Cause, now: nat, jti: Id, at: nat)
    requires IsRevoked(BlacklistAll(s, user, tokens, cause, now), jti, at)
    ensures IsRevoked(s, jti, at)
            || exists t :: t in tokens && t.jti == jti && !Expired(t.exp, now) && at < Deadline(t.exp, now)
    decreases |tokens|
  {
    if tokens == [] {
    } else {
      var front, last := tokens[..|tokens| - 1], tokens[|tokens| - 1];
      assert last in tokens;
      if IsRevoked(BlacklistAll(s, user, front, cause, now), jti, at) {
        BatchOnlyRevokes(s, user, front, cause, now, jti, at);
        if t :| t in front && t.jti == jti && !Expired(t.exp, now) && at < Deadline(t.exp, now) {
          assert t in tokens;
        }
      }
    }
  }

  lemma StepOnlyRevokes(s: State, op: Op, jti: Id, at: nat)
    requires IsRevoked(Step(s, op).store, jti, at)
    ensures IsRevoked(s.store, jti, at) || RevokedBy(s.now, op, jti, at)
  {
    forall t | t in TokensOf(op) ensures t.exp > s.now / 1_000_000 <==> !Expired(t.exp, s.now) {
      DeadlineExactly(t.exp, s.now);
    }
    match op
    case Revoke(_, t, _, _) =>
      assert t in TokensOf(op);
      DeadlineExactly(t.exp, s.now);
    case RevokeBatch(user, tokens, cause) =>
      if Live(tokens, s.now) != [] {
        BatchOnlyRevokes(s.store, user, tokens, cause, s.now, jti, at);
        if t :| t in tokens && t.jti == jti && !Expired(t.exp, s.now) && at < Deadline(t.exp, s.now) {
          assert t in TokensOf(op);
          DeadlineExactly(t.exp, s.now);
        }
      }
    case _ =>
  }

  /** The converse: whatever is reported revoked at some instant was revoked while alive, and no longer ago than the
      rest of its life at that moment, or an hour. */
  lemma {:induction false} OnlyRevokedIsReported(s: State, ops: seq<Op>, jti: Id, at: nat)
    requires IsRevoked(Run(s, ops).store, jti, at)
    ensures IsRevoked(s.store, jti, at) || RevokedIn(s, ops, jti, at)
    decreases |ops|
  {
    if ops == [] {
    } else {
      var next := Step(s, ops[0]);
      OnlyRevokedIsReported(next, ops[1..], jti, at);
      if IsRevoked(next.store, jti, at) {
        StepOnlyRevokes(s, ops[0], jti, at);
      }
    }
  }

  /** Left alone, a blacklisted token is reported exactly until its key runs out. */
  lemma KeysRunOut(s: State, user: Id, token: Token, cause: Cause, extra: Metadata, elapsed: nat)
    requires token.exp > s.now / 1_000_000
    ensures var second, t := s.now / 1_000_000, Step(Step(s, Revoke(user, token, cause, extra)), Tick(elapsed));
            IsRevoked(t.store, token.jti, t.now)
            <==> elapsed < 1_000_000 * (if token.exp - second < 3600 then 3600 else token.exp - second)
  {
    DeadlineExactly(token.exp, s.now);
  }

  /** A token revoked while alive, alone or in a batch, stays blacklisted until its own expiry and for an hour at
      least, whatever is revoked, revoked again or cleaned up afterwards. */
  lemma RevokedUntilExpiry(s0: State, before: seq<Op>, op: Op, token: Token, after: seq<Op>)
    requires s0.store == Store(map[], map[], map[])
    requires forall o :: o in before + [op] + after ==> Consistent(o, token)
    requires token in TokensOf(op) && !Expired(token.exp, Run(s0, before).now)
    ensures var since := Run(s0, before).now;
            var t := Run(Step(Run(s0, before), op), after);
            t.now < Micros(token.exp) || t.now < since + Micros(3600) ==> IsRevoked(t.store, token.jti, t.now)
  {
    var s := Run(s0, before);
    assert op in before + [op] + after;
    RevokingSetsDeadline(s, op, token);
    assert Covers(Step(s, op).store, token, s.now);
    assert forall o :: o in after ==> o in before + [op] + after;
    RunCovers(Step(s, op), after, token, s.now);
  }

  // ---- Metadata goes with the blacklist entry --------------------------------------------------

  ghost predicate Paired(s: Store) {
    && s.metadata.Keys == s.blacklist.Keys
    && forall jti :: jti in s.blacklist ==> s.metadata[jti].deadline == s.blacklist[jti]
  }

  lemma {:induction false} BatchPaired(s: Store, user: Id, tokens: seq<Token>, cause: Cause, now: nat)
    requires Paired(s)
    ensures Paired(BlacklistAll(s, user, tokens, cause, now))
    decreases |tokens|
  {
    if tokens == [] {
    } else {
      BatchPaired(s, user, tokens[..|tokens| - 1], cause, now);
    }
  }

  lemma {:induction false} RunPaired(s: State, ops: seq<Op>)
    requires Paired(s.store)
    ensures Paired(Run(s, ops).store)
    decreases |ops|
  {
    if ops == [] {
    } else {
      if ops[0].RevokeBatch? {
        BatchPaired(s.store, ops[0].user, ops[0].tokens, ops[0].cause, s.now);
      }
      RunPaired(Step(s, ops[0]), ops[1..]);
    }
  }

  /** In every reachable state, at every instant, a jti has metadata exactly while it is blacklisted. */
  lemma MetadataWhileBlacklisted(s0: State, ops: seq<Op>, jti: Id, at: nat)
    requires s0.store == Store(map[], map[], map[])
    ensures HasMetadata(Run(s0, ops).store, jti, at) <==> IsRevoked(Run(s0, ops).store, jti, at)
  {
    RunPaired(s0, ops);
  }
}
