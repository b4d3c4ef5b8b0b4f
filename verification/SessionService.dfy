/** Session listing and revocation; its simple reads agree because a session has one live token. */
module SessionService {
  import opened Common
  import opened Tokens
  import opened RefreshTokenService
  import Chains

  datatype SessionInfo = SessionInfo(session: Id, client: Id, createdAt: nat, expiresAt: nat)

  /** `get_session_info` shows the listed fields and the scope. */
  datatype SessionDetail = SessionDetail(info: SessionInfo, scope: string)

  function Info(row: Row): SessionInfo { SessionInfo(row.session, row.client, row.createdAt, row.expiresAt) }

  function Detail(row: Row): SessionDetail { SessionDetail(Info(row), row.scope) }

  function LiveTokens(rows: Table, user: Id): set<Id> { Selected(rows, OfUser(user, None)) }

  function LiveSessions(rows: Table, user: Id): set<Id> {
    set j | j in LiveTokens(rows, user) :: rows[j].session
  }

  /** `jti` is among `tokens` the latest created of its session. */
  predicate Latest(rows: Table, tokens: set<Id>, jti: Id)
    requires forall j :: j in tokens ==> j in rows
  {
    && jti in tokens
    && forall j :: j in tokens && rows[j].session == rows[jti].session ==> rows[j].createdAt <= rows[jti].createdAt
  }

  /** The entry shows the latest live token of its session. */
  ghost predicate ShowsLatest(rows: Table, user: Id, info: SessionInfo) {
    exists j :: Latest(rows, LiveTokens(rows, user), j) && info == Info(rows[j])
  }

  /** Newest first, and no session twice. */
  predicate NewestFirst(infos: seq<SessionInfo>) {
    forall i, k :: 0 <= i < k < |infos| ==>
      infos[i].session != infos[k].session && infos[i].createdAt >= infos[k].createdAt
  }

  /** One entry for each session, newest first, showing the session's latest live token. */
  ghost predicate IsListing(rows: Table, user: Id, infos: seq<SessionInfo>) {
    && NewestFirst(infos)
    && (forall i :: 0 <= i < |infos| ==> ShowsLatest(rows, user, infos[i]))
    && (forall session :: session in LiveSessions(rows, user) ==>
          exists i :: 0 <= i < |infos| && infos[i].session == session)
  }

  lemma StaysNewestFirst(info: SessionInfo, infos: seq<SessionInfo>)
    requires NewestFirst(infos)
    requires forall x :: x in infos ==> x.session != info.session && x.createdAt <= info.createdAt
    ensures NewestFirst([info] + infos)
  {
    assert forall k :: 0 <= k < |infos| ==> infos[k] in infos;
  }

  /** Python's stable `sorted(..., reverse=True)`, one entry at a time. */
  function InsertNewestFirst(info: SessionInfo, infos: seq<SessionInfo>): (r: seq<SessionInfo>)
    requires NewestFirst(infos)
    requires forall x :: x in infos ==> x.session != info.session
    ensures NewestFirst(r)
    ensures forall x :: x in r <==> x == info || x in infos
  {
    if infos == [] || infos[0].createdAt < info.createdAt then
      StaysNewestFirst(info, infos);
      [info] + infos
    else
      var rest := InsertNewestFirst(info, infos[1..]);
      assert forall x :: x in infos <==> x == infos[0] || x in infos[1..];
      StaysNewestFirst(infos[0], rest);
      [infos[0]] + rest
  }

  /** The tokens among `tokens` that the loop of `revoke_all_sessions` does not skip. */
  function NotSkipped(rows: Table, tokens: seq<Id>, except: Option<Id>): set<Id>
    requires forall j :: j in tokens ==> j in rows
  {
    set j | j in tokens && !Spared(rows[j], except)
  }

  lemma NextToken(rows: Table, tokens: seq<Id>, n: nat, except: Option<Id>)
    requires n < |tokens|
    requires forall i, k :: 0 <= i < k < |tokens| ==> tokens[i] != tokens[k]
    requires forall j :: j in tokens ==> j in rows
    ensures tokens[n] in rows
    ensures var done, more := NotSkipped(rows, tokens[..n], except), NotSkipped(rows, tokens[..n + 1], except);
            && tokens[n] !in done
            && more == (if Spared(rows[tokens[n]], except) then done else done + {tokens[n]})
            && |more| == |done| + (if Spared(rows[tokens[n]], except) then 0 else 1)
  {
    assert tokens[n] in tokens && tokens[..n + 1] == tokens[..n] + [tokens[n]];
  }

  /** One round of the loop, skipping or marking: the table and the count follow the tokens not skipped. */
  lemma SkipOrMark(rows: Table, tokens: seq<Id>, n: nat, except: Option<Id>, now: nat)
    requires n < |tokens|
    requires forall i, k :: 0 <= i < k < |tokens| ==> tokens[i] != tokens[k]
    requires forall j :: j in tokens ==> j in rows
    ensures var done, more := NotSkipped(rows, tokens[..n], except), NotSkipped(rows, tokens[..n + 1], except);
            var before, after := Marked(rows, done, now), Marked(rows, more, now);
            && tokens[n] in before
            && if Spared(before[tokens[n]], except) then after == before && |more| == |done|
               else after == before[tokens[n] := Revoke(before[tokens[n]], now)] && |more| == |done| + 1
  {
    NextToken(rows, tokens, n, except);
    MarkingOne(rows, NotSkipped(rows, tokens[..n], except), tokens[n], now);
    hide *;
  }

  /** Before the loop nothing is marked; after it, what the revocation selects. */
  lemma SkippingStartsAndEnds(rows: Table, user: Id, tokens: seq<Id>, except: Option<Id>, now: nat)
    requires forall j :: j in tokens <==> j in LiveTokens(rows, user)
    ensures forall j :: j in tokens ==> j in rows
    ensures NotSkipped(rows, tokens[..0], except) == {} && Marked(rows, {}, now) == rows
    ensures NotSkipped(rows, tokens[..|tokens|], except) == Selected(rows, OfUser(user, except))
    ensures Marked(rows, Selected(rows, OfUser(user, except)), now) == RevokeWhere(rows, OfUser(user, except), now)
  {
    assert tokens[..|tokens|] == tokens;
    MarkingEach(rows, OfUser(user, except), now);
    hide Marked, RevokeWhere;
  }

  /** Each session seen so far shows its latest token so far. */
  ghost predicate Grouped(rows: Table, tokens: seq<Id>, sessionsMap: map<Id, Id>) {
    && (forall j :: j in tokens ==> j in rows && rows[j].session in sessionsMap)
    && (forall session :: session in sessionsMap ==>
          && sessionsMap[session] in tokens
          && rows[sessionsMap[session]].session == session
          && forall j :: j in tokens && rows[j].session == session ==>
               rows[j].createdAt <= rows[sessionsMap[session]].createdAt)
  }

  lemma GroupNext(rows: Table, tokens: seq<Id>, n: nat, sessionsMap: map<Id, Id>)
    requires n < |tokens| && Grouped(rows, tokens[..n], sessionsMap)
    requires forall j :: j in tokens ==> j in rows
    ensures tokens[n] in rows && forall session :: session in sessionsMap ==> sessionsMap[session] in rows
    ensures var row := rows[tokens[n]];
            Grouped(rows, tokens[..n + 1],
              if row.session !in sessionsMap || row.createdAt > rows[sessionsMap[row.session]].createdAt
              then sessionsMap[row.session := tokens[n]] else sessionsMap)
  {
    assert tokens[n] in tokens && tokens[..n + 1] == tokens[..n] + [tokens[n]];
    assert forall j :: j in tokens[..n + 1] <==> j in tokens[..n] || j == tokens[n];
  }

  function Entries(rows: Table, sessionsMap: map<Id, Id>): map<Id, SessionInfo>
    requires forall session :: session in sessionsMap ==> sessionsMap[session] in rows
  {
    map session | session in sessionsMap :: Info(rows[sessionsMap[session]])
  }

  lemma GroupedInRows(rows: Table, tokens: seq<Id>, sessionsMap: map<Id, Id>)
    requires Grouped(rows, tokens, sessionsMap)
    ensures forall session :: session in sessionsMap ==> sessionsMap[session] in rows
    ensures forall key :: key in Entries(rows, sessionsMap) ==> Entries(rows, sessionsMap)[key].session == key
  {
  }

  lemma GroupedIsListed(rows: Table, user: Id, tokens: seq<Id>, sessionsMap: map<Id, Id>, infos: seq<SessionInfo>)
    requires forall j :: j in tokens <==> j in LiveTokens(rows, user)
    requires Grouped(rows, tokens, sessionsMap) && NewestFirst(infos)
    requires forall session :: session in sessionsMap ==> sessionsMap[session] in rows
    requires forall x :: x in infos <==>
               x.session in Entries(rows, sessionsMap) && Entries(rows, sessionsMap)[x.session] == x
    ensures IsListing(rows, user, infos)
  {
    hide NewestFirst, LiveTokens;
    forall i | 0 <= i < |infos| ensures ShowsLatest(rows, user, infos[i]) {
      assert infos[i] in infos;
      assert Latest(rows, LiveTokens(rows, user), sessionsMap[infos[i].session]);
    }
    forall session | session in LiveSessions(rows, user) ensures exists i :: 0 <= i < |infos| && infos[i].session == session {
      assert Entries(rows, sessionsMap)[session] in infos;
    }
  }

  /** The entry shows the latest of the user's live rows of its session. */
  ghost predicate IsLatestOf(rows: Table, user: Id, info: SessionInfo) {
    exists j :: j in rows && rows[j].user == user && !rows[j].revoked
                && info.session == rows[j].session && info.client == rows[j].client
                && info.createdAt == rows[j].createdAt && info.expiresAt == rows[j].expiresAt
                && forall k :: k in rows && rows[k].user == user && !rows[k].revoked && rows[k].session == info.session ==>
                     rows[k].createdAt <= info.createdAt
  }

  lemma LiveRows(rows: Table, user: Id)
    ensures LiveTokens(rows, user) == set j | j in rows && !rows[j].revoked && rows[j].user == user
  {
  }

  lemma ListedToken(rows: Table, user: Id, infos: seq<SessionInfo>, i: nat) returns (j: Id)
    requires IsListing(rows, user, infos) && i < |infos|
    ensures Latest(rows, LiveTokens(rows, user), j) && infos[i] == Info(rows[j])
  {
    assert ShowsLatest(rows, user, infos[i]);
    j :| Latest(rows, LiveTokens(rows, user), j) && infos[i] == Info(rows[j]);
  }

  lemma ListedRows(rows: Table, user: Id, infos: seq<SessionInfo>)
    requires IsListing(rows, user, infos)
    ensures forall i, k :: 0 <= i < k < |infos| ==>
              infos[i].session != infos[k].session && infos[i].createdAt >= infos[k].createdAt
    ensures forall i :: 0 <= i < |infos| ==> IsLatestOf(rows, user, infos[i])
    ensures forall j :: j in rows && rows[j].user == user && !rows[j].revoked ==>
              exists i :: 0 <= i < |infos| && infos[i].session == rows[j].session
  {
    LiveRows(rows, user);
    hide LiveTokens;
    forall i | 0 <= i < |infos| ensures IsLatestOf(rows, user, infos[i]) {
      var j := ListedToken(rows, user, infos, i);
    }
    forall j | j in rows && rows[j].user == user && !rows[j].revoked
      ensures exists i :: 0 <= i < |infos| && infos[i].session == rows[j].session
    {
      assert rows[j].session in LiveSessions(rows, user);
    }
  }

  /** What "log out everywhere else" does to the rows. */
  lemma UserRevocation(rows: Table, user: Id, except: Option<Id>, now: nat)
    ensures var t := RevokeWhere(rows, OfUser(user, except), now);
            && t.Keys == rows.Keys
            && forall j :: j in rows ==>
                 t[j] == if !rows[j].revoked && rows[j].user == user
                            && (except.None? || except.value == Blank || rows[j].session != except.value)
                         then rows[j].(revoked := true, revokedAt := Some(now)) else rows[j]
    ensures Selected(rows, OfUser(user, except))
            == set j | j in rows && !rows[j].revoked && rows[j].user == user
                       && (except.None? || except.value == Blank || rows[j].session != except.value)
  {
  }

  lemma {:induction false} DistinctSize(infos: seq<SessionInfo>, sessions: set<Id>)
    requires forall i, k :: 0 <= i < k < |infos| ==> infos[i].session != infos[k].session
    requires forall session :: session in sessions <==> exists i :: 0 <= i < |infos| && infos[i].session == session
    ensures |infos| == |sessions|
    decreases |infos|
  {
    if infos == [] {
      assert sessions == {};
    } else {
      var n := |infos| - 1;
      var last := infos[n].session;
      forall session ensures session in sessions - {last} <==> exists i :: 0 <= i < n && infos[..n][i].session == session {
        if session in sessions - {last} {
          var i :| 0 <= i < |infos| && infos[i].session == session;
          assert infos[..n][i].session == session;
        }
        if i :| 0 <= i < n && infos[..n][i].session == session {
          assert infos[i].session == session;
        }
      }
      DistinctSize(infos[..n], sessions - {last});
    }
  }

  /** The listing has as many entries as the user has sessions with a live row. */
  lemma ListedSessions(rows: Table, user: Id, infos: seq<SessionInfo>)
    requires IsListing(rows, user, infos)
    ensures |infos| == |LiveSessions(rows, user)|
    ensures |infos| == |set j | j in rows && rows[j].user == user && !rows[j].revoked :: rows[j].session|
  {
    LiveRows(rows, user);
    hide LiveTokens;
    forall session | exists i :: 0 <= i < |infos| && infos[i].session == session
      ensures session in LiveSessions(rows, user)
    {
      var i :| 0 <= i < |infos| && infos[i].session == session;
      var j := ListedToken(rows, user, infos, i);
    }
    DistinctSize(infos, LiveSessions(rows, user));
    assert LiveSessions(rows, user) == set j | j in rows && rows[j].user == user && !rows[j].revoked :: rows[j].session;
  }

  /** The entry goes behind those as new as itself, which is what makes the sort stable. */
  lemma {:induction false} InsertedStably(info: SessionInfo, infos: seq<SessionInfo>) returns (n: nat)
    requires NewestFirst(infos) && forall x :: x in infos ==> x.session != info.session
    ensures n <= |infos| && InsertNewestFirst(info, infos) == infos[..n] + [info] + infos[n..]
    ensures forall k :: 0 <= k < |infos| ==> (k < n <==> infos[k].createdAt >= info.createdAt)
  {
    if infos == [] || infos[0].createdAt < info.createdAt {
      n := 0;
    } else {
      var m := InsertedStably(info, infos[1..]);
      n := m + 1;
      hide NewestFirst;
      assert infos[..n] == [infos[0]] + infos[1..][..m] && infos[n..] == infos[1..][m..];
      assert forall k :: 0 < k < |infos| ==> infos[k] == infos[1..][k - 1];
    }
  }

  class Service {

    constructor () {}

    method ListUserSessions(db: Database, user: Id) returns (infos: seq<SessionInfo>)
      ensures IsListing(db.rows, user, infos)
      ensures forall i, k :: 0 <= i < k < |infos| ==>
                infos[i].session != infos[k].session && infos[i].createdAt >= infos[k].createdAt
      ensures forall i :: 0 <= i < |infos| ==> IsLatestOf(db.rows, user, infos[i])
      ensures forall j :: j in db.rows && db.rows[j].user == user && !db.rows[j].revoked ==>
                exists i :: 0 <= i < |infos| && infos[i].session == db.rows[j].session
    {
      var tokens := Enumerate(LiveTokens(db.rows, user));
      assert forall j :: j in tokens ==> j in db.rows;
      var sessionsMap: map<Id, Id> := map[];
      assert Grouped(db.rows, tokens[..0], sessionsMap);
      hide *;
      var n := 0;
      while n < |tokens|
        invariant n <= |tokens|
        invariant Grouped(db.rows, tokens[..n], sessionsMap)
      {
        GroupNext(db.rows, tokens, n, sessionsMap);
        var token := tokens[n];
        var row := db.rows[token];
        if row.session !in sessionsMap {
          sessionsMap := sessionsMap[row.session := token];
        } else if row.createdAt > db.rows[sessionsMap[row.session]].createdAt {
          sessionsMap := sessionsMap[row.session := token];
        }
        n := n + 1;
      }
      assert tokens[..n] == tokens;
      GroupedInRows(db.rows, tokens, sessionsMap);
      var entries := Entries(db.rows, sessionsMap);
      infos := SortedEntries(entries);
      GroupedIsListed(db.rows, user, tokens, sessionsMap, infos);
      ListedRows(db.rows, user, infos);
    }

    /** The dictionary's entries, newest first. */
    static method SortedEntries(entries: map<Id, SessionInfo>) returns (infos: seq<SessionInfo>)
      requires forall key :: key in entries ==> entries[key].session == key
      ensures NewestFirst(infos)
      ensures forall x :: x in infos <==> x.session in entries && entries[x.session] == x
    {
      infos := [];
      assert NewestFirst(infos);
      hide NewestFirst, InsertNewestFirst;
      var keys := Enumerate(entries.Keys);
      var n := 0;
      while n < |keys|
        invariant n <= |keys|
        invariant NewestFirst(infos)
        invariant forall x :: x in infos <==> x.session in keys[..n] && entries[x.session] == x
      {
        var key := keys[n];
        assert key in keys && key !in keys[..n];
        infos := InsertNewestFirst(entries[key], infos);
        assert keys[..n + 1] == keys[..n] + [key];
        n := n + 1;
      }
      assert keys[..n] == keys;
    }

    /** `.first()` of an unordered query: any of its rows. */
    method GetSessionInfo(db: Database, user: Id, session: Id) returns (detail: Option<SessionDetail>)
      ensures detail.None? <==> Selected(db.rows, OfSession(user, session)) == {}
      ensures detail.Some? ==>
                exists j :: j in Selected(db.rows, OfSession(user, session)) && detail.value == Detail(db.rows[j])
      ensures detail.None? <==> forall j :: j in db.rows && db.rows[j].user == user && db.rows[j].session == session ==>
                                              db.rows[j].revoked
      ensures detail.Some? ==>
                exists j :: j in db.rows && db.rows[j].user == user && db.rows[j].session == session && !db.rows[j].revoked
                            && detail.value.info.session == session && detail.value.info.client == db.rows[j].client
                            && detail.value.info.createdAt == db.rows[j].createdAt
                            && detail.value.info.expiresAt == db.rows[j].expiresAt
                            && detail.value.scope == db.rows[j].scope
    {
      SessionRevocation(db.rows, user, session, 0);
      var tokens := Enumerate(Selected(db.rows, OfSession(user, session)));
      if tokens == [] {
        return None;
      }
      assert tokens[0] in tokens;
      return Some(Detail(db.rows[tokens[0]]));
    }

    method RevokeSession(db: Database, user: Id, session: Id, now: nat) returns (revoked: bool)
      modifies db
      ensures db.rows == RevokeWhere(old(db.rows), OfSession(user, session), now)
      ensures revoked <==> Selected(old(db.rows), OfSession(user, session)) != {}
      ensures revoked <==> exists j :: j in old(db.rows) && !old(db.rows)[j].revoked
                                       && old(db.rows)[j].user == user && old(db.rows)[j].session == session
      ensures db.rows.Keys == old(db.rows).Keys
      ensures forall j :: j in db.rows ==>
                var row := old(db.rows)[j];
                db.rows[j] == if !row.revoked && row.user == user && row.session == session
                              then row.(revoked := true, revokedAt := Some(now)) else row
    {
      var tokens := new RefreshTokenService.Service();
      revoked := tokens.RevokeSession(db, user, session, now);
    }

    method RevokeAllSessions(db: Database, user: Id, except: Option<Id>, now: nat) returns (revokedCount: nat)
      modifies db
      ensures db.rows == RevokeWhere(old(db.rows), OfUser(user, except), now)
      ensures revokedCount == |Selected(old(db.rows), OfUser(user, except))|
      ensures db.rows.Keys == old(db.rows).Keys
      ensures forall j :: j in db.rows ==>
                var row := old(db.rows)[j];
                db.rows[j] == if !row.revoked && row.user == user
                                 && (except.None? || except.value == Blank || row.session != except.value)
                              then row.(revoked := true, revokedAt := Some(now)) else row
      ensures revokedCount == |set j | j in old(db.rows) && !old(db.rows)[j].revoked && old(db.rows)[j].user == user
                                       && (except.None? || except.value == Blank || old(db.rows)[j].session != except.value)|
    {
      hide *;
      UserRevocation(db.rows, user, except, now);
      ghost var before := db.rows;
      var tokens := Enumerate(LiveTokens(db.rows, user));
      SkippingStartsAndEnds(before, user, tokens, except, now);
      revokedCount := 0;
      for n := 0 to |tokens|
        invariant db.rows == Marked(before, NotSkipped(before, tokens[..n], except), now)
        invariant revokedCount == |NotSkipped(before, tokens[..n], except)|
      {
        var token := tokens[n];
        SkipOrMark(before, tokens, n, except, now);
        if Spared(db.rows[token], except) {
          continue;
        }
        db.rows := db.rows[token := Revoke(db.rows[token], now)];
        revokedCount := revokedCount + 1;
      }
    }

    method GetActiveSessionsCount(db: Database, user: Id) returns (count: nat)
      ensures exists infos :: IsListing(db.rows, user, infos) && count == |infos|
      ensures count == |set j | j in db.rows && db.rows[j].user == user && !db.rows[j].revoked :: db.rows[j].session|
    {
      var sessions := ListUserSessions(db, user);
      ListedSessions(db.rows, user, sessions);
      return |sessions|;
    }
  }

  // ---- Why the reads agree ---------------------------------------------------------------

  /** What `get_session_info` may answer, whichever row the query happens to give first. */
  ghost predicate MayShow(rows: Table, user: Id, session: Id, detail: Option<SessionDetail>) {
    match detail
    case None => Selected(rows, OfSession(user, session)) == {}
    case Some(d) => exists j :: j in Selected(rows, OfSession(user, session)) && d == Detail(rows[j])
  }

  /** The unordered first row is the one the listing shows, and there is none exactly when none is listed. */
  lemma FirstIsListed(rows: Table, user: Id, session: Id, infos: seq<SessionInfo>, detail: Option<SessionDetail>)
    requires Chains.OneLivePerSession(rows)
    requires IsListing(rows, user, infos) && MayShow(rows, user, session, detail)
    ensures detail.Some? ==> detail.value.info in infos
    ensures detail.None? ==> forall i :: 0 <= i < |infos| ==> infos[i].session != session
  {
    if detail.Some? {
      var j :| j in Selected(rows, OfSession(user, session)) && detail.value == Detail(rows[j]);
      assert j in LiveTokens(rows, user) && rows[j].session in LiveSessions(rows, user);
      var i :| 0 <= i < |infos| && infos[i].session == session;
      var k := ListedToken(rows, user, infos, i);
      assert k == j;
    } else {
      forall i | 0 <= i < |infos| ensures infos[i].session != session {
        var k := ListedToken(rows, user, infos, i);
        assert k in Selected(rows, OfSession(user, rows[k].session));
      }
    }
  }

  lemma {:induction false} InjectiveImageSize(rows: Table, tokens: set<Id>)
    requires forall j :: j in tokens ==> j in rows
    requires forall j, k :: j in tokens && k in tokens && rows[j].session == rows[k].session ==> j == k
    ensures |set j | j in tokens :: rows[j].session| == |tokens|
  {
    var image := set j | j in tokens :: rows[j].session;
    if tokens == {} {
      assert image == {};
    } else {
      var j :| j in tokens;
      var rest := set k | k in tokens - {j} :: rows[k].session;
      InjectiveImageSize(rows, tokens - {j});
      assert image == rest + {rows[j].session};
    }
  }

  lemma ListingSize(rows: Table, user: Id, infos: seq<SessionInfo>)
    requires Chains.OneLivePerSession(rows) && IsListing(rows, user, infos)
    ensures |infos| == |LiveTokens(rows, user)| == |LiveSessions(rows, user)|
  {
    ListedSessions(rows, user, infos);
    InjectiveImageSize(rows, LiveTokens(rows, user));
  }

  lemma OneLiveLeft(rows: Table, q: Query, now: nat)
    requires Chains.OneLivePerSession(rows)
    ensures Chains.OneLivePerSession(RevokeWhere(rows, q, now))
  {
  }

  /** What is live afterwards is what the revocation did not select, and its rows are as before. */
  lemma UnselectedAreLeft(rows: Table, user: Id, except: Option<Id>, now: nat)
    ensures var left := RevokeWhere(rows, OfUser(user, except), now);
            && LiveTokens(left, user) == LiveTokens(rows, user) - Selected(rows, OfUser(user, except))
            && forall j :: j in LiveTokens(left, user) ==> left[j] == rows[j]
  {
  }

  /** Only live tokens of the excepted session are not selected, and of those there is at most one. */
  lemma UnselectedAreSpared(rows: Table, user: Id, except: Option<Id>)
    requires Chains.OneLivePerSession(rows)
    ensures var gone, all := Selected(rows, OfUser(user, except)), LiveTokens(rows, user);
            && gone <= all
            && (forall j :: j in all - gone ==> Given(except).Some? && rows[j].session == except.value)
            && |all - gone| == if Given(except).Some? && except.value in LiveSessions(rows, user) then 1 else 0
  {
    var gone, all := Selected(rows, OfUser(user, except)), LiveTokens(rows, user);
    assert forall j :: j in all ==> (j in gone <==> !Spared(rows[j], except));
    if Given(except).Some? && except.value in LiveSessions(rows, user) {
      var j :| j in all && rows[j].session == except.value;
      assert all - gone == {j};
    } else {
      assert all - gone == {};
    }
  }

  lemma SparedIsLeft(rows: Table, user: Id, except: Option<Id>, now: nat)
    requires Chains.OneLivePerSession(rows)
    ensures var gone, all := Selected(rows, OfUser(user, except)), LiveTokens(rows, user);
            var left := RevokeWhere(rows, OfUser(user, except), now);
            var spared := if Given(except).Some? && except.value in LiveSessions(rows, user) then 1 else 0;
            && |gone| == |all| - spared
            && |LiveTokens(left, user)| == spared
            && forall j :: j in LiveTokens(left, user) ==> Some(left[j].session) == except
  {
    UnselectedAreLeft(rows, user, except, now);
    UnselectedAreSpared(rows, user, except);
    hide RevokeWhere, LiveSessions, Chains.OneLivePerSession;
  }

  /** Revoking all returns the count the listing had just given, less one when the excepted session was live,
      and leaves exactly that session. */
  lemma RevokeAllCountsSessions(
    rows: Table, user: Id, except: Option<Id>, now: nat, before: seq<SessionInfo>, after: seq<SessionInfo>)
    requires Chains.OneLivePerSession(rows)
    requires IsListing(rows, user, before)
    requires IsListing(RevokeWhere(rows, OfUser(user, except), now), user, after)
    ensures var spared := Given(except).Some? && except.value in LiveSessions(rows, user);
            && |Selected(rows, OfUser(user, except))| == |before| - (if spared then 1 else 0)
            && |after| == (if spared then 1 else 0)
            && forall i :: 0 <= i < |after| ==> Some(after[i].session) == except
  {
    var left := RevokeWhere(rows, OfUser(user, except), now);
    OneLiveLeft(rows, OfUser(user, except), now);
    ListingSize(rows, user, before);
    ListingSize(left, user, after);
    SparedIsLeft(rows, user, except, now);
    forall i | 0 <= i < |after| ensures Some(after[i].session) == except {
      var j := ListedToken(left, user, after, i);
    }
  }

  /** Two tables that agree on a user's rows. */
  ghost predicate SameRowsOf(rows: Table, left: Table, user: Id) {
    && (forall j :: j in rows && rows[j].user == user ==> j in left && left[j] == rows[j])
    && (forall j :: j in left && left[j].user == user ==> j in rows && left[j] == rows[j])
  }

  lemma SameLiveRows(rows: Table, left: Table, user: Id)
    requires SameRowsOf(rows, left, user)
    ensures LiveTokens(left, user) == LiveTokens(rows, user)
    ensures forall j :: j in LiveTokens(rows, user) ==> left[j] == rows[j]
  {
    LiveRows(rows, user);
    LiveRows(left, user);
    hide LiveTokens;
  }

  lemma SameListing(rows: Table, left: Table, user: Id, infos: seq<SessionInfo>)
    requires SameRowsOf(rows, left, user) && IsListing(rows, user, infos)
    ensures IsListing(left, user, infos)
  {
    SameLiveRows(rows, left, user);
    hide LiveTokens, NewestFirst, SameRowsOf;
    forall i | 0 <= i < |infos| ensures ShowsLatest(left, user, infos[i]) {
      var j := ListedToken(rows, user, infos, i);
      assert Latest(left, LiveTokens(left, user), j);
    }
    assert LiveSessions(left, user) == LiveSessions(rows, user);
  }

  lemma SameDetail(rows: Table, left: Table, user: Id, session: Id, detail: Option<SessionDetail>)
    requires SameRowsOf(rows, left, user)
    ensures MayShow(left, user, session, detail) <==> MayShow(rows, user, session, detail)
  {
    SessionRevocation(rows, user, session, 0);
    SessionRevocation(left, user, session, 0);
    hide Selected, Hits, RevokeWhere;
    assert Selected(left, OfSession(user, session)) == Selected(rows, OfSession(user, session));
  }

  lemma UntouchedIsSame(rows: Table, left: Table, user: Id, now: nat, other: Id)
    requires other != user && left.Keys == rows.Keys
    requires forall j :: j in rows ==>
               left[j] == rows[j] || (rows[j].user == user && left[j] == rows[j].(revoked := true, revokedAt := Some(now)))
    ensures SameRowsOf(rows, left, other) && SameRowsOf(left, rows, other)
  {
  }

  lemma OtherRowsStay(rows: Table, user: Id, session: Id, except: Option<Id>, now: nat, other: Id)
    requires other != user
    ensures SameRowsOf(rows, RevokeWhere(rows, OfSession(user, session), now), other)
    ensures SameRowsOf(RevokeWhere(rows, OfSession(user, session), now), rows, other)
    ensures SameRowsOf(rows, RevokeWhere(rows, OfUser(user, except), now), other)
    ensures SameRowsOf(RevokeWhere(rows, OfUser(user, except), now), rows, other)
  {
    hide RevokeWhere, Selected, Hits, SameRowsOf;
    SessionRevocation(rows, user, session, now);
    UserRevocation(rows, user, except, now);
    UntouchedIsSame(rows, RevokeWhere(rows, OfSession(user, session), now), user, now, other);
    UntouchedIsSame(rows, RevokeWhere(rows, OfUser(user, except), now), user, now, other);
  }

  /** Whatever is revoked for one user, of one session or of all but one, changes no row, listing, detail or count of
      another. */
  lemma OthersUntouched(
    rows: Table, user: Id, session: Id, except: Option<Id>, now: nat, other: Id, infos: seq<SessionInfo>, shown: Id,
    detail: Option<SessionDetail>)
    requires other != user
    ensures forall q :: q == OfSession(user, session) || q == OfUser(user, except) ==>
              var left := RevokeWhere(rows, q, now);
              && (forall j :: j in rows && rows[j].user == other ==> j in left && left[j] == rows[j])
              && (IsListing(left, other, infos) <==> IsListing(rows, other, infos))
              && (MayShow(left, other, shown, detail) <==> MayShow(rows, other, shown, detail))
  {
    forall q | q == OfSession(user, session) || q == OfUser(user, except)
      ensures var left := RevokeWhere(rows, q, now);
              && (forall j :: j in rows && rows[j].user == other ==> j in left && left[j] == rows[j])
              && (IsListing(left, other, infos) <==> IsListing(rows, other, infos))
              && (MayShow(left, other, shown, detail) <==> MayShow(rows, other, shown, detail))
    {
      var left := RevokeWhere(rows, q, now);
      OtherRowsStay(rows, user, session, except, now, other);
      hide RevokeWhere, IsListing, MayShow;
      SameDetail(rows, left, other, shown, detail);
      if IsListing(rows, other, infos) {
        SameListing(rows, left, other, infos);
      }
      if IsListing(left, other, infos) {
        SameListing(left, rows, other, infos);
      }
    }
  }

  /** Both facts hold in every state the protocol can reach. */
  lemma ReadsAgreeWhenReachable(s0: State, events: seq<Event>, user: Id, session: Id, infos: seq<SessionInfo>, detail: Option<SessionDetail>)
    requires Initial(s0) && LegalRun(s0, events)
    requires IsListing(Run(s0, events).rows, user, infos) && MayShow(Run(s0, events).rows, user, session, detail)
    ensures detail.Some? <==> exists i :: 0 <= i < |infos| && infos[i].session == session
    ensures detail.Some? ==> detail.value.info in infos
    ensures |infos| == |LiveTokens(Run(s0, events).rows, user)|
  {
    var rows := Run(s0, events).rows;
    Chains.NeverTwoLive(s0, events);
    hide Run, LegalRun, IsListing;
    FirstIsListed(rows, user, session, infos, detail);
    ListingSize(rows, user, infos);
    if detail.Some? {
      var i :| 0 <= i < |infos| && infos[i] == detail.value.info;
      assert infos[i].session == session;
    }
  }
}
