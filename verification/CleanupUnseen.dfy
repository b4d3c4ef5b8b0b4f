/** Cleanup of refresh tokens cannot be seen through the token endpoint, as long as rows are kept a day. */
module CleanupUnseen {
  import opened Common
  import opened Tokens
  import Scopes

  /** The verdicts the token endpoint gives along a run. */
  function Replies(s: State, events: seq<Event>): seq<Verdict>
    decreases |events|
  {
    if events == [] then []
    else
      (if IsGrant(events[0]) then [Grant(s, events[0]).verdict] else [])
      + Replies(Step(s, events[0]), events[1..])
  }

  /** The same run without its cleanup steps. */
  function Strip(events: seq<Event>): seq<Event> {
    if events == [] then []
    else (if events[0].Cleanup? then [] else [events[0]]) + Strip(events[1..])
  }

  predicate KeepsADay(events: seq<Event>) {
    forall e: Event :: e in events && e.Cleanup? ==> e.daysToKeep >= 1
  }

  /** Rows expire when their tokens do. */
  predicate Expires(issued: map<Id, Payload>, rows: Table) {
    forall j :: j in rows ==> j in issued && rows[j].expiresAt == Micros(issued[j].exp)
  }

  predicate Includes(kept: Table, rows: Table) {
    forall j :: j in rows ==> j in kept && kept[j] == rows[j]
  }

  /** Only rows of tokens that no longer decode are gone. */
  predicate Outdated(issued: map<Id, Payload>, kept: Table, rows: Table, now: nat) {
    forall j :: j in kept && j !in rows ==> j in issued && issued[j].exp < Seconds(now)
  }

  /** `kept` is `s` had nothing been cleaned up: it has more rows, but none that still decodes. */
  predicate Shadows(kept: State, s: State) {
    && kept == s.(rows := kept.rows)
    && Expires(s.issued, kept.rows)
    && Includes(kept.rows, s.rows)
    && Outdated(s.issued, kept.rows, s.rows, s.now)
  }

  lemma DecodingIsStored(kept: State, s: State, jti: Id)
    requires Shadows(kept, s) && Decodes(s, jti)
    ensures jti in kept.rows <==> jti in s.rows
  {
  }

  lemma WhereExpires(issued: map<Id, Payload>, rows: Table, q: Query, now: nat)
    requires Expires(issued, rows)
    ensures Expires(issued, RevokeWhere(rows, q, now))
  {
    hide Hits;
  }

  lemma WhereShadows(kept: State, s: State, q: Query)
    requires Shadows(kept, s)
    ensures Shadows(kept.(rows := RevokeWhere(kept.rows, q, s.now)), s.(rows := RevokeWhere(s.rows, q, s.now)))
  {
    hide Hits, Expires;
    WhereExpires(s.issued, kept.rows, q, s.now);
  }

  lemma OneShadows(kept: State, s: State, jti: Id)
    requires Shadows(kept, s) && jti in s.rows
    ensures Shadows(kept.(rows := RevokeOne(kept.rows, jti, s.now)), s.(rows := RevokeOne(s.rows, jti, s.now)))
  {
  }

  lemma IssueShadows(kept: State, s: State, jti: Id, p: Payload)
    requires Shadows(kept, s) && Fresh(s, jti)
    ensures Shadows(Issue(kept, jti, p), Issue(s, jti, p)) && jti !in kept.rows
  {
  }

  lemma SavedExpires(s: State, rows: Table, jti: Id, parent: Option<Id>, session: Id)
    requires Expires(s.issued, rows) && jti in s.issued
    ensures Expires(s.issued, rows[jti := NewRow(s.issued[jti], parent, session, s.now)])
  {
  }

  lemma SavedShadows(kept: State, s: State, jti: Id, parent: Option<Id>, session: Id)
    requires Shadows(kept, s) && jti in s.issued && jti !in kept.rows
    ensures jti in kept.issued
    ensures Shadows(Save(kept, jti, parent, session), Save(s, jti, parent, session))
  {
    hide Expires, NewRow;
    SavedExpires(s, kept.rows, jti, parent, session);
  }

  lemma SaveShadows(kept: State, s: State, jti: Id, p: Payload, parent: Option<Id>, session: Id)
    requires Shadows(kept, s) && Fresh(s, jti)
    ensures Shadows(Save(Issue(kept, jti, p), jti, parent, session), Save(Issue(s, jti, p), jti, parent, session))
  {
    hide Shadows;
    IssueShadows(kept, s, jti, p);
    SavedShadows(Issue(kept, jti, p), Issue(s, jti, p), jti, parent, session);
  }

  lemma CleanupShadows(kept: State, s: State, days: int)
    requires Shadows(kept, s) && days >= 1
    ensures Shadows(kept, Step(s, Cleanup(days)))
  {
  }

  lemma ChainShadows(kept: State, s: State, jti: Id)
    requires Shadows(kept, s) && jti in s.rows
    ensures jti in kept.rows
    ensures Shadows(kept.(rows := RevokeChain(kept.rows, jti, s.now)), s.(rows := RevokeChain(s.rows, jti, s.now)))
  {
    var one, keptOne := s.(rows := RevokeOne(s.rows, jti, s.now)), kept.(rows := RevokeOne(kept.rows, jti, s.now));
    OneShadows(kept, s, jti);
    WhereShadows(keptOne, one, OfPair(s.rows[jti].user, s.rows[jti].client));
  }

  lemma RotateShadows(kept: State, s: State, client: Id, used: Id, jti: Id)
    requires Shadows(kept, s) && Fresh(s, jti)
    requires used in s.rows && RefreshAllowed(s, client, used)
    ensures used in kept.rows && RefreshAllowed(kept, client, used)
    ensures var r, k := Rotate(s, client, used, jti), Rotate(kept, client, used, jti);
            r.verdict == k.verdict && Shadows(k.state, r.state)
  {
    var one, keptOne := s.(rows := RevokeOne(s.rows, used, s.now)), kept.(rows := RevokeOne(kept.rows, used, s.now));
    OneShadows(kept, s, used);
    assert used in kept.rows && kept.rows[used] == s.rows[used];
    var p := NewPayload(s, s.issued[used].sub, client, s.issued[used].scope);
    assert kept == s.(rows := kept.rows);
    hide Shadows;
    assert RefreshAllowed(kept, client, used);
    hide RefreshAllowed;
    assert p == NewPayload(kept, kept.issued[used].sub, client, kept.issued[used].scope);
    hide NewPayload, Save;
    SaveShadows(keptOne, one, jti, p, Some(used), s.rows[used].session);
  }

  /** A token that decodes is validated alike. */
  lemma SameValidity(kept: State, s: State, used: Id)
    requires Shadows(kept, s) && Decodes(s, used)
    ensures Validate(kept.rows, used, s.now) == Validate(s.rows, used, s.now)
    ensures !Validate(s.rows, used, s.now).NotFound? ==> used in s.rows && used in kept.rows
  {
    DecodingIsStored(kept, s, used);
  }

  lemma SameGuards(kept: State, s: State, client: Id, used: Id)
    requires Shadows(kept, s)
    ensures kept.now == s.now
    ensures Decodes(kept, used) <==> Decodes(s, used)
    ensures RefreshAllowed(kept, client, used) <==> RefreshAllowed(s, client, used)
  {
    assert kept == s.(rows := kept.rows);
    hide Shadows;
  }

  lemma RefreshShadows(kept: State, s: State, client: Id, used: Id, jti: Id)
    requires Shadows(kept, s) && Fresh(s, jti)
    ensures var r, k := RefreshGrant(s, client, used, jti), RefreshGrant(kept, client, used, jti);
            r.verdict == k.verdict && Shadows(k.state, r.state)
  {
    hide Shadows, Validate, Decodes, RefreshAllowed, RevokeChain, Rotate, Fresh;
    SameGuards(kept, s, client, used);
    if Decodes(s, used) {
      SameValidity(kept, s, used);
      var validity := Validate(s.rows, used, s.now);
      if validity.Reused? {
        ChainShadows(kept, s, used);
      } else if validity.Valid? && RefreshAllowed(s, client, used) {
        RotateShadows(kept, s, client, used, jti);
      }
    }
  }

  lemma PasswordShadows(
    kept: State, s: State, client: Id, who: Option<Id>, scope: Option<string>, lockedOut: bool, jti: Id, session: Id)
    requires Shadows(kept, s) && Fresh(s, jti)
    ensures var r := PasswordGrant(s, client, who, scope, lockedOut, jti, session);
            var k := PasswordGrant(kept, client, who, scope, lockedOut, jti, session);
            r.verdict == k.verdict && Shadows(k.state, r.state)
  {
    assert kept == s.(rows := kept.rows);
    hide Shadows, Scopes.ValidateScope;
    if !lockedOut && PasswordAllowed(s, client, who, scope) {
      var granted := Scopes.ValidateScope(s.clients[client].allowedScopes, scope).scope;
      var p := NewPayload(s, who.value, client, granted);
      assert p == NewPayload(kept, who.value, client, granted);
      hide NewPayload, Save, Issue;
      SaveShadows(kept, s, jti, p, None, session);
    }
  }

  lemma EnvironmentShadows(kept: State, s: State, e: Event)
    requires Shadows(kept, s) && (e.Tick? || e.AddClient? || e.SetUser?)
    ensures Shadows(Step(kept, e), Step(s, e))
  {
  }

  lemma StepShadows(kept: State, s: State, e: Event)
    requires Shadows(kept, s) && Legal(s, e) && !e.Cleanup?
    ensures Shadows(Step(kept, e), Step(s, e))
    ensures IsGrant(e) ==> Grant(kept, e).verdict == Grant(s, e).verdict
  {
    assert kept.now == s.now;
    hide Shadows, PasswordGrant, RefreshGrant, RevokeWhere, Fresh;
    match e
    case RevokeSession(user, session) => WhereShadows(kept, s, OfSession(user, session));
    case RevokeAll(user, except) => WhereShadows(kept, s, OfUser(user, except));
    case Refresh(client, used, jti) => RefreshShadows(kept, s, client, used, jti);
    case Password(client, who, scope, lockedOut, jti, session) =>
      PasswordShadows(kept, s, client, who, scope, lockedOut, jti, session);
    case _ => EnvironmentShadows(kept, s, e);
  }

  lemma {:induction false} RunShadows(kept: State, s: State, events: seq<Event>)
    requires Shadows(kept, s) && KeepsADay(events)
    ensures LegalRun(s, events) <==> LegalRun(kept, Strip(events))
    ensures LegalRun(s, events) ==> Replies(s, events) == Replies(kept, Strip(events))
    decreases |events|
  {
    if events == [] {
    } else {
      var e, rest := events[0], events[1..];
      if e.Cleanup? {
        CleanupShadows(kept, s, e.daysToKeep);
        RunShadows(kept, Step(s, e), rest);
        assert Strip(events) == Strip(rest);
      } else {
        var stripped := Strip(events);
        assert stripped[0] == e && stripped[1..] == Strip(rest);
        if Legal(s, e) {
          StepShadows(kept, s, e);
          RunShadows(Step(kept, e), Step(s, e), rest);
        }
      }
    }
  }

  // ---- Exactly when ----------------------------------------------------------------------

  lemma {:induction false} RunConcat(s: State, a: seq<Event>, b: seq<Event>)
    ensures LegalRun(s, a + b) <==> LegalRun(s, a) && LegalRun(Run(s, a), b)
    decreases |a|
  {
    hide Step, Legal;
    if a == [] {
      assert a + b == b;
    } else {
      assert (a + b)[1..] == a[1..] + b;
      RunConcat(Step(s, a[0]), a[1..], b);
    }
  }

  lemma {:induction false} RepliesConcat(s: State, a: seq<Event>, b: seq<Event>)
    ensures Replies(s, a + b) == Replies(s, a) + Replies(Run(s, a), b)
    decreases |a|
  {
    hide Step, Grant, IsGrant;
    if a == [] {
      assert a + b == b;
    } else {
      assert (a + b)[1..] == a[1..] + b;
      RepliesConcat(Step(s, a[0]), a[1..], b);
    }
  }

  lemma {:induction false} StripConcat(a: seq<Event>, b: seq<Event>)
    ensures Strip(a + b) == Strip(a) + Strip(b)
  {
    if a == [] {
      assert a + b == b;
    } else {
      assert (a + b)[1..] == a[1..] + b;
      StripConcat(a[1..], b);
    }
  }

  predicate CleanupsKeep(events: seq<Event>, days: int) {
    forall e: Event :: e in events && e.Cleanup? ==> e.daysToKeep == days
  }

  /** Whatever the run, cleanup with this retention changes no verdict of the token endpoint. */
  ghost predicate Unseen(days: int) {
    forall s0, events :: Initial(s0) && LegalRun(s0, events) && CleanupsKeep(events, days) ==>
                           Replies(s0, events) == Replies(s0, Strip(events))
  }

  /** Steps that keep rows for at least a day can be inserted anywhere: they make no run illegal and change no verdict. */
  lemma KeepingADayIsUnseen(s0: State, events: seq<Event>)
    requires Initial(s0) && KeepsADay(events)
    ensures LegalRun(s0, events) <==> LegalRun(s0, Strip(events))
    ensures LegalRun(s0, events) ==> Replies(s0, events) == Replies(s0, Strip(events))
  {
    RunShadows(s0, s0, events);
  }

  lemma ThreeSteps(s: State, a: Event, b: Event, c: Event)
    requires !a.Cleanup? && !b.Cleanup? && !c.Cleanup?
    ensures var t := Step(Step(s, a), b);
            && Run(s, [a, b, c]) == Step(t, c)
            && (LegalRun(s, [a, b, c]) <==> Legal(s, a) && Legal(Step(s, a), b) && Legal(t, c))
            && Strip([a, b, c]) == [a, b, c]
  {
    hide Step, Legal;
    var s1 := Step(s, a);
    var s2 := Step(s1, b);
    assert [a, b, c][1..] == [b, c] && [b, c][1..] == [c] && [c][1..] == [];
    assert Strip([c]) == [c];
    assert Strip([b, c]) == [b] + Strip([c]);
    assert Run(s2, [c]) == Run(Step(s2, c), []);
    assert Run(s1, [b, c]) == Run(s2, [c]);
    assert LegalRun(s2, [c]) <==> Legal(s2, c);
    assert LegalRun(s1, [b, c]) <==> Legal(s1, b) && LegalRun(s2, [c]);
  }

  lemma LoginAtExpiry(s0: State, c: Id, u: Id, a: Id, session: Id)
    requires Initial(s0) && s0.now == 0 && a != Blank && session != Blank
    requires s0.clients == map[c := Client(true, false, "", {PASSWORD, REFRESH_TOKEN}, 1)] && s0.users == map[u := true]
    ensures var login := Password(c, Some(u), None, false, a, session);
            && Legal(s0, login)
            && Step(s0, login) == Save(Issue(s0, a, Payload(u, c, "", 1)), a, None, session)
  {
  }

  lemma AllowedAtExpiry(s0: State, c: Id, u: Id, a: Id, session: Id)
    requires Initial(s0) && s0.now == 0
    requires s0.clients == map[c := Client(true, false, "", {PASSWORD, REFRESH_TOKEN}, 1)] && s0.users == map[u := true]
    ensures var s1 := Save(Issue(s0, a, Payload(u, c, "", 1)), a, None, session);
            RefreshAllowed(s1, c, a) && Validate(s1.rows, a, 0).Valid?
  {
  }

  lemma RotationEffect(s: State, client: Id, used: Id, jti: Id)
    requires used in s.rows && RefreshAllowed(s, client, used) && used != jti
    ensures var t := Rotate(s, client, used, jti).state;
            && t.now == s.now
            && t.issued == s.issued[jti := NewPayload(s, s.issued[used].sub, client, s.issued[used].scope)]
            && t.log.Keys == s.log.Keys + {jti}
            && used in t.rows && t.rows[used] == Revoke(s.rows[used], s.now)
  {
    hide RefreshAllowed;
  }

  lemma RotateAtExpiry(s0: State, c: Id, u: Id, a: Id, b: Id, session: Id)
    requires Initial(s0) && s0.now == 0 && a != b && b != Blank
    requires s0.clients == map[c := Client(true, false, "", {PASSWORD, REFRESH_TOKEN}, 1)] && s0.users == map[u := true]
    ensures var s1 := Save(Issue(s0, a, Payload(u, c, "", 1)), a, None, session);
            var s2 := Step(s1, Refresh(c, a, b));
            && Legal(s1, Refresh(c, a, b))
            && s2.now == 0
            && s2.issued == map[a := Payload(u, c, "", 1), b := Payload(u, c, "", 1)]
            && s2.log.Keys == {a, b}
            && a in s2.rows && s2.rows[a] == Revoke(NewRow(Payload(u, c, "", 1), None, session, 0), 0)
  {
    hide Validate, RefreshAllowed, ClientPasses, NewRow, RevokeChain, Rotate;
    var s1 := Save(Issue(s0, a, Payload(u, c, "", 1)), a, None, session);
    AllowedAtExpiry(s0, c, u, a, session);
    RotationEffect(s1, c, a, b);
    assert Decodes(s1, a) && NewPayload(s1, u, c, "") == Payload(u, c, "", 1);
    hide NewPayload, Decodes, Save, Issue;
  }

  /** A token that still decodes and whose row is revoked, though its expiry instant has just passed. */
  lemma ReplayAtExpiry() returns (s0: State, prefix: seq<Event>, replay: Event)
    ensures Initial(s0) && LegalRun(s0, prefix) && Strip(prefix) == prefix
    ensures forall e :: e in prefix ==> !e.Cleanup?
    ensures replay.Refresh?
    ensures var s := Run(s0, prefix);
            && Legal(s, replay)
            && Decodes(s, replay.used)
            && replay.used in s.rows
            && s.rows[replay.used].revoked
            && s.rows[replay.used].expiresAt < s.now
  {
    hide Run, LegalRun, Strip, Grant, Save, Issue;
    var c, u, a, b, session := Name(0), Name(1), Name(2), Name(3), Name(5);
    var client := Client(true, false, "", {PASSWORD, REFRESH_TOKEN}, 1);
    s0 := State(0, map[c := client], map[u := true], map[], map[], map[]);
    var login, rotate, wait := Password(c, Some(u), None, false, a, session), Refresh(c, a, b), Tick(1_500_000);
    replay := Refresh(c, a, Name(4));
    prefix := [login, rotate, wait];
    ThreeSteps(s0, login, rotate, wait);
    LoginAtExpiry(s0, c, u, a, session);
    RotateAtExpiry(s0, c, u, a, b, session);
  }

  lemma OneGrant(s: State, e: Event)
    requires IsGrant(e)
    ensures Replies(s, [e]) == [Grant(s, e).verdict] && Strip([e]) == [e]
    ensures LegalRun(s, [e]) <==> Legal(s, e)
  {
    assert [e][1..] == [];
  }

  lemma TailSeen(s: State, days: int, replay: Event)
    requires days <= 0 && replay.Refresh? && Legal(s, replay)
    requires Decodes(s, replay.used) && replay.used in s.rows && s.rows[replay.used].revoked
    requires s.rows[replay.used].expiresAt < s.now
    ensures var tail := [Cleanup(days), replay];
            && LegalRun(s, tail)
            && Strip(tail) == [replay]
            && Replies(s, tail) == [TokenNotFound]
            && Replies(s, [replay]) == [TokenReused]
  {
    var cleaned := Step(s, Cleanup(days));
    assert [Cleanup(days), replay][1..] == [replay];
    assert replay.used !in cleaned.rows && Grant(cleaned, replay).verdict == TokenNotFound;
    OneGrant(cleaned, replay);
    OneGrant(s, replay);
  }

  /** With less than a day's retention a token replayed within the second of its expiry is no longer seen as reused. */
  lemma KeepingLessIsSeen(days: int)
    requires days <= 0
    ensures !Unseen(days)
  {
    var s0, prefix, replay := ReplayAtExpiry();
    var s := Run(s0, prefix);
    var tail := [Cleanup(days), replay];
    TailSeen(s, days, replay);
    RunConcat(s0, prefix, tail);
    RepliesConcat(s0, prefix, tail);
    RepliesConcat(s0, prefix, [replay]);
    StripConcat(prefix, tail);
    hide LegalRun, Replies, Strip, Run, Step, Legal, Initial;
    var events := prefix + tail;
    assert CleanupsKeep(events, days);
    assert Replies(s0, events)[|Replies(s0, prefix)|] == TokenNotFound;
    assert Replies(s0, Strip(events))[|Replies(s0, prefix)|] == TokenReused;
  }

  /** Cleanup goes unnoticed exactly when it keeps expired rows for at least one day. */
  lemma UnseenExactlyFromADay(days: int)
    ensures Unseen(days) <==> days >= 1
  {
    if days >= 1 {
      forall s0, events | Initial(s0) && LegalRun(s0, events) && CleanupsKeep(events, days)
        ensures Replies(s0, events) == Replies(s0, Strip(events))
      {
        KeepingADayIsUnseen(s0, events);
      }
    } else {
      KeepingLessIsSeen(days);
    }
  }
}
