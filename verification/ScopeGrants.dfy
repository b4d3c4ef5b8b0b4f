/** Scopes never grow: over whole runs a token stays within what its client may have. */
module ScopeGrants {
  import opened Common
  import opened Tokens
  import Chains
  import Scopes

  predicate Within(scope: string, allowed: string) {
    Scopes.ScopeSet(scope) <= Scopes.ScopeSet(allowed)
  }

  ghost predicate GrantsWithin(s: State) {
    forall j :: j in s.issued ==>
      && s.issued[j].client in s.clients
      && Within(s.issued[j].scope, s.clients[s.issued[j].client].allowedScopes)
  }

  lemma GrantIsWithin(allowed: string, requested: Option<string>)
    requires Scopes.ValidateScope(allowed, requested).valid
    ensures Within(Scopes.ValidateScope(allowed, requested).scope, allowed)
  {
    Scopes.GrantedWithinAllowed(allowed, requested);
    hide Scopes.ValidateScope;
  }

  lemma StepKeeps(s: State, e: Event)
    requires GrantsWithin(s)
    ensures GrantsWithin(Step(s, e))
  {
    hide Within, Scopes.ValidateScope, RevokeChain, RevokeWhere, Purge, NewRow, Seconds, Micros;
    if e.Password? && PasswordAllowed(s, e.client, e.who, e.scope) {
      GrantIsWithin(s.clients[e.client].allowedScopes, e.scope);
    }
    assert forall j :: j in s.issued ==> s.issued[j].client in s.clients;
  }

  lemma {:induction false} RunKeeps(s: State, events: seq<Event>)
    requires GrantsWithin(s)
    ensures GrantsWithin(Run(s, events))
    decreases |events|
  {
    if events == [] {
    } else {
      StepKeeps(s, events[0]);
      RunKeeps(Step(s, events[0]), events[1..]);
    }
  }

  /** In every reachable state each stored token's scopes lie within its client's allowed scopes. */
  lemma StoredScopesWithinAllowed(s0: State, events: seq<Event>)
    requires Initial(s0) && LegalRun(s0, events)
    ensures var s := Run(s0, events);
            forall j :: j in s.rows ==>
              && s.rows[j].client in s.clients
              && Within(s.rows[j].scope, s.clients[s.rows[j].client].allowedScopes)
  {
    RunKeeps(s0, events);
    Chains.RowsShowPayloads(s0, events);
    hide Within;
  }
}
