/** Scope validation and normalisation of the OAuth client service. */
module Scopes {
  import opened Common
  import opened Text

  /** The set of scopes a space-separated string names. */
  function ScopeSet(scope: string): set<string> {
    set w | w in Split(scope)
  }

  /** Python's `<=` on strings: lexicographic by code point. */
  predicate AtMost(a: string, b: string) {
    a == "" || (b != "" && (a[0] < b[0] || (a[0] == b[0] && AtMost(a[1..], b[1..]))))
  }

  lemma AtMostTotal(a: string, b: string)
    ensures AtMost(a, b) || AtMost(b, a)
    ensures AtMost(a, b) && AtMost(b, a) ==> a == b
  {
    if a != "" && b != "" && a[0] == b[0] {
      AtMostTotal(a[1..], b[1..]);
      assert a == [a[0]] + a[1..] && b == [b[0]] + b[1..];
    }
  }

  lemma AtMostTransitive(a: string, b: string, c: string)
    requires AtMost(a, b) && AtMost(b, c)
    ensures AtMost(a, c)
  {
    if a != "" && a[0] == b[0] == c[0] {
      AtMostTransitive(a[1..], b[1..], c[1..]);
    }
  }

  /** With `n` the length of their common beginning: one string comes before another when it ends there, or is the
      smaller at the first difference. */
  lemma {:induction false} AtMostMeans(a: string, b: string, n: nat)
    requires n <= |a| && n <= |b| && a[..n] == b[..n]
    requires n < |a| && n < |b| ==> a[n] != b[n]
    ensures AtMost(a, b) <==> n == |a| || (n < |b| && a[n] < b[n])
    decreases n
  {
    if n == 0 {
    } else {
      assert a[0] == a[..n][0] == b[..n][0] == b[0];
      assert a[1..][..n - 1] == a[..n][1..] && b[1..][..n - 1] == b[..n][1..];
      AtMostMeans(a[1..], b[1..], n - 1);
    }
  }

  predicate IsLeast(m: string, s: set<string>) {
    m in s && forall x :: x in s ==> AtMost(m, x)
  }

  lemma LeastExists(s: set<string>)
    requires s != {}
    ensures exists m :: IsLeast(m, s)
  {
    var x :| x in s;
    AtMostTotal(x, x);
    if s == {x} {
      assert IsLeast(x, s);
    } else {
      LeastExists(s - {x});
      var least :| IsLeast(least, s - {x});
      AtMostTotal(x, least);
      var m := if AtMost(x, least) then x else least;
      forall y | y in s ensures AtMost(m, y) {
        if m == x && y != x {
          AtMostTransitive(x, least, y);
        }
      }
      assert IsLeast(m, s);
    }
  }

  lemma LeastUnique(s: set<string>)
    ensures forall m, n :: IsLeast(m, s) && IsLeast(n, s) ==> m == n
  {
    forall m, n | IsLeast(m, s) && IsLeast(n, s) ensures m == n {
      AtMostTotal(m, n);
    }
  }

  predicate Ascending(words: seq<string>) {
    forall i, k :: 0 <= i < k < |words| ==> AtMost(words[i], words[k]) && words[i] != words[k]
  }

  /** `sorted(s)` for a set of strings: its members once each, in ascending order. */
  function Sorted(s: set<string>): (words: seq<string>)
    ensures forall w :: w in words <==> w in s
    ensures Ascending(words)
  {
    if s == {} then []
    else
      LeastExists(s);
      LeastUnique(s);
      var m :| IsLeast(m, s);
      [m] + Sorted(s - {m})
  }

  datatype Checked = Checked(valid: bool, scope: string)

  /** `validate_scope`: an absent or empty request means every allowed scope. */
  function ValidateScope(allowed: string, requested: Option<string>): Checked {
    if requested.None? || requested.value == "" then Checked(true, allowed)
    else
      var names := ScopeSet(requested.value);
      if names <= ScopeSet(allowed) then Checked(true, Join(Sorted(names)))
      else Checked(false, "")
  }

  /** The normalised string names the requested set. */
  lemma NormalNames(names: set<string>)
    requires forall w :: w in names ==> IsWord(w)
    ensures Split(Join(Sorted(names))) == Sorted(names)
    ensures ScopeSet(Join(Sorted(names))) == names
  {
    SplitJoin(Sorted(names));
  }

  /** Scopes never grow: what is granted lies within what the client may have,
      and a nonempty request is granted as the very set it names or not at all. */
  lemma GrantedWithinAllowed(allowed: string, requested: Option<string>)
    ensures var r := ValidateScope(allowed, requested);
            && (r.valid ==> ScopeSet(r.scope) <= ScopeSet(allowed))
            && (requested.None? || requested.value == "" ==> r == Checked(true, allowed))
            && (requested.Some? && requested.value != "" ==>
                  && (r.valid <==> ScopeSet(requested.value) <= ScopeSet(allowed))
                  && (r.valid ==> ScopeSet(r.scope) == ScopeSet(requested.value)))
  {
    if requested.Some? {
      NormalNames(ScopeSet(requested.value));
    }
  }

  /** Two accepted nonempty requests get the same string exactly when they name the same set. */
  lemma SameStringIffSameSet(allowed: string, a: string, b: string)
    requires a != "" && b != ""
    requires ValidateScope(allowed, Some(a)).valid && ValidateScope(allowed, Some(b)).valid
    ensures ValidateScope(allowed, Some(a)).scope == ValidateScope(allowed, Some(b)).scope
            <==> ScopeSet(a) == ScopeSet(b)
  {
    NormalNames(ScopeSet(a));
    NormalNames(ScopeSet(b));
  }

  /** Validating a granted scope again returns it unchanged exactly when it names some scope
      or the client has none at all: a blank request is granted as "", and "" then means everything. */
  lemma RevalidatingIsIdentity(allowed: string, a: string)
    requires a != "" && ValidateScope(allowed, Some(a)).valid
    ensures var granted := ValidateScope(allowed, Some(a)).scope;
            ValidateScope(allowed, Some(granted)) == Checked(true, granted)
            <==> Split(a) != [] || allowed == ""
  {
    var names := ScopeSet(a);
    NormalNames(names);
    if Split(a) != [] {
      assert Split(a)[0] in names;
      assert Join(Sorted(names)) != "" by {
        assert ScopeSet("") == {};
      }
    } else {
      assert names == {};
    }
  }
}
