/** Types and small helpers shared by every component. */
module Common {
  datatype Option<+T> = None | Some(value: T)

  /** Identifiers (users, clients, sessions, jtis) are only ever compared; `Blank` is the empty string. */
  datatype Id = Blank | Name(number: nat)

  /** Python truthiness of an optional id. */
  function Given(id: Option<Id>): Option<Id> {
    if id == Some(Blank) then None else id
  }

  function GivenOr(id: Option<Id>, generated: Id): Id {
    if Given(id).Some? then id.value else generated
  }

  /** Database instants are counted in microseconds; JWT claims in whole seconds. */
  function Micros(seconds: int): int { seconds * 1_000_000 }

  /** `int(instant.timestamp())`: the whole seconds of an instant. */
  function Seconds(instant: nat): nat { instant / 1_000_000 }

  /** `timedelta(days=days)` in microseconds; `days` may be negative. */
  function Days(days: int): int { Micros(days * 86_400) }

  /** The rows of an unordered query: every member of `s` once, in no particular order. */
  method Enumerate<T(==)>(s: set<T>) returns (xs: seq<T>)
    ensures forall x :: x in xs <==> x in s
    ensures forall i, k :: 0 <= i < k < |xs| ==> xs[i] != xs[k]
    ensures |xs| == |s|
  {
    xs := [];
    var todo := s;
    while todo != {}
      invariant forall x :: x in xs <==> x in s && x !in todo
      invariant todo <= s
      invariant forall i, k :: 0 <= i < k < |xs| ==> xs[i] != xs[k]
      invariant |xs| + |todo| == |s|
      decreases todo
    {
      var x :| x in todo;
      xs := xs + [x];
      todo := todo - {x};
    }
  }

  lemma DropOne<K, V>(rows: map<K, V>, doomed: set<K>, todo: set<K>, key: K)
    requires todo <= doomed <= rows.Keys && key in todo
    ensures key in rows - (doomed - todo)
    ensures rows - (doomed - todo) - {key} == rows - (doomed - (todo - {key}))
  {
  }

  lemma RemovingOne<K, V>(rows: map<K, V>, key: K)
    requires key in rows
    ensures |rows - {key}| == |rows| - 1
  {
    assert rows.Keys == (rows - {key}).Keys + {key};
  }

  /** Delete the given rows one by one, and count them. */
  method DeleteEach<K(==), V>(rows: map<K, V>, doomed: set<K>) returns (kept: map<K, V>, count: nat)
    requires doomed <= rows.Keys
    ensures kept == rows - doomed
    ensures count == |doomed| == |rows| - |kept|
  {
    kept, count := rows, 0;
    var todo := doomed;
    while todo != {}
      invariant todo <= doomed
      invariant kept == rows - (doomed - todo)
      invariant count == |doomed| - |todo| == |rows| - |kept|
      decreases todo
    {
      var key :| key in todo;
      DropOne(rows, doomed, todo, key);
      RemovingOne(kept, key);
      kept, todo := kept - {key}, todo - {key};
      count := count + 1;
    }
  }
}
