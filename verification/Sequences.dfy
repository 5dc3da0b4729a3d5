/** Sequences without repetition, sequences that list a set, and concatenation. */
module Sequences {

  ghost predicate Distinct<T>(s: seq<T>) {
    forall i, j :: 0 <= i < j < |s| ==> s[i] != s[j]
  }

  /** The sequence lists the set, each member once. */
  ghost predicate Lists<T(!new)>(s: seq<T>, members: set<T>) {
    Distinct(s) && forall x :: x in s <==> x in members
  }

  lemma ListsAppend<T(!new)>(s: seq<T>, members: set<T>, x: T)
    requires Lists(s, members) && x !in members
    ensures Lists(s + [x], members + {x})
  {
  }

  lemma ListsJoin<T(!new)>(a: seq<T>, as_: set<T>, b: seq<T>, bs: set<T>)
    requires Lists(a, as_) && Lists(b, bs) && as_ !! bs
    ensures Lists(a + b, as_ + bs)
  {
    var ab := a + b;
    forall i, j | 0 <= i < j < |ab|
      ensures ab[i] != ab[j]
    {
      if i < |a| <= j {
        assert a[i] in as_ && b[j - |a|] in bs;
      }
    }
    assert forall x :: x in ab <==> x in a || x in b;
  }

  function Flat<T>(parts: seq<seq<T>>): seq<T> {
    if parts == [] then [] else Flat(parts[..|parts| - 1]) + parts[|parts| - 1]
  }

  lemma FlatNext<T>(parts: seq<seq<T>>, part: seq<T>)
    ensures Flat(parts + [part]) == Flat(parts) + part
  {
    assert (parts + [part])[..|parts|] == parts;
  }
}
