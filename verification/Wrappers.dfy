/** The usual optional value, and maps read through it. */
module Wrappers {

  datatype Option<+T> = None | Some(value: T)

  datatype Result<+T, +E> = Success(result: T) | Failure(error: E)

  function Get<K, V>(m: map<K, V>, k: K): Option<V> {
    if k in m then Some(m[k]) else None
  }

  lemma SameMap<K, V>(a: map<K, V>, b: map<K, V>)
    requires forall k :: Get(a, k) == Get(b, k)
    ensures a == b
  {
    assert forall k :: k in a ==> Get(a, k).Some?;
    assert forall k :: k in b ==> Get(b, k).Some?;
  }

  lemma EmptyUnion<T>(s: set<T>)
    ensures {} + s == s && s + {} == s
  {
  }

  lemma EmptyMerge<K, V>(m: map<K, V>)
    ensures map[] + m == m
  {
  }
}
