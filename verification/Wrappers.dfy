/** The usual optional value, and small facts used everywhere. */
module Wrappers {
  datatype Option<+T> = None | Some(value: T)

  function Lookup<K, V>(rows: map<K, V>, key: K): Option<V> {
    if key in rows then Some(rows[key]) else None
  }

  lemma SomeMember(s: set<int>)
    ensures s != {} ==> exists x :: x in s
  {
    if !exists x :: x in s {
      assert s <= {};
    }
  }
}
