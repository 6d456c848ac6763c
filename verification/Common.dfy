/** Vocabulary shared by every component of the model. */
module Common {

  datatype Option<+T> = None | Some(value: T)

  /** How one call to PostgreSQL or Redis ends: it answers; it fails and changes nothing;
      or it takes effect and the caller sees an error because the reply was lost. */
  datatype Outcome = Ok | Fail | Lost

  /** Clock readings and durations are integers, in nanoseconds. */
  const SECOND := 1_000_000_000

  /** An injective map has no more keys than its values have room for. */
  lemma {:induction false} InjectiveFits<K, V>(m: map<K, V>, room: set<V>)
    requires forall k | k in m :: m[k] in room
    requires forall j, k | j in m && k in m && m[j] == m[k] :: j == k
    ensures |m| <= |room|
    decreases |m|
  {
    if k :| k in m {
      var rest := m - {k};
      assert |rest| == |m| - 1 by { assert rest.Keys == m.Keys - {k}; }
      InjectiveFits(rest, room - {m[k]});
    }
  }
}
