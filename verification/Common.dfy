/** Names shared by every module of the model. */
module Common {
  datatype Option<+T> = None | Some(value: T)

  /** Instants and durations of the gateway, in nanoseconds. */
  type Time = int

  const SECOND: Time := 1_000_000_000
  const MINUTE: Time := 60 * SECOND

  /** An instant rounded down to whole seconds, as `time.Time.Unix` does. */
  function Unix(t: Time): int
  {
    t / SECOND
  }

  type Byte = x: int | 0 <= x < 256

  type Bytes = seq<Byte>

  function Lookup<K, V>(m: map<K, V>, k: K): Option<V>
  {
    if k in m then Some(m[k]) else None
  }

  /** A stored value that may be used up to and including an instant. */
  datatype Expiring<+V> = Expiring(value: V, expiresAt: Time)

  function Unexpired<V>(m: map<string, Expiring<V>>, now: Time): map<string, Expiring<V>>
  {
    map k | k in m && now <= m[k].expiresAt :: m[k]
  }

  /** The sweep every gateway store runs under its lock. */
  method EvictExpired<V>(m: map<string, Expiring<V>>, now: Time) returns (left: map<string, Expiring<V>>)
    ensures left == Unexpired(m, now)
  {
    left := m;
    var todo := m.Keys;
    while todo != {}
      invariant todo <= left.Keys <= m.Keys
      invariant forall k | k in left :: left[k] == m[k]
      invariant forall k | k in m && k !in todo :: k in left <==> now <= m[k].expiresAt
    {
      var k :| k in todo;
      todo := todo - {k};
      if now > left[k].expiresAt {
        left := left - {k};
      }
    }
  }

  lemma SubsetSize<T>(a: set<T>, b: set<T>)
    requires a <= b
    ensures |a| <= |b| && |b - a| == |b| - |a|
  {
    assert b == a + (b - a);
  }

  lemma UpdateSize<K, V>(m: map<K, V>, k: K, v: V)
    ensures |m[k := v]| == |m| + (if k in m then 0 else 1)
  {
    assert m[k := v].Keys == m.Keys + {k};
  }
}
