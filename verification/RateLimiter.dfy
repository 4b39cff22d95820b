/** The two-level rate limiter in front of every key operation. */
module RateLimiter {
  import opened Common
  import opened TokenBucket

  datatype Key = Key(tenant: Bytes, op: string)

  datatype Config = Config(capacity: nat, refill: real, maxBuckets: nat) {
    ghost predicate Valid() { 0.0 <= refill && 1 <= maxBuckets }

    function TenantRate(): Rate { Rate(capacity as real, refill) }

    function GlobalRate(): Rate { Rate(capacity as real * 50.0, refill * 50.0) }
  }

  datatype State = State(buckets: map<Key, Bucket>, global: map<string, Bucket>)

  /** One call of `allow`. `lru` names the buckets its least-recently-used pass
      drops, because ties between equally old buckets may fall either way. */
  datatype Call = Call(tenant: Bytes, op: string, now: real, lru: set<Key>) {
    function BucketKey(): Key { Key(tenant, op) }
  }

  predicate GlobalGrants(c: Config, s: State, e: Call)
  {
    Grants(Lookup(s.global, e.op), e.now, c.GlobalRate())
  }

  predicate NotFull(c: Config, b: Bucket, now: real)
  {
    b.tokens + Elapsed(b.last, now) * c.refill < c.capacity as real
  }

  /** What the lossless pass keeps. */
  function Kept(c: Config, buckets: map<Key, Bucket>, now: real): (kept: map<Key, Bucket>)
  {
    map k | k in buckets && NotFull(c, buckets[k], now) :: buckets[k]
  }

  /** `lru` is what a least-recently-used pass over m down to half may drop. */
  ghost predicate DropsOldest(c: Config, m: map<Key, Bucket>, lru: set<Key>)
  {
    && lru <= m.Keys
    && |m| - |lru| == c.maxBuckets / 2
    && forall gone, left | gone in lru && left in m && left !in lru :: m[gone].last <= m[left].last
  }

  ghost predicate EvictionChoice(c: Config, m: map<Key, Bucket>, now: real, lru: set<Key>)
  {
    if |m| >= c.maxBuckets && |Kept(c, m, now)| >= c.maxBuckets then DropsOldest(c, Kept(c, m, now), lru)
    else lru == {}
  }

  /** The bucket map after both eviction passes. */
  function Evicted(c: Config, m: map<Key, Bucket>, now: real, lru: set<Key>): map<Key, Bucket>
  {
    if |m| >= c.maxBuckets then Kept(c, m, now) - lru else m
  }

  /** The buckets a refill up to `now` leaves below capacity. */
  ghost function BelowCapacity(c: Config, m: map<Key, Bucket>, now: real): set<Key>
  {
    set k | k in m && Level(Some(m[k]), now, Rate(c.capacity as real, c.refill)) < c.capacity as real
  }

  /** `room` is m with only the room made that had to be made: none below the maximum;
      else every full bucket is gone, and of the others only, if they alone reach the
      maximum, the least recently used down to half of it. */
  ghost predicate MadeRoom(c: Config, m: map<Key, Bucket>, now: real, lru: set<Key>, room: map<Key, Bucket>)
  {
    && (forall k | k in room :: k in m && room[k] == m[k])
    && if |m| < c.maxBuckets then lru == {} && room == m
       else
         var below := BelowCapacity(c, m, now);
         && lru <= below && room.Keys == below - lru
         && (lru != {} <==> |below| >= c.maxBuckets)
         && (lru != {} ==> |room| == c.maxBuckets / 2)
         && forall gone, left | gone in lru && left in room :: m[gone].last <= m[left].last
  }

  ghost predicate LruChoice(c: Config, s: State, e: Call)
  {
    if GlobalGrants(c, s, e) then EvictionChoice(c, s.buckets, e.now, e.lru) else e.lru == {}
  }

  /** The bucket map in which the call then finds or creates its own bucket. */
  function Room(c: Config, s: State, e: Call): map<Key, Bucket>
  {
    Evicted(c, s.buckets, e.now, e.lru)
  }

  predicate Allows(c: Config, s: State, e: Call)
  {
    GlobalGrants(c, s, e) && Grants(Lookup(Room(c, s, e), e.BucketKey()), e.now, c.TenantRate())
  }

  function Next(c: Config, s: State, e: Call): State
  {
    var global := s.global[e.op := Taken(Lookup(s.global, e.op), e.now, c.GlobalRate())];
    if !GlobalGrants(c, s, e) then State(s.buckets, global)
    else
      var room := Room(c, s, e);
      State(room[e.BucketKey() := Taken(Lookup(room, e.BucketKey()), e.now, c.TenantRate())], global)
  }

  lemma FullIsFull(c: Config, b: Bucket, now: real)
    ensures NotFull(c, b, now) <==> Filled(b, now, c.TenantRate()) < c.capacity as real
  {
  }

  lemma KeptIsBelow(c: Config, m: map<Key, Bucket>, now: real)
    ensures Kept(c, m, now).Keys == BelowCapacity(c, m, now)
  {
    forall k | k in m ensures NotFull(c, m[k], now) <==> Level(Some(m[k]), now, c.TenantRate()) < c.capacity as real {
      FullIsFull(c, m[k], now);
    }
    hide NotFull;
    hide Filled;
  }

  /** Whatever the two passes drop had to go. */
  lemma RoomIsMade(c: Config, m: map<Key, Bucket>, now: real, lru: set<Key>)
    requires c.Valid() && EvictionChoice(c, m, now, lru)
    ensures MadeRoom(c, m, now, lru, Evicted(c, m, now, lru))
  {
    hide NotFull;
    hide Level;
    if |m| >= c.maxBuckets {
      var kept, room := Kept(c, m, now), Evicted(c, m, now, lru);
      KeptIsBelow(c, m, now);
      SubsetSize(lru * kept.Keys, kept.Keys);
      assert room.Keys == kept.Keys - lru == kept.Keys - lru * kept.Keys;
      assert |kept| == |kept.Keys| && |room| == |room.Keys|;
    }
  }

  class RateLimiter {
    var buckets: map<Key, Bucket>
    var global: map<string, Bucket>
    var config: Config

    ghost function Contents(): State
      reads this
    {
      State(buckets, global)
    }

    constructor (capacity: nat, refillPerSec: real)
      ensures config == Config(capacity, refillPerSec, 10_000)
      ensures Contents() == State(map[], map[])
    {
      buckets, global := map[], map[];
      config := Config(capacity, refillPerSec, 10_000);
    }

    /** Consumes one token of the operation's global bucket and one of the tenant's. */
    method Allow(tenant: Bytes, op: string, now: real) returns (ok: bool, ghost e: Call)
      requires config.Valid()
      modifies this`buckets, this`global
      ensures e == Call(tenant, op, now, e.lru) && LruChoice(config, old(Contents()), e)
      ensures Contents() == Next(config, old(Contents()), e)
      ensures ok == Allows(config, old(Contents()), e)
      ensures GlobalGrants(config, old(Contents()), e) ==>
        MadeRoom(config, old(buckets), now, e.lru, Room(config, old(Contents()), e))
    {
      e := Call(tenant, op, now, {});
      ok := TakeGlobal(op, now);
      if !ok {
        return;
      }
      ghost var lru := MakeRoom(now);
      e := e.(lru := lru);
      ok := TakeTenant(Key(tenant, op), now);
    }

    method TakeGlobal(op: string, now: real) returns (ok: bool)
      modifies this`global
      ensures ok == Grants(Lookup(old(global), op), now, config.GlobalRate())
      ensures global == old(global)[op := Taken(Lookup(old(global), op), now, config.GlobalRate())]
    {
      if op !in global {
        global := global[op := Bucket(config.GlobalRate().capacity, now)];
      }
      var taken;
      taken, ok := Take(global[op], now, config.GlobalRate());
      global := global[op := taken];
    }

    method TakeTenant(key: Key, now: real) returns (ok: bool)
      modifies this`buckets
      ensures ok == Grants(Lookup(old(buckets), key), now, config.TenantRate())
      ensures buckets == old(buckets)[key := Taken(Lookup(old(buckets), key), now, config.TenantRate())]
    {
      if key !in buckets {
        buckets := buckets[key := Bucket(config.TenantRate().capacity, now)];
      }
      var taken;
      taken, ok := Take(buckets[key], now, config.TenantRate());
      buckets := buckets[key := taken];
    }

    /** Keeps the map below its maximum: the lossless pass, then the lossy one. */
    method MakeRoom(now: real) returns (ghost lru: set<Key>)
      requires config.Valid()
      modifies this`buckets
      ensures EvictionChoice(config, old(buckets), now, lru)
      ensures buckets == Evicted(config, old(buckets), now, lru)
      ensures MadeRoom(config, old(buckets), now, lru, buckets)
    {
      lru := {};
      if |buckets| >= config.maxBuckets {
        RetainNotFull(now);
        assert buckets == buckets - {};
        if |buckets| >= config.maxBuckets {
          lru := DropOldest();
        }
      }
      RoomIsMade(config, old(buckets), now, lru);
    }

    method RetainNotFull(now: real)
      modifies this`buckets
      ensures buckets == Kept(config, old(buckets), now)
      ensures buckets.Keys == BelowCapacity(config, old(buckets), now)
    {
      var todo := buckets.Keys;
      while todo != {}
        invariant todo <= buckets.Keys <= old(buckets).Keys
        invariant forall k | k in buckets :: buckets[k] == old(buckets)[k]
        invariant forall k | k in old(buckets) && k !in todo :: k in buckets <==> NotFull(config, old(buckets)[k], now)
      {
        var k :| k in todo;
        todo := todo - {k};
        if !NotFull(config, buckets[k], now) {
          buckets := buckets - {k};
        }
      }
      KeptIsBelow(config, old(buckets), now);
    }

    /** Drops the least recently used buckets until half the maximum is left. */
    method DropOldest() returns (ghost gone: set<Key>)
      requires config.Valid() && |buckets| >= config.maxBuckets
      modifies this`buckets
      ensures DropsOldest(config, old(buckets), gone)
      ensures buckets == old(buckets) - gone
    {
      var target := config.maxBuckets / 2;
      var keys := OldestFirst(buckets);
      DistinctCount(keys);
      assert |buckets.Keys| == |buckets|;
      var n := |buckets| - target;
      OldestPrefixDrops(config, buckets, keys, n);
      gone := Members(keys[..n]);
      RemoveAll(keys[..n]);
    }

    method RemoveAll(keys: seq<Key>)
      modifies this`buckets
      ensures buckets == old(buckets) - Members(keys)
    {
      for i := 0 to |keys|
        invariant buckets == old(buckets) - Members(keys[..i])
      {
        assert Members(keys[..i + 1]) == Members(keys[..i]) + {keys[i]};
        buckets := buckets - {keys[i]};
      }
      assert keys[..|keys|] == keys;
    }
  }

  ghost function Members(keys: seq<Key>): set<Key>
  {
    set k | k in keys
  }

  lemma OldestPrefixDrops(c: Config, m: map<Key, Bucket>, keys: seq<Key>, n: nat)
    requires Members(keys) == m.Keys && |keys| == |m| && n <= |keys| && |m| - n == c.maxBuckets / 2
    requires forall i, j | 0 <= i < j < |keys| :: keys[i] in m && keys[j] in m && m[keys[i]].last <= m[keys[j]].last
    requires forall i, j | 0 <= i < j < |keys| :: keys[i] != keys[j]
    ensures DropsOldest(c, m, Members(keys[..n]))
  {
    DistinctCount(keys[..n]);
    forall gone, left | gone in Members(keys[..n]) && left in m && left !in Members(keys[..n])
      ensures m[gone].last <= m[left].last
    {
      var i :| 0 <= i < n && keys[..n][i] == gone;
      assert left in Members(keys);
      var j :| 0 <= j < |keys| && keys[j] == left;
      assert forall k | 0 <= k < n :: keys[..n][k] == keys[k];
    }
  }

  /** The keys in the order of their last use, oldest first. */
  method OldestFirst(m: map<Key, Bucket>) returns (keys: seq<Key>)
    ensures Members(keys) == m.Keys
    ensures forall i, j | 0 <= i < j < |keys| :: keys[i] in m && keys[j] in m && m[keys[i]].last <= m[keys[j]].last
    ensures forall i, j | 0 <= i < j < |keys| :: keys[i] != keys[j]
  {
    keys := [];
    var rest := m.Keys;
    while rest != {}
      invariant rest <= m.Keys && rest + Members(keys) == m.Keys && rest !! Members(keys)
      invariant forall i, j | 0 <= i < j < |keys| :: keys[i] in m && keys[j] in m && m[keys[i]].last <= m[keys[j]].last
      invariant forall i, j | 0 <= i < j < |keys| :: keys[i] != keys[j]
      invariant forall i, k | 0 <= i < |keys| && k in rest :: keys[i] in m && m[keys[i]].last <= m[k].last
    {
      var oldest := Oldest(m, rest);
      assert forall k | k in keys :: k != oldest;
      keys := keys + [oldest];
      rest := rest - {oldest};
    }
  }

  method Oldest(m: map<Key, Bucket>, from: set<Key>) returns (oldest: Key)
    requires from != {} && from <= m.Keys
    ensures oldest in from && forall k | k in from :: m[oldest].last <= m[k].last
  {
    oldest :| oldest in from;
    var todo := from;
    while todo != {}
      invariant todo <= from && oldest in from
      invariant forall k | k in from && k !in todo :: m[oldest].last <= m[k].last
    {
      var k :| k in todo;
      todo := todo - {k};
      if m[k].last < m[oldest].last {
        oldest := k;
      }
    }
  }

  lemma {:induction false} DistinctCount(keys: seq<Key>)
    requires forall i, j | 0 <= i < j < |keys| :: keys[i] != keys[j]
    ensures |Members(keys)| == |keys|
  {
    if keys != [] {
      var init, last := keys[..|keys| - 1], keys[|keys| - 1];
      DistinctCount(init);
      assert Members(keys) == Members(init) + {last};
    }
  }
}
