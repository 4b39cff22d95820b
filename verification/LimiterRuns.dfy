/** Whole runs of the rate limiter: the global ceiling, the bound on memory,
    and what eviction can and cannot change. */
module LimiterRuns {
  import opened Common
  import opened TokenBucket
  import opened RateLimiter

  ghost function StateAt(c: Config, run: seq<Call>, n: nat): State
    requires n <= |run|
  {
    if n == 0 then State(map[], map[]) else Next(c, StateAt(c, run, n - 1), run[n - 1])
  }

  /** A run with a nondecreasing clock from an empty limiter. */
  ghost predicate ValidRun(c: Config, run: seq<Call>)
  {
    && c.Valid()
    && (forall i, j | 0 <= i <= j < |run| :: run[i].now <= run[j].now)
    && forall n | 0 <= n < |run| :: Lawful(c, run, n)
  }

  ghost predicate Lawful(c: Config, run: seq<Call>, n: nat)
    requires n < |run|
  {
    LruChoice(c, StateAt(c, run, n), run[n])
  }

  /** The limiter that never evicts anything. */
  ghost function NextUnbounded(c: Config, s: State, e: Call): State
  {
    var global := s.global[e.op := Taken(Lookup(s.global, e.op), e.now, c.GlobalRate())];
    if !GlobalGrants(c, s, e) then State(s.buckets, global)
    else State(s.buckets[e.BucketKey() := Taken(Lookup(s.buckets, e.BucketKey()), e.now, c.TenantRate())], global)
  }

  ghost predicate UnboundedAllows(c: Config, s: State, e: Call)
  {
    GlobalGrants(c, s, e) && Grants(Lookup(s.buckets, e.BucketKey()), e.now, c.TenantRate())
  }

  ghost function UnboundedAt(c: Config, run: seq<Call>, n: nat): State
    requires n <= |run|
  {
    if n == 0 then State(map[], map[]) else NextUnbounded(c, UnboundedAt(c, run, n - 1), run[n - 1])
  }

  // ------------------------------------------------- logs of one bucket

  ghost function GlobalEntry(c: Config, run: seq<Call>, op: string, n: nat): Entry
    requires n < |run|
  {
    Entry(run[n].now, run[n].op == op, GlobalGrants(c, StateAt(c, run, n), run[n]))
  }

  ghost function TenantEntry(c: Config, run: seq<Call>, k: Key, n: nat): Entry
    requires n < |run|
  {
    var s, e := StateAt(c, run, n), run[n];
    var hit := Key(e.tenant, e.op) == k && GlobalGrants(c, s, e);
    Entry(e.now, hit, hit && Allows(c, s, e))
  }

  ghost function UnboundedEntry(c: Config, run: seq<Call>, k: Key, n: nat): Entry
    requires n < |run|
  {
    var s, e := UnboundedAt(c, run, n), run[n];
    var hit := Key(e.tenant, e.op) == k && GlobalGrants(c, s, e);
    Entry(e.now, hit, hit && UnboundedAllows(c, s, e))
  }

  /** The calls of the first n that name `op`, with the answers of the global level. */
  ghost function GlobalLog(c: Config, run: seq<Call>, op: string, n: nat := |run|): (log: seq<Entry>)
    requires n <= |run|
    ensures |log| == n && forall i | 0 <= i < n :: log[i] == GlobalEntry(c, run, op, i)
    decreases n
  {
    if n == 0 then [] else GlobalLog(c, run, op, n - 1) + [GlobalEntry(c, run, op, n - 1)]
  }

  /** The calls that reach k's bucket, with the limiter's answers. */
  ghost function TenantLog(c: Config, run: seq<Call>, k: Key, n: nat := |run|): (log: seq<Entry>)
    requires n <= |run|
    ensures |log| == n && forall i | 0 <= i < n :: log[i] == TenantEntry(c, run, k, i)
    decreases n
  {
    if n == 0 then [] else TenantLog(c, run, k, n - 1) + [TenantEntry(c, run, k, n - 1)]
  }

  /** The same calls, with the answers of the limiter that never evicts. */
  ghost function UnboundedLog(c: Config, run: seq<Call>, k: Key, n: nat := |run|): (log: seq<Entry>)
    requires n <= |run|
    ensures |log| == n && forall i | 0 <= i < n :: log[i] == UnboundedEntry(c, run, k, i)
    decreases n
  {
    if n == 0 then [] else UnboundedLog(c, run, k, n - 1) + [UnboundedEntry(c, run, k, n - 1)]
  }

  /** How often the least-recently-used pass dropped k in the first n calls. */
  ghost function Evictions(run: seq<Call>, k: Key, n: nat): nat
    requires n <= |run|
  {
    if n == 0 then 0 else Evictions(run, k, n - 1) + (if k in run[n - 1].lru then 1 else 0)
  }

  // ---------------------------------------------------- the global level

  lemma {:induction false} GlobalIsOneBucket(c: Config, run: seq<Call>, op: string, n: nat)
    requires n <= |run|
    ensures Lookup(StateAt(c, run, n).global, op) == BucketAt(GlobalLog(c, run, op), n, c.GlobalRate())
    ensures UnboundedAt(c, run, n).global == StateAt(c, run, n).global
  {
    hide Filled;
    hide NotFull;
    if n > 0 {
      GlobalIsOneBucket(c, run, op, n - 1);
    }
  }

  /** The global level answers exactly as one bucket of 50 times the tenant rate
      would, whatever tenants are named and whatever is evicted. */
  lemma GlobalLaw(c: Config, run: seq<Call>, op: string)
    requires ValidRun(c, run)
    ensures WindowLaw(GlobalLog(c, run, op), Rate(50.0 * c.capacity as real, 50.0 * c.refill))
  {
    hide Filled;
    hide Allowance;
    var log := GlobalLog(c, run, op);
    forall n | 0 <= n < |run| && log[n].hit ensures log[n].ok == Grants(BucketAt(log, n, c.GlobalRate()), log[n].now, c.GlobalRate()) {
      GlobalIsOneBucket(c, run, op, n);
    }
    BucketLaw(log, c.GlobalRate());
  }

  /** Calls for `op` that were allowed outright among those numbered i up to j - 1. */
  ghost function AllowedCount(c: Config, run: seq<Call>, op: string, i: nat, j: nat): nat
    requires i <= j <= |run|
    decreases j - i
  {
    if i == j then 0 else
      AllowedCount(c, run, op, i, j - 1)
      + (if run[j - 1].op == op && Allows(c, StateAt(c, run, j - 1), run[j - 1]) then 1 else 0)
  }

  ghost function GlobalBound(c: Config, d: real): real
  {
    50.0 * c.capacity as real + 50.0 * c.refill * d
  }

  /** The ceiling a caller cannot escape by inventing tenants. */
  lemma GlobalCeiling(c: Config, run: seq<Call>, op: string, i: nat, j: nat, d: real)
    requires ValidRun(c, run) && i <= j <= |run| && 0.0 <= d
    requires i < j ==> run[j - 1].now - run[i].now <= d
    ensures AllowedCount(c, run, op, i, j) as real <= GlobalBound(c, d)
  {
    hide GlobalBound;
    hide Next;
    hide Filled;
    GatedCeiling(c, run, op, i, j, d);
    AllowedWereGated(c, run, op, i, j);
  }

  lemma GatedCeiling(c: Config, run: seq<Call>, op: string, i: nat, j: nat, d: real)
    requires ValidRun(c, run) && i <= j <= |run| && 0.0 <= d
    requires i < j ==> run[j - 1].now - run[i].now <= d
    ensures Count(GlobalLog(c, run, op), i, j) as real <= GlobalBound(c, d)
  {
    hide *;
    var log, r := GlobalLog(c, run, op), Rate(50.0 * c.capacity as real, 50.0 * c.refill);
    RatesAreValid(c, run);
    GlobalLaw(c, run, op);
    GlobalLogIsOrdered(c, run, op);
    ClockStep(c, run, op, i, j);
    CountWithin(log, i, j, d, r);
    BoundAtGlobalRate(c, d);
  }

  lemma RatesAreValid(c: Config, run: seq<Call>)
    requires ValidRun(c, run)
    ensures c.TenantRate().Valid() && Rate(50.0 * c.capacity as real, 50.0 * c.refill).Valid()
  {
  }

  lemma ClockOrder(c: Config, run: seq<Call>, i: nat, j: nat)
    requires ValidRun(c, run) && i <= j < |run|
    ensures run[i].now <= run[j].now
  {
  }

  lemma ClockStep(c: Config, run: seq<Call>, op: string, i: nat, j: nat)
    requires i <= j <= |run|
    ensures i < j ==> GlobalLog(c, run, op)[i].now == run[i].now && GlobalLog(c, run, op)[j - 1].now == run[j - 1].now
  {
    if i < j {
      assert GlobalLog(c, run, op)[i] == GlobalEntry(c, run, op, i);
    }
  }

  lemma BoundAtGlobalRate(c: Config, d: real)
    ensures var r := Rate(50.0 * c.capacity as real, 50.0 * c.refill); r.capacity + r.refill * d == GlobalBound(c, d)
  {
  }

  lemma GlobalLogIsOrdered(c: Config, run: seq<Call>, op: string)
    requires ValidRun(c, run)
    ensures Ordered(GlobalLog(c, run, op))
  {
  }

  lemma CountWithin(log: seq<Entry>, i: nat, j: nat, d: real, r: Rate)
    requires r.Valid() && Ordered(log) && WindowLaw(log, r)
    requires i <= j <= |log| && 0.0 <= d
    requires i < j ==> log[j - 1].now - log[i].now <= d
    ensures Count(log, i, j) as real <= r.capacity + r.refill * d
  {
    hide Allowance;
    hide WindowLaw;
    hide Ordered;
    Ceiling(log, i, j, d, r);
    CountIsAdmitted(log, i, j);
  }

  lemma AllowedPassesTheGlobalLevel(c: Config, s: State, e: Call)
    ensures Allows(c, s, e) ==> GlobalGrants(c, s, e)
  {
  }

  lemma {:induction false} AllowedWereGated(c: Config, run: seq<Call>, op: string, i: nat, j: nat)
    requires i <= j <= |run|
    ensures AllowedCount(c, run, op, i, j) <= Count(GlobalLog(c, run, op), i, j)
    decreases j - i
  {
    hide Next;
    hide Filled;
    if i < j {
      AllowedWereGated(c, run, op, i, j - 1);
      assert GlobalLog(c, run, op)[j - 1] == GlobalEntry(c, run, op, j - 1);
      AllowedPassesTheGlobalLevel(c, StateAt(c, run, j - 1), run[j - 1]);
    }
  }

  // ------------------------------------------------------ bounded memory

  lemma KeptIsSmaller(c: Config, m: map<Key, Bucket>, now: real)
    ensures |Kept(c, m, now)| <= |m|
    ensures forall k | k in Kept(c, m, now) :: k in m && Kept(c, m, now)[k] == m[k]
  {
    hide NotFull;
    SubsetSize(Kept(c, m, now).Keys, m.Keys);
  }

  lemma EvictedSize(c: Config, m: map<Key, Bucket>, now: real, lru: set<Key>)
    requires c.Valid() && |m| <= c.maxBuckets && EvictionChoice(c, m, now, lru)
    ensures |Evicted(c, m, now, lru)| < c.maxBuckets && |Evicted(c, m, now, lru)| <= |m|
    ensures lru != {} ==>
      && |m| == c.maxBuckets && |Evicted(c, m, now, lru)| == c.maxBuckets / 2
      && forall gone, left | gone in lru && left in Evicted(c, m, now, lru) :: gone in m && left in m && m[gone].last <= m[left].last
  {
    KeptIsSmaller(c, m, now);
    hide Kept;
    if |m| >= c.maxBuckets {
      var kept := Kept(c, m, now);
      SubsetSize(lru, kept.Keys);
      assert (kept - lru).Keys == kept.Keys - lru;
      assert |(kept - lru).Keys| == |kept - lru|;
    }
  }

  /** The map never outgrows its maximum; a pass that drops buckets leaves
      exactly half the maximum, and nothing it keeps was used earlier than
      anything it drops. */
  lemma MemoryStep(c: Config, s: State, e: Call)
    requires c.Valid() && |s.buckets| <= c.maxBuckets && LruChoice(c, s, e)
    ensures |Next(c, s, e).buckets| <= c.maxBuckets
    ensures |Next(c, s, e).buckets| <= |s.buckets| + (if GlobalGrants(c, s, e) then 1 else 0)
    ensures e.lru != {} ==>
      && GlobalGrants(c, s, e) && |s.buckets| == c.maxBuckets
      && |Room(c, s, e)| == c.maxBuckets / 2 && |Next(c, s, e).buckets| <= c.maxBuckets / 2 + 1
      && forall gone, left | gone in e.lru && left in Room(c, s, e) ::
           gone in s.buckets && left in s.buckets && s.buckets[gone].last <= s.buckets[left].last
  {
    hide GlobalGrants;
    hide Evicted;
    hide EvictionChoice;
    hide Taken;
    if GlobalGrants(c, s, e) {
      EvictedSize(c, s.buckets, e.now, e.lru);
      UpdateSize(Room(c, s, e), e.BucketKey(), Taken(Lookup(Room(c, s, e), e.BucketKey()), e.now, c.TenantRate()));
    }
  }

  lemma {:induction false} MemoryIsBounded(c: Config, run: seq<Call>, n: nat)
    requires ValidRun(c, run) && n <= |run|
    ensures |StateAt(c, run, n).buckets| <= c.maxBuckets
  {
    hide Filled;
    hide Kept;
    hide NotFull;
    if n > 0 {
      MemoryIsBounded(c, run, n - 1);
      assert Lawful(c, run, n - 1);
      MemoryStep(c, StateAt(c, run, n - 1), run[n - 1]);
    }
  }

  // ------------------------------------------------------- lossy passes

  /** Calls that got past the global level among those numbered i up to j - 1. */
  ghost function Gated(c: Config, run: seq<Call>, i: nat, j: nat): nat
    requires i <= j <= |run|
    decreases j - i
  {
    if i == j then 0
    else Gated(c, run, i, j - 1) + (if GlobalGrants(c, StateAt(c, run, j - 1), run[j - 1]) then 1 else 0)
  }

  /** Least-recently-used passes among the calls numbered i up to j - 1. */
  ghost function Passes(run: seq<Call>, i: nat, j: nat): nat
    requires i <= j <= |run|
    decreases j - i
  {
    if i == j then 0 else Passes(run, i, j - 1) + (if run[j - 1].lru != {} then 1 else 0)
  }

  lemma {:induction false} GrowthIsGated(c: Config, run: seq<Call>, i: nat, j: nat)
    requires ValidRun(c, run) && i <= j <= |run|
    ensures |StateAt(c, run, j).buckets| <= |StateAt(c, run, i).buckets| + Gated(c, run, i, j)
    decreases j - i
  {
    hide Next;
    hide Filled;
    hide Kept;
    hide NotFull;
    if i < j {
      GrowthIsGated(c, run, i, j - 1);
      MemoryIsBounded(c, run, j - 1);
      assert Lawful(c, run, j - 1);
      MemoryStep(c, StateAt(c, run, j - 1), run[j - 1]);
    }
  }

  lemma {:induction false} GatedSplits(c: Config, run: seq<Call>, i: nat, m: nat, j: nat)
    requires i <= m <= j <= |run|
    ensures Gated(c, run, i, j) == Gated(c, run, i, m) + Gated(c, run, m, j)
    decreases j - m
  {
    if m < j {
      GatedSplits(c, run, i, m, j - 1);
    }
  }

  lemma PassShrinks(c: Config, run: seq<Call>, n: nat)
    requires ValidRun(c, run) && n < |run| && run[n].lru != {}
    ensures |StateAt(c, run, n).buckets| == c.maxBuckets
    ensures |StateAt(c, run, n + 1).buckets| <= c.maxBuckets / 2 + 1
    ensures Gated(c, run, n, n + 1) == 1
  {
    hide Next;
    hide GlobalGrants;
    hide Kept;
    hide Filled;
    assert Lawful(c, run, n);
    MemoryIsBounded(c, run, n);
    MemoryStep(c, StateAt(c, run, n), run[n]);
    assert Gated(c, run, n, n) == 0;
  }

  /** Between two lossy passes at least half the maximum of calls got through. */
  lemma PassesAreApart(c: Config, run: seq<Call>, i: nat, j: nat)
    requires ValidRun(c, run) && i < j < |run| && run[i].lru != {} && run[j].lru != {}
    ensures Gated(c, run, i, j) >= c.maxBuckets - c.maxBuckets / 2
  {
    hide ValidRun;
    hide Next;
    hide GlobalGrants;
    PassShrinks(c, run, i);
    PassShrinks(c, run, j);
    GrowthIsGated(c, run, i + 1, j);
    GatedSplits(c, run, i, i + 1, j);
  }

  /** So p passes need (p - 1) such stretches. */
  lemma {:induction false} PassesAreAmortized(c: Config, run: seq<Call>, i: nat, j: nat) returns (last: nat)
    requires ValidRun(c, run) && i <= j <= |run| && Passes(run, i, j) > 0
    ensures i <= last < j && run[last].lru != {}
    ensures (Passes(run, i, j) - 1) * (c.maxBuckets - c.maxBuckets / 2) <= Gated(c, run, i, last)
    decreases j - i
  {
    hide ValidRun;
    hide Next;
    hide GlobalGrants;
    var gap := c.maxBuckets - c.maxBuckets / 2;
    if run[j - 1].lru == {} {
      last := PassesAreAmortized(c, run, i, j - 1);
    } else if Passes(run, i, j - 1) == 0 {
      last := j - 1;
    } else {
      var previous := PassesAreAmortized(c, run, i, j - 1);
      last := j - 1;
      PassesAreApart(c, run, previous, last);
      GatedSplits(c, run, i, previous, last);
      var p := Passes(run, i, j - 1);
      assert (p - 1) * gap + gap == p * gap;
    }
  }

  ghost function GatedOn(c: Config, run: seq<Call>, ops: set<string>, i: nat, j: nat): nat
    requires i <= j <= |run|
    decreases j - i
  {
    if i == j then 0 else
      GatedOn(c, run, ops, i, j - 1)
      + (if run[j - 1].op in ops && GlobalGrants(c, StateAt(c, run, j - 1), run[j - 1]) then 1 else 0)
  }

  lemma {:induction false} GatedOnOne(c: Config, run: seq<Call>, ops: set<string>, op: string, i: nat, j: nat)
    requires i <= j <= |run| && op in ops
    ensures GatedOn(c, run, ops, i, j) == GatedOn(c, run, ops - {op}, i, j) + Count(GlobalLog(c, run, op), i, j)
    decreases j - i
  {
    hide Next;
    hide Filled;
    if i < j {
      GatedOnOne(c, run, ops, op, i, j - 1);
    }
  }

  lemma {:induction false} GatedOnNone(c: Config, run: seq<Call>, i: nat, j: nat)
    requires i <= j <= |run|
    ensures GatedOn(c, run, {}, i, j) == 0
    decreases j - i
  {
    if i < j {
      GatedOnNone(c, run, i, j - 1);
    }
  }

  lemma {:induction false} GatedOnAll(c: Config, run: seq<Call>, ops: set<string>, i: nat, j: nat)
    requires i <= j <= |run| && forall n | i <= n < j :: run[n].op in ops
    ensures GatedOn(c, run, ops, i, j) == Gated(c, run, i, j)
    decreases j - i
  {
    if i < j {
      GatedOnAll(c, run, ops, i, j - 1);
    }
  }

  lemma OneMore(n: nat, bound: real)
    ensures (n + 1) as real * bound == n as real * bound + bound
  {
  }

  lemma {:induction false} GatedOnCeiling(c: Config, run: seq<Call>, ops: set<string>, i: nat, j: nat, d: real)
    requires ValidRun(c, run) && i <= j <= |run| && 0.0 <= d
    requires i < j ==> run[j - 1].now - run[i].now <= d
    ensures GatedOn(c, run, ops, i, j) as real <= |ops| as real * GlobalBound(c, d)
    decreases |ops|
  {
    hide GlobalBound;
    hide Next;
    hide GlobalGrants;
    hide ValidRun;
    if ops == {} {
      GatedOnNone(c, run, i, j);
    } else {
      var op :| op in ops;
      GatedOnOne(c, run, ops, op, i, j);
      GatedOnCeiling(c, run, ops - {op}, i, j, d);
      GatedCeiling(c, run, op, i, j, d);
      assert |ops| == |ops - {op}| + 1;
      OneMore(|ops - {op}|, GlobalBound(c, d));
    }
  }

  /** With the global ceiling, elapsed time bounds the number of lossy passes. */
  lemma PassesBoundedByTime(c: Config, run: seq<Call>, ops: set<string>, i: nat, j: nat, d: real)
    requires ValidRun(c, run) && i <= j <= |run| && 0.0 <= d
    requires i < j ==> run[j - 1].now - run[i].now <= d
    requires forall n | i <= n < j :: run[n].op in ops
    requires Passes(run, i, j) > 0
    ensures ((Passes(run, i, j) - 1) * (c.maxBuckets - c.maxBuckets / 2)) as real
         <= |ops| as real * GlobalBound(c, d)
  {
    hide *;
    var last := PassesAreAmortized(c, run, i, j);
    GatedOnAll(c, run, ops, i, last);
    if i < last {
      ClockOrder(c, run, last - 1, j - 1);
    }
    GatedOnCeiling(c, run, ops, i, last, d);
  }

  lemma {:induction false} EvictionsNeedPasses(run: seq<Call>, k: Key, n: nat)
    requires n <= |run|
    ensures Evictions(run, k, n) <= Passes(run, 0, n)
  {
    if n > 0 {
      EvictionsNeedPasses(run, k, n - 1);
    }
  }

  // ------------------------------- eviction against never evicting at all

  /** a and b count the calls admitted for one key by the limiter and by the one
      that never evicts; x and y are the levels of its two buckets. */
  ghost predicate Coupled(budget: int, a: int, b: int, x: real, y: real)
  {
    && b <= a <= b + budget
    && (a == b ==> y <= x)
    && y - x < 1.0
    && (a - b) as real + x - y <= budget as real
  }

  lemma CoupledRefill(budget: int, a: int, b: int, x: real, y: real, gain: real, capacity: real)
    requires Coupled(budget, a, b, x, y) && 0.0 <= gain && x <= capacity && y <= capacity
    ensures Coupled(budget, a, b, Min(x + gain, capacity), Min(y + gain, capacity))
  {
    assert (a - b) as real <= budget as real;
  }

  lemma CoupledTake(budget: int, a: int, b: int, x: real, y: real)
    requires Coupled(budget, a, b, x, y)
    ensures Coupled(budget,
      a + (if x >= 1.0 then 1 else 0), b + (if y >= 1.0 then 1 else 0),
      x - (if x >= 1.0 then 1.0 else 0.0), y - (if y >= 1.0 then 1.0 else 0.0))
  {
    assert x - y > 0.0 ==> (a - b) as real < budget as real;
  }

  lemma CoupledEvict(budget: int, capacity: int, a: int, b: int, x: real, y: real)
    requires Coupled(budget, a, b, x, y) && 0.0 <= y <= capacity as real
    ensures Coupled(budget + capacity, a, b, capacity as real, y)
  {
  }

  ghost predicate SaneState(c: Config, s: State, now: real)
  {
    forall k | k in s.buckets :: Sane(Some(s.buckets[k]), now, c.TenantRate())
  }

  lemma {:induction false} StatesAreSane(c: Config, run: seq<Call>, n: nat, t: real)
    requires ValidRun(c, run) && n <= |run| && (n > 0 ==> run[n - 1].now <= t)
    ensures SaneState(c, StateAt(c, run, n), t) && SaneState(c, UnboundedAt(c, run, n), t)
  {
    if n > 0 {
      var e := run[n - 1];
      assert Lawful(c, run, n - 1);
      StatesAreSane(c, run, n - 1, e.now);
      var s, u := StateAt(c, run, n - 1), UnboundedAt(c, run, n - 1);
      TakenStaysInRange(Lookup(Room(c, s, e), e.BucketKey()), e.now, c.TenantRate());
      TakenStaysInRange(Lookup(u.buckets, e.BucketKey()), e.now, c.TenantRate());
    }
  }

  /** The lossless pass cannot be seen, now or later: a full bucket is an absent one. */
  lemma {:induction false} LosslessPassIsInvisible(c: Config, s: State, e: Call, k: Key, t: real)
    requires c.Valid() && LruChoice(c, s, e) && GlobalGrants(c, s, e) && e.now <= t
    ensures Level(Lookup(Room(c, s, e), k), t, c.TenantRate())
         == (if k in e.lru then c.capacity as real else Level(Lookup(s.buckets, k), t, c.TenantRate()))
  {
    hide NotFull;
    hide GlobalGrants;
    if k in s.buckets && !NotFull(c, s.buckets[k], e.now) {
      FullIsFull(c, s.buckets[k], e.now);
      FullStaysFull(s.buckets[k], e.now, t, c.TenantRate());
    }
    hide Filled;
  }

  /** On any clock, also one behind the bucket's last use. */
  lemma FullStaysFull(b: Bucket, now: real, t: real, r: Rate)
    requires r.Valid() && now <= t && r.capacity <= Filled(b, now, r)
    ensures Level(Some(b), t, r) == r.capacity
  {
    RefillGrows(r, Elapsed(b.last, now), Elapsed(b.last, t));
  }

  /** A tenant loses its bucket only while it is below capacity, as at least as many
      buckets are as the map may hold, it among the least recently used of them; and no
      full bucket is left to stand in for it. */
  lemma EvictedOnlyWhenCrowded(c: Config, run: seq<Call>, n: nat, k: Key)
    requires c.Valid() && ValidRun(c, run) && n < |run| && k in run[n].lru
    ensures var s, e := StateAt(c, run, n), run[n];
      && c.maxBuckets <= |BelowCapacity(c, s.buckets, e.now)| && k in BelowCapacity(c, s.buckets, e.now)
      && forall left | left in Room(c, s, e) ::
           left in BelowCapacity(c, s.buckets, e.now) && s.buckets[k].last <= s.buckets[left].last
  {
    hide Filled;
    hide Next;
    assert Lawful(c, run, n);
    RoomIsMade(c, StateAt(c, run, n).buckets, run[n].now, run[n].lru);
  }

  ghost predicate CoupledAt(c: Config, run: seq<Call>, k: Key, n: nat, t: real)
    requires n <= |run|
  {
    Coupled(c.capacity * Evictions(run, k, n),
      Count(TenantLog(c, run, k), 0, n), Count(UnboundedLog(c, run, k), 0, n),
      Level(Lookup(StateAt(c, run, n).buckets, k), t, c.TenantRate()),
      Level(Lookup(UnboundedAt(c, run, n).buckets, k), t, c.TenantRate()))
  }

  lemma {:induction false} StaysCoupled(c: Config, run: seq<Call>, k: Key, n: nat, t: real)
    requires ValidRun(c, run) && n <= |run| && (n > 0 ==> run[n - 1].now <= t)
    ensures CoupledAt(c, run, k, n, t)
  {
    hide Filled;
    hide NotFull;
    if n > 0 {
      StaysCoupled(c, run, k, n - 1, run[n - 1].now);
      CoupledStep(c, run, k, n - 1);
      StatesAreSane(c, run, n, run[n - 1].now);
      CoupledLater(c, run, k, n, run[n - 1].now, t);
    }
  }

  lemma CoupledLater(c: Config, run: seq<Call>, k: Key, n: nat, t: real, u: real)
    requires n <= |run| && c.Valid() && t <= u && CoupledAt(c, run, k, n, t)
    requires SaneState(c, StateAt(c, run, n), t) && SaneState(c, UnboundedAt(c, run, n), t)
    ensures CoupledAt(c, run, k, n, u)
  {
    var r := c.TenantRate();
    var x, y := Lookup(StateAt(c, run, n).buckets, k), Lookup(UnboundedAt(c, run, n).buckets, k);
    RefillInTwoSteps(x, t, u, r);
    RefillInTwoSteps(y, t, u, r);
    ProductNonNegative(u - t, r.refill);
    CoupledRefill(c.capacity * Evictions(run, k, n),
      Count(TenantLog(c, run, k), 0, n), Count(UnboundedLog(c, run, k), 0, n),
      Level(x, t, r), Level(y, t, r), (u - t) * r.refill, r.capacity);
  }

  /** A call the global level refuses changes nothing below it. */
  lemma UngatedStep(c: Config, run: seq<Call>, k: Key, n: nat)
    requires n < |run| && Lawful(c, run, n) && !GlobalGrants(c, StateAt(c, run, n), run[n])
    requires UnboundedAt(c, run, n).global == StateAt(c, run, n).global
    requires CoupledAt(c, run, k, n, run[n].now)
    ensures CoupledAt(c, run, k, n + 1, run[n].now)
  {
    hide Grants;
    hide Coupled;
    assert TenantLog(c, run, k)[n] == TenantEntry(c, run, k, n);
    assert UnboundedLog(c, run, k)[n] == UnboundedEntry(c, run, k, n);
  }

  /** The levels the call finds after both eviction passes. */
  lemma EvictStep(c: Config, s: State, u: Option<Bucket>, e: Call, k: Key, ev: nat, a: int, b: int)
    requires c.Valid() && LruChoice(c, s, e) && GlobalGrants(c, s, e) && Sane(u, e.now, c.TenantRate())
    requires Coupled(c.capacity * ev, a, b,
               Level(Lookup(s.buckets, k), e.now, c.TenantRate()), Level(u, e.now, c.TenantRate()))
    ensures Coupled(c.capacity * (ev + (if k in e.lru then 1 else 0)), a, b,
              Level(Lookup(Room(c, s, e), k), e.now, c.TenantRate()), Level(u, e.now, c.TenantRate()))
  {
    hide GlobalGrants;
    hide LruChoice;
    hide Level;
    hide Coupled;
    LosslessPassIsInvisible(c, s, e, k, e.now);
    LevelInRange(u, e.now, c.TenantRate());
    if k in e.lru {
      CoupledEvict(c.capacity * ev, c.capacity, a, b,
        Level(Lookup(s.buckets, k), e.now, c.TenantRate()), Level(u, e.now, c.TenantRate()));
      OneMoreTime(c.capacity, ev);
    }
  }

  lemma OneMoreTime(k: nat, n: nat)
    ensures k * (n + 1) == k * n + k
  {
  }

  /** The take that follows, from the levels found. */
  lemma TakeStep(c: Config, s: State, u: State, e: Call, k: Key, budget: int, a: int, b: int)
    requires GlobalGrants(c, s, e) && GlobalGrants(c, u, e)
    requires Coupled(budget, a, b,
               Level(Lookup(Room(c, s, e), k), e.now, c.TenantRate()), Level(Lookup(u.buckets, k), e.now, c.TenantRate()))
    ensures Coupled(budget,
              a + (if e.BucketKey() == k && Allows(c, s, e) then 1 else 0),
              b + (if e.BucketKey() == k && UnboundedAllows(c, u, e) then 1 else 0),
              Level(Lookup(Next(c, s, e).buckets, k), e.now, c.TenantRate()),
              Level(Lookup(NextUnbounded(c, u, e).buckets, k), e.now, c.TenantRate()))
  {
    hide GlobalGrants;
    hide Level;
    hide Room;
    hide Coupled;
    if e.BucketKey() == k {
      var x, y := Lookup(Room(c, s, e), k), Lookup(u.buckets, k);
      CoupledTake(budget, a, b, Level(x, e.now, c.TenantRate()), Level(y, e.now, c.TenantRate()));
      TakenNow(x, e.now, c.TenantRate());
      TakenNow(y, e.now, c.TenantRate());
    }
  }

  /** A call past the global level: both eviction passes, then the take. */
  lemma GatedStep(c: Config, run: seq<Call>, k: Key, n: nat)
    requires c.Valid() && n < |run| && Lawful(c, run, n) && CoupledAt(c, run, k, n, run[n].now)
    requires GlobalGrants(c, StateAt(c, run, n), run[n]) && GlobalGrants(c, UnboundedAt(c, run, n), run[n])
    requires SaneState(c, UnboundedAt(c, run, n), run[n].now)
    ensures CoupledAt(c, run, k, n + 1, run[n].now)
  {
    hide GlobalGrants;
    hide Coupled;
    hide Level;
    hide Room;
    hide Allows;
    hide UnboundedAllows;
    hide Next;
    hide NextUnbounded;
    var s, u, e := StateAt(c, run, n), UnboundedAt(c, run, n), run[n];
    var ev, a, b := Evictions(run, k, n), Count(TenantLog(c, run, k), 0, n), Count(UnboundedLog(c, run, k), 0, n);
    var ev' := ev + (if k in e.lru then 1 else 0);
    EvictStep(c, s, Lookup(u.buckets, k), e, k, ev, a, b);
    TakeStep(c, s, u, e, k, c.capacity * ev', a, b);
    assert TenantLog(c, run, k)[n] == TenantEntry(c, run, k, n);
    assert UnboundedLog(c, run, k)[n] == UnboundedEntry(c, run, k, n);
    assert Evictions(run, k, n + 1) == ev';
  }

  /** One call, seen at its own instant. */
  lemma CoupledStep(c: Config, run: seq<Call>, k: Key, n: nat)
    requires ValidRun(c, run) && n < |run| && CoupledAt(c, run, k, n, run[n].now)
    ensures CoupledAt(c, run, k, n + 1, run[n].now)
  {
    assert Lawful(c, run, n);
    GlobalIsOneBucket(c, run, run[n].op, n);
    StatesAreSane(c, run, n, run[n].now);
    SameGlobalAnswer(c, StateAt(c, run, n), UnboundedAt(c, run, n), run[n]);
    hide GlobalGrants;
    hide Coupled;
    hide Level;
    hide Room;
    hide Allows;
    hide UnboundedAllows;
    hide Next;
    hide NextUnbounded;
    if GlobalGrants(c, StateAt(c, run, n), run[n]) {
      GatedStep(c, run, k, n);
    } else {
      UngatedStep(c, run, k, n);
    }
  }

  lemma SameGlobalAnswer(c: Config, s: State, u: State, e: Call)
    requires s.global == u.global
    ensures GlobalGrants(c, s, e) == GlobalGrants(c, u, e)
  {
  }

  lemma LevelInRange(b: Option<Bucket>, now: real, r: Rate)
    requires r.Valid() && Sane(b, now, r)
    ensures 0.0 <= Level(b, now, r) <= r.capacity
  {
    TakenStaysInRange(b, now, r);
  }

  /** Eviction only ever helps a tenant, by at most its capacity each time the
      least-recently-used pass drops its bucket. */
  lemma EvictionOvershoot(c: Config, run: seq<Call>, k: Key, n: nat)
    requires ValidRun(c, run) && n <= |run|
    ensures Count(UnboundedLog(c, run, k), 0, n) <= Count(TenantLog(c, run, k), 0, n)
    ensures Count(TenantLog(c, run, k), 0, n) <= Count(UnboundedLog(c, run, k), 0, n) + c.capacity * Evictions(run, k, n)
  {
    hide Filled;
    hide NotFull;
    hide Next;
    StaysCoupled(c, run, k, n, if n > 0 then run[n - 1].now else 0.0);
  }

  lemma CoupledWithoutLoss(c: Config, run: seq<Call>, k: Key, n: nat, t: real)
    requires n <= |run| && CoupledAt(c, run, k, n, t) && Evictions(run, k, n) == 0
    ensures Level(Lookup(StateAt(c, run, n).buckets, k), t, c.TenantRate())
         == Level(Lookup(UnboundedAt(c, run, n).buckets, k), t, c.TenantRate())
  {
    hide Level;
    assert c.capacity * Evictions(run, k, n) == 0;
  }

  /** A key the lossy pass never dropped gets the answers of the limiter that never evicts. */
  lemma NoLossNoDifference(c: Config, run: seq<Call>, k: Key, n: nat)
    requires ValidRun(c, run) && n < |run| && Evictions(run, k, n + 1) == 0
    ensures TenantLog(c, run, k)[n] == UnboundedLog(c, run, k)[n]
  {
    var s, u, e := StateAt(c, run, n), UnboundedAt(c, run, n), run[n];
    assert Evictions(run, k, n) == 0 && k !in e.lru;
    assert Lawful(c, run, n);
    GlobalIsOneBucket(c, run, e.op, n);
    SameGlobalAnswer(c, s, u, e);
    StaysCoupled(c, run, k, n, e.now);
    CoupledWithoutLoss(c, run, k, n, e.now);
    hide Level;
    hide Room;
    hide Coupled;
    hide GlobalGrants;
    if GlobalGrants(c, s, e) {
      LosslessPassIsInvisible(c, s, e, k, e.now);
    }
    assert TenantLog(c, run, k)[n] == TenantEntry(c, run, k, n);
    assert UnboundedLog(c, run, k)[n] == UnboundedEntry(c, run, k, n);
  }

  lemma {:induction false} NoEvictionsBefore(run: seq<Call>, k: Key, m: nat, n: nat)
    requires m <= n <= |run| && Evictions(run, k, n) == 0
    ensures Evictions(run, k, m) == 0
    decreases n
  {
    if m < n {
      NoEvictionsBefore(run, k, m, n - 1);
    }
  }

  lemma {:induction false} UnboundedIsOneBucket(c: Config, run: seq<Call>, k: Key, n: nat)
    requires n <= |run|
    ensures Lookup(UnboundedAt(c, run, n).buckets, k) == BucketAt(UnboundedLog(c, run, k), n, c.TenantRate())
  {
    hide Filled;
    hide NotFull;
    if n > 0 {
      UnboundedIsOneBucket(c, run, k, n - 1);
    }
  }

  lemma UnboundedLaw(c: Config, run: seq<Call>, k: Key)
    requires ValidRun(c, run)
    ensures WindowLaw(UnboundedLog(c, run, k), Rate(c.capacity as real, c.refill))
  {
    hide Filled;
    hide Allowance;
    var log, r := UnboundedLog(c, run, k), c.TenantRate();
    forall n | 0 <= n < |run| && log[n].hit ensures log[n].ok == Grants(BucketAt(log, n, r), log[n].now, r) {
      UnboundedIsOneBucket(c, run, k, n);
    }
    BucketLaw(log, r);
  }

  /** The exact law: a call that reaches a bucket the lossy pass never dropped is
      allowed exactly when every window ending at it leaves room. */
  lemma TenantLaw(c: Config, run: seq<Call>, k: Key)
    requires ValidRun(c, run) && Evictions(run, k, |run|) == 0
    ensures WindowLaw(TenantLog(c, run, k), Rate(c.capacity as real, c.refill))
  {
    hide Filled;
    hide Allowance;
    hide WindowLaw;
    forall n | 0 <= n < |run| ensures TenantLog(c, run, k)[n] == UnboundedLog(c, run, k)[n] {
      NoEvictionsBefore(run, k, n + 1, |run|);
      NoLossNoDifference(c, run, k, n);
    }
    assert TenantLog(c, run, k) == UnboundedLog(c, run, k);
    UnboundedLaw(c, run, k);
  }

  lemma TimesGrows(a: nat, b: nat, k: nat)
    requires a <= b
    ensures a * k <= b * k
  {
  }

  /** What eviction gives any one tenant is bounded by elapsed time, however many
      tenants a caller invents. */
  lemma OvershootBoundedByTime(c: Config, run: seq<Call>, ops: set<string>, k: Key, d: real)
    requires ValidRun(c, run) && 0.0 <= d
    requires |run| > 0 ==> run[|run| - 1].now - run[0].now <= d
    requires forall n | 0 <= n < |run| :: run[n].op in ops
    ensures Count(TenantLog(c, run, k), 0, |run|)
         <= Count(UnboundedLog(c, run, k), 0, |run|) + c.capacity * Evictions(run, k, |run|)
    ensures Evictions(run, k, |run|) > 0 ==>
      ((Evictions(run, k, |run|) - 1) * (c.maxBuckets - c.maxBuckets / 2)) as real <= |ops| as real * GlobalBound(c, d)
  {
    hide *;
    var evictions, passes := Evictions(run, k, |run|), Passes(run, 0, |run|);
    EvictionOvershoot(c, run, k, |run|);
    EvictionsNeedPasses(run, k, |run|);
    if evictions > 0 {
      PassesBoundedByTime(c, run, ops, 0, |run|, d);
      TimesGrows(evictions - 1, passes - 1, c.maxBuckets - c.maxBuckets / 2);
    }
  }
}
