/** One token bucket, and the law its answers obey over a whole log of calls. */
module TokenBucket {
  import opened Common

  datatype Bucket = Bucket(tokens: real, last: real)

  datatype Rate = Rate(capacity: real, refill: real) {
    ghost predicate Valid() { 0.0 <= capacity && 0.0 <= refill }
  }

  function Min(a: real, b: real): real
  {
    if a <= b then a else b
  }

  /** Time since `last`, zero when the clock went backwards. */
  function Elapsed(last: real, now: real): real
  {
    if last <= now then now - last else 0.0
  }

  /** What a bucket holds at `now`, before any token is taken. */
  function Filled(b: Bucket, now: real, r: Rate): real
  {
    Min(b.tokens + Elapsed(b.last, now) * r.refill, r.capacity)
  }

  /** What a bucket that may not exist yet holds: an absent bucket is full. */
  function Level(b: Option<Bucket>, now: real, r: Rate): real
  {
    match b
    case None => r.capacity
    case Some(bucket) => Filled(bucket, now, r)
  }

  predicate Grants(b: Option<Bucket>, now: real, r: Rate)
  {
    Level(b, now, r) >= 1.0
  }

  /** The bucket left by one call. */
  function Taken(b: Option<Bucket>, now: real, r: Rate): Bucket
  {
    Bucket(Level(b, now, r) - (if Grants(b, now, r) then 1.0 else 0.0), now)
  }

  /** Refills a bucket for the elapsed time and takes one token if there is one. */
  method Take(bucket: Bucket, now: real, r: Rate) returns (bucket': Bucket, ok: bool)
    ensures bucket' == Taken(Some(bucket), now, r)
    ensures ok == Grants(Some(bucket), now, r)
  {
    var elapsed := if bucket.last <= now then now - bucket.last else 0.0;
    bucket' := bucket.(tokens := Min(bucket.tokens + elapsed * r.refill, r.capacity));
    bucket' := bucket'.(last := now);
    if bucket'.tokens >= 1.0 {
      bucket' := bucket'.(tokens := bucket'.tokens - 1.0);
      ok := true;
    } else {
      ok := false;
    }
  }

  ghost predicate Sane(b: Option<Bucket>, now: real, r: Rate)
  {
    b.Some? ==> 0.0 <= b.value.tokens <= r.capacity && b.value.last <= now
  }

  lemma ProductNonNegative(a: real, b: real)
    requires 0.0 <= a && 0.0 <= b
    ensures 0.0 <= a * b
  {
  }

  lemma Distribute(a: real, b: real, k: real)
    ensures (a + b) * k == a * k + b * k
  {
  }

  /** Whatever the clock does, a bucket never leaves [0, capacity]. */
  lemma TakenStaysInRange(b: Option<Bucket>, now: real, r: Rate)
    requires r.Valid()
    requires b.Some? ==> 0.0 <= b.value.tokens <= r.capacity
    ensures 0.0 <= Taken(b, now, r).tokens <= r.capacity
    ensures 0.0 <= Level(b, now, r) <= r.capacity
    ensures Sane(Some(Taken(b, now, r)), now, r)
  {
    if b.Some? {
      ProductNonNegative(Elapsed(b.value.last, now), r.refill);
    }
  }

  /** Refilling in two steps is refilling in one. */
  lemma RefillInTwoSteps(b: Option<Bucket>, t: real, u: real, r: Rate)
    requires r.Valid() && Sane(b, t, r) && t <= u
    ensures Level(b, u, r) == Min(Level(b, t, r) + (u - t) * r.refill, r.capacity)
    ensures Level(b, t, r) <= Level(b, u, r)
  {
    ProductNonNegative(u - t, r.refill);
    if b.Some? {
      Distribute(t - b.value.last, u - t, r.refill);
      assert (t - b.value.last) + (u - t) == u - b.value.last;
    }
  }

  lemma TakenNow(b: Option<Bucket>, now: real, r: Rate)
    ensures Level(Some(Taken(b, now, r)), now, r) == Taken(b, now, r).tokens
  {
    assert Elapsed(now, now) * r.refill == 0.0;
  }

  // ---------------------------------------------------------------- logs

  /** One call of a run seen from one bucket: `hit` when it reached the bucket. */
  datatype Entry = Entry(now: real, hit: bool, ok: bool)

  ghost predicate Ordered(log: seq<Entry>)
  {
    forall i, j | 0 <= i <= j < |log| :: log[i].now <= log[j].now
  }

  /** The bucket after the first n calls, when it starts absent. */
  ghost function BucketAt(log: seq<Entry>, n: nat, r: Rate): Option<Bucket>
    requires n <= |log|
  {
    if n == 0 then None
    else if log[n - 1].hit then Some(Taken(BucketAt(log, n - 1, r), log[n - 1].now, r))
    else BucketAt(log, n - 1, r)
  }

  /** The first n answers are those a single bucket gives. */
  ghost predicate Served(log: seq<Entry>, n: nat, r: Rate)
    requires n <= |log|
  {
    forall j | 0 <= j < n && log[j].hit :: log[j].ok == Grants(BucketAt(log, j, r), log[j].now, r)
  }

  function Spent(e: Entry): real
  {
    if e.hit && e.ok then 1.0 else 0.0
  }

  /** How many calls were admitted among those numbered i up to j - 1. */
  ghost function Admitted(log: seq<Entry>, i: nat, j: nat): real
    requires i <= j <= |log|
    decreases j - i
  {
    if i == j then 0.0 else Admitted(log, i, j - 1) + Spent(log[j - 1])
  }

  ghost function Count(log: seq<Entry>, i: nat, j: nat): nat
    requires i <= j <= |log|
    decreases j - i
  {
    if i == j then 0 else Count(log, i, j - 1) + (if log[j - 1].hit && log[j - 1].ok then 1 else 0)
  }

  lemma {:induction false} CountIsAdmitted(log: seq<Entry>, i: nat, j: nat)
    requires i <= j <= |log|
    ensures Count(log, i, j) as real == Admitted(log, i, j)
    decreases j - i
  {
    if i < j {
      CountIsAdmitted(log, i, j - 1);
    }
  }

  /** What the window from call i leaves at time t: the capacity, what was
      refilled since call i, less what calls i up to n - 1 were given. */
  ghost function Allowance(log: seq<Entry>, i: nat, n: nat, t: real, r: Rate): real
    requires i <= n <= |log| && i < |log|
  {
    r.capacity + r.refill * (t - log[i].now) - Admitted(log, i, n)
  }

  /** Every window that ends at call j leaves room for it. */
  ghost predicate RoomForCall(log: seq<Entry>, j: nat, r: Rate)
    requires j < |log|
  {
    forall i: nat | i <= j && log[i].hit :: 1.0 <= Allowance(log, i, j, log[j].now, r)
  }

  ghost predicate WindowLaw(log: seq<Entry>, r: Rate)
  {
    forall j: nat | j < |log| && log[j].hit :: log[j].ok <==> RoomForCall(log, j, r)
  }

  lemma {:induction false} BucketAtIsSane(log: seq<Entry>, n: nat, t: real, r: Rate)
    requires n <= |log| && r.Valid() && Ordered(log)
    requires n > 0 ==> log[n - 1].now <= t
    ensures Sane(BucketAt(log, n, r), t, r)
  {
    if n > 0 {
      BucketAtIsSane(log, n - 1, log[n - 1].now, r);
      TakenStaysInRange(BucketAt(log, n - 1, r), log[n - 1].now, r);
    }
  }

  /** One call moves the level as it moves every earlier allowance. */
  lemma LevelAdvances(log: seq<Entry>, m: nat, t: real, r: Rate)
    requires m < |log| && r.Valid() && Ordered(log) && Served(log, m + 1, r) && log[m].now <= t
    ensures Level(BucketAt(log, m + 1, r), t, r)
         == Min(Level(BucketAt(log, m, r), log[m].now, r) - Spent(log[m]) + (t - log[m].now) * r.refill, r.capacity)
  {
    hide Filled;
    BucketAtIsSane(log, m, log[m].now, r);
    BucketAtIsSane(log, m + 1, log[m].now, r);
    TakenNow(BucketAt(log, m, r), log[m].now, r);
    RefillInTwoSteps(BucketAt(log, m + 1, r), log[m].now, t, r);
  }

  lemma AllowanceAdvances(log: seq<Entry>, i: nat, m: nat, t: real, r: Rate)
    requires i < m < |log|
    ensures Allowance(log, i, m + 1, t, r)
         == Allowance(log, i, m, log[m].now, r) - Spent(log[m]) + (t - log[m].now) * r.refill
  {
    Distribute(log[m].now - log[i].now, t - log[m].now, r.refill);
    assert (log[m].now - log[i].now) + (t - log[m].now) == t - log[i].now;
  }

  lemma NewestAllowance(log: seq<Entry>, m: nat, t: real, r: Rate)
    requires m < |log|
    ensures Allowance(log, m, m + 1, t, r) == r.capacity - Spent(log[m]) + (t - log[m].now) * r.refill
  {
    assert Admitted(log, m, m) == 0.0;
  }

  /** No call leaves less than the level. */
  lemma {:induction false} LevelWithinWindow(log: seq<Entry>, i: nat, n: nat, t: real, r: Rate)
    requires i < n <= |log| && r.Valid() && Ordered(log) && Served(log, n, r)
    requires log[i].hit && log[n - 1].now <= t
    ensures Level(BucketAt(log, n, r), t, r) <= Allowance(log, i, n, t, r)
    decreases n
  {
    hide Filled;
    hide Allowance;
    var m := n - 1;
    LevelAdvances(log, m, t, r);
    if i < m {
      LevelWithinWindow(log, i, m, log[m].now, r);
      AllowanceAdvances(log, i, m, t, r);
    } else {
      NewestAllowance(log, m, t, r);
      BucketAtIsSane(log, m, log[m].now, r);
      TakenStaysInRange(BucketAt(log, m, r), log[m].now, r);
    }
  }

  /** A bucket below its capacity is exactly at what some earlier call leaves. */
  lemma {:induction false} LevelIsSomeWindow(log: seq<Entry>, n: nat, t: real, r: Rate) returns (i: nat)
    requires n <= |log| && r.Valid() && Ordered(log) && Served(log, n, r)
    requires n > 0 ==> log[n - 1].now <= t
    requires Level(BucketAt(log, n, r), t, r) != r.capacity
    ensures i < n && log[i].hit && Level(BucketAt(log, n, r), t, r) == Allowance(log, i, n, t, r)
    decreases n
  {
    hide Filled;
    hide Allowance;
    var m := n - 1;
    LevelAdvances(log, m, t, r);
    if Level(BucketAt(log, m, r), log[m].now, r) == r.capacity {
      i := m;
      NewestAllowance(log, m, t, r);
      ProductNonNegative(t - log[m].now, r.refill);
    } else {
      i := LevelIsSomeWindow(log, m, log[m].now, r);
      AllowanceAdvances(log, i, m, t, r);
    }
  }

  lemma GrantMeansRoom(log: seq<Entry>, i: nat, j: nat, r: Rate)
    requires i <= j < |log| && r.Valid() && Ordered(log) && Served(log, j, r) && log[i].hit
    requires Grants(BucketAt(log, j, r), log[j].now, r)
    ensures 1.0 <= Allowance(log, i, j, log[j].now, r)
  {
    hide Filled;
    hide Allowance;
    if i < j {
      LevelWithinWindow(log, i, j, log[j].now, r);
    } else {
      LevelAtMostCapacity(BucketAt(log, j, r), log[j].now, r);
      OwnWindow(log, j, r);
    }
  }

  lemma RefusalMeansNoRoom(log: seq<Entry>, j: nat, r: Rate) returns (i: nat)
    requires j < |log| && r.Valid() && Ordered(log) && Served(log, j, r) && log[j].hit
    requires !Grants(BucketAt(log, j, r), log[j].now, r)
    ensures i <= j && log[i].hit && !(1.0 <= Allowance(log, i, j, log[j].now, r))
  {
    hide Filled;
    hide Allowance;
    if Level(BucketAt(log, j, r), log[j].now, r) == r.capacity {
      OwnWindow(log, j, r);
      i := j;
    } else {
      i := LevelIsSomeWindow(log, j, log[j].now, r);
    }
  }

  lemma GrantsIffRoom(log: seq<Entry>, j: nat, r: Rate)
    requires j < |log| && r.Valid() && Ordered(log) && Served(log, j, r) && log[j].hit
    ensures Grants(BucketAt(log, j, r), log[j].now, r) <==> RoomForCall(log, j, r)
  {
    hide Allowance;
    hide Filled;
    if Grants(BucketAt(log, j, r), log[j].now, r) {
      forall i: nat | i <= j && log[i].hit ensures 1.0 <= Allowance(log, i, j, log[j].now, r) {
        GrantMeansRoom(log, i, j, r);
      }
    } else {
      var i := RefusalMeansNoRoom(log, j, r);
    }
  }

  lemma LevelAtMostCapacity(b: Option<Bucket>, now: real, r: Rate)
    ensures Level(b, now, r) <= r.capacity
  {
  }

  lemma OwnWindow(log: seq<Entry>, j: nat, r: Rate)
    requires j < |log|
    ensures Allowance(log, j, j, log[j].now, r) == r.capacity
  {
    assert Admitted(log, j, j) == 0.0;
  }

  /** The exact law: the answers of one bucket, and no others, obey every window. */
  lemma BucketLaw(log: seq<Entry>, r: Rate)
    requires r.Valid() && Ordered(log)
    ensures Served(log, |log|, r) <==> WindowLaw(log, r)
  {
    hide Allowance;
    hide Filled;
    if Served(log, |log|, r) {
      forall j: nat | j < |log| && log[j].hit ensures log[j].ok <==> RoomForCall(log, j, r) {
        GrantsIffRoom(log, j, r);
      }
    }
    if WindowLaw(log, r) {
      LawfulLogIsServed(log, |log|, r);
    }
  }

  lemma {:induction false} LawfulLogIsServed(log: seq<Entry>, n: nat, r: Rate)
    requires n <= |log| && r.Valid() && Ordered(log) && WindowLaw(log, r)
    ensures Served(log, n, r)
  {
    hide Allowance;
    hide Filled;
    if n > 0 {
      LawfulLogIsServed(log, n - 1, r);
      if log[n - 1].hit {
        GrantsIffRoom(log, n - 1, r);
      }
    }
  }

  /** However calls are timed, a stretch of calls within d time admits at most
      capacity + refill * d. */
  lemma {:induction false} Ceiling(log: seq<Entry>, i: nat, j: nat, d: real, r: Rate)
    requires r.Valid() && Ordered(log) && WindowLaw(log, r)
    requires i <= j <= |log| && 0.0 <= d
    requires i < j ==> log[j - 1].now - log[i].now <= d
    ensures Admitted(log, i, j) <= r.capacity + r.refill * d
    decreases j - i
  {
    hide Allowance;
    hide WindowLaw;
    hide Spent;
    ProductNonNegative(r.refill, d);
    if i < j {
      if !log[i].hit {
        SkipMiss(log, i, j);
        Ceiling(log, i + 1, j, d, r);
      } else if log[j - 1].hit && log[j - 1].ok {
        LawfulWindow(log, i, j - 1, r);
        RoomThenAdmitted(log, i, j - 1, d, r);
      } else {
        assert log[j - 1].now - log[i].now <= d;
        assert i < j - 1 ==> log[j - 2].now <= log[j - 1].now;
        Ceiling(log, i, j - 1, d, r);
        RefusedSpendsNothing(log, i, j);
      }
    }
  }

  lemma RefusedSpendsNothing(log: seq<Entry>, i: nat, j: nat)
    requires i < j <= |log| && !(log[j - 1].hit && log[j - 1].ok)
    ensures Admitted(log, i, j) == Admitted(log, i, j - 1)
  {
  }

  lemma LawfulWindow(log: seq<Entry>, i: nat, j: nat, r: Rate)
    requires i <= j < |log| && WindowLaw(log, r) && log[i].hit && log[j].hit && log[j].ok
    ensures 1.0 <= Allowance(log, i, j, log[j].now, r)
  {
    hide Allowance;
    assert RoomForCall(log, j, r);
  }

  lemma RoomThenAdmitted(log: seq<Entry>, i: nat, j: nat, d: real, r: Rate)
    requires i <= j < |log| && 1.0 <= Allowance(log, i, j, log[j].now, r) && log[j].hit && log[j].ok
    requires r.Valid() && log[j].now - log[i].now <= d
    ensures Admitted(log, i, j + 1) <= r.capacity + r.refill * d
  {
    RefillGrows(r, log[j].now - log[i].now, d);
  }

  lemma RefillGrows(r: Rate, d: real, d': real)
    requires r.Valid() && d <= d'
    ensures r.refill * d <= r.refill * d'
  {
    ProductNonNegative(r.refill, d' - d);
  }

  lemma {:induction false} SkipMiss(log: seq<Entry>, i: nat, j: nat)
    requires i < j <= |log| && !log[i].hit
    ensures Admitted(log, i, j) == Admitted(log, i + 1, j)
    decreases j
  {
    if i + 1 < j {
      SkipMiss(log, i, j - 1);
    }
  }
}
