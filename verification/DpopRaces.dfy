/** Whether a proof can be accepted twice, when calls overlap and when they do not. */
module DpopRaces {
  import opened Common
  import opened Dpop
  import Tokens

  /** When the identifier accepted by call i may be forgotten. */
  function Until(run: seq<Attempt>, i: nat): Time
    requires i < |run|
  {
    run[i].now + 2 * MINUTE
  }

  /** Call k passes its checks, is new, and finds the cache full. */
  ghost predicate Sweeps(max: nat, run: seq<Attempt>, k: nat)
    requires k < |run|
  {
    && Check(run[k].signed, run[k].proof, run[k].target, run[k].now).None?
    && JtiOf(run, k) !in ItemsAt(max, run, k) && |ItemsAt(max, run, k)| >= max
  }

  /** A sweep between calls i and j came after i's identifier could be forgotten. */
  ghost predicate SweptBetween(max: nat, run: seq<Attempt>, i: nat, j: nat)
    requires j <= |run|
  {
    exists k: nat :: i < k < j && Sweeps(max, run, k) && Until(run, i) < run[k].sweepAt
  }

  ghost predicate NotAcceptedBetween(max: nat, run: seq<Attempt>, i: nat, j: nat)
    requires i < j <= |run|
  {
    forall k: nat | i < k < j && AcceptedAt(max, run, k) :: JtiOf(run, k) != JtiOf(run, i)
  }

  /** The cache remembers an accepted identifier exactly until a late enough sweep. */
  lemma {:induction false} RememberedExactly(max: nat, run: seq<Attempt>, i: nat, n: nat)
    requires i < n <= |run| && AcceptedAt(max, run, i) && NotAcceptedBetween(max, run, i, n)
    ensures JtiOf(run, i) in ItemsAt(max, run, n) <==> !SweptBetween(max, run, i, n)
    ensures JtiOf(run, i) in ItemsAt(max, run, n) ==> ItemsAt(max, run, n)[JtiOf(run, i)] == Until(run, i)
    decreases n
  {
    hide Check;
    if i < n - 1 {
      RememberedExactly(max, run, i, n - 1);
      StepRemembers(max, run, i, n - 1);
      assert SweptBetween(max, run, i, n) <==>
        SweptBetween(max, run, i, n - 1) || (Sweeps(max, run, n - 1) && Until(run, i) < run[n - 1].sweepAt);
    } else {
      AcceptedIsHeld(max, run, i);
      assert !SweptBetween(max, run, i, n);
    }
    hide AcceptedAt;
    hide ItemsAt;
    hide SweptBetween;
  }

  lemma AcceptedIsHeld(max: nat, run: seq<Attempt>, i: nat)
    requires i < |run| && AcceptedAt(max, run, i)
    ensures JtiOf(run, i) in ItemsAt(max, run, i + 1) && ItemsAt(max, run, i + 1)[JtiOf(run, i)] == Until(run, i)
  {
    PassesExactly(run[i].signed, run[i].proof, run[i].target, run[i].now);
    hide Check;
  }

  lemma StepRemembers(max: nat, run: seq<Attempt>, i: nat, k: nat)
    requires i < k < |run| && (AcceptedAt(max, run, k) ==> JtiOf(run, k) != JtiOf(run, i))
    requires JtiOf(run, i) in ItemsAt(max, run, k) ==> ItemsAt(max, run, k)[JtiOf(run, i)] == Until(run, i)
    ensures JtiOf(run, i) in ItemsAt(max, run, k + 1) <==>
      JtiOf(run, i) in ItemsAt(max, run, k) && !(Sweeps(max, run, k) && Until(run, i) < run[k].sweepAt)
    ensures JtiOf(run, i) in ItemsAt(max, run, k + 1) ==> ItemsAt(max, run, k + 1)[JtiOf(run, i)] == Until(run, i)
  {
    var a := run[k];
    assert ItemsAt(max, run, k + 1) == AfterJudge(a.signed, ItemsAt(max, run, k), max, a.proof, a.target, a.now, a.sweepAt);
    if Check(a.signed, a.proof, a.target, a.now).None? {
      PassesExactly(a.signed, a.proof, a.target, a.now);
    }
    hide Check;
  }

  /** An identifier accepted before is accepted again, by a call that passes its checks,
      exactly when a sweep past its time came in between and the cache has room. */
  lemma AcceptedAgainExactly(max: nat, run: seq<Attempt>, i: nat, j: nat)
    requires i < j < |run| && AcceptedAt(max, run, i) && NotAcceptedBetween(max, run, i, j) && JtiOf(run, i) == JtiOf(run, j)
    requires Check(run[j].signed, run[j].proof, run[j].target, run[j].now).None?
    ensures AcceptedAt(max, run, j) <==>
      && SweptBetween(max, run, i, j)
      && (|ItemsAt(max, run, j)| < max || |Live(ItemsAt(max, run, j), run[j].sweepAt)| < max)
  {
    RememberedExactly(max, run, i, j);
    PassesExactly(run[j].signed, run[j].proof, run[j].target, run[j].now);
    hide Check;
    hide ItemsAt;
    hide SweptBetween;
  }

  lemma {:induction false} FirstAgain(max: nat, run: seq<Attempt>, i: nat, j: nat) returns (first: nat)
    requires i < j < |run| && AcceptedAt(max, run, j) && JtiOf(run, i) == JtiOf(run, j)
    ensures i < first <= j && AcceptedAt(max, run, first) && JtiOf(run, first) == JtiOf(run, i)
    ensures NotAcceptedBetween(max, run, i, first)
    decreases j
  {
    hide AcceptedAt;
    hide JtiOf;
    if k: nat :| i < k < j && AcceptedAt(max, run, k) && JtiOf(run, k) == JtiOf(run, i) {
      first := FirstAgain(max, run, i, k);
    } else {
      first := j;
    }
  }

  /** An identifier is accepted again only by a call that reaches the cache after the
      whole memory of the first; one that does not overlap reads its clock after it. */
  lemma ReusedOnlyMuchLater(max: nat, run: seq<Attempt>, i: nat, j: nat)
    requires LockOrdered(run) && i < j < |run| && AcceptedAt(max, run, i) && AcceptedAt(max, run, j) && JtiOf(run, i) == JtiOf(run, j)
    ensures Until(run, i) < run[j].sweepAt && (Apart(run) ==> Until(run, i) < run[j].now)
  {
    hide Check;
    var first := FirstAgain(max, run, i, j);
    AcceptedAgainExactly(max, run, i, first);
    var k: nat :| i < k < first && Sweeps(max, run, k) && Until(run, i) < run[k].sweepAt;
    hide Sweeps;
    hide ItemsAt;
    assert run[k].sweepAt <= run[j].sweepAt;
  }

  /** However calls overlap, a proof is accepted a second time only if another call swept
      the cache after its memory was over, yet the second call had read its clock before
      that; and then the proof was dated ahead of the clock, by all of the freshness
      window but the time between the second call's clock reading and its admission. */
  lemma TwiceOnlyByRace(max: nat, run: seq<Attempt>, i: nat, j: nat)
    requires LockOrdered(run) && i < j < |run| && AcceptedAt(max, run, i) && AcceptedAt(max, run, j)
    requires run[i].proof.payload == run[j].proof.payload
    ensures run[i].proof.payload.Some?
    ensures exists k: nat :: i < k < j && Sweeps(max, run, k) && run[j].now <= Until(run, i) < run[k].sweepAt
    ensures run[i].now + 60 * SECOND - (run[j].sweepAt - run[j].now) < run[i].proof.payload.value.iat * SECOND
  {
    PassesExactly(run[i].signed, run[i].proof, run[i].target, run[i].now);
    PassesExactly(run[j].signed, run[j].proof, run[j].target, run[j].now);
    hide Check;
    var first := FirstAgain(max, run, i, j);
    PassesExactly(run[first].signed, run[first].proof, run[first].target, run[first].now);
    AcceptedAgainExactly(max, run, i, first);
    var k: nat :| i < k < first && Sweeps(max, run, k) && Until(run, i) < run[k].sweepAt;
    hide Sweeps;
    hide ItemsAt;
    assert run[k].sweepAt <= run[j].sweepAt;
  }

  /** When calls do not overlap, no proof is ever accepted twice, although identifiers
      are forgotten. */
  lemma NoProofTwice(max: nat, run: seq<Attempt>, i: nat, j: nat)
    requires LockOrdered(run) && Apart(run) && i < j < |run| && AcceptedAt(max, run, i) && AcceptedAt(max, run, j)
    ensures run[i].proof.payload != run[j].proof.payload
  {
    hide AcceptedAt;
    hide Sweeps;
    if run[i].proof.payload == run[j].proof.payload {
      TwiceOnlyByRace(max, run, i, j);
    }
  }

  // --------------------------------------------------- the race does happen

  const KEY: Tokens.Key := Tokens.Key(1, 2)
  const HEADER: Header := Header("dpop+jwt", "ES256", true, Some(KEY))
  const TARGET: Target := Target("POST", Some(Uri("https", "host", "/token")), "", Tokens.NO_THUMBPRINT)

  /** The n-th identifier. */
  function Jti(n: nat): (jti: string)
    ensures |jti| == n + 1
  {
    if n == 0 then "x" else Jti(n - 1) + "x"
  }

  function Claim(n: nat, iat: int): Payload
  {
    Payload(Jti(n), "POST", TARGET.uri, iat, Tokens.Other(""))
  }

  /** A proof with the n-th identifier, dated `iat`, as its holder signed it. */
  function Shown(n: nat, iat: int, now: Time, sweepAt: Time): Attempt
  {
    Attempt({Signed(KEY, HEADER, Claim(n, iat))}, Proof(true, Some(HEADER), Some(Claim(n, iat)), true), TARGET, now, sweepAt)
  }

  lemma ShownPasses(n: nat, iat: int, now: Time, sweepAt: Time)
    requires -MAX_AGE <= now - iat * SECOND <= MAX_AGE
    ensures var a := Shown(n, iat, now, sweepAt); Check(a.signed, a.proof, a.target, a.now) == None && a.proof.payload.value.jti == Jti(n)
  {
    var a := Shown(n, iat, now, sweepAt);
    PassesExactly(a.signed, a.proof, a.target, a.now);
    hide Check;
  }

  /** `max` proofs dated a minute ahead fill the cache at once; two minutes later, to the
      nanosecond, the first is shown again, and while it is on its way to the cache a
      new proof sweeps it. */
  function Racing(max: nat, n: nat): Attempt
  {
    if n < max then Shown(n, 60, 0, 0)
    else if n == max then Shown(max, 120, 2 * MAX_AGE, 2 * MAX_AGE + 1)
    else Shown(0, 60, 2 * MAX_AGE, 2 * MAX_AGE + 1)
  }

  function RacingRun(max: nat, n: nat): (run: seq<Attempt>)
    ensures |run| == n && forall i | 0 <= i < n :: run[i] == Racing(max, i)
  {
    if n == 0 then [] else RacingRun(max, n - 1) + [Racing(max, n - 1)]
  }

  /** Call n of the run passes its checks, with the n-th identifier. */
  lemma RacingPasses(max: nat, run: seq<Attempt>, n: nat)
    requires n <= max && IsRacing(max, run)
    ensures Passes(run, n) && JtiOf(run, n) == Jti(n) && (n < max ==> Until(run, n) == 2 * MAX_AGE && run[n].sweepAt == 0)
    ensures n == max ==> Until(run, n) == 4 * MAX_AGE && run[n].sweepAt == 2 * MAX_AGE + 1
  {
    hide Check;
    assert run[n] == Racing(max, n);
    if n < max {
      ShownPasses(n, 60, 0, 0);
    } else {
      ShownPasses(max, 120, 2 * MAX_AGE, 2 * MAX_AGE + 1);
    }
  }

  ghost predicate Passes(run: seq<Attempt>, n: nat)
    requires n < |run|
  {
    Check(run[n].signed, run[n].proof, run[n].target, run[n].now) == None && run[n].proof.payload.Some?
  }

  ghost predicate IsRacing(max: nat, run: seq<Attempt>)
  {
    |run| == max + 2 && forall i | 0 <= i < |run| :: run[i] == Racing(max, i)
  }

  /** The first n identifiers, all to be forgotten at the same time. */
  ghost predicate Filled(items: map<string, Time>, n: nat)
  {
    |items| == n && forall jti | jti in items :: |jti| <= n && items[jti] == 2 * MAX_AGE
  }

  lemma FilledUp(items: map<string, Time>, n: nat)
    requires Filled(items, n)
    ensures |items| == n && Jti(n) !in items && Filled(items[Jti(n) := 2 * MAX_AGE], n + 1)
  {
    assert Jti(n) !in items;
    UpdateSize(items, Jti(n), 2 * MAX_AGE);
    hide Jti;
  }

  lemma {:induction false} CacheFills(max: nat, run: seq<Attempt>, n: nat)
    requires IsRacing(max, run) && n <= max
    ensures Filled(ItemsAt(max, run, n), n) && forall i: nat | i < n :: AcceptedAt(max, run, i)
  {
    hide *;
    if n == 0 {
      NothingFilled(max, run);
    } else {
      CacheFills(max, run, n - 1);
      RacingLength(max, run);
      RacingPasses(max, run, n - 1);
      FilledUp(ItemsAt(max, run, n - 1), n - 1);
      AdmittedWithRoom(max, run, n - 1);
    }
  }

  lemma NothingFilled(max: nat, run: seq<Attempt>)
    ensures Filled(ItemsAt(max, run, 0), 0)
  {
  }

  lemma AdmittedWithRoom(max: nat, run: seq<Attempt>, n: nat)
    requires n < |run| && Passes(run, n) && JtiOf(run, n) !in ItemsAt(max, run, n) && |ItemsAt(max, run, n)| < max
    ensures AcceptedAt(max, run, n) && ItemsAt(max, run, n + 1) == ItemsAt(max, run, n)[JtiOf(run, n) := Until(run, n)]
  {
    hide Check;
  }

  /** The new proof finds the cache full of identifiers whose time is over. */
  lemma SweepMakesRoom(max: nat, run: seq<Attempt>, n: nat)
    requires n < |run| && Passes(run, n) && 1 <= max && run[n].sweepAt == 2 * MAX_AGE + 1
    requires Filled(ItemsAt(max, run, n), max) && JtiOf(run, n) !in ItemsAt(max, run, n)
    ensures ItemsAt(max, run, n + 1) == map[JtiOf(run, n) := Until(run, n)]
  {
    hide Check;
    assert Live(ItemsAt(max, run, n), 2 * MAX_AGE + 1) == map[];
  }

  /** For every size of the cache from two up there is a run in which a proof is accepted
      twice: the verifier is not atomic, and that is what it takes. */
  lemma RaceAcceptsTwice(max: nat, run: seq<Attempt>)
    requires 2 <= max && IsRacing(max, run)
    ensures LockOrdered(run) && AcceptedAt(max, run, 0) && AcceptedAt(max, run, max + 1)
    ensures run[0].proof == run[max + 1].proof
  {
    hide *;
    RacingLength(max, run);
    RacingIsOrdered(max, run);
    CacheFills(max, run, max);
    RacingPasses(max, run, max);
    ShownAgainPasses(max, run);
    FilledUp(ItemsAt(max, run, max), max);
    SweepMakesRoom(max, run, max);
    assert |Jti(max)| != |Jti(0)|;
    AdmittedWithRoom(max, run, max + 1);
  }

  lemma RacingLength(max: nat, run: seq<Attempt>)
    requires IsRacing(max, run)
    ensures |run| == max + 2
  {
  }

  lemma RacingIsOrdered(max: nat, run: seq<Attempt>)
    requires IsRacing(max, run)
    ensures LockOrdered(run)
  {
    hide Shown;
    forall n: nat ensures Racing(max, n).now == (if n < max then 0 else 2 * MAX_AGE) && Racing(max, n).sweepAt == (if n < max then 0 else 2 * MAX_AGE + 1) {
      ShownAt(max, n);
    }
    hide Racing;
  }

  lemma ShownAt(max: nat, n: nat)
    ensures Racing(max, n).now == (if n < max then 0 else 2 * MAX_AGE)
    ensures Racing(max, n).sweepAt == (if n < max then 0 else 2 * MAX_AGE + 1)
  {
  }

  lemma ShownAgainPasses(max: nat, run: seq<Attempt>)
    requires 2 <= max && IsRacing(max, run)
    ensures Passes(run, max + 1) && JtiOf(run, max + 1) == Jti(0) && run[0].proof == run[max + 1].proof
  {
    hide Check;
    assert run[max + 1] == Racing(max, max + 1) && run[0] == Racing(max, 0);
    hide IsRacing;
    ShownPasses(0, 60, 2 * MAX_AGE, 2 * MAX_AGE + 1);
  }

  /** There is such a run. */
  lemma RacingRunExists(max: nat)
    ensures IsRacing(max, RacingRun(max, max + 2))
  {
    hide Racing;
  }
}
