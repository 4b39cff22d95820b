/** Challenges, credentials and signature counters over whole runs of the protocol. */
module LoginRuns {
  import opened Common
  import opened LoginStores
  import opened Protocol
  import opened ProtocolInvariants
  import opened ProtocolRuns
  import WebAuthn

  // ----------------------------------------------------------- challenges

  /** No challenge reaches the Guard more than once, and each one that does was
      begun for the request it is judged for. */
  lemma ChallengeJudgedOnce(cfg: Config, run: seq<Event>, n: nat, i: nat, j: nat)
    requires ValidRun(cfg, run) && n <= |run|
    requires i < |StateAt(cfg, run, n).h.judged| && j < |StateAt(cfg, run, n).h.judged|
    ensures var h := StateAt(cfg, run, n).h;
      && (h.judged[i].challenge == h.judged[j].challenge ==> i == j)
      && h.judged[i].challenge in h.begun && h.begun[h.judged[i].challenge].rid == h.judged[i].rid
  {
    InvariantsHold(cfg, run, n, LastTime(run, n));
    hide LoginInv;
    hide TokenInv;
    hide HoldersOk;
    hide HoldersDistinct;
    hide ChallengesOk;
    hide Next;
  }

  /** Begun, never taken, and in no store any more. */
  ghost predicate Lost(s: State, c: Bytes)
  {
    c in s.h.begun && c !in s.h.taken && forall rid | rid in s.challenges :: s.challenges[rid].value != c
  }

  lemma StaysLost(cfg: Config, s: State, e: Event, c: Bytes)
    requires Lost(s, c) && Fresh(s, e.step)
    ensures Lost(Next(cfg, s, e), c)
  {
    StepFrame(cfg, s, e);
    if e.step.Begin? {
      LostAtBegin(s, e.step.rid, e.step.challenge, e.now, c);
      assert Next(cfg, s, e) == AfterBegin(s, e.step.rid, e.step.challenge, e.now) by { hide AfterBegin; }
    } else if e.step.TakeChallenge? {
      LostAtTake(s, e.step.p, e.now, c);
      assert Next(cfg, s, e) == AfterTakeChallenge(s, e.step.p, e.now) by { hide AfterTakeChallenge; }
    }
    hide Next;
    hide AfterBegin;
    hide AfterTakeChallenge;
  }

  lemma LostAtBegin(s: State, rid: string, challenge: Bytes, now: Time, c: Bytes)
    requires Lost(s, c) && challenge !in s.h.begun
    ensures Lost(AfterBegin(s, rid, challenge, now), c) && AfterBegin(s, rid, challenge, now).h.taken == s.h.taken
  {
  }

  lemma LostAtTake(s: State, p: nat, now: Time, c: Bytes)
    requires Lost(s, c)
    ensures Lost(AfterTakeChallenge(s, p, now), c)
  {
  }

  lemma ReplacedIsLost(s: State, rid: string, d: Bytes, now: Time, c: Bytes)
    requires ChallengeInv(s, now) && rid != "" && d !in s.h.begun
    requires c in s.h.begun && s.h.begun[c].rid == rid && c !in s.h.taken
    ensures Lost(AfterBegin(s, rid, d, now), c)
  {
    hide HoldersOk;
    hide HoldersDistinct;
    hide JudgedOk;
    hide JudgedOnce;
  }

  lemma {:induction false} LostForGood(cfg: Config, run: seq<Event>, i: nat, n: nat, c: Bytes)
    requires ValidRun(cfg, run) && i <= n <= |run| && Lost(StateAt(cfg, run, i), c)
    ensures Lost(StateAt(cfg, run, n), c)
    decreases n
  {
    hide Lost;
    hide Next;
    if i < n {
      LostForGood(cfg, run, i, n - 1, c);
      assert FreshAt(cfg, run, n - 1);
      StaysLost(cfg, StateAt(cfg, run, n - 1), run[n - 1], c);
    }
  }

  /** A challenge replaced by a later begin before it was taken never reaches the
      Guard, in any continuation. */
  lemma ReplacedIsNeverJudged(cfg: Config, run: seq<Event>, i: nat, n: nat, rid: string, d: Bytes, c: Bytes)
    requires ValidRun(cfg, run) && i < n <= |run| && run[i].step == Begin(rid, d) && rid != ""
    requires var h := StateAt(cfg, run, i).h; c in h.begun && h.begun[c].rid == rid && c !in h.taken
    ensures c !in StateAt(cfg, run, n).h.taken && Unjudged(StateAt(cfg, run, n).h.judged, c)
  {
    hide LoginInv;
    hide TokenInv;
    var s := StateAt(cfg, run, i);
    InvariantsHold(cfg, run, i, run[i].now);
    assert FreshAt(cfg, run, i);
    ReplacedIsLost(s, rid, d, run[i].now, c);
    assert StateAt(cfg, run, i + 1) == AfterBegin(s, rid, d, run[i].now) by { hide AfterBegin; }
    LostForGood(cfg, run, i + 1, n, c);
    InvariantsHold(cfg, run, n, LastTime(run, n));
    hide Next;
    hide AfterBegin;
    hide HoldersOk;
    hide HoldersDistinct;
    hide ChallengesOk;
    hide JudgedOnce;
  }

  // ---------------------------------------------------------- credentials

  ghost predicate Carries(f: Finish)
  {
    f.Identified? || f.Verified? || f.Counted? || f.Consumed?
  }

  /** How call p may come to stand at f in one step: it stood there before, or f carries
      no credential, or the credential was just looked up, or it is the one the call
      carried before, and a verified counter is zero or ahead of that one's. */
  ghost predicate MovedOn(s: State, step: Step, p: nat, f: Finish)
  {
    || (p in s.finishes && s.finishes[p] == f)
    || !Carries(f)
    || (f.Identified? && step == GetCredential(p) && f.req.credentialId in s.creds && f.cred == s.creds[f.req.credentialId])
    || (f.Verified? && p in s.finishes && s.finishes[p].Identified? && s.finishes[p].cred == f.cred
        && (f.count == 0 || f.count > f.cred.signCount))
    || (!f.Identified? && !f.Verified? && p in s.finishes && Carries(s.finishes[p]) && s.finishes[p].cred == f.cred)
  }

  ghost predicate AllMovedOn(s: State, step: Step, finishes': map<nat, Finish>)
  {
    forall p | p in finishes' :: MovedOn(s, step, p, finishes'[p])
  }

  /** The Guard's own check is what puts a verified counter ahead. */
  lemma MoveAsk(cfg: Config, s: State, p: nat, reachable: bool, signed: set<WebAuthn.Signed>)
    ensures AllMovedOn(s, AskGuard(p, reachable, signed), AfterAskGuard(cfg, s, p, reachable, signed).finishes)
  {
    if p in s.finishes && s.finishes[p].Identified? {
      var Identified(req, challenge, cred) := s.finishes[p];
      var exp := WebAuthn.Expectations(cfg.rpIdHash, cfg.origin, challenge, cred.signCount);
      WebAuthn.VerifiedExactly(signed, exp, cred.publicKey, cred.keyParses, req.assertion);
    }
    hide WebAuthn.Verify;
    hide Framed;
  }

  lemma MoveTakeChallenge(s: State, p: nat, now: Time)
    ensures AllMovedOn(s, TakeChallenge(p), AfterTakeChallenge(s, p, now).finishes)
  {
    hide Taken;
    hide Framed;
  }

  lemma MoveGet(s: State, p: nat)
    ensures AllMovedOn(s, GetCredential(p), AfterGetCredential(s, p).finishes)
  {
    hide Framed;
  }

  lemma MoveUpdate(s: State, p: nat)
    ensures AllMovedOn(s, UpdateCount(p), AfterUpdateCount(s, p).finishes)
  {
    UpdateCountFinishes(s, p);
    hide AfterUpdateCount;
    hide Framed;
  }

  lemma MoveTakePending(s: State, p: nat, now: Time)
    ensures AllMovedOn(s, TakePending(p), AfterTakePending(s, p, now).finishes)
  {
    hide Taken;
    hide Framed;
  }

  lemma MoveIssue(s: State, p: nat, random: Option<string>, now: Time)
    ensures AllMovedOn(s, IssueCode(p, random), AfterIssueCode(s, p, random, now).finishes)
  {
    hide Framed;
  }

  lemma MoveStep(cfg: Config, s: State, e: Event)
    ensures AllMovedOn(s, e.step, Next(cfg, s, e).finishes)
  {
    StepFrame(cfg, s, e);
    hide AfterRegister;
    hide AfterAddCredential;
    hide AfterStartExchange;
    hide AfterAuthorize;
    hide AfterBegin;
    hide AfterTakeChallenge;
    hide AfterGetCredential;
    hide AfterAskGuard;
    hide AfterUpdateCount;
    hide AfterTakePending;
    hide AfterIssueCode;
    hide AfterRedeemCode;
    hide AfterCheckPkce;
    hide AfterCheckProof;
    hide AfterMintToken;
    match e.step
    case StartFinish(p, req) =>
    case TakeChallenge(p) => MoveTakeChallenge(s, p, e.now);
    case GetCredential(p) => MoveGet(s, p);
    case AskGuard(p, reachable, signed) => MoveAsk(cfg, s, p, reachable, signed);
    case UpdateCount(p) => MoveUpdate(s, p);
    case TakePending(p) => MoveTakePending(s, p, e.now);
    case IssueCode(p, random) => MoveIssue(s, p, random, e.now);
    case _ =>
  }

  function Identity(c: Credential): Credential
  {
    c.(signCount := 0)
  }

  /** The identities registered by the first n steps. */
  ghost function Added(run: seq<Event>, n: nat): set<Credential>
    requires n <= |run|
  {
    if n == 0 then {} else MoreKnown(Added(run, n - 1), run[n - 1])
  }

  ghost function MoreKnown(known: set<Credential>, e: Event): set<Credential>
  {
    if e.step.AddCredential? then known + {Identity(e.step.cred)} else known
  }

  lemma {:induction false} AddedByStep(run: seq<Event>, n: nat, c: Credential) returns (i: nat)
    requires n <= |run| && c in Added(run, n)
    ensures i < n && AddedBy(run[i], c)
  {
    if c in Added(run, n - 1) {
      i := AddedByStep(run, n - 1, c);
    } else {
      i := n - 1;
    }
  }

  ghost predicate AddedBy(e: Event, c: Credential)
  {
    e.step.AddCredential? && Identity(e.step.cred) == c
  }

  ghost predicate CredsKnown(creds: map<string, Credential>, known: set<Credential>)
  {
    forall id | id in creds :: creds[id].id == id && Identity(creds[id]) in known
  }

  ghost predicate CarriersKnown(finishes: map<nat, Finish>, known: set<Credential>)
  {
    forall p | p in finishes && Carries(finishes[p]) :: Identity(finishes[p].cred) in known
  }

  ghost predicate JudgedKnown(judged: seq<Judgement>, known: set<Credential>)
  {
    forall j | 0 <= j < |judged| :: Identity(judged[j].cred) in known
  }

  ghost predicate Known(s: State, known: set<Credential>)
  {
    CredsKnown(s.creds, known) && CarriersKnown(s.finishes, known) && JudgedKnown(s.h.judged, known)
  }

  /** The credential table after any step. */
  lemma CredsChange(cfg: Config, s: State, e: Event)
    ensures Next(cfg, s, e).creds
         == if e.step.AddCredential? then s.creds[e.step.cred.id := e.step.cred]
            else if e.step.UpdateCount? then AfterUpdateCount(s, e.step.p).creds
            else s.creds
  {
    StepFrame(cfg, s, e);
    hide AfterUpdateCount;
    if !e.step.AddCredential? && !e.step.UpdateCount? {
      hide Next;
    }
  }

  lemma UpdateCountCreds(s: State, p: nat)
    ensures AfterUpdateCount(s, p).creds
         == if p in s.finishes && s.finishes[p].Verified? && s.finishes[p].count != 0
            then WithSignCount(s.creds, s.finishes[p].cred.id, s.finishes[p].count) else s.creds
  {
    hide WithSignCount;
    hide CountsOf;
  }

  lemma KnownStep(cfg: Config, s: State, e: Event, known: set<Credential>)
    requires Known(s, known)
    ensures Known(Next(cfg, s, e), MoreKnown(known, e))
  {
    hide Next;
    hide AfterUpdateCount;
    CredsChange(cfg, s, e);
    if e.step.UpdateCount? {
      UpdateCountCreds(s, e.step.p);
    }
    MoveStep(cfg, s, e);
    JudgedChange(cfg, s, e);
    if Next(cfg, s, e).h.judged != s.h.judged {
      assert Identity(s.finishes[e.step.p].cred) in known;
    }
  }

  lemma {:induction false} EverythingKnown(cfg: Config, run: seq<Event>, n: nat)
    requires n <= |run|
    ensures Known(StateAt(cfg, run, n), Added(run, n))
  {
    hide Next;
    hide Known;
    hide MoreKnown;
    if n == 0 {
      NobodyKnown();
    } else {
      EverythingKnown(cfg, run, n - 1);
      KnownStep(cfg, StateAt(cfg, run, n - 1), run[n - 1], Added(run, n - 1));
    }
  }

  lemma NobodyKnown()
    ensures Known(INITIAL, {})
  {
  }

  /** Whatever credential the Guard judged, someone had registered: same key, same
      subject, same tenant. */
  lemma JudgedCredentialsWereAdded(cfg: Config, run: seq<Event>, n: nat, j: nat)
    requires n <= |run| && j < |StateAt(cfg, run, n).h.judged|
    ensures exists i: nat | i < n :: AddedBy(run[i], Identity(StateAt(cfg, run, n).h.judged[j].cred))
  {
    EverythingKnown(cfg, run, n);
    hide Next;
    var i := AddedByStep(run, n, Identity(StateAt(cfg, run, n).h.judged[j].cred));
  }

  // ------------------------------------------------------- clone detection

  ghost predicate Keyed(creds: map<string, Credential>)
  {
    forall id | id in creds :: creds[id].id == id
  }

  lemma TableIsKeyed(cfg: Config, run: seq<Event>, n: nat)
    requires n <= |run|
    ensures Keyed(StateAt(cfg, run, n).creds)
  {
    EverythingKnown(cfg, run, n);
    hide StateAt;
    hide CarriersKnown;
    hide JudgedKnown;
  }

  ghost predicate Increasing(counts: seq<nat>)
  {
    forall i, j | 0 <= i < j < |counts| :: counts[i] < counts[j]
  }

  ghost function Last(counts: seq<nat>): nat
    requires |counts| > 0
  {
    counts[|counts| - 1]
  }

  lemma IncreasingSoFar(log: seq<nat>, count: nat)
    requires |log| > 0
    ensures Increasing(log + [count]) <==> Increasing(log) && Last(log) < count
  {
    var more := log + [count];
    if Increasing(more) {
      assert forall i | 0 <= i < |log| :: more[i] == log[i];
      assert more[|log| - 1] < more[|log|];
    }
  }

  /** The registered counter, then every nonzero one accepted since. */
  ghost function Log(h: History, id: string, registered: nat): (log: seq<nat>)
    ensures |log| > 0
  {
    [registered] + CountsOf(h, id)
  }

  ghost predicate StoredIsLast(s: State, id: string, registered: nat)
  {
    id in s.creds && s.creds[id].signCount == Last(Log(s.h, id, registered))
  }

  /** Call p is about to write a nonzero counter of the credential back. */
  ghost predicate WritesBack(s: State, e: Event, p: nat, id: string)
  {
    && e.step == UpdateCount(p) && p in s.finishes && s.finishes[p].Verified?
    && s.finishes[p].cred.id == id && s.finishes[p].count != 0
  }

  /** The guard a caller could check before it writes: the counter is ahead of the
      stored one as it now is, not as it was looked up. */
  ghost predicate WritesAhead(s: State, e: Event, id: string)
  {
    forall p | WritesBack(s, e, p, id) :: id in s.creds && s.creds[id].signCount < s.finishes[p].count
  }

  /** What a step makes of the stored counter and the log. */
  lemma CountsChange(cfg: Config, s: State, e: Event, id: string)
    requires Keyed(s.creds) && id in s.creds && (e.step.AddCredential? ==> e.step.cred.id != id)
    ensures var s' := Next(cfg, s, e);
      && id in s'.creds
      && (e.step.UpdateCount? && WritesBack(s, e, e.step.p, id) ==>
            && CountsOf(s'.h, id) == CountsOf(s.h, id) + [s.finishes[e.step.p].count]
            && s'.creds[id].signCount == s.finishes[e.step.p].count)
      && (!(e.step.UpdateCount? && WritesBack(s, e, e.step.p, id)) ==>
            CountsOf(s'.h, id) == CountsOf(s.h, id) && s'.creds[id] == s.creds[id])
  {
    StepFrame(cfg, s, e);
    CredsChange(cfg, s, e);
    if e.step.UpdateCount? {
      UpdateCountCreds(s, e.step.p);
      UpdateCountCounts(s, e.step.p);
      assert Next(cfg, s, e) == AfterUpdateCount(s, e.step.p) by { hide AfterUpdateCount; }
    }
    hide Next;
    hide AfterUpdateCount;
  }

  lemma UpdateCountCounts(s: State, p: nat)
    ensures AfterUpdateCount(s, p).h.counts
         == if p in s.finishes && s.finishes[p].Verified? && s.finishes[p].count != 0
            then s.h.counts[s.finishes[p].cred.id := CountsOf(s.h, s.finishes[p].cred.id) + [s.finishes[p].count]] else s.h.counts
  {
    hide WithSignCount;
    hide CountsOf;
  }

  /** Whatever the step, the stored counter stays the last one accepted, and the log
      keeps growing exactly if the step writes ahead. */
  lemma LogStep(cfg: Config, s: State, e: Event, id: string, registered: nat)
    requires StoredIsLast(s, id, registered) && Keyed(s.creds) && (e.step.AddCredential? ==> e.step.cred.id != id)
    ensures StoredIsLast(Next(cfg, s, e), id, registered)
    ensures Increasing(Log(Next(cfg, s, e).h, id, registered)) <==> Increasing(Log(s.h, id, registered)) && WritesAhead(s, e, id)
  {
    CountsChange(cfg, s, e, id);
    hide Next;
    hide Increasing;
    if e.step.UpdateCount? && WritesBack(s, e, e.step.p, id) {
      var count := s.finishes[e.step.p].count;
      IncreasingSoFar(Log(s.h, id, registered), count);
      assert Log(Next(cfg, s, e).h, id, registered) == Log(s.h, id, registered) + [count];
    }
  }

  /** Before its registration nothing is known of the credential. */
  ghost predicate Untouched(s: State, id: string)
  {
    id !in s.creds && id !in s.h.counts && forall p | p in s.finishes && Carries(s.finishes[p]) :: s.finishes[p].cred.id != id
  }

  lemma UntouchedStep(cfg: Config, s: State, e: Event, id: string)
    requires Untouched(s, id) && Keyed(s.creds) && (e.step.AddCredential? ==> e.step.cred.id != id)
    ensures Untouched(Next(cfg, s, e), id)
  {
    StepFrame(cfg, s, e);
    CredsChange(cfg, s, e);
    MoveStep(cfg, s, e);
    if e.step.UpdateCount? {
      UpdateCountCreds(s, e.step.p);
      UpdateCountCounts(s, e.step.p);
      assert Next(cfg, s, e) == AfterUpdateCount(s, e.step.p) by { hide AfterUpdateCount; }
    }
    hide Next;
    hide AfterUpdateCount;
    UntouchedCarriers(s, e.step, Next(cfg, s, e).finishes, id);
    hide AllMovedOn;
    hide Carries;
  }

  lemma UntouchedCarriers(s: State, step: Step, finishes': map<nat, Finish>, id: string)
    requires Untouched(s, id) && Keyed(s.creds) && AllMovedOn(s, step, finishes')
    ensures forall p | p in finishes' && Carries(finishes'[p]) :: finishes'[p].cred.id != id
  {
    forall p | p in finishes' && Carries(finishes'[p]) ensures finishes'[p].cred.id != id {
      assert MovedOn(s, step, p, finishes'[p]);
    }
  }

  lemma RegisteredNow(cfg: Config, s: State, e: Event)
    requires e.step.AddCredential? && Untouched(s, e.step.cred.id)
    ensures StoredIsLast(Next(cfg, s, e), e.step.cred.id, e.step.cred.signCount)
    ensures Log(Next(cfg, s, e).h, e.step.cred.id, e.step.cred.signCount) == [e.step.cred.signCount]
  {
  }

  /** Only step a registers the credential. */
  ghost predicate AddedOnce(run: seq<Event>, a: nat, id: string)
  {
    && a < |run| && run[a].step.AddCredential? && run[a].step.cred.id == id
    && forall i: nat | i < |run| && run[i].step.AddCredential? && run[i].step.cred.id == id :: i == a
  }

  lemma {:induction false} UntouchedBefore(cfg: Config, run: seq<Event>, a: nat, id: string, n: nat)
    requires AddedOnce(run, a, id) && n <= a
    ensures Untouched(StateAt(cfg, run, n), id)
  {
    hide Next;
    hide Untouched;
    hide Keyed;
    if n == 0 {
      UntouchedAtFirst(id);
    } else {
      var e := run[n - 1];
      assert e.step.AddCredential? ==> e.step.cred.id != id;
      hide AddedOnce;
      UntouchedBefore(cfg, run, a, id, n - 1);
      TableIsKeyed(cfg, run, n - 1);
      UntouchedStep(cfg, StateAt(cfg, run, n - 1), e, id);
    }
  }

  lemma UntouchedAtFirst(id: string)
    ensures Untouched(INITIAL, id)
  {
  }

  /** Every nonzero counter written back between the registration and step n is ahead
      of the stored one at that moment. */
  ghost predicate AlwaysAhead(cfg: Config, run: seq<Event>, a: nat, id: string, n: nat)
    requires n <= |run|
  {
    forall m | a < m < n :: WritesAhead(StateAt(cfg, run, m), run[m], id)
  }

  /** Whatever the calls do, and however they overlap: the stored counter is the
      registered one or the last accepted since; and the accepted ones strictly increase
      if and only if each was ahead of the stored counter when it was written. */
  lemma {:induction false} CountsIncreaseIffAhead(cfg: Config, run: seq<Event>, a: nat, id: string, n: nat)
    requires AddedOnce(run, a, id) && a < n <= |run|
    ensures StoredIsLast(StateAt(cfg, run, n), id, run[a].step.cred.signCount)
    ensures Increasing(Log(StateAt(cfg, run, n).h, id, run[a].step.cred.signCount)) <==> AlwaysAhead(cfg, run, a, id, n)
    decreases n
  {
    hide Next;
    hide StoredIsLast;
    hide Untouched;
    hide Keyed;
    hide WritesAhead;
    hide Log;
    var s, registered := StateAt(cfg, run, n - 1), run[a].step.cred.signCount;
    if n - 1 == a {
      UntouchedBefore(cfg, run, a, id, a);
      RegisteredNow(cfg, s, run[a]);
    } else {
      CountsIncreaseIffAhead(cfg, run, a, id, n - 1);
      TableIsKeyed(cfg, run, n - 1);
      assert run[n - 1].step.AddCredential? ==> run[n - 1].step.cred.id != id;
      hide AddedOnce;
      hide Increasing;
      LogStep(cfg, s, run[n - 1], id, registered);
    }
  }

  /** Between looking the credential up and writing its counter back. */
  ghost predicate Holds(s: State, p: nat, id: string)
  {
    p in s.finishes && (s.finishes[p].Identified? || s.finishes[p].Verified?) && s.finishes[p].cred.id == id
  }

  /** Call p looked its credential up at step g and has held it since. */
  ghost predicate HeldSince(cfg: Config, run: seq<Event>, p: nat, id: string, g: nat, n: nat)
    requires g < n <= |run|
  {
    && run[g].step == GetCredential(p)
    && (forall m | g < m <= n :: Holds(StateAt(cfg, run, m), p, id))
    && id in StateAt(cfg, run, g).creds
    && StateAt(cfg, run, n).finishes[p].cred == StateAt(cfg, run, g).creds[id]
  }

  /** A call that holds a credential looked it up, and a counter it had verified is zero
      or ahead of the one it found. */
  lemma {:induction false} LookedUp(cfg: Config, run: seq<Event>, p: nat, id: string, n: nat) returns (g: nat)
    requires n <= |run| && Holds(StateAt(cfg, run, n), p, id)
    ensures g < n && HeldSince(cfg, run, p, id, g, n)
    ensures var f := StateAt(cfg, run, n).finishes[p]; f.Verified? ==> f.count == 0 || f.count > f.cred.signCount
    decreases n
  {
    hide Next;
    var s, e := StateAt(cfg, run, n - 1), run[n - 1];
    var f := StateAt(cfg, run, n).finishes[p];
    MoveStep(cfg, s, e);
    assert MovedOn(s, e.step, p, f);
    hide AllMovedOn;
    TableIsKeyed(cfg, run, n - 1);
    if Holds(s, p, id) && s.finishes[p].cred == f.cred {
      g := LookedUp(cfg, run, p, id, n - 1);
    } else {
      g := n - 1;
    }
  }

  lemma {:induction false} StoredUnwritten(cfg: Config, run: seq<Event>, a: nat, id: string, g: nat, n: nat)
    requires AddedOnce(run, a, id) && a < g <= n <= |run| && id in StateAt(cfg, run, g).creds
    requires forall m, p | g <= m < n :: !WritesBack(StateAt(cfg, run, m), run[m], p, id)
    ensures id in StateAt(cfg, run, n).creds && StateAt(cfg, run, n).creds[id] == StateAt(cfg, run, g).creds[id]
    decreases n
  {
    hide Next;
    if g < n {
      StoredUnwritten(cfg, run, a, id, g, n - 1);
      TableIsKeyed(cfg, run, n - 1);
      hide Keyed;
      CountsChange(cfg, StateAt(cfg, run, n - 1), run[n - 1], id);
    }
  }

  /** No call writes a nonzero counter back while another holds the credential that
      will itself write one. */
  ghost predicate WritesApart(cfg: Config, run: seq<Event>, id: string)
  {
    forall w, m, p, q | 0 <= w < m < |run| && p != q
        && WritesBack(StateAt(cfg, run, w), run[w], q, id) && WritesBack(StateAt(cfg, run, m), run[m], p, id) ::
      !Holds(StateAt(cfg, run, w), p, id)
  }

  /** A call that holds its credential from step g to step m, when it writes it back,
      finds it as it was. */
  lemma WritesApartIsAhead(cfg: Config, run: seq<Event>, a: nat, id: string, m: nat, p: nat)
    requires AddedOnce(run, a, id) && WritesApart(cfg, run, id) && m < |run|
    requires WritesBack(StateAt(cfg, run, m), run[m], p, id)
    ensures id in StateAt(cfg, run, m).creds && StateAt(cfg, run, m).creds[id].signCount < StateAt(cfg, run, m).finishes[p].count
  {
    hide Next;
    var g := LookedUp(cfg, run, p, id, m);
    if g <= a {
      UntouchedBefore(cfg, run, a, id, g);
    }
    forall w, q | g <= w < m ensures !WritesBack(StateAt(cfg, run, w), run[w], q, id) {
      if w > g {
        assert Holds(StateAt(cfg, run, w), p, id) && Holds(StateAt(cfg, run, w + 1), p, id);
        if WritesBack(StateAt(cfg, run, w), run[w], q, id) {
          WriterLetsGo(cfg, StateAt(cfg, run, w), run[w], q, id);
        }
      }
    }
    hide WritesApart;
    StoredUnwritten(cfg, run, a, id, g, m);
  }

  lemma WriterLetsGo(cfg: Config, s: State, e: Event, p: nat, id: string)
    requires WritesBack(s, e, p, id)
    ensures !Holds(Next(cfg, s, e), p, id)
  {
    UpdateCountFinishes(s, p);
    assert Next(cfg, s, e) == AfterUpdateCount(s, p) by { hide AfterUpdateCount; }
    hide Next;
    hide AfterUpdateCount;
  }

  /** Clone detection (section 7.2 of W3C WebAuthn Level 2): when no call writes its
      counter back while another holds the credential that will write one too, the
      accepted nonzero counters strictly increase from the registered one, and the
      stored value is always the last of them. Calls the Guard rejects, or that carry no
      counter, may overlap as they like. */
  lemma CloneDetection(cfg: Config, run: seq<Event>, a: nat, id: string, n: nat)
    requires AddedOnce(run, a, id) && WritesApart(cfg, run, id) && a < n <= |run|
    ensures StoredIsLast(StateAt(cfg, run, n), id, run[a].step.cred.signCount)
    ensures Increasing(Log(StateAt(cfg, run, n).h, id, run[a].step.cred.signCount))
  {
    hide Next;
    CountsIncreaseIffAhead(cfg, run, a, id, n);
    forall m | a < m < n ensures WritesAhead(StateAt(cfg, run, m), run[m], id) {
      forall p | WritesBack(StateAt(cfg, run, m), run[m], p, id)
        ensures id in StateAt(cfg, run, m).creds && StateAt(cfg, run, m).creds[id].signCount < StateAt(cfg, run, m).finishes[p].count
      {
        WritesApartIsAhead(cfg, run, a, id, m, p);
      }
    }
    hide WritesApart;
    hide AddedOnce;
    hide WritesBack;
  }

  /** Calls that do not overlap at all are such calls. */
  lemma NoOverlapKeepsWritesApart(cfg: Config, run: seq<Event>, id: string)
    requires forall n, p, q | 0 <= n < |run| && Holds(StateAt(cfg, run, n), p, id) && Holds(StateAt(cfg, run, n), q, id) :: p == q
    ensures WritesApart(cfg, run, id)
  {
    hide StateAt;
    forall w, m, p, q | 0 <= w < m < |run| && p != q
        && WritesBack(StateAt(cfg, run, w), run[w], q, id) && WritesBack(StateAt(cfg, run, m), run[m], p, id)
      ensures !Holds(StateAt(cfg, run, w), p, id)
    {
      assert Holds(StateAt(cfg, run, w), q, id);
    }
  }
}
