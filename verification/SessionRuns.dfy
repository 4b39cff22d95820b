/** Tokens minted, revoked and presented over whole runs of one server. */
module SessionRuns {
  import opened Common
  import Dpop
  import DpopRaces
  import Revocations
  import Sessions
  import Tokens

  /** `max` bounds the replay cache; `sql` chooses the revocation store. */
  datatype Config = Config(sessions: Sessions.Config, tokenUri: Option<Dpop.Uri>, max: nat, sql: bool)

  /** At the token endpoint: a proof is judged, and later a token is minted, bound to the
      key of an accepted proof or, on a server without DPoP, to none. Then a request to a
      protected route, and a revocation. */
  datatype Step =
    | Prove(proof: Dpop.Proof)
    | Mint(subject: string, tenant: string, scope: string, attempt: Option<nat>, random: Option<string>)
    | Request(r: Sessions.Request, dbFailed: bool)
    | Revoke(op: Revocations.Op)

  /** A step takes effect at an instant, under the lock it needs; a step that judges a
      token or a proof read its clock before. `proofs` is all that clients' keys had
      signed by then. */
  datatype Event = Event(step: Step, proofs: set<Dpop.Signed>, read: Time, at: Time)

  /** A minted token, and the proof shown for it, by its place among the attempts. */
  datatype Issued = Issued(claims: Tokens.Claims, attempt: Option<nat>)

  datatype Pass = Pass(r: Sessions.Request, claims: Tokens.Claims, attempt: nat, at: Time)

  /** The stores, and the record of attempts, revocations, tokens and passes. */
  datatype State = State(
    items: map<string, Time>,
    memory: Revocations.Memory,
    tables: Revocations.Tables,
    attempts: seq<Dpop.Attempt>,
    revocations: seq<Revocations.Event>,
    issued: seq<Issued>,
    passes: seq<Pass>)

  const INITIAL: State := State(map[], Revocations.Memory(map[], map[], map[]), Revocations.Tables(map[], map[]), [], [], [], [])

  /** All the signing key ever signed. */
  function Ledger(issued: seq<Issued>): set<Tokens.Claims>
  {
    set i | 0 <= i < |issued| :: issued[i].claims
  }

  function MintAttempt(cfg: Config, e: Event): Dpop.Attempt
    requires e.step.Prove?
  {
    Dpop.Attempt(e.proofs, e.step.proof, Dpop.AtTokenEndpoint(cfg.tokenUri), e.read, e.at)
  }

  function AfterProve(cfg: Config, s: State, e: Event): (s': State)
    requires e.step.Prove?
    ensures s' == s.(items := s'.items, attempts := s.attempts + [MintAttempt(cfg, e)])
  {
    var a := MintAttempt(cfg, e);
    s.(items := Dpop.AfterJudge(a.signed, s.items, cfg.max, a.proof, a.target, a.now, a.sweepAt), attempts := s.attempts + [a])
  }

  /** Attempt k was an accepted proof at the token endpoint. */
  ghost predicate Mintable(cfg: Config, attempts: seq<Dpop.Attempt>, k: nat)
  {
    k < |attempts| && attempts[k].target.token == "" && Dpop.AcceptedAt(cfg.max, attempts, k)
  }

  ghost function Confirm(cfg: Config, attempts: seq<Dpop.Attempt>, attempt: Option<nat>): Option<Tokens.HashText<Tokens.Key>>
    requires attempt.Some? ==> Mintable(cfg, attempts, attempt.value)
  {
    if attempt.None? then None else Some(Dpop.OutcomeOf(cfg.max, attempts, attempt.value).thumbprint)
  }

  ghost function AfterMint(cfg: Config, s: State, e: Event): (s': State)
    requires e.step.Mint?
    ensures s' == s.(issued := s'.issued) && s.issued <= s'.issued
  {
    var Mint(subject, tenant, scope, attempt, random) := e.step;
    if random.None? || (attempt.Some? && !Mintable(cfg, s.attempts, attempt.value)) then s
    else
      s.(issued := s.issued + [Issued(Tokens.AccessClaims(cfg.sessions.issuer, cfg.sessions.audience, subject, tenant, scope,
                                        Confirm(cfg, s.attempts, attempt), e.at, random.value), attempt)])
  }

  predicate RefusedNow(cfg: Config, s: State, c: Tokens.Claims, dbFailed: bool)
  {
    if cfg.sql then dbFailed || Revocations.TablesRefuse(s.tables, c.jti, c.tenantId, c.subject, c.issuedAt * SECOND)
    else Revocations.MemoryRefuses(s.memory, c.jti, c.tenantId, c.subject, c.issuedAt * SECOND)
  }

  function PresentedNow(cfg: Config, s: State, e: Event): Sessions.Answer
    requires e.step.Request?
  {
    Sessions.Presented(Ledger(s.issued), cfg.sessions, e.step.r, e.read)
  }

  function AttemptNow(cfg: Config, s: State, e: Event): Option<Dpop.Attempt>
    requires e.step.Request?
  {
    Sessions.AttemptOf(Ledger(s.issued), e.proofs, cfg.sessions, e.step.r, e.read, e.at)
  }

  function AnswerNow(cfg: Config, s: State, e: Event): Sessions.Answer
    requires e.step.Request?
  {
    var presented := PresentedNow(cfg, s, e);
    Sessions.Answered(presented, Sessions.Outcome(AttemptNow(cfg, s, e), s.items, cfg.max),
                      presented.Served? && RefusedNow(cfg, s, presented.claims, e.step.dbFailed))
  }

  function AfterRequest(cfg: Config, s: State, e: Event): (s': State)
    requires e.step.Request?
    ensures s' == s.(items := s'.items, attempts := s'.attempts, passes := s'.passes)
  {
    var a, answer := AttemptNow(cfg, s, e), AnswerNow(cfg, s, e);
    s.(items := Sessions.AfterAttempt(a, s.items, cfg.max),
       attempts := s.attempts + (if a.Some? then [a.value] else []),
       passes := s.passes + (if answer.Served? then [Pass(e.step.r, answer.claims, |s.attempts|, e.read)] else []))
  }

  function AfterRevoke(s: State, e: Event): (s': State)
    requires e.step.Revoke?
    ensures s' == s.(memory := s'.memory, tables := s'.tables, revocations := s'.revocations)
  {
    var revocation := Revocations.Event(e.step.op, e.at);
    s.(memory := Revocations.MemoryNext(s.memory, revocation), tables := Revocations.TablesNext(s.tables, revocation),
       revocations := s.revocations + [revocation])
  }

  ghost function Next(cfg: Config, s: State, e: Event): State
  {
    match e.step
    case Prove(_) => AfterProve(cfg, s, e)
    case Mint(_, _, _, _, _) => AfterMint(cfg, s, e)
    case Request(_, _) => AfterRequest(cfg, s, e)
    case Revoke(_) => AfterRevoke(s, e)
  }

  ghost function StateAt(cfg: Config, run: seq<Event>, n: nat): State
    requires n <= |run|
  {
    if n == 0 then INITIAL else Next(cfg, StateAt(cfg, run, n - 1), run[n - 1])
  }

  /** Steps in the order in which they take effect, under one clock that never runs back.
      They may overlap before that: a clock reading may be older than earlier steps. */
  ghost predicate ValidRun(run: seq<Event>)
  {
    && (forall i | 0 <= i < |run| :: run[i].read <= run[i].at)
    && forall i, j | 0 <= i <= j < |run| :: run[i].at <= run[j].at
  }

  /** No step reads its clock before an earlier one has taken effect. */
  ghost predicate Apart(run: seq<Event>)
  {
    forall i, j | 0 <= i < j < |run| :: run[i].at <= run[j].read
  }

  // ------------------------------------------- the stores and their records

  lemma {:induction false} ItemsOfPrefix(max: nat, attempts: seq<Dpop.Attempt>, a: Dpop.Attempt, n: nat)
    requires n <= |attempts|
    ensures Dpop.ItemsAt(max, attempts + [a], n) == Dpop.ItemsAt(max, attempts, n)
  {
    if n > 0 {
      ItemsOfPrefix(max, attempts, a, n - 1);
    }
  }

  ghost predicate AttemptsOk(cfg: Config, s: State, t: Time)
  {
    && s.items == Dpop.ItemsAt(cfg.max, s.attempts, |s.attempts|)
    && Dpop.LockOrdered(s.attempts) && forall i | 0 <= i < |s.attempts| :: s.attempts[i].sweepAt <= t
  }

  /** One more attempt on the verifier: the cache moves on, earlier verdicts stand. */
  lemma OneMoreAttempt(cfg: Config, s: State, s': State, a: Dpop.Attempt, t: Time)
    requires AttemptsOk(cfg, s, t) && t <= a.sweepAt && a.now <= a.sweepAt && s'.attempts == s.attempts + [a]
    requires s'.items == Dpop.AfterJudge(a.signed, s.items, cfg.max, a.proof, a.target, a.now, a.sweepAt)
    ensures AttemptsOk(cfg, s', a.sweepAt)
    ensures forall i: nat | i < |s.attempts| :: Dpop.OutcomeOf(cfg.max, s'.attempts, i) == Dpop.OutcomeOf(cfg.max, s.attempts, i)
    ensures Dpop.OutcomeOf(cfg.max, s'.attempts, |s.attempts|)
         == Dpop.Judge(a.signed, s.items, cfg.max, a.proof, a.target, a.now, a.sweepAt)
  {
    hide Dpop.AfterJudge;
    hide Dpop.Judge;
    forall i: nat | i <= |s.attempts|
      ensures Dpop.ItemsAt(cfg.max, s'.attempts, i) == Dpop.ItemsAt(cfg.max, s.attempts, i)
    {
      ItemsOfPrefix(cfg.max, s.attempts, a, i);
    }
  }

  /** Later attempts leave earlier ones and their outcomes alone. */
  ghost predicate Extends(max: nat, attempts: seq<Dpop.Attempt>, attempts': seq<Dpop.Attempt>)
  {
    && attempts <= attempts'
    && forall i: nat | i < |attempts| :: Dpop.OutcomeOf(max, attempts', i) == Dpop.OutcomeOf(max, attempts, i)
  }

  lemma OutcomesStand(max: nat, attempts: seq<Dpop.Attempt>, a: Dpop.Attempt)
    ensures Extends(max, attempts, attempts + [a])
  {
    hide Dpop.Judge;
    forall i: nat | i < |attempts| ensures Dpop.OutcomeOf(max, attempts + [a], i) == Dpop.OutcomeOf(max, attempts, i) {
      ItemsOfPrefix(max, attempts, a, i);
    }
  }

  lemma StepExtends(cfg: Config, s: State, e: Event)
    ensures Extends(cfg.max, s.attempts, Next(cfg, s, e).attempts)
    ensures !e.step.Mint? ==> Next(cfg, s, e).issued == s.issued
  {
    hide AfterMint;
    hide AnswerNow;
    hide AttemptNow;
    hide Extends;
    hide Dpop.AfterJudge;
    match e.step
    case Prove(_) => OutcomesStand(cfg.max, s.attempts, MintAttempt(cfg, e));
    case Request(_, _) =>
      if AttemptNow(cfg, s, e).Some? {
        OutcomesStand(cfg.max, s.attempts, AttemptNow(cfg, s, e).value);
      } else {
        assert s.attempts + [] == s.attempts;
        NothingExtends(cfg.max, s.attempts);
      }
    case _ => NothingExtends(cfg.max, s.attempts);
  }

  lemma NothingExtends(max: nat, attempts: seq<Dpop.Attempt>)
    ensures Extends(max, attempts, attempts)
  {
    hide Dpop.OutcomeOf;
  }

  ghost function KeyOf(a: Dpop.Attempt): Option<Tokens.Key>
  {
    if a.proof.header.Some? then a.proof.header.value.key else None
  }

  /** A bound token names the key of an accepted proof; an unbound one names none. */
  ghost predicate IssuedOk(cfg: Config, attempts: seq<Dpop.Attempt>, i: Issued)
  {
    if i.attempt.None? then i.claims.confirm.None?
    else
      && i.attempt.value < |attempts| && Dpop.AcceptedAt(cfg.max, attempts, i.attempt.value)
      && attempts[i.attempt.value].target.token == ""
      && KeyOf(attempts[i.attempt.value]).Some?
      && i.claims.confirm == Some(Dpop.Thumbprint(KeyOf(attempts[i.attempt.value]).value))
  }

  ghost predicate AllIssuedOk(cfg: Config, s: State)
  {
    forall i | 0 <= i < |s.issued| :: IssuedOk(cfg, s.attempts, s.issued[i])
  }

  ghost predicate PassOk(cfg: Config, attempts: seq<Dpop.Attempt>, issued: seq<Issued>, p: Pass)
  {
    && p.attempt < |attempts| && Dpop.AcceptedAt(cfg.max, attempts, p.attempt)
    && p.claims in Ledger(issued) && p.r.decoded.claims == Some(p.claims)
    && p.claims.issuer == cfg.sessions.issuer && (cfg.sessions.audience == "" || p.claims.audience == cfg.sessions.audience)
    && p.claims.notBefore * SECOND - Tokens.LEEWAY <= p.at <= p.claims.expiresAt * SECOND + Tokens.LEEWAY
    && Sessions.DpopToken(p.r.authorization).Some? && p.claims.confirm.Some? && p.r.proof.Some?
    && attempts[p.attempt].proof == p.r.proof.value && attempts[p.attempt].target == Sessions.TargetOf(p.r, p.claims)
    && attempts[p.attempt].now == p.at
  }

  ghost predicate AllPassesOk(cfg: Config, s: State)
  {
    && (forall k | 0 <= k < |s.passes| :: PassOk(cfg, s.attempts, s.issued, s.passes[k]))
    && forall k, l | 0 <= k < l < |s.passes| :: s.passes[k].attempt != s.passes[l].attempt
  }

  ghost predicate RevocationsOk(s: State, t: Time)
  {
    && s.memory == Revocations.MemoryAt(s.revocations, |s.revocations|)
    && s.tables == Revocations.TablesAt(s.revocations, |s.revocations|)
    && Revocations.Ordered(s.revocations) && forall i | 0 <= i < |s.revocations| :: s.revocations[i].now <= t
  }

  ghost predicate Inv(cfg: Config, s: State, t: Time)
  {
    AttemptsOk(cfg, s, t) && AllIssuedOk(cfg, s) && AllPassesOk(cfg, s) && RevocationsOk(s, t)
  }

  lemma {:induction false} StoresOfPrefix(revocations: seq<Revocations.Event>, r: Revocations.Event, n: nat)
    requires n <= |revocations|
    ensures Revocations.MemoryAt(revocations + [r], n) == Revocations.MemoryAt(revocations, n)
    ensures Revocations.TablesAt(revocations + [r], n) == Revocations.TablesAt(revocations, n)
  {
    hide Revocations.MemoryNext;
    hide Revocations.TablesNext;
    if n > 0 {
      StoresOfPrefix(revocations, r, n - 1);
    }
  }

  lemma RevokeKeeps(cfg: Config, s: State, e: Event, t: Time)
    requires Inv(cfg, s, t) && t <= e.at && e.read <= e.at && e.step.Revoke?
    ensures Inv(cfg, AfterRevoke(s, e), e.at)
  {
    StoresOfPrefix(s.revocations, Revocations.Event(e.step.op, e.at), |s.revocations|);
    hide Revocations.MemoryNext;
    hide Revocations.TablesNext;
    hide IssuedOk;
    hide PassOk;
    hide Dpop.LockOrdered;
  }

  /** Earlier records stand when attempts and tokens are added. */
  lemma RecordsStand(cfg: Config, s: State, s': State, a: Dpop.Attempt)
    requires AllIssuedOk(cfg, s) && AllPassesOk(cfg, s) && s'.attempts == s.attempts + [a] && s.issued <= s'.issued
    requires forall i: nat | i < |s.attempts| :: Dpop.OutcomeOf(cfg.max, s'.attempts, i) == Dpop.OutcomeOf(cfg.max, s.attempts, i)
    ensures forall i | 0 <= i < |s.issued| :: IssuedOk(cfg, s'.attempts, s.issued[i])
    ensures forall k | 0 <= k < |s.passes| :: PassOk(cfg, s'.attempts, s'.issued, s.passes[k])
  {
    hide Dpop.OutcomeOf;
    LedgerGrows(s.issued, s'.issued);
    forall i | 0 <= i < |s.issued| ensures IssuedOk(cfg, s'.attempts, s.issued[i]) {
      assert IssuedOk(cfg, s.attempts, s.issued[i]);
    }
    forall k | 0 <= k < |s.passes| ensures PassOk(cfg, s'.attempts, s'.issued, s.passes[k]) {
      assert PassOk(cfg, s.attempts, s.issued, s.passes[k]);
      hide Ledger;
    }
  }

  lemma LedgerGrows(issued: seq<Issued>, issued': seq<Issued>)
    requires issued <= issued'
    ensures Ledger(issued) <= Ledger(issued')
  {
    forall c | c in Ledger(issued) ensures c in Ledger(issued') {
      var i :| 0 <= i < |issued| && issued[i].claims == c;
      assert issued'[i].claims == c;
    }
  }

  lemma MintKeeps(cfg: Config, s: State, e: Event, t: Time)
    requires Inv(cfg, s, t) && t <= e.at && e.step.Mint?
    ensures Inv(cfg, AfterMint(cfg, s, e), e.at)
  {
    var s' := AfterMint(cfg, s, e);
    LedgerGrows(s.issued, s'.issued);
    if s'.issued != s.issued && e.step.attempt.Some? {
      AcceptedNamesKey(cfg.max, s.attempts, e.step.attempt.value);
    }
    forall k | 0 <= k < |s.passes| ensures PassOk(cfg, s.attempts, s'.issued, s.passes[k]) {
      PassStands(cfg, s.attempts, s.issued, s'.issued, s.passes[k]);
    }
    hide Ledger;
    hide PassOk;
    hide Dpop.AcceptedAt;
    hide Dpop.OutcomeOf;
    hide Dpop.LockOrdered;
  }

  lemma PassStands(cfg: Config, attempts: seq<Dpop.Attempt>, issued: seq<Issued>, issued': seq<Issued>, p: Pass)
    requires PassOk(cfg, attempts, issued, p) && Ledger(issued) <= Ledger(issued')
    ensures PassOk(cfg, attempts, issued', p)
  {
    hide Ledger;
    hide Dpop.AcceptedAt;
    hide Sessions.DpopToken;
  }

  /** What an accepted attempt's outcome says of it. */
  lemma AcceptedNamesKey(max: nat, attempts: seq<Dpop.Attempt>, k: nat)
    requires k < |attempts| && Dpop.AcceptedAt(max, attempts, k)
    ensures KeyOf(attempts[k]).Some? && Dpop.OutcomeOf(max, attempts, k).thumbprint == Dpop.Thumbprint(KeyOf(attempts[k]).value)
  {
    var a := attempts[k];
    Dpop.PassesExactly(a.signed, a.proof, a.target, a.now);
    hide Dpop.Check;
  }

  lemma ProveKeeps(cfg: Config, s: State, e: Event, t: Time)
    requires Inv(cfg, s, t) && t <= e.at && e.read <= e.at && e.step.Prove?
    ensures Inv(cfg, AfterProve(cfg, s, e), e.at)
  {
    var s', a := AfterProve(cfg, s, e), MintAttempt(cfg, e);
    OneMoreAttempt(cfg, s, s', a, t);
    RecordsStand(cfg, s, s', a);
    hide Dpop.AfterJudge;
    hide PassOk;
    hide IssuedOk;
    hide Ledger;
    hide Dpop.LockOrdered;
    hide Dpop.OutcomeOf;
  }

  lemma RequestKeeps(cfg: Config, s: State, e: Event, t: Time)
    requires Inv(cfg, s, t) && t <= e.at && e.read <= e.at && e.step.Request?
    ensures Inv(cfg, AfterRequest(cfg, s, e), e.at)
  {
    if AttemptNow(cfg, s, e).Some? {
      AttemptedRequestKeeps(cfg, s, e, t);
    } else {
      assert AfterRequest(cfg, s, e) == s by {
        assert !AnswerNow(cfg, s, e).Served?;
      }
      InvLater(cfg, s, t, e.at);
    }
    hide Inv;
    hide AfterRequest;
  }

  lemma AttemptedRequestKeeps(cfg: Config, s: State, e: Event, t: Time)
    requires Inv(cfg, s, t) && t <= e.at && e.read <= e.at && e.step.Request? && AttemptNow(cfg, s, e).Some?
    ensures Inv(cfg, AfterRequest(cfg, s, e), e.at)
  {
    var s', a := AfterRequest(cfg, s, e), AttemptNow(cfg, s, e).value;
    hide Dpop.AfterJudge;
    hide Dpop.Judge;
    OneMoreAttempt(cfg, s, s', a, t);
    RecordsStand(cfg, s, s', a);
    if AnswerNow(cfg, s, e).Served? {
      ServedIsOk(cfg, s, e, s'.attempts);
      MorePasses(cfg, s, s', a, [Pass(e.step.r, AnswerNow(cfg, s, e).claims, |s.attempts|, e.read)]);
    } else {
      MorePasses(cfg, s, s', a, []);
    }
    hide AttemptNow;
    hide AnswerNow;
    hide AllPassesOk;
    hide IssuedOk;
    hide AttemptsOk;
  }

  lemma MorePasses(cfg: Config, s: State, s': State, a: Dpop.Attempt, more: seq<Pass>)
    requires AllPassesOk(cfg, s) && s'.attempts == s.attempts + [a]
    requires forall k | 0 <= k < |s.passes| :: PassOk(cfg, s'.attempts, s'.issued, s.passes[k])
    requires s'.passes == s.passes + more && |more| <= 1
    requires more != [] ==> more[0].attempt == |s.attempts| && PassOk(cfg, s'.attempts, s'.issued, more[0])
    ensures AllPassesOk(cfg, s')
  {
    hide PassOk;
    forall k | 0 <= k < |s.passes| ensures s.passes[k].attempt < |s.attempts| {
      PassHasAttempt(cfg, s.attempts, s.issued, s.passes[k]);
    }
  }

  lemma PassHasAttempt(cfg: Config, attempts: seq<Dpop.Attempt>, issued: seq<Issued>, p: Pass)
    requires PassOk(cfg, attempts, issued, p)
    ensures p.attempt < |attempts|
  {
  }

  lemma ServedIsOk(cfg: Config, s: State, e: Event, attempts: seq<Dpop.Attempt>)
    requires e.step.Request? && AnswerNow(cfg, s, e).Served?
    requires AttemptNow(cfg, s, e).Some? && attempts == s.attempts + [AttemptNow(cfg, s, e).value]
    requires var a := AttemptNow(cfg, s, e).value;
      Dpop.OutcomeOf(cfg.max, attempts, |s.attempts|) == Dpop.Judge(a.signed, s.items, cfg.max, a.proof, a.target, a.now, a.sweepAt)
    ensures PassOk(cfg, attempts, s.issued, Pass(e.step.r, AnswerNow(cfg, s, e).claims, |s.attempts|, e.read))
  {
    hide Dpop.Judge;
    hide Sessions.Presented;
    hide Sessions.DpopToken;
    hide RefusedNow;
    hide Ledger;
    Sessions.PresentedMeans(Ledger(s.issued), cfg.sessions, e.step.r, e.read);
  }

  lemma InvStep(cfg: Config, s: State, e: Event, t: Time)
    requires Inv(cfg, s, t) && t <= e.at && e.read <= e.at
    ensures Inv(cfg, Next(cfg, s, e), e.at)
  {
    hide Inv;
    hide AfterProve;
    hide AfterMint;
    hide AfterRequest;
    hide AfterRevoke;
    match e.step
    case Prove(_) => ProveKeeps(cfg, s, e, t);
    case Mint(_, _, _, _, _) => MintKeeps(cfg, s, e, t);
    case Request(_, _) => RequestKeeps(cfg, s, e, t);
    case Revoke(_) => RevokeKeeps(cfg, s, e, t);
  }

  lemma {:induction false} InvHolds(cfg: Config, run: seq<Event>, n: nat, t: Time)
    requires ValidRun(run) && n <= |run| && (n > 0 ==> run[n - 1].at <= t)
    ensures Inv(cfg, StateAt(cfg, run, n), t)
  {
    hide Inv;
    hide Next;
    if n > 0 {
      var e := run[n - 1];
      var before := if n > 1 then run[n - 2].at else e.at;
      InvHolds(cfg, run, n - 1, before);
      InvStep(cfg, StateAt(cfg, run, n - 1), e, before);
      InvLater(cfg, StateAt(cfg, run, n), e.at, t);
    } else {
      NothingYet(cfg, t);
    }
  }

  lemma NothingYet(cfg: Config, t: Time)
    ensures Inv(cfg, INITIAL, t)
  {
    assert Dpop.ItemsAt(cfg.max, [], 0) == map[];
  }

  lemma InvLater(cfg: Config, s: State, t: Time, later: Time)
    requires Inv(cfg, s, t) && t <= later
    ensures Inv(cfg, s, later)
  {
    hide AllPassesOk;
    hide AllIssuedOk;
  }

  ghost function LastTime(run: seq<Event>, n: nat): Time
    requires n <= |run|
  {
    if n == 0 then 0 else run[n - 1].at
  }

  // ---------------------------------------------------- sender constraint

  /** The token of pass p is the one of record i, and whoever made the request holds
      the key that was proved when the token was issued. */
  ghost predicate SameHolder(cfg: Config, s: State, p: Pass, i: Issued)
    requires p.attempt < |s.attempts| && (i.attempt.Some? ==> i.attempt.value < |s.attempts|)
  {
    && i.claims == p.claims && p.r.decoded.claims == Some(i.claims)
    && i.attempt.Some?
    && var atIssue, atUse := s.attempts[i.attempt.value], s.attempts[p.attempt];
       && KeyOf(atIssue).Some? && KeyOf(atUse) == KeyOf(atIssue)
       && HeldBy(atIssue, KeyOf(atIssue).value) && HeldBy(atUse, KeyOf(atIssue).value)
       && p.r.proof == Some(atUse.proof)
       && Sessions.DpopToken(p.r.authorization).Some?
       && atUse.proof.payload.value.ath == Tokens.Sha256(Sessions.DpopToken(p.r.authorization).value)
       && Dpop.UpToCase(atUse.proof.payload.value.htm, p.r.method_)
       && atUse.proof.payload.value.htu.Some? && p.r.uri.Some?
       && atUse.proof.payload.value.htu.value.path == p.r.uri.value.path
       && Dpop.UpToCase(atUse.proof.payload.value.htu.value.scheme, p.r.uri.value.scheme)
       && Dpop.UpToCase(atUse.proof.payload.value.htu.value.host, p.r.uri.value.host)
  }

  /** The proof was signed by k, and is fresh. */
  ghost predicate HeldBy(a: Dpop.Attempt, k: Tokens.Key)
  {
    && a.proof.header.Some? && a.proof.payload.Some?
    && Dpop.Signed(k, a.proof.header.value, a.proof.payload.value) in a.signed
    && -60 * SECOND <= a.now - a.proof.payload.value.iat * SECOND <= 60 * SECOND
  }

  lemma AcceptedIsHeld(max: nat, attempts: seq<Dpop.Attempt>, i: nat)
    requires i < |attempts| && Dpop.AcceptedAt(max, attempts, i)
    ensures KeyOf(attempts[i]).Some? && HeldBy(attempts[i], KeyOf(attempts[i]).value)
    ensures var a := attempts[i];
      && Dpop.UpToCase(a.proof.payload.value.htm, a.target.htm) && Dpop.SameAddress(a.proof.payload.value.htu, a.target.uri)
      && (a.target.token != "" ==>
            a.proof.payload.value.ath == Tokens.Sha256(a.target.token) && a.target.jkt == Dpop.Thumbprint(KeyOf(a).value))
  {
    var a := attempts[i];
    assert Dpop.Check(a.signed, a.proof, a.target, a.now) == None;
    Dpop.PassesExactly(a.signed, a.proof, a.target, a.now);
    hide Dpop.Check;
  }

  /** Every request that reaches a protected handler presents a token this server
      issued, inside its window, with a proof bound to the request and signed by the
      key that proved possession when that token was issued. */
  lemma SenderConstraint(cfg: Config, run: seq<Event>, n: nat, k: nat) returns (i: nat)
    requires ValidRun(run) && n <= |run| && k < |StateAt(cfg, run, n).passes|
    ensures var s := StateAt(cfg, run, n); var p := s.passes[k];
      && i < |s.issued| && p.attempt < |s.attempts| && (s.issued[i].attempt.Some? ==> s.issued[i].attempt.value < |s.attempts|)
      && SameHolder(cfg, s, p, s.issued[i])
      && p.claims.issuer == cfg.sessions.issuer && (cfg.sessions.audience == "" || p.claims.audience == cfg.sessions.audience)
      && p.claims.notBefore * SECOND - 30 * SECOND <= p.at <= p.claims.expiresAt * SECOND + 30 * SECOND
  {
    InvHolds(cfg, run, n, LastTime(run, n));
    i := PassTraced(cfg, StateAt(cfg, run, n), k, LastTime(run, n));
    hide *;
  }

  lemma PassTraced(cfg: Config, s: State, k: nat, t: Time) returns (i: nat)
    requires Inv(cfg, s, t) && k < |s.passes|
    ensures var p := s.passes[k];
      && i < |s.issued| && p.attempt < |s.attempts| && (s.issued[i].attempt.Some? ==> s.issued[i].attempt.value < |s.attempts|)
      && SameHolder(cfg, s, p, s.issued[i])
      && p.claims.issuer == cfg.sessions.issuer && (cfg.sessions.audience == "" || p.claims.audience == cfg.sessions.audience)
      && p.claims.notBefore * SECOND - 30 * SECOND <= p.at <= p.claims.expiresAt * SECOND + 30 * SECOND
  {
    hide Sessions.DpopToken;
    hide HeldBy;
    hide Dpop.AcceptedAt;
    hide Dpop.UpToCase;
    var p := s.passes[k];
    assert PassOk(cfg, s.attempts, s.issued, p);
    i := LedgerHas(s.issued, p.claims);
    assert IssuedOk(cfg, s.attempts, s.issued[i]);
    AcceptedIsHeld(cfg.max, s.attempts, p.attempt);
    AcceptedIsHeld(cfg.max, s.attempts, s.issued[i].attempt.value);
    TokenNotEmpty(p.r.authorization);
    hide Inv;
    hide Ledger;
  }

  lemma TokenNotEmpty(header: string)
    ensures Sessions.DpopToken(header).Some? ==> Sessions.DpopToken(header).value != ""
  {
    hide Sessions.TrimLeft;
    hide Sessions.TrimRight;
  }

  lemma LedgerHas(issued: seq<Issued>, c: Tokens.Claims) returns (i: nat)
    requires c in Ledger(issued)
    ensures i < |issued| && issued[i].claims == c
  {
    i :| 0 <= i < |issued| && issued[i].claims == c;
  }

  lemma {:induction false} AttemptsApart(cfg: Config, run: seq<Event>, n: nat)
    requires ValidRun(run) && Apart(run) && n <= |run|
    ensures Dpop.Apart(StateAt(cfg, run, n).attempts)
  {
    hide AfterProve;
    hide AfterMint;
    hide AfterRequest;
    hide AfterRevoke;
    if n > 0 {
      AttemptsApart(cfg, run, n - 1);
      InvHolds(cfg, run, n - 1, LastTime(run, n - 1));
      AttemptsOfStep(cfg, StateAt(cfg, run, n - 1), run[n - 1]);
    }
    hide AllIssuedOk;
    hide AllPassesOk;
    hide RevocationsOk;
    hide Dpop.LockOrdered;
    hide Next;
  }

  /** A step makes at most one attempt on the verifier, at its own times. */
  lemma AttemptsOfStep(cfg: Config, s: State, e: Event)
    ensures var attempts := Next(cfg, s, e).attempts;
      || attempts == s.attempts
      || (|attempts| == |s.attempts| + 1 && attempts[..|s.attempts|] == s.attempts
          && attempts[|s.attempts|].now == e.read && attempts[|s.attempts|].sweepAt == e.at)
  {
    hide AnswerNow;
    hide Sessions.Presented;
    hide Dpop.AfterJudge;
  }

  /** Passes k and l showed the same proof, so between them another call swept the cache
      after the proof's memory was over, while l had read its clock before. */
  ghost predicate Raced(cfg: Config, s: State, k: nat, l: nat)
    requires k < |s.attempts| && l < |s.attempts|
  {
    exists m: nat :: k < m < l && DpopRaces.Sweeps(cfg.max, s.attempts, m)
      && s.attempts[l].now <= DpopRaces.Until(s.attempts, k) < s.attempts[m].sweepAt
  }

  /** Distinct passes consume distinct proofs, whenever steps do not overlap; and however
      they overlap, two passes with one proof have raced. */
  lemma EveryPassItsOwnProof(cfg: Config, run: seq<Event>, n: nat, k: nat, l: nat)
    requires ValidRun(run) && n <= |run| && k < |StateAt(cfg, run, n).passes| && l < |StateAt(cfg, run, n).passes| && k != l
    ensures var s := StateAt(cfg, run, n);
      && s.passes[k].r.proof.Some? && s.passes[l].r.proof.Some?
      && s.passes[k].attempt < |s.attempts| && s.passes[l].attempt < |s.attempts|
      && (s.passes[k].r.proof.value.payload == s.passes[l].r.proof.value.payload ==>
            !Apart(run) && (Raced(cfg, s, s.passes[k].attempt, s.passes[l].attempt) || Raced(cfg, s, s.passes[l].attempt, s.passes[k].attempt)))
  {
    InvHolds(cfg, run, n, LastTime(run, n));
    if Apart(run) {
      AttemptsApart(cfg, run, n);
    }
    PassesDiffer(cfg, StateAt(cfg, run, n), k, l, LastTime(run, n));
    hide *;
  }

  lemma PassesDiffer(cfg: Config, s: State, k: nat, l: nat, t: Time)
    requires Inv(cfg, s, t) && k < |s.passes| && l < |s.passes| && k != l
    ensures s.passes[k].r.proof.Some? && s.passes[l].r.proof.Some?
    ensures s.passes[k].attempt < |s.attempts| && s.passes[l].attempt < |s.attempts|
    ensures s.passes[k].r.proof.value.payload == s.passes[l].r.proof.value.payload ==>
      !Dpop.Apart(s.attempts) && (Raced(cfg, s, s.passes[k].attempt, s.passes[l].attempt) || Raced(cfg, s, s.passes[l].attempt, s.passes[k].attempt))
  {
    assert PassOk(cfg, s.attempts, s.issued, s.passes[k]) && PassOk(cfg, s.attempts, s.issued, s.passes[l]);
    var i, j := s.passes[k].attempt, s.passes[l].attempt;
    assert i != j;
    SharedProofRaced(cfg, s, i, j);
    hide PassOk;
    hide Raced;
    hide Dpop.Apart;
  }

  lemma SharedProofRaced(cfg: Config, s: State, i: nat, j: nat)
    requires Dpop.LockOrdered(s.attempts) && i < |s.attempts| && j < |s.attempts| && i != j
    requires Dpop.AcceptedAt(cfg.max, s.attempts, i) && Dpop.AcceptedAt(cfg.max, s.attempts, j)
    ensures s.attempts[i].proof.payload == s.attempts[j].proof.payload ==>
      !Dpop.Apart(s.attempts) && (Raced(cfg, s, i, j) || Raced(cfg, s, j, i))
  {
    hide Dpop.AcceptedAt;
    hide DpopRaces.Sweeps;
    if s.attempts[i].proof.payload == s.attempts[j].proof.payload {
      if i < j {
        DpopRaces.TwiceOnlyByRace(cfg.max, s.attempts, i, j);
      } else {
        DpopRaces.TwiceOnlyByRace(cfg.max, s.attempts, j, i);
      }
    }
  }

  /** The same of a pass and a proof that was shown when a token was issued. */
  lemma IssueProofsOpenNothing(cfg: Config, run: seq<Event>, n: nat, k: nat, i: nat)
    requires ValidRun(run) && n <= |run| && k < |StateAt(cfg, run, n).passes| && i < |StateAt(cfg, run, n).issued|
    requires StateAt(cfg, run, n).issued[i].attempt.Some?
    ensures var s := StateAt(cfg, run, n); var atIssue := s.issued[i].attempt.value;
      && atIssue < |s.attempts| && s.passes[k].attempt < |s.attempts| && s.passes[k].r.proof.Some?
      && (s.attempts[atIssue].proof.payload == s.passes[k].r.proof.value.payload ==>
            !Apart(run) && (Raced(cfg, s, atIssue, s.passes[k].attempt) || Raced(cfg, s, s.passes[k].attempt, atIssue)))
  {
    InvHolds(cfg, run, n, LastTime(run, n));
    if Apart(run) {
      AttemptsApart(cfg, run, n);
    }
    IssueProofDiffers(cfg, StateAt(cfg, run, n), k, i, LastTime(run, n));
    hide *;
  }

  lemma IssueProofDiffers(cfg: Config, s: State, k: nat, i: nat, t: Time)
    requires Inv(cfg, s, t) && k < |s.passes| && i < |s.issued| && s.issued[i].attempt.Some?
    ensures s.issued[i].attempt.value < |s.attempts| && s.passes[k].r.proof.Some? && s.passes[k].attempt < |s.attempts|
    ensures var a, b := s.issued[i].attempt.value, s.passes[k].attempt;
      s.attempts[a].proof.payload == s.passes[k].r.proof.value.payload ==>
        !Dpop.Apart(s.attempts) && (Raced(cfg, s, a, b) || Raced(cfg, s, b, a))
  {
    assert PassOk(cfg, s.attempts, s.issued, s.passes[k]) && IssuedOk(cfg, s.attempts, s.issued[i]);
    var a, b := s.issued[i].attempt.value, s.passes[k].attempt;
    TokenNotEmpty(s.passes[k].r.authorization);
    assert a != b;
    SharedProofRaced(cfg, s, a, b);
    hide Raced;
    hide Dpop.Apart;
  }

  // ------------------------------------------------ revocation is permanent

  /** A revocation step stays on record. */
  lemma {:induction false} RevocationOnRecord(cfg: Config, run: seq<Event>, i: nat, n: nat) returns (j: nat)
    requires i < n <= |run| && run[i].step.Revoke?
    ensures j == |StateAt(cfg, run, i).revocations| < |StateAt(cfg, run, n).revocations|
    ensures StateAt(cfg, run, n).revocations[j] == Revocations.Event(run[i].step.op, run[i].at)
    decreases n
  {
    if i == n - 1 {
      j := |StateAt(cfg, run, n - 1).revocations|;
    } else {
      j := RevocationOnRecord(cfg, run, i, n - 1);
    }
    hide AfterProve;
    hide AfterMint;
    hide AfterRequest;
  }

  /** Every record after that of step i is of a later revocation step. */
  lemma {:induction false} StepOfRecord(cfg: Config, run: seq<Event>, i: nat, n: nat, j: nat, k: nat) returns (m: nat)
    requires i < n <= |run| && run[i].step.Revoke? && j == |StateAt(cfg, run, i).revocations| < k < |StateAt(cfg, run, n).revocations|
    ensures i < m < n && run[m].step.Revoke? && StateAt(cfg, run, n).revocations[k].op == run[m].step.op
    decreases n
  {
    hide AfterProve;
    hide AfterMint;
    hide AfterRequest;
    if i < n - 1 && k < |StateAt(cfg, run, n - 1).revocations| {
      m := StepOfRecord(cfg, run, i, n - 1, j, k);
    } else {
      m := n - 1;
    }
  }

  /** Every record is of a revocation step, with its time. */
  lemma {:induction false} RecordOfStep(cfg: Config, run: seq<Event>, n: nat, k: nat) returns (m: nat)
    requires n <= |run| && k < |StateAt(cfg, run, n).revocations|
    ensures m < n && run[m].step.Revoke? && StateAt(cfg, run, n).revocations[k] == Revocations.Event(run[m].step.op, run[m].at)
    decreases n
  {
    hide AfterProve;
    hide AfterMint;
    hide AfterRequest;
    if k < |StateAt(cfg, run, n - 1).revocations| {
      m := RecordOfStep(cfg, run, n - 1, k);
    } else {
      m := n - 1;
    }
  }

  ghost predicate CutsOff(op: Revocations.Op, c: Tokens.Claims)
  {
    op == Revocations.Op.RevokeSubject(c.tenantId, c.subject) || op == Revocations.Op.RevokeTenant(c.tenantId)
  }

  /** Once a subject or a tenant is revoked, no token of theirs issued up to then is
      served again, whatever else is revoked, swept or attempted meanwhile. */
  lemma {:induction false} CutoffHoldsAtTheDoor(cfg: Config, run: seq<Event>, i: nat, n: nat, c: Tokens.Claims)
    requires ValidRun(run) && i < n < |run| && run[i].step.Revoke? && CutsOff(run[i].step.op, c)
    requires run[n].step.Request? && run[n].step.r.decoded.claims == Some(c) && c.issuedAt * SECOND <= run[i].at
    ensures AnswerNow(cfg, StateAt(cfg, run, n), run[n]).Challenged?
  {
    var s, issued := StateAt(cfg, run, n), c.issuedAt * SECOND;
    var j := RevocationOnRecord(cfg, run, i, n);
    InvHolds(cfg, run, n, LastTime(run, n));
    assert Unix(issued) == c.issuedAt;
    Revocations.CutoffIsPermanent(s.revocations, j, |s.revocations|, c.jti, c.tenantId, c.subject, issued);
    RefusedIsChallenged(cfg, s, run[n], c);
    hide *;
  }

  /** A token minted before the revocation is such a token: its issue time is the
      mint time, rounded down. */
  lemma {:induction false} MintedBeforeIsCutOff(cfg: Config, run: seq<Event>, m: nat, i: nat, n: nat, c: Tokens.Claims)
    requires ValidRun(run) && m < i < n < |run| && run[m].step.Mint? && run[i].step.Revoke? && CutsOff(run[i].step.op, c)
    requires StateAt(cfg, run, m + 1).issued == StateAt(cfg, run, m).issued + [Issued(c, run[m].step.attempt)]
    requires run[n].step.Request? && run[n].step.r.decoded.claims == Some(c)
    ensures AnswerNow(cfg, StateAt(cfg, run, n), run[n]).Challenged?
  {
    Tokens.FloorsToSecond(run[m].at);
    MintedAt(cfg, StateAt(cfg, run, m), run[m], c);
    hide AnswerNow;
    hide StateAt;
    CutoffHoldsAtTheDoor(cfg, run, i, n, c);
  }

  lemma MintedAt(cfg: Config, s: State, e: Event, c: Tokens.Claims)
    requires e.step.Mint? && Next(cfg, s, e).issued == s.issued + [Issued(c, e.step.attempt)]
    ensures c.issuedAt == Unix(e.at)
  {
    assert Next(cfg, s, e).issued[|s.issued|].claims == c;
    hide Dpop.AcceptedAt;
    hide Dpop.OutcomeOf;
  }

  lemma {:induction false} RefusedIsChallenged(cfg: Config, s: State, e: Event, c: Tokens.Claims)
    requires e.step.Request? && e.step.r.decoded.claims == Some(c)
    requires Tokens.Verify(Ledger(s.issued), cfg.sessions.issuer, e.step.r.decoded, cfg.sessions.audience, e.read).Valid? ==>
      RefusedNow(cfg, s, c, e.step.dbFailed)
    ensures AnswerNow(cfg, s, e).Challenged?
  {
    hide Tokens.Verify;
    hide RefusedNow;
    hide Ledger;
    hide Sessions.Presented;
    hide Sessions.DpopToken;
    hide Dpop.Judge;
    if PresentedNow(cfg, s, e).Served? {
      Sessions.PresentedMeans(Ledger(s.issued), cfg.sessions, e.step.r, e.read);
    }
  }

  /** The last instant at which a token verifies. */
  function WindowEnd(c: Tokens.Claims): Time
  {
    c.expiresAt * SECOND + 30 * SECOND
  }

  /** Step i revokes the token, not to be forgotten before `end`. */
  ghost predicate Revokes(run: seq<Event>, i: nat, c: Tokens.Claims, end: Time)
    requires i < |run|
  {
    run[i].step.Revoke? && Revocations.Names(Revocations.Event(run[i].step.op, run[i].at), c.jti) && end <= run[i].step.op.forgetAfter
  }

  /** Every later revocation of it before step n is kept that long too. */
  ghost predicate NotCutShort(run: seq<Event>, i: nat, n: nat, c: Tokens.Claims, end: Time)
    requires n <= |run|
  {
    forall j | i < j < n && run[j].step.Revoke? && run[j].step.op.RevokeToken? && run[j].step.op.jti == c.jti :: Revokes(run, j, c, end)
  }

  /** No revocation step before n took effect later than `end`. */
  ghost predicate SweptUpTo(run: seq<Event>, n: nat, end: Time)
    requires n <= |run|
  {
    forall j | 0 <= j < n && run[j].step.Revoke? :: run[j].at <= end
  }

  /** A revoked token is not served as long as no revocation step has come after the
      instant up to which it is kept: with the SQL store whatever follows, with the
      in-memory store unless a later revocation of it cuts that short. This holds also of
      a request that read its clock long before. */
  lemma {:induction false} RevokedWhileKept(cfg: Config, run: seq<Event>, i: nat, n: nat, c: Tokens.Claims, end: Time)
    requires ValidRun(run) && i < n < |run| && Revokes(run, i, c, end) && (!cfg.sql ==> NotCutShort(run, i, n, c, end))
    requires SweptUpTo(run, n, end) && run[n].step.Request? && run[n].step.r.decoded.claims == Some(c)
    ensures AnswerNow(cfg, StateAt(cfg, run, n), run[n]).Challenged?
  {
    hide Tokens.Verify;
    hide StateAt;
    hide AnswerNow;
    hide Ledger;
    hide Revocations.MemoryRefuses;
    hide Revocations.TablesRefuse;
    var s := StateAt(cfg, run, n);
    var j := RevocationOnRecord(cfg, run, i, n);
    InvHolds(cfg, run, n, LastTime(run, n));
    var revocations := s.revocations;
    if !cfg.sql {
      forall k | j < k < |revocations| && Revocations.Names(revocations[k], c.jti) ensures end <= revocations[k].op.forgetAfter {
        var m := StepOfRecord(cfg, run, i, n, j, k);
      }
    }
    var last := RecordOfStep(cfg, run, n, |revocations| - 1);
    Revocations.TokenRevocationLasts(revocations, j, |revocations|, c.jti, c.tenantId, c.subject, c.issuedAt * SECOND, end);
    RefusedIsChallenged(cfg, s, run[n], c);
  }

  /** A token revoked until its window is over is never served again by a request that no
      revocation overtakes. */
  lemma {:induction false} RevokedTokenStaysOut(cfg: Config, run: seq<Event>, i: nat, n: nat, c: Tokens.Claims)
    requires ValidRun(run) && i < n < |run| && Revokes(run, i, c, WindowEnd(c)) && (!cfg.sql ==> NotCutShort(run, i, n, c, WindowEnd(c)))
    requires SweptUpTo(run, n, run[n].read) && run[n].step.Request? && run[n].step.r.decoded.claims == Some(c)
    ensures AnswerNow(cfg, StateAt(cfg, run, n), run[n]).Challenged?
  {
    hide StateAt;
    hide AnswerNow;
    if run[n].read <= WindowEnd(c) {
      RevokedWhileKept(cfg, run, i, n, c, WindowEnd(c));
    } else {
      ExpiredIsChallenged(cfg, StateAt(cfg, run, n), run[n], c);
    }
  }

  lemma {:induction false} ExpiredIsChallenged(cfg: Config, s: State, e: Event, c: Tokens.Claims)
    requires e.step.Request? && e.step.r.decoded.claims == Some(c) && WindowEnd(c) < e.read
    ensures AnswerNow(cfg, s, e).Challenged?
  {
    Tokens.AcceptedExactly(Ledger(s.issued), cfg.sessions.issuer, e.step.r.decoded, cfg.sessions.audience, e.read);
    hide Tokens.Verify;
    hide AnswerNow;
    RefusedIsChallenged(cfg, s, e, c);
  }

  // --------------------------------------- how long a revocation must be kept

  ghost predicate InWindow(c: Tokens.Claims, now: Time)
  {
    c.notBefore * SECOND - 30 * SECOND <= now <= c.expiresAt * SECOND + 30 * SECOND
  }

  /** What may follow the revocation of c: anything at all on the table; in memory, no
      revocation of the same token that is forgotten while it verifies. */
  ghost predicate Follows(sql: bool, first: Revocations.Event, later: seq<Revocations.Event>, c: Tokens.Claims, now: Time)
  {
    && Revocations.Ordered([first] + later) && ([first] + later)[|later|].now <= now
    && (!sql ==> forall i | 0 <= i < |later| && Revocations.Names(later[i], c.jti) :: WindowEnd(c) <= later[i].op.forgetAfter)
  }

  /** However the store goes on, c is refused for as long as it would verify. */
  ghost predicate RefusedThroughout(sql: bool, c: Tokens.Claims, forgetAfter: Time, at: Time)
  {
    forall later, now | Follows(sql, Revocation(c, forgetAfter, at), later, c, now) && InWindow(c, now) ::
      RefusedAfter(sql, [Revocation(c, forgetAfter, at)] + later, c)
  }

  ghost function Revocation(c: Tokens.Claims, forgetAfter: Time, at: Time): Revocations.Event
  {
    Revocations.Event(Revocations.Op.RevokeToken(c.jti, forgetAfter), at)
  }

  /** The revocation of some other token. */
  ghost function OtherRevocation(c: Tokens.Claims, at: Time): (e: Revocations.Event)
    ensures e.op.RevokeToken? && !Revocations.Names(e, c.jti) && e.now == at
  {
    assert |c.jti + "x"| != |c.jti|;
    Revocations.Event(Revocations.Op.RevokeToken(c.jti + "x", at), at)
  }

  ghost predicate RefusedAfter(sql: bool, revocations: seq<Revocations.Event>, c: Tokens.Claims)
  {
    if sql
    then Revocations.TablesRefuse(Revocations.TablesAt(revocations, |revocations|), c.jti, c.tenantId, c.subject, c.issuedAt * SECOND)
    else Revocations.MemoryRefuses(Revocations.MemoryAt(revocations, |revocations|), c.jti, c.tenantId, c.subject, c.issuedAt * SECOND)
  }

  /** Revoking a token that can still verify shuts it out of either store in every
      continuation exactly when the forget-after is at or past its expiry plus the
      leeway; of the in-memory store, in every one that does not cut a later revocation
      of the same token shorter. */
  lemma {:induction false} ForgetAfterRule(sql: bool, c: Tokens.Claims, forgetAfter: Time, at: Time)
    requires at <= WindowEnd(c) && c.notBefore <= c.expiresAt
    ensures RefusedThroughout(sql, c, forgetAfter, at) <==> WindowEnd(c) <= forgetAfter
  {
    if WindowEnd(c) <= forgetAfter {
      forall later, now | Follows(sql, Revocation(c, forgetAfter, at), later, c, now) && InWindow(c, now)
        ensures RefusedAfter(sql, [Revocation(c, forgetAfter, at)] + later, c)
      {
        var all := [Revocation(c, forgetAfter, at)] + later;
        Revocations.TokenRevocationLasts(all, 0, |all|, c.jti, c.tenantId, c.subject, c.issuedAt * SECOND, now);
      }
    } else {
      ForgottenInTheLeeway(sql, c, forgetAfter, at);
    }
  }

  /** Otherwise a later revocation of another token, or the worker's cleaning, sweeps
      the record away while the token still verifies. */
  lemma {:induction false} ForgottenInTheLeeway(sql: bool, c: Tokens.Claims, forgetAfter: Time, at: Time)
    requires at <= WindowEnd(c) && c.notBefore <= c.expiresAt && forgetAfter < WindowEnd(c)
    ensures !RefusedThroughout(sql, c, forgetAfter, at)
  {
    var start := if at > forgetAfter then at else forgetAfter + 1;
    var now := if start < c.notBefore * SECOND - Tokens.LEEWAY then c.notBefore * SECOND - Tokens.LEEWAY else start;
    var later := [OtherRevocation(c, now), Revocations.Event(Revocations.Op.DeleteExpired, now)];
    assert Follows(sql, Revocation(c, forgetAfter, at), later, c, now);
    assert InWindow(c, now);
    SweptAway(c, forgetAfter, at, now);
  }

  lemma NothingCutOff(revocations: seq<Revocations.Event>, n: nat)
    requires n <= |revocations| && forall i | 0 <= i < n :: revocations[i].op.RevokeToken? || revocations[i].op.DeleteExpired?
    ensures Revocations.MemoryAt(revocations, n).subjects == map[] && Revocations.MemoryAt(revocations, n).tenants == map[]
    ensures Revocations.TablesAt(revocations, n).cutoffs == map[]
  {
  }

  lemma {:induction false} SweptAway(c: Tokens.Claims, forgetAfter: Time, at: Time, now: Time)
    requires forgetAfter < now
    ensures var all := [Revocation(c, forgetAfter, at)] + [OtherRevocation(c, now), Revocations.Event(Revocations.Op.DeleteExpired, now)];
      !RefusedAfter(true, all, c) && !RefusedAfter(false, all, c)
  {
    var all := [Revocation(c, forgetAfter, at)] + [OtherRevocation(c, now), Revocations.Event(Revocations.Op.DeleteExpired, now)];
    assert all[1] == OtherRevocation(c, now) && all[2] == Revocations.Event(Revocations.Op.DeleteExpired, now);
    hide OtherRevocation;
    NothingCutOff(all, 3);
    Revocations.RememberedExactly(all, 3, c.jti);
    assert all[1].now == now && !Revocations.KeptInMemory(all, 0, 3, c.jti) && !Revocations.KeptInTables(all, 0, 3, c.jti);
  }

  /** The comment on RevokeToken asks for the token's expiry, which is too early. */
  lemma {:induction false} ExpiryIsTooEarly(sql: bool, c: Tokens.Claims, at: Time)
    requires at <= WindowEnd(c) && c.notBefore <= c.expiresAt
    ensures !RefusedThroughout(sql, c, c.expiresAt * SECOND, at)
  {
    ForgottenInTheLeeway(sql, c, c.expiresAt * SECOND, at);
  }

  /** Revoking the token again with a nearer forget-after undoes a lasting revocation in
      memory, where it overwrites; the table keeps the later of the two. */
  lemma {:induction false} OverwritingForgets(c: Tokens.Claims, far: Time, near: Time, at: Time)
    requires at <= near < far
    ensures var all := [Revocation(c, far, at), Revocation(c, near, at), OtherRevocation(c, near + 1)];
      Revocations.Ordered(all) && !RefusedAfter(false, all, c) && RefusedAfter(true, all, c)
  {
    var all := [Revocation(c, far, at), Revocation(c, near, at), OtherRevocation(c, near + 1)];
    assert all[2].now == near + 1;
    hide OtherRevocation;
    NothingCutOff(all, 3);
    Revocations.RememberedExactly(all, 3, c.jti);
    assert Revocations.KeptInTables(all, 0, 3, c.jti);
    assert Revocations.Names(all[1], c.jti);
    assert !Revocations.KeptInMemory(all, 0, 3, c.jti) && !Revocations.KeptInMemory(all, 1, 3, c.jti);
  }
}
