/** How long a revoked token has to be remembered for no request to get through. */
module ForgetAfter {
  import opened Common
  import opened SessionRuns
  import Dpop
  import Revocations
  import Sessions
  import Tokens

  // ------------------------------------------------------ one client's token

  /** A token of one client, and a request that presents it: minted at `mintedAt`, judged
      by a clock read at `read`, taking effect at `at`. */
  datatype Case = Case(
    key: Tokens.Key,
    subject: string,
    tenant: string,
    scope: string,
    jti: string,
    mintedAt: Time,
    read: Time,
    at: Time)

  const URI: Dpop.Uri := Dpop.Uri("https", "host", "/path")
  const RAW := "a.b.c"

  function Claims(cfg: Config, k: Case): Tokens.Claims
  {
    Tokens.AccessClaims(cfg.sessions.issuer, cfg.sessions.audience, k.subject, k.tenant, k.scope, Some(Dpop.Thumbprint(k.key)), k.mintedAt, k.jti)
  }

  function Header(k: Case): Dpop.Header
  {
    Dpop.Header("dpop+jwt", "ES256", true, Some(k.key))
  }

  function AtIssue(cfg: Config, k: Case): Dpop.Payload
  {
    Dpop.Payload("a", "POST", cfg.tokenUri, Unix(k.mintedAt), Tokens.Other(""))
  }

  function AtUse(k: Case): Dpop.Payload
  {
    Dpop.Payload("b", "GET", Some(URI), Unix(k.read), Tokens.Sha256(RAW))
  }

  function Proof(k: Case, claim: Dpop.Payload): Dpop.Proof
  {
    Dpop.Proof(true, Some(Header(k)), Some(claim), true)
  }

  /** All that the client signs. */
  function Proofs(cfg: Config, k: Case): set<Dpop.Signed>
  {
    {Dpop.Signed(k.key, Header(k), AtIssue(cfg, k)), Dpop.Signed(k.key, Header(k), AtUse(k))}
  }

  function TheRequest(cfg: Config, k: Case): Sessions.Request
  {
    Sessions.Request("GET", Some(URI), "DPoP a.b.c", Tokens.AccessToken(true, Some("ES256"), Some(Claims(cfg, k)), Some("")), Some(Proof(k, AtUse(k))))
  }

  function RevokeStep(cfg: Config, k: Case, r: Revocations.Event): Event
  {
    Event(Revoke(r.op), Proofs(cfg, k), r.now, r.now)
  }

  /** The token is minted, the revocations follow, and the request comes last. */
  function TheRun(cfg: Config, k: Case, revocations: seq<Revocations.Event>): (run: seq<Event>)
    ensures |run| == |revocations| + 3
    ensures run[0] == Event(Prove(Proof(k, AtIssue(cfg, k))), Proofs(cfg, k), k.mintedAt, k.mintedAt)
    ensures run[1] == Event(Mint(k.subject, k.tenant, k.scope, Some(0), Some(k.jti)), Proofs(cfg, k), k.mintedAt, k.mintedAt)
    ensures forall i | 0 <= i < |revocations| :: run[i + 2] == RevokeStep(cfg, k, revocations[i])
    ensures run[|revocations| + 2] == Event(Request(TheRequest(cfg, k), false), Proofs(cfg, k), k.read, k.at)
  {
    [Event(Prove(Proof(k, AtIssue(cfg, k))), Proofs(cfg, k), k.mintedAt, k.mintedAt),
     Event(Mint(k.subject, k.tenant, k.scope, Some(0), Some(k.jti)), Proofs(cfg, k), k.mintedAt, k.mintedAt)]
    + seq(|revocations|, i requires 0 <= i < |revocations| => RevokeStep(cfg, k, revocations[i]))
    + [Event(Request(TheRequest(cfg, k), false), Proofs(cfg, k), k.read, k.at)]
  }

  /** The request reads its clock inside the token's window and takes effect later, and
      the revocations lie between the minting and that effect. */
  ghost predicate Fits(cfg: Config, k: Case, revocations: seq<Revocations.Event>)
  {
    && cfg.tokenUri.Some? && 1 <= cfg.max
    && InWindow(Claims(cfg, k), k.read) && k.read <= k.at && k.mintedAt + 2 * Dpop.MAX_AGE < k.at
    && Revocations.Ordered(revocations)
    && (forall i | 0 <= i < |revocations| :: k.mintedAt <= revocations[i].now <= k.at)
  }

  lemma Unfold(cfg: Config, run: seq<Event>, n: nat)
    requires n < |run|
    ensures StateAt(cfg, run, n + 1) == Next(cfg, StateAt(cfg, run, n), run[n])
  {
    hide Next;
  }

  lemma ProofPasses(cfg: Config, k: Case, claim: Dpop.Payload, t: Dpop.Target, now: Time)
    requires claim == AtIssue(cfg, k) || claim == AtUse(k)
    requires claim.htm == t.htm && t.uri == claim.htu && t.uri.Some? && claim.iat == Unix(now)
    requires t.token != "" ==> claim.ath == Tokens.Sha256(t.token) && t.jkt == Dpop.Thumbprint(k.key)
    ensures Dpop.Check(Proofs(cfg, k), Proof(k, claim), t, now) == None
  {
    Dpop.PassesExactly(Proofs(cfg, k), Proof(k, claim), t, now);
    Tokens.FloorsToSecond(now);
    hide Dpop.Check;
  }

  /** The proof is accepted and the token minted. */
  lemma MintedHere(cfg: Config, k: Case, run: seq<Event>)
    requires 1 <= cfg.max && cfg.tokenUri.Some? && |run| >= 2
    requires run[0] == Event(Prove(Proof(k, AtIssue(cfg, k))), Proofs(cfg, k), k.mintedAt, k.mintedAt)
    requires run[1] == Event(Mint(k.subject, k.tenant, k.scope, Some(0), Some(k.jti)), Proofs(cfg, k), k.mintedAt, k.mintedAt)
    ensures var s := StateAt(cfg, run, 2);
      && s.issued == [Issued(Claims(cfg, k), Some(0))] && s.items == map["a" := k.mintedAt + 2 * Dpop.MAX_AGE]
      && s.memory == Revocations.Memory(map[], map[], map[]) && s.tables == Revocations.Tables(map[], map[])
  {
    hide Proofs;
    hide Header;
    var s1, a := StateAt(cfg, run, 1), MintAttempt(cfg, run[0]);
    Unfold(cfg, run, 0);
    Unfold(cfg, run, 1);
    assert StateAt(cfg, run, 0) == INITIAL;
    ProofPasses(cfg, k, AtIssue(cfg, k), a.target, k.mintedAt);
    AcceptedAlone(cfg, k, a);
    hide Dpop.Check;
    assert s1.attempts == [a] && s1.items == map["a" := k.mintedAt + 2 * Dpop.MAX_AGE];
    assert Confirm(cfg, s1.attempts, Some(0)) == Some(Dpop.Thumbprint(k.key));
  }

  lemma AcceptedAlone(cfg: Config, k: Case, a: Dpop.Attempt)
    requires 1 <= cfg.max && a.proof == Proof(k, AtIssue(cfg, k)) && Dpop.Check(a.signed, a.proof, a.target, a.now) == None && a.target.token == ""
    ensures SessionRuns.Mintable(cfg, [a], 0) && Dpop.OutcomeOf(cfg.max, [a], 0) == Dpop.Accepted(Dpop.Thumbprint(k.key), "a")
  {
    assert Dpop.ItemsAt(cfg.max, [a], 0) == map[];
    hide Dpop.Check;
  }

  /** After the first n revocations the stores are theirs, and nothing else has changed. */
  lemma {:induction false} RevokedSoFar(cfg: Config, k: Case, run: seq<Event>, revocations: seq<Revocations.Event>, n: nat)
    requires n <= |revocations| && |run| == |revocations| + 3
    requires forall i | 0 <= i < |revocations| :: run[i + 2] == RevokeStep(cfg, k, revocations[i])
    requires StateAt(cfg, run, 2).memory == Revocations.Memory(map[], map[], map[]) && StateAt(cfg, run, 2).tables == Revocations.Tables(map[], map[])
    ensures var s, s2 := StateAt(cfg, run, n + 2), StateAt(cfg, run, 2);
      && s.issued == s2.issued && s.items == s2.items
      && s.memory == Revocations.MemoryAt(revocations, n) && s.tables == Revocations.TablesAt(revocations, n)
  {
    hide Proofs;
    hide Next;
    hide Revocations.MemoryNext;
    hide Revocations.TablesNext;
    if n > 0 {
      RevokedSoFar(cfg, k, run, revocations, n - 1);
      RevokesOne(cfg, StateAt(cfg, run, n + 1), RevokeStep(cfg, k, revocations[n - 1]));
    }
  }

  lemma RevokesOne(cfg: Config, s: State, e: Event)
    requires e.step.Revoke?
    ensures var s', r := Next(cfg, s, e), Revocations.Event(e.step.op, e.at);
      && s'.issued == s.issued && s'.items == s.items
      && s'.memory == Revocations.MemoryNext(s.memory, r) && s'.tables == Revocations.TablesNext(s.tables, r)
  {
    hide Revocations.MemoryNext;
    hide Revocations.TablesNext;
  }

  lemma TokenIsRaw()
    ensures Sessions.DpopToken("DPoP a.b.c") == Some(RAW)
  {
    var header := "DPoP a.b.c";
    assert header[5..] == "" + RAW + "";
    assert Sessions.Carries(header, "", RAW, "");
    Sessions.DpopTokenIsCarried(header, RAW);
  }

  /** The request passes every check but the last. */
  lemma PassesButRevocation(cfg: Config, k: Case, s: State, e: Event)
    requires e == Event(Request(TheRequest(cfg, k), false), Proofs(cfg, k), k.read, k.at)
    requires 1 <= cfg.max && InWindow(Claims(cfg, k), k.read) && k.mintedAt + 2 * Dpop.MAX_AGE < k.at
    requires s.issued == [Issued(Claims(cfg, k), Some(0))] && s.items == map["a" := k.mintedAt + 2 * Dpop.MAX_AGE]
    ensures AnswerNow(cfg, s, e)
         == if RefusedNow(cfg, s, Claims(cfg, k), false) then Sessions.Challenged(Sessions.Revoked) else Sessions.Served(Claims(cfg, k))
  {
    hide RefusedNow;
    hide Sessions.DpopToken;
    hide Proofs;
    var c, r, issued := Claims(cfg, k), TheRequest(cfg, k), Ledger(s.issued);
    TokenIsRaw();
    assert c == s.issued[0].claims && c in issued;
    hide Ledger;
    Tokens.AcceptedExactly(issued, cfg.sessions.issuer, r.decoded, cfg.sessions.audience, k.read);
    hide Tokens.Verify;
    assert Sessions.Presented(issued, cfg.sessions, r, k.read) == Sessions.Served(c);
    ProofPasses(cfg, k, AtUse(k), Sessions.TargetOf(r, c), k.read);
    hide Dpop.Check;
    assert "b" !in s.items && Dpop.Live(s.items, k.at) == map[];
  }

  /** So its answer is the store's: it is served exactly when the revocations before it
      do not refuse its token. */
  lemma ServedUnlessRefused(cfg: Config, k: Case, revocations: seq<Revocations.Event>)
    requires Fits(cfg, k, revocations)
    ensures var run, n := TheRun(cfg, k, revocations), |revocations| + 2;
      && ValidRun(run) && run[n].step == Request(TheRequest(cfg, k), false)
      && AnswerNow(cfg, StateAt(cfg, run, n), run[n])
         == if RefusedAfter(cfg.sql, revocations, Claims(cfg, k)) then Sessions.Challenged(Sessions.Revoked) else Sessions.Served(Claims(cfg, k))
  {
    hide TheRun;
    hide Proofs;
    var run, n := TheRun(cfg, k, revocations), |revocations|;
    RunIsValid(cfg, k, revocations, run);
    MintedHere(cfg, k, run);
    RevokedSoFar(cfg, k, run, revocations, n);
    PassesButRevocation(cfg, k, StateAt(cfg, run, n + 2), run[n + 2]);
    hide StateAt;
    hide AnswerNow;
    hide Revocations.MemoryAt;
    hide Revocations.TablesAt;
  }

  lemma RunIsValid(cfg: Config, k: Case, revocations: seq<Revocations.Event>, run: seq<Event>)
    requires Fits(cfg, k, revocations) && |run| == |revocations| + 3
    requires run[0].read == run[0].at == k.mintedAt && run[1].read == run[1].at == k.mintedAt
    requires forall i | 0 <= i < |revocations| :: run[i + 2] == RevokeStep(cfg, k, revocations[i])
    requires run[|revocations| + 2].read == k.read && run[|revocations| + 2].at == k.at
    ensures ValidRun(run)
  {
    hide Proofs;
    hide Claims;
    forall i | 0 <= i < |run| ensures run[i].read <= run[i].at && k.mintedAt <= run[i].at <= k.at {
      if 2 <= i < |run| - 1 {
        assert run[(i - 2) + 2] == RevokeStep(cfg, k, revocations[i - 2]);
      }
    }
    forall i, j | 0 <= i <= j < |run| ensures run[i].at <= run[j].at {
      if 2 <= i && j < |run| - 1 {
        assert run[(i - 2) + 2] == RevokeStep(cfg, k, revocations[i - 2]) && run[(j - 2) + 2] == RevokeStep(cfg, k, revocations[j - 2]);
      }
    }
  }

  // -------------------------------------------------------- the rule at the door

  /** Step n of the run presents c, no later than d after it read its clock; step i revoked
      c's token at `at`; and, with the in-memory store, every revocation of it in between
      is kept until d past its window. */
  ghost predicate Presents(cfg: Config, run: seq<Event>, i: nat, n: nat, c: Tokens.Claims, forgetAfter: Time, at: Time, d: Time)
  {
    && ValidRun(run) && i < n < |run|
    && run[i].step == Revoke(Revocations.Op.RevokeToken(c.jti, forgetAfter)) && run[i].at == at
    && run[n].step.Request? && run[n].step.r.decoded.claims == Some(c) && run[n].at - run[n].read <= d
    && (!cfg.sql ==> NotCutShort(run, i, n, c, WindowEnd(c) + d))
  }

  /** Whatever happens before and after, no such request is served. */
  ghost predicate ShutsOut(cfg: Config, c: Tokens.Claims, forgetAfter: Time, at: Time, d: Time)
  {
    forall run, i, n | Presents(cfg, run, i, n, c, forgetAfter, at, d) :: AnswerNow(cfg, StateAt(cfg, run, n), run[n]).Challenged?
  }

  /** The server can have minted c by the time `at`. */
  ghost predicate MintableBy(cfg: Config, c: Tokens.Claims, at: Time)
  {
    exists k: Case :: c == Claims(cfg, k) && k.mintedAt <= at
  }

  /** A revocation shuts its token out, in every run, of every request that takes effect
      within d of its clock reading, if and only if its forget-after is at or past the
      token's expiry plus the leeway plus d, or the revocation itself comes after that. */
  lemma {:induction false} DoorRule(cfg: Config, c: Tokens.Claims, forgetAfter: Time, at: Time, d: Time)
    requires cfg.tokenUri.Some? && 1 <= cfg.max && 0 <= d
    requires MintableBy(cfg, c, at)
    ensures ShutsOut(cfg, c, forgetAfter, at, d) <==> WindowEnd(c) + d <= forgetAfter || WindowEnd(c) + d < at
  {
    if WindowEnd(c) + d <= forgetAfter || WindowEnd(c) + d < at {
      forall run, i, n | Presents(cfg, run, i, n, c, forgetAfter, at, d) ensures AnswerNow(cfg, StateAt(cfg, run, n), run[n]).Challenged? {
        KeptLongEnough(cfg, run, i, n, c, forgetAfter, at, d);
      }
    } else {
      var k: Case :| c == Claims(cfg, k) && k.mintedAt <= at;
      ForgottenTooSoon(cfg, k, forgetAfter, at, d);
    }
    hide AnswerNow;
    hide StateAt;
    hide Presents;
  }

  lemma {:induction false} KeptLongEnough(cfg: Config, run: seq<Event>, i: nat, n: nat, c: Tokens.Claims, forgetAfter: Time, at: Time, d: Time)
    requires Presents(cfg, run, i, n, c, forgetAfter, at, d) && (WindowEnd(c) + d <= forgetAfter || WindowEnd(c) + d < at)
    ensures AnswerNow(cfg, StateAt(cfg, run, n), run[n]).Challenged?
  {
    hide StateAt;
    hide AnswerNow;
    if run[n].read <= WindowEnd(c) {
      RevokedWhileKept(cfg, run, i, n, c, WindowEnd(c) + d);
    } else {
      ExpiredIsChallenged(cfg, StateAt(cfg, run, n), run[n], c);
    }
  }

  /** The token is minted and revoked; the request reads its clock at the last moment of
      the token's window; and d later, just ahead of it, come a revocation of another token
      and the worker's cleaning. */
  function LastMoment(cfg: Config, k: Case, d: Time): Case
  {
    k.(read := WindowEnd(Claims(cfg, k)), at := WindowEnd(Claims(cfg, k)) + d)
  }

  ghost function Overtaking(c: Tokens.Claims, forgetAfter: Time, at: Time, end: Time): seq<Revocations.Event>
  {
    [Revocation(c, forgetAfter, at), OtherRevocation(c, end), Revocations.Event(Revocations.Op.DeleteExpired, end)]
  }

  /** A forget-after short of that lets the request through, with either store. */
  lemma OvertakenYetServed(cfg: Config, k: Case, forgetAfter: Time, at: Time, d: Time)
    requires cfg.tokenUri.Some? && 1 <= cfg.max && 0 <= d && k.mintedAt <= at
    requires var end := WindowEnd(Claims(cfg, k)) + d; at <= end && forgetAfter < end
    ensures var c := Claims(cfg, k);
      var run := TheRun(cfg, LastMoment(cfg, k, d), Overtaking(c, forgetAfter, at, WindowEnd(c) + d));
      && Presents(cfg, run, 2, 5, c, forgetAfter, at, d) && AnswerNow(cfg, StateAt(cfg, run, 5), run[5]) == Sessions.Served(c)
  {
    hide *;
    var c := Claims(cfg, k);
    var last, revocations := LastMoment(cfg, k, d), Overtaking(c, forgetAfter, at, WindowEnd(c) + d);
    OvertakenFits(cfg, k, forgetAfter, at, d);
    ServedUnlessRefused(cfg, last, revocations);
    OvertakenForgets(cfg, c, forgetAfter, at, WindowEnd(c) + d);
    PresentsOvertaken(cfg, last, c, forgetAfter, at, WindowEnd(c) + d, d);
  }

  lemma OvertakenFits(cfg: Config, k: Case, forgetAfter: Time, at: Time, d: Time)
    requires cfg.tokenUri.Some? && 1 <= cfg.max && 0 <= d && k.mintedAt <= at <= WindowEnd(Claims(cfg, k)) + d
    ensures var c, last := Claims(cfg, k), LastMoment(cfg, k, d);
      && Claims(cfg, last) == c && last.at - last.read == d
      && Fits(cfg, last, Overtaking(c, forgetAfter, at, WindowEnd(c) + d)) && |Overtaking(c, forgetAfter, at, WindowEnd(c) + d)| == 3
  {
    WindowIsLong(cfg, k);
    hide OtherRevocation;
    hide Tokens.AccessClaims;
  }

  lemma {:induction false} OvertakenForgets(cfg: Config, c: Tokens.Claims, forgetAfter: Time, at: Time, end: Time)
    requires forgetAfter < end
    ensures !RefusedAfter(cfg.sql, Overtaking(c, forgetAfter, at, end), c)
  {
    hide RefusedAfter;
    hide OtherRevocation;
    SweptAway(c, forgetAfter, at, end);
    assert Overtaking(c, forgetAfter, at, end)
        == [Revocation(c, forgetAfter, at)] + [OtherRevocation(c, end), Revocations.Event(Revocations.Op.DeleteExpired, end)];
  }

  lemma PresentsOvertaken(cfg: Config, k: Case, c: Tokens.Claims, forgetAfter: Time, at: Time, end: Time, d: Time)
    requires c == Claims(cfg, k) && k.at - k.read <= d
    requires ValidRun(TheRun(cfg, k, Overtaking(c, forgetAfter, at, end)))
    ensures Presents(cfg, TheRun(cfg, k, Overtaking(c, forgetAfter, at, end)), 2, 5, c, forgetAfter, at, d)
  {
    hide TheRun;
    hide Proofs;
    hide Claims;
    hide ValidRun;
    var revocations := Overtaking(c, forgetAfter, at, end);
    var run := TheRun(cfg, k, revocations);
    assert run[0 + 2] == RevokeStep(cfg, k, revocations[0]);
    assert run[1 + 2] == RevokeStep(cfg, k, revocations[1]);
    assert run[2 + 2] == RevokeStep(cfg, k, revocations[2]);
    assert !Revocations.Names(revocations[1], c.jti);
    hide OtherRevocation;
  }

  /** The window outlives the memory of the proof shown at issue. */
  lemma WindowIsLong(cfg: Config, k: Case)
    ensures var c := Claims(cfg, k);
      k.mintedAt + 2 * Dpop.MAX_AGE < WindowEnd(c) && InWindow(c, WindowEnd(c)) && c.jti == k.jti && c.notBefore <= c.expiresAt
  {
    Tokens.FloorsToSecond(k.mintedAt);
    Tokens.FloorsToSecond(k.mintedAt + Tokens.ACCESS_TOKEN_TTL);
  }

  lemma ForgottenTooSoon(cfg: Config, k: Case, forgetAfter: Time, at: Time, d: Time)
    requires cfg.tokenUri.Some? && 1 <= cfg.max && 0 <= d && k.mintedAt <= at
    requires var end := WindowEnd(Claims(cfg, k)) + d; at <= end && forgetAfter < end
    ensures !ShutsOut(cfg, Claims(cfg, k), forgetAfter, at, d)
  {
    OvertakenYetServed(cfg, k, forgetAfter, at, d);
    hide StateAt;
    hide AnswerNow;
    hide Presents;
    hide Claims;
    hide TheRun;
  }

  /** Expiry as the forget-after, which the comment on RevokeToken asks for, is too early
      even when no request is ever overtaken. */
  lemma {:induction false} ExpiryLetsItIn(cfg: Config, c: Tokens.Claims, at: Time)
    requires cfg.tokenUri.Some? && 1 <= cfg.max && MintableBy(cfg, c, at) && at <= WindowEnd(c)
    ensures !ShutsOut(cfg, c, c.expiresAt * SECOND, at, 0)
  {
    DoorRule(cfg, c, c.expiresAt * SECOND, at, 0);
    hide ShutsOut;
    hide MintableBy;
  }

  /** And expiry plus leeway is too early as soon as requests take any time at all. */
  lemma {:induction false} LeewayLetsTheOvertakenIn(cfg: Config, c: Tokens.Claims, at: Time, d: Time)
    requires cfg.tokenUri.Some? && 1 <= cfg.max && MintableBy(cfg, c, at) && at <= WindowEnd(c) && 0 < d
    ensures ShutsOut(cfg, c, WindowEnd(c), at, 0) && !ShutsOut(cfg, c, WindowEnd(c), at, d)
  {
    DoorRule(cfg, c, WindowEnd(c), at, 0);
    DoorRule(cfg, c, WindowEnd(c), at, d);
    hide ShutsOut;
    hide MintableBy;
  }

  // ----------------------------------------------------------- overwriting

  /** Revoking the token again with a nearer forget-after lets a request through the
      in-memory store; the table still turns it away. */
  lemma OverwrittenYetServed(cfg: Config, k: Case, far: Time, near: Time, at: Time)
    requires cfg.tokenUri.Some? && 1 <= cfg.max && k.mintedAt <= at <= near < far
    requires k.read == k.at == near + 1 && InWindow(Claims(cfg, k), near + 1) && k.mintedAt + 2 * Dpop.MAX_AGE <= near
    ensures var c := Claims(cfg, k);
      var run := TheRun(cfg, k, [Revocation(c, far, at), Revocation(c, near, at), OtherRevocation(c, near + 1)]);
      && ValidRun(run)
      && AnswerNow(cfg, StateAt(cfg, run, 5), run[5]) == if cfg.sql then Sessions.Challenged(Sessions.Revoked) else Sessions.Served(c)
  {
    var c := Claims(cfg, k);
    var revocations := [Revocation(c, far, at), Revocation(c, near, at), OtherRevocation(c, near + 1)];
    OverwritingForgets(c, far, near, at);
    hide Claims;
    assert Fits(cfg, k, revocations);
    ServedUnlessRefused(cfg, k, revocations);
    hide TheRun;
    hide StateAt;
    hide AnswerNow;
    hide RefusedAfter;
  }
}
