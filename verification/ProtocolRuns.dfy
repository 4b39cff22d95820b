/** What the authorization-code protocol promises over every interleaving. */
module ProtocolRuns {
  import opened Common
  import opened Authorize
  import opened LoginStores
  import opened Protocol
  import opened ProtocolInvariants
  import CodeStores
  import Tokens
  import WebAuthn

  /** All that every step keeps. */
  ghost predicate Inv(cfg: Config, s: State, now: Time)
  {
    LoginInv(s, now) && ChallengeInv(s, now) && TakenFirst(s.h.judged, s.h.consumed, s.h.taken) && TokenInv(cfg, s, now)
  }

  lemma NothingYet(cfg: Config, now: Time)
    ensures Inv(cfg, INITIAL, now)
  {
    NoLoginYet(now);
    NoChallengeYet(now);
    NoTokenYet(cfg, now);
    hide LoginInv;
    hide ChallengeInv;
    hide TokenInv;
  }

  lemma NoLoginYet(now: Time)
    ensures LoginInv(INITIAL, now)
  {
  }

  lemma NoChallengeYet(now: Time)
    ensures ChallengeInv(INITIAL, now)
  {
  }

  lemma NoTokenYet(cfg: Config, now: Time)
    ensures TokenInv(cfg, INITIAL, now)
  {
  }

  lemma InvStep(cfg: Config, s: State, e: Event, later: Time)
    requires Inv(cfg, s, e.now) && Fresh(s, e.step) && e.now <= later
    ensures Inv(cfg, Next(cfg, s, e), later)
  {
    hide LoginInv;
    hide ChallengeInv;
    hide TokenInv;
    hide TakenFirst;
    hide Next;
    LoginStep(cfg, s, e);
    ChallengeStep(cfg, s, e);
    OrderStep(cfg, s, e);
    TokenStep(cfg, s, e);
    LoginLater(Next(cfg, s, e), e.now, later);
    ChallengeLater(Next(cfg, s, e), e.now, later);
    TokenLater(cfg, Next(cfg, s, e), e.now, later);
  }

  lemma InvLater(cfg: Config, s: State, now: Time, later: Time)
    requires Inv(cfg, s, now) && now <= later
    ensures Inv(cfg, s, later)
  {
    hide LoginInv;
    hide ChallengeInv;
    hide TokenInv;
    LoginLater(s, now, later);
    ChallengeLater(s, now, later);
    TokenLater(cfg, s, now, later);
  }

  lemma {:induction false} InvariantsHold(cfg: Config, run: seq<Event>, n: nat, now: Time)
    requires ValidRun(cfg, run) && n <= |run| && (n > 0 ==> run[n - 1].now <= now)
    ensures Inv(cfg, StateAt(cfg, run, n), now)
  {
    hide Inv;
    hide Next;
    if n == 0 {
      NothingYet(cfg, now);
    } else {
      var e := run[n - 1];
      InvariantsHold(cfg, run, n - 1, e.now);
      assert FreshAt(cfg, run, n - 1);
      InvStep(cfg, StateAt(cfg, run, n - 1), e, now);
    }
  }

  ghost function LastTime(run: seq<Event>, n: nat): Time
    requires n <= |run|
  {
    if n == 0 then 0 else run[n - 1].now
  }

  // ----------------------------------------------------------- provenance

  /** The hops behind one token: its code, the request the code answers, and the
      judged assertion that consumed the request. */
  ghost predicate Recorded(h: History, t: Minted)
  {
    && t.code in h.redeemed && t.code in h.issued
    && h.issued[t.code].rid in h.consumed && h.issued[t.code].rid in h.puts
    && h.consumed[h.issued[t.code].rid].judgement < |h.judged|
    && JudgementOf(h, t).challenge in h.begun && JudgementOf(h, t).challenge in h.taken
  }

  ghost function RequestOf(h: History, t: Minted): AuthzRequest
    requires t.code in h.issued && h.issued[t.code].rid in h.puts
  {
    h.puts[h.issued[t.code].rid].request
  }

  ghost function JudgementOf(h: History, t: Minted): Judgement
    requires t.code in h.issued && h.issued[t.code].rid in h.consumed && h.consumed[h.issued[t.code].rid].judgement < |h.judged|
  {
    h.judged[h.consumed[h.issued[t.code].rid].judgement]
  }

  /** Whoever redeemed the code named the client and redirect of the request, held
      the verifier of its challenge, and got its scope, for the judged subject. */
  ghost predicate SameParties(cfg: Config, s: State, t: Minted)
    requires Recorded(s.h, t)
  {
    var request, judgement := RequestOf(s.h, t), JudgementOf(s.h, t);
    && OnRails(s.clients, request)
    && s.h.redeemed[t.code].clientId == request.clientId
    && s.h.redeemed[t.code].redirectUri == request.redirectUri
    && Tokens.Sha256(t.verifier) == request.codeChallenge && 43 <= |t.verifier| <= 128
    && t.claims.scope == request.scope
    && judgement.verdict.Verified?
    && judgement.rid == s.h.issued[t.code].rid
    && t.claims.subject == judgement.cred.subjectId && t.claims.tenantId == judgement.cred.tenantId
    && t.claims.issuer == cfg.issuer && t.claims.audience == cfg.audience
  }

  /** Every hop within its lifetime, in order: ten minutes for the request, two for the
      challenge, one for the code, and ten again for the token. */
  ghost predicate InTime(h: History, t: Minted)
    requires Recorded(h, t)
  {
    var rid, challenge := h.issued[t.code].rid, JudgementOf(h, t).challenge;
    && h.puts[rid].at <= h.consumed[rid].at <= h.puts[rid].at + 10 * MINUTE
    && h.consumed[rid].at <= h.issued[t.code].at <= h.redeemed[t.code].at <= h.issued[t.code].at + 60 * SECOND
    && h.redeemed[t.code].at <= t.at
    && h.begun[challenge].rid == rid
    && h.begun[challenge].at <= h.taken[challenge] <= h.begun[challenge].at + 2 * MINUTE
    && h.taken[challenge] <= h.consumed[rid].at
    && t.claims.issuedAt == Unix(t.at) && t.claims.expiresAt == Unix(t.at + 10 * MINUTE)
  }

  lemma TokenIsTraced(cfg: Config, s: State, k: nat, now: Time)
    requires Inv(cfg, s, now) && k < |s.h.tokens|
    ensures Recorded(s.h, s.h.tokens[k]) && SameParties(cfg, s, s.h.tokens[k]) && InTime(s.h, s.h.tokens[k])
  {
    hide LoginInv;
    hide ChallengeInv;
    hide TokenInv;
    hide OnRails;
    var t := s.h.tokens[k];
    TokenHops(cfg, s, k, now);
    ConsumptionTraced(s, s.h.issued[t.code].rid, now);
  }

  lemma TokenHops(cfg: Config, s: State, k: nat, now: Time)
    requires LoginInv(s, now) && TokenInv(cfg, s, now) && k < |s.h.tokens|
    ensures var t := s.h.tokens[k];
      && MintedOk(cfg, s.h.issued, s.h.redeemed, t, now) && RedemptionOk(s.h.issued, t.code, s.h.redeemed[t.code], now)
      && IssuanceOk(s.h.consumed, s.h.issued[t.code], now)
  {
    hide VerifyPkce;
    hide RedemptionOk;
    hide IssuanceOk;
    var t := s.h.tokens[k];
    assert MintedOk(cfg, s.h.issued, s.h.redeemed, t, now);
    hide PutsOnRails;
    hide PendingWasPut;
    hide ConsumptionsOk;
    hide FinishesOk;
    hide OneCodePerRequest;
    hide CodesOk;
    hide ExchangesOk;
    hide TokensOk;
    hide OneTokenPerCode;
  }

  lemma ConsumptionTraced(s: State, rid: string, now: Time)
    requires LoginInv(s, now) && ChallengeInv(s, now) && rid in s.h.consumed
    ensures ConsumptionOk(s.h.puts, s.h.judged, rid, s.h.consumed[rid], now) && OnRails(s.clients, s.h.puts[rid].request)
    ensures var c := s.h.judged[s.h.consumed[rid].judgement].challenge;
      c in s.h.begun && c in s.h.taken && s.h.begun[c].rid == rid
      && s.h.begun[c].at <= s.h.taken[c] <= s.h.begun[c].at + CHALLENGE_TTL
  {
    hide FinishesOk;
    hide IssuancesOk;
    hide OneCodePerRequest;
    hide PendingWasPut;
    hide HoldersOk;
    hide HoldersDistinct;
    hide JudgedOnce;
    hide ChallengesOk;
    hide OnRails;
  }

  /** Every token of every run goes back, with all parties equal and each hop within
      its lifetime, to one redeemed code, one consumed request on the rails, and one
      verified assertion over a challenge begun for that request (sections 4.1.2 and
      4.1.3 of RFC 6749, section 4.6 of RFC 7636). */
  lemma Provenance(cfg: Config, run: seq<Event>, n: nat, k: nat)
    requires ValidRun(cfg, run) && n <= |run| && k < |StateAt(cfg, run, n).h.tokens|
    ensures var s := StateAt(cfg, run, n);
      Recorded(s.h, s.h.tokens[k]) && SameParties(cfg, s, s.h.tokens[k]) && InTime(s.h, s.h.tokens[k])
  {
    InvariantsHold(cfg, run, n, LastTime(run, n));
    TokenIsTraced(cfg, StateAt(cfg, run, n), k, LastTime(run, n));
    hide *;
  }

  /** Distinct tokens come from distinct codes, requests, assertions and challenges. */
  lemma TokensDoNotShareAnything(cfg: Config, run: seq<Event>, n: nat, i: nat, j: nat)
    requires ValidRun(cfg, run) && n <= |run| && i < j < |StateAt(cfg, run, n).h.tokens|
    ensures var h := StateAt(cfg, run, n).h;
      && Recorded(h, h.tokens[i]) && Recorded(h, h.tokens[j])
      && h.tokens[i].code != h.tokens[j].code
      && h.issued[h.tokens[i].code].rid != h.issued[h.tokens[j].code].rid
      && JudgementOf(h, h.tokens[i]) != JudgementOf(h, h.tokens[j])
      && JudgementOf(h, h.tokens[i]).challenge != JudgementOf(h, h.tokens[j]).challenge
  {
    Provenance(cfg, run, n, i);
    Provenance(cfg, run, n, j);
    InvariantsHold(cfg, run, n, LastTime(run, n));
    Unshared(cfg, StateAt(cfg, run, n), i, j, LastTime(run, n));
    hide *;
  }

  lemma Unshared(cfg: Config, s: State, i: nat, j: nat, now: Time)
    requires Inv(cfg, s, now) && i < j < |s.h.tokens|
    requires Recorded(s.h, s.h.tokens[i]) && SameParties(cfg, s, s.h.tokens[i]) && InTime(s.h, s.h.tokens[i])
    requires Recorded(s.h, s.h.tokens[j]) && SameParties(cfg, s, s.h.tokens[j]) && InTime(s.h, s.h.tokens[j])
    ensures var a, b := s.h.tokens[i], s.h.tokens[j];
      && a.code != b.code && s.h.issued[a.code].rid != s.h.issued[b.code].rid
      && JudgementOf(s.h, a) != JudgementOf(s.h, b) && JudgementOf(s.h, a).challenge != JudgementOf(s.h, b).challenge
  {
    var a, b := s.h.tokens[i], s.h.tokens[j];
    assert a.code != b.code;
    assert s.h.issued[a.code].rid != s.h.issued[b.code].rid;
    hide FinishesOk;
    hide ExchangesOk;
    hide OneCodePerRequest;
    hide TokensOk;
    hide PutsOnRails;
    hide PendingWasPut;
    hide ConsumptionsOk;
    hide IssuancesOk;
    hide CodesOk;
    hide RedemptionsOk;
  }

  /** However the calls of the finish endpoint interleave, and however many of them
      hold a verified assertion for the same request, it gets at most one code. */
  lemma OneCodePerAuthorization(cfg: Config, run: seq<Event>, n: nat, c: string, d: string)
    requires ValidRun(cfg, run) && n <= |run|
    requires var issued := StateAt(cfg, run, n).h.issued; c in issued && d in issued && issued[c].rid == issued[d].rid
    ensures c == d
  {
    InvariantsHold(cfg, run, n, LastTime(run, n));
  }

  // ----------------------------------------- from the record to the events

  /** Step i of the run is the authorization request that put this one aside. */
  ghost predicate PutBy(cfg: Config, run: seq<Event>, i: nat, rid: string, put: Put)
    requires i < |run|
  {
    && run[i].step.AuthorizeRequest? && run[i].step.rid == rid && run[i].now == put.at
    && Validate(StateAt(cfg, run, i).clients, run[i].step.params) == Validated.Accepted(put.request)
  }

  lemma {:induction false} RequestsWereValidated(cfg: Config, run: seq<Event>, n: nat, rid: string) returns (i: nat)
    requires n <= |run| && rid in StateAt(cfg, run, n).h.puts
    ensures i < n && PutBy(cfg, run, i, rid, StateAt(cfg, run, n).h.puts[rid])
  {
    hide Next;
    hide Validate;
    var s, e := StateAt(cfg, run, n - 1), run[n - 1];
    PutsChange(cfg, s, e, rid);
    if rid in s.h.puts && StateAt(cfg, run, n).h.puts[rid] == s.h.puts[rid] {
      i := RequestsWereValidated(cfg, run, n - 1, rid);
    } else {
      i := n - 1;
    }
  }

  lemma PutsChange(cfg: Config, s: State, e: Event, rid: string)
    requires rid in Next(cfg, s, e).h.puts
    ensures || (rid in s.h.puts && Next(cfg, s, e).h.puts[rid] == s.h.puts[rid])
            || (e.step.AuthorizeRequest? && e.step.rid == rid
                && Validate(s.clients, e.step.params).Accepted?
                && Next(cfg, s, e).h.puts[rid] == Put(Validate(s.clients, e.step.params).request, e.now))
  {
    StepFrame(cfg, s, e);
    if e.step.AuthorizeRequest? {
      AuthorizePuts(cfg, s, e, rid);
    }
    hide Next;
    hide Validate;
  }

  lemma AuthorizePuts(cfg: Config, s: State, e: Event, rid: string)
    requires e.step.AuthorizeRequest?
    ensures var v, puts := Validate(s.clients, e.step.params), Next(cfg, s, e).h.puts;
      puts == if v.Accepted? then s.h.puts[e.step.rid := Put(v.request, e.now)] else s.h.puts
  {
    hide Validate;
    hide AfterPut;
  }

  /** The Guard answered `j` to a call that held j's challenge and credential, and it
      verified exactly when the credential's key had signed a login over that challenge
      for our origin and relying party, with the user present and a counter that is zero
      or ahead; that counter is in the verdict. */
  ghost predicate JudgedBy(cfg: Config, s: State, e: Event, j: Judgement)
  {
    && e.step.AskGuard? && e.step.reachable && e.step.p in s.finishes
    && var f := s.finishes[e.step.p];
       && f.Identified? && f.req.rid == j.rid && f.challenge == j.challenge && f.cred == j.cred
       && (j.verdict.Verified? <==>
             WebAuthn.Genuine(e.step.signed, j.cred.publicKey, j.cred.keyParses, f.req.assertion, cfg.rpIdHash, cfg.origin, j.challenge)
             && WebAuthn.CountIsAhead(f.req.assertion.authenticatorData, j.cred.signCount))
       && (j.verdict.Verified? ==> j.verdict.newSignCount == WebAuthn.SignCount(f.req.assertion.authenticatorData))
  }

  lemma {:induction false} JudgementsWereAsked(cfg: Config, run: seq<Event>, n: nat, j: nat) returns (i: nat)
    requires n <= |run| && j < |StateAt(cfg, run, n).h.judged|
    ensures i < n && JudgedBy(cfg, StateAt(cfg, run, i), run[i], StateAt(cfg, run, n).h.judged[j])
  {
    hide Next;
    hide JudgedBy;
    var s, e := StateAt(cfg, run, n - 1), run[n - 1];
    JudgedChange(cfg, s, e);
    if j < |s.h.judged| {
      i := JudgementsWereAsked(cfg, run, n - 1, j);
    } else {
      i := n - 1;
    }
  }

  lemma JudgedChange(cfg: Config, s: State, e: Event)
    ensures var judged := Next(cfg, s, e).h.judged;
      || judged == s.h.judged
      || (|judged| == |s.h.judged| + 1 && judged[..|s.h.judged|] == s.h.judged && JudgedBy(cfg, s, e, judged[|s.h.judged|]))
  {
    StepFrame(cfg, s, e);
    if e.step.AskGuard? {
      AskedIsJudged(cfg, s, e);
      assert Next(cfg, s, e) == AfterAskGuard(cfg, s, e.step.p, e.step.reachable, e.step.signed) by { hide AfterAskGuard; }
    }
    hide Next;
    hide AfterAskGuard;
    hide JudgedBy;
  }

  lemma AskedIsJudged(cfg: Config, s: State, e: Event)
    requires e.step.AskGuard?
    ensures var judged := AfterAskGuard(cfg, s, e.step.p, e.step.reachable, e.step.signed).h.judged;
      || judged == s.h.judged
      || (|judged| == |s.h.judged| + 1 && judged[..|s.h.judged|] == s.h.judged && JudgedBy(cfg, s, e, judged[|s.h.judged|]))
  {
    hide WebAuthn.Verify;
    var p, signed := e.step.p, e.step.signed;
    if p in s.finishes && s.finishes[p].Identified? && e.step.reachable {
      var Identified(req, challenge, cred) := s.finishes[p];
      var exp := WebAuthn.Expectations(cfg.rpIdHash, cfg.origin, challenge, cred.signCount);
      WebAuthn.VerifiedExactly(signed, exp, cred.publicKey, cred.keyParses, req.assertion);
    }
  }
}
