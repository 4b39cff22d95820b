/** The login's finish endpoint and the token endpoint as the server runs them, over
    the stores they share, each tied to the protocol's steps. */
module Handlers {
  import opened Common
  import opened Authorize
  import opened LoginStores
  import opened Protocol
  import opened ProtocolInvariants
  import CodeStores
  import Dpop
  import Tokens
  import WebAuthn

  // -------------------------------------------------------- finish endpoint

  /** One call of finish: its request, what the Guard and the random source do, and
      the clock readings of its store calls. */
  datatype FinishCall = FinishCall(
    req: FinishRequest,
    reachable: bool,
    signed: set<WebAuthn.Signed>,
    random: Option<string>,
    takenAt: Time,
    consumedAt: Time,
    issuedAt: Time)

  const FINISH_STEPS := 7

  function FinishEvent(p: nat, c: FinishCall, k: nat): Event
    requires k < FINISH_STEPS
  {
    match k
    case 0 => Event(StartFinish(p, c.req), c.takenAt)
    case 1 => Event(TakeChallenge(p), c.takenAt)
    case 2 => Event(GetCredential(p), c.takenAt)
    case 3 => Event(AskGuard(p, c.reachable, c.signed), c.takenAt)
    case 4 => Event(UpdateCount(p), c.takenAt)
    case 5 => Event(TakePending(p), c.consumedAt)
    case _ => Event(IssueCode(p, c.random), c.issuedAt)
  }

  /** The first k steps of process p with nothing in between. */
  ghost function FinishAfter(cfg: Config, s: State, p: nat, c: FinishCall, k: nat): State
    requires k <= FINISH_STEPS
  {
    if k == 0 then s else Next(cfg, FinishAfter(cfg, s, p, c, k - 1), FinishEvent(p, c, k - 1))
  }

  /** What the Guard answers; None when it cannot be reached. */
  function GuardAnswer(cfg: Config, c: FinishCall, challenge: Bytes, cred: Credential): Option<WebAuthn.Verdict>
  {
    if !c.reachable then None
    else Some(WebAuthn.Verify(c.signed, WebAuthn.Expectations(cfg.rpIdHash, cfg.origin, challenge, cred.signCount),
                              cred.publicKey, cred.keyParses, c.req.assertion))
  }

  lemma {:induction false} FinishIsOver(cfg: Config, s: State, p: nat, c: FinishCall, k: nat, m: nat)
    requires 1 <= k <= m <= FINISH_STEPS
    requires p in FinishAfter(cfg, s, p, c, k).finishes && FinishAfter(cfg, s, p, c, k).finishes[p].Over?
    ensures FinishAfter(cfg, s, p, c, m) == FinishAfter(cfg, s, p, c, k)
    decreases m
  {
    hide Next;
    if k < m {
      FinishIsOver(cfg, s, p, c, k, m - 1);
      OverIsIdle(cfg, FinishAfter(cfg, s, p, c, m - 1), p, FinishEvent(p, c, m - 1));
    }
  }

  lemma OverIsIdle(cfg: Config, s: State, p: nat, e: Event)
    requires p in s.finishes && s.finishes[p].Over?
    requires e.step == TakeChallenge(p) || e.step == GetCredential(p) || e.step == UpdateCount(p) || e.step == TakePending(p)
          || (e.step.AskGuard? && e.step.p == p) || (e.step.IssueCode? && e.step.p == p)
    ensures Next(cfg, s, e) == s
  {
  }

  /** The challenge begun for the request is there, and the credential that answers it is registered. */
  ghost predicate Identifies(s: State, c: FinishCall)
  {
    && c.req.rid in s.challenges && c.takenAt <= s.challenges[c.req.rid].expiresAt
    && c.req.decodes && c.req.credentialId in s.creds
  }

  /** And that credential's key signed a login over that challenge, for this origin and
      relying party with the user present, its counter zero or ahead. */
  ghost predicate Authenticates(cfg: Config, s: State, c: FinishCall)
  {
    && Identifies(s, c) && c.reachable
    && var cred := s.creds[c.req.credentialId];
       && WebAuthn.Genuine(c.signed, cred.publicKey, cred.keyParses, c.req.assertion, cfg.rpIdHash, cfg.origin, s.challenges[c.req.rid].value)
       && WebAuthn.CountIsAhead(c.req.assertion.authenticatorData, cred.signCount)
  }

  /** What the code stands for: the request put aside, and whose passkey answered. */
  ghost function GrantOf(r: AuthzRequest, cred: Credential, at: Time): CodeStores.Grant
  {
    CodeStores.Grant(r.clientId, r.redirectUri, r.scope, r.nonce, r.codeChallenge, cred.subjectId, cred.tenantId, at)
  }

  lemma TakenMeans<V>(m: map<string, Expiring<V>>, k: string, now: Time)
    ensures Taken(m, k, now).Some? <==> k in m && now <= m[k].expiresAt
    ensures Taken(m, k, now).Some? ==> Taken(m, k, now).value == m[k].value
  {
  }

  lemma GuardVerifiesExactly(cfg: Config, s: State, c: FinishCall)
    requires Identifies(s, c)
    ensures var answer := GuardAnswer(cfg, c, s.challenges[c.req.rid].value, s.creds[c.req.credentialId]);
      answer.Some? && answer.value.Verified? <==> Authenticates(cfg, s, c)
  {
    var cred := s.creds[c.req.credentialId];
    var exp := WebAuthn.Expectations(cfg.rpIdHash, cfg.origin, s.challenges[c.req.rid].value, cred.signCount);
    WebAuthn.VerifiedExactly(c.signed, exp, cred.publicKey, cred.keyParses, c.req.assertion);
    hide WebAuthn.Verify;
    hide WebAuthn.Genuine;
  }

  class Ceremony {
    const cfg: Config
    const challenges: Challenges
    const credentials: Credentials
    const pending: PendingStore
    const codes: CodeStores.CodeStore

    constructor (cfg: Config, challenges: Challenges, credentials: Credentials, pending: PendingStore, codes: CodeStores.CodeStore)
      ensures this.cfg == cfg && this.challenges == challenges && this.credentials == credentials
      ensures this.pending == pending && this.codes == codes
    {
      this.cfg, this.challenges, this.credentials, this.pending, this.codes := cfg, challenges, credentials, pending, codes;
    }

    /** The stores hold what the protocol state says they hold. */
    ghost predicate Mirrors(s: State)
      reads challenges, credentials, pending, codes
    {
      && challenges.items == s.challenges && credentials.items == s.creds
      && pending.requests == s.pending && codes.codes == s.codes
    }

    /** Begin: a challenge for a request id that is not empty. */
    method Begin(rid: string, random: Option<Bytes>, now: Time, ghost s: State) returns (challenge: Option<Bytes>)
      requires Mirrors(s)
      modifies challenges
      ensures challenge.Some? <==> rid != "" && random.Some?
      ensures challenge.Some? ==> challenge == random && Mirrors(AfterBegin(s, rid, random.value, now))
      ensures challenge.None? ==> Mirrors(s)
    {
      if rid == "" {
        return None;
      }
      challenge := challenges.Issue(rid, random, now);
    }

    /** The first steps of finish: the challenge is gone, and the credential looked up. */
    method Identify(c: FinishCall, ghost s: State, ghost p: nat) returns (challenge: Bytes, cred: Option<Credential>)
      requires Mirrors(s) && p !in s.finishes
      modifies challenges
      ensures var s3 := FinishAfter(cfg, s, p, c, 3);
        && Mirrors(s3) && s3.h.issued == s.h.issued && p in s3.finishes
        && s3.finishes[p] == if cred.Some? then Identified(c.req, challenge, cred.value) else Over
      ensures cred.Some? <==> Identifies(s, c)
      ensures cred.Some? ==> challenge == s.challenges[c.req.rid].value && cred.value == s.creds[c.req.credentialId]
    {
      TakenMeans(s.challenges, c.req.rid, c.takenAt);
      hide FinishAfter;
      hide FinishEvent;
      hide Next;
      hide Taken;
      FinishNext(cfg, s, p, c, 0);
      Starts(cfg, s, p, c);
      FinishNext(cfg, s, p, c, 1);
      Takes(cfg, FinishAfter(cfg, s, p, c, 1), p, c);
      var taken := challenges.Take(c.req.rid, c.takenAt);
      if taken.None? {
        FinishIsOver(cfg, s, p, c, 2, 3);
        return [], None;
      }
      FinishNext(cfg, s, p, c, 2);
      Gets(cfg, FinishAfter(cfg, s, p, c, 2), p, c);
      challenge := taken.value;
      cred := credentials.Get(c.req.credentialId);
      if !c.req.decodes {
        cred := None;
      }
    }

    /** The first half of finish, up to a verified assertion and its counter. */
    method Authenticate(c: FinishCall, ghost s: State, ghost p: nat) returns (cred: Option<Credential>)
      requires Mirrors(s) && p !in s.finishes
      modifies challenges, credentials
      ensures var s5 := FinishAfter(cfg, s, p, c, 5);
        && Mirrors(s5) && s5.h.issued == s.h.issued && p in s5.finishes
        && (cred.None? ==> s5.finishes[p] == Over)
        && (cred.Some? ==> s5.finishes[p].Counted? && s5.finishes[p].rid == c.req.rid && s5.finishes[p].cred == cred.value)
      ensures cred.Some? <==> Authenticates(cfg, s, c)
      ensures cred.Some? ==> cred.value == s.creds[c.req.credentialId]
    {
      hide FinishAfter;
      hide FinishEvent;
      hide Next;
      hide GuardAnswer;
      hide WithSignCount;
      var challenge;
      challenge, cred := Identify(c, s, p);
      if cred.None? {
        FinishIsOver(cfg, s, p, c, 3, 5);
        return None;
      }
      GuardVerifiesExactly(cfg, s, c);
      hide Authenticates;
      FinishNext(cfg, s, p, c, 3);
      Asks(cfg, FinishAfter(cfg, s, p, c, 3), p, c);
      var verdict := GuardAnswer(cfg, c, challenge, cred.value);
      if verdict.None? || !verdict.value.Verified? {
        FinishIsOver(cfg, s, p, c, 4, 5);
        return None;
      }
      FinishNext(cfg, s, p, c, 4);
      Counts(cfg, FinishAfter(cfg, s, p, c, 4), p, c);
      if verdict.value.newSignCount != 0 {
        var _ := credentials.UpdateSignCount(cred.value.id, verdict.value.newSignCount);
      }
    }

    /** Finish. The state of the stores and the record of issued codes are those of
        the protocol's seven steps taken in a row. A code comes back exactly when the
        login authenticates, its request is still there and a code can be drawn, and it
        stands for a minute for that request and the passkey's subject and tenant. */
    method Finish(c: FinishCall, ghost s: State, ghost p: nat) returns (code: Option<string>)
      requires Mirrors(s) && p !in s.finishes
      modifies challenges, credentials, pending, codes
      ensures var s' := FinishAfter(cfg, s, p, c, FINISH_STEPS);
        && Mirrors(s')
        && (code.None? ==> s'.h.issued == s.h.issued)
        && (code.Some? ==> code == c.random && code.value in s'.h.issued && s'.h.issued[code.value].rid == c.req.rid
                           && s'.h.issued[code.value].at == c.issuedAt)
      ensures code.Some? <==>
        && Authenticates(cfg, s, c) && c.random.Some?
        && c.req.rid in s.pending && c.consumedAt <= s.pending[c.req.rid].expiresAt
      ensures code.Some? ==>
        && code.value in codes.codes
        && codes.codes[code.value] == Expiring(GrantOf(s.pending[c.req.rid].value, s.creds[c.req.credentialId], c.issuedAt), c.issuedAt + 60 * SECOND)
    {
      TakenMeans(s.pending, c.req.rid, c.consumedAt);
      hide Authenticates;
      hide FinishAfter;
      hide FinishEvent;
      hide Next;
      hide Taken;
      hide Unexpired;
      var cred := Authenticate(c, s, p);
      if cred.None? {
        FinishIsOver(cfg, s, p, c, 5, FINISH_STEPS);
        return None;
      }
      FinishNext(cfg, s, p, c, 5);
      Consumes(cfg, FinishAfter(cfg, s, p, c, 5), p, c);
      var authz := pending.Take(c.req.rid, c.consumedAt);
      if authz.None? {
        FinishIsOver(cfg, s, p, c, 6, FINISH_STEPS);
        return None;
      }
      FinishNext(cfg, s, p, c, 6);
      Issues(cfg, FinishAfter(cfg, s, p, c, 6), p, c);
      code := codes.Issue(GrantFor(authz.value, cred.value, c.issuedAt), c.random, c.issuedAt);
    }
  }

  // What each step of the call does to the stores and to the call itself.

  ghost predicate KeepsAllBut(s: State, s': State, p: nat, challenges: bool, creds: bool, pending: bool, codes: bool)
  {
    && (!challenges ==> s'.challenges == s.challenges) && (!creds ==> s'.creds == s.creds)
    && (!pending ==> s'.pending == s.pending) && (!codes ==> s'.codes == s.codes && s'.h.issued == s.h.issued)
    && p in s'.finishes
  }

  lemma FinishNext(cfg: Config, s: State, p: nat, c: FinishCall, k: nat)
    requires k < FINISH_STEPS
    ensures FinishAfter(cfg, s, p, c, 0) == s
    ensures FinishAfter(cfg, s, p, c, k + 1) == Next(cfg, FinishAfter(cfg, s, p, c, k), FinishEvent(p, c, k))
  {
    hide Next;
  }

  lemma Starts(cfg: Config, s: State, p: nat, c: FinishCall)
    requires p !in s.finishes
    ensures var s' := Next(cfg, s, FinishEvent(p, c, 0));
      KeepsAllBut(s, s', p, false, false, false, false) && s'.finishes[p] == Asked(c.req)
  {
    assert Next(cfg, s, FinishEvent(p, c, 0)) == AfterStartFinish(s, p, c.req) by { hide AfterStartFinish; }
    hide Next;
  }

  lemma Takes(cfg: Config, s: State, p: nat, c: FinishCall)
    requires p in s.finishes && s.finishes[p] == Asked(c.req)
    ensures var s', rid := Next(cfg, s, FinishEvent(p, c, 1)), c.req.rid;
      && KeepsAllBut(s, s', p, true, false, false, false)
      && s'.challenges == s.challenges - {rid}
      && s'.finishes[p] == match Taken(s.challenges, rid, c.takenAt) case None => Over case Some(v) => Challenged(c.req, v)
  {
    assert Next(cfg, s, FinishEvent(p, c, 1)) == AfterTakeChallenge(s, p, c.takenAt) by { hide AfterTakeChallenge; }
    hide Next;
    hide Taken;
  }

  lemma Gets(cfg: Config, s: State, p: nat, c: FinishCall)
    requires p in s.finishes && s.finishes[p].Challenged? && s.finishes[p].req == c.req
    ensures var s', found := Next(cfg, s, FinishEvent(p, c, 2)), Lookup(s.creds, c.req.credentialId);
      && KeepsAllBut(s, s', p, false, false, false, false)
      && s'.finishes[p] == if found.Some? && c.req.decodes then Identified(c.req, s.finishes[p].challenge, found.value) else Over
  {
    assert Next(cfg, s, FinishEvent(p, c, 2)) == AfterGetCredential(s, p) by { hide AfterGetCredential; }
    hide Next;
  }

  lemma Asks(cfg: Config, s: State, p: nat, c: FinishCall)
    requires p in s.finishes && s.finishes[p].Identified? && s.finishes[p].req == c.req
    ensures var s', cred := Next(cfg, s, FinishEvent(p, c, 3)), s.finishes[p].cred;
      var verdict := GuardAnswer(cfg, c, s.finishes[p].challenge, cred);
      && KeepsAllBut(s, s', p, false, false, false, false)
      && s'.finishes[p] == if verdict.Some? && verdict.value.Verified?
                           then Verified(c.req.rid, cred, verdict.value.newSignCount, |s.h.judged|) else Over
  {
    assert Next(cfg, s, FinishEvent(p, c, 3)) == AfterAskGuard(cfg, s, p, c.reachable, c.signed) by { hide AfterAskGuard; }
    hide Next;
    hide WebAuthn.Verify;
  }

  lemma Counts(cfg: Config, s: State, p: nat, c: FinishCall)
    requires p in s.finishes && s.finishes[p].Verified?
    ensures var s', f := Next(cfg, s, FinishEvent(p, c, 4)), s.finishes[p];
      && KeepsAllBut(s, s', p, false, true, false, false)
      && s'.creds == (if f.count == 0 then s.creds else WithSignCount(s.creds, f.cred.id, f.count))
      && s'.finishes[p] == Counted(f.rid, f.cred, f.judgement)
  {
    assert Next(cfg, s, FinishEvent(p, c, 4)) == AfterUpdateCount(s, p) by { hide AfterUpdateCount; }
    hide Next;
    hide WithSignCount;
    hide CountsOf;
  }

  lemma Consumes(cfg: Config, s: State, p: nat, c: FinishCall)
    requires p in s.finishes && s.finishes[p].Counted?
    ensures var s', f := Next(cfg, s, FinishEvent(p, c, 5)), s.finishes[p];
      && KeepsAllBut(s, s', p, false, false, true, false)
      && s'.pending == s.pending - {f.rid}
      && s'.finishes[p] == match Taken(s.pending, f.rid, c.consumedAt)
                           case None => Over
                           case Some(r) => Consumed(f.rid, f.cred, f.judgement, r)
  {
    assert Next(cfg, s, FinishEvent(p, c, 5)) == AfterTakePending(s, p, c.consumedAt) by { hide AfterTakePending; }
    hide Next;
    hide Taken;
  }

  lemma Issues(cfg: Config, s: State, p: nat, c: FinishCall)
    requires p in s.finishes && s.finishes[p].Consumed?
    ensures var s', f := Next(cfg, s, FinishEvent(p, c, 6)), s.finishes[p];
      var g := GrantFor(f.request, f.cred, c.issuedAt);
      && KeepsAllBut(s, s', p, false, false, false, true)
      && if c.random.None? then s'.codes == s.codes && s'.h.issued == s.h.issued
         else
           && s'.codes == Unexpired(s.codes, c.issuedAt)[c.random.value := Expiring(g, c.issuedAt + CodeStores.CODE_TTL)]
           && s'.h.issued == s.h.issued[c.random.value := Issuance(f.rid, g, c.issuedAt)]
  {
    assert Next(cfg, s, FinishEvent(p, c, 6)) == AfterIssueCode(s, p, c.random, c.issuedAt) by { hide AfterIssueCode; }
    hide Next;
    hide Unexpired;
  }

  // --------------------------------------------------------- token endpoint

  /** One call of the token endpoint. `proof` is None without a proof header, and
      `proofs` is what clients' keys ever signed. */
  datatype ExchangeCall = ExchangeCall(
    isPost: bool,
    parses: bool,
    grantType: string,
    req: TokenRequest,
    proof: Option<Dpop.Proof>,
    proofs: set<Dpop.Signed>,
    random: Option<string>,
    signs: bool,
    redeemedAt: Time,
    provedAt: Time,
    sweptAt: Time,
    mintedAt: Time)

  const EXCHANGE_STEPS := 5

  predicate WellFormed(c: ExchangeCall)
  {
    c.isPost && c.parses && c.grantType == "authorization_code"
  }

  /** The jti of the token, None when none can be made. */
  function Jti(c: ExchangeCall): Option<string>
  {
    if c.signs then c.random else None
  }

  function ExchangeEvent(q: nat, c: ExchangeCall, proof: Option<Dpop.Outcome>, k: nat): Event
    requires k < EXCHANGE_STEPS
  {
    match k
    case 0 => Event(StartExchange(q, c.req), c.redeemedAt)
    case 1 => Event(RedeemCode(q), c.redeemedAt)
    case 2 => Event(CheckPkce(q), c.redeemedAt)
    case 3 => Event(CheckProof(q, proof), c.provedAt)
    case _ => Event(MintToken(q, Jti(c)), c.mintedAt)
  }

  /** The first k steps of process q with nothing in between. */
  ghost function ExchangeAfter(cfg: Config, s: State, q: nat, c: ExchangeCall, proof: Option<Dpop.Outcome>, k: nat): State
    requires k <= EXCHANGE_STEPS
  {
    if k == 0 then s else Next(cfg, ExchangeAfter(cfg, s, q, c, proof, k - 1), ExchangeEvent(q, c, proof, k - 1))
  }

  lemma {:induction false} ExchangeIsDone(cfg: Config, s: State, q: nat, c: ExchangeCall, proof: Option<Dpop.Outcome>, k: nat, m: nat)
    requires 1 <= k <= m <= EXCHANGE_STEPS
    requires Lookup(ExchangeAfter(cfg, s, q, c, proof, k).exchanges, q) == Some(Done)
    ensures ExchangeAfter(cfg, s, q, c, proof, m) == ExchangeAfter(cfg, s, q, c, proof, k)
    decreases m
  {
    hide Next;
    if k < m {
      ExchangeIsDone(cfg, s, q, c, proof, k, m - 1);
      DoneIsIdle(cfg, ExchangeAfter(cfg, s, q, c, proof, m - 1), q, ExchangeEvent(q, c, proof, m - 1));
    }
  }

  lemma DoneIsIdle(cfg: Config, s: State, q: nat, e: Event)
    requires q in s.exchanges && s.exchanges[q].Done?
    requires e.step == RedeemCode(q) || e.step == CheckPkce(q)
          || (e.step.CheckProof? && e.step.q == q) || (e.step.MintToken? && e.step.q == q)
    ensures Next(cfg, s, e) == s
  {
  }

  /** A POST exchange with all its parameters, whose unexpired code was issued to its
      client and redirect, and for a challenge that its verifier opens. */
  ghost predicate CodeFits(codes: map<string, CodeStores.Stored>, c: ExchangeCall)
  {
    && c.isPost && c.parses && c.grantType == "authorization_code"
    && c.req.code != "" && c.req.clientId != "" && c.req.redirectUri != "" && c.req.verifier != ""
    && c.req.code in codes && c.redeemedAt <= codes[c.req.code].expiresAt
    && var g := codes[c.req.code].value;
       && g.clientId == c.req.clientId && g.redirectUri == c.req.redirectUri
       && g.codeChallenge == Tokens.Sha256(c.req.verifier) && 43 <= |c.req.verifier| <= 128
  }

  lemma FitsWhenGranted(codes: map<string, CodeStores.Stored>, c: ExchangeCall)
    ensures var r := CodeStores.RedeemFrom(codes, c.req.code, c.req.clientId, c.req.redirectUri, c.redeemedAt);
      && (CodeFits(codes, c) <==> WellFormed(c) && Complete(c.req) && r.Granted? && VerifyPkce(c.req.verifier, r.grant.codeChallenge).None?)
      && (r.Granted? ==> c.req.code in codes && r.grant == codes[c.req.code].value)
  {
  }

  /** The call shows a new proof for a POST to the token endpoint, fresh and signed by the key it names. */
  ghost predicate ShowsKey(c: ExchangeCall, tokenUri: Option<Dpop.Uri>, items: map<string, Time>, max: nat)
  {
    && c.proof.Some? && Dpop.Fits(c.proofs, c.proof.value, "POST", tokenUri, c.provedAt)
    && Dpop.IsNew(items, max, c.proof.value.payload.value.jti, c.sweptAt)
  }

  /** The token of a call: its code's subject, tenant and scope, ten minutes of life, and
      the key it showed. */
  ghost function TokenOf(cfg: Config, g: CodeStores.Grant, c: ExchangeCall, key: Option<Tokens.Key>): Tokens.Claims
    requires c.random.Some?
  {
    Tokens.Claims(cfg.issuer, g.subjectId, cfg.audience, g.tenantId, g.scope,
      Unix(c.mintedAt), Unix(c.mintedAt), Unix(c.mintedAt + 10 * MINUTE), c.random.value,
      if key.None? then None else Some(Tokens.Sha256(key.value)))
  }

  lemma TokenIsStamped(cfg: Config, g: CodeStores.Grant, c: ExchangeCall, key: Option<Tokens.Key>)
    requires c.random.Some?
    ensures var confirm := if key.None? then None else Some(Tokens.Sha256(key.value));
      && TokenOf(cfg, g, c, key) == ClaimsFor(cfg, g, confirm, c.mintedAt, c.random.value)
      && ClaimsFor(cfg, g, confirm, c.mintedAt, c.random.value)
         == Tokens.Stamped(cfg.issuer, Tokens.Claims("", g.subjectId, cfg.audience, g.tenantId, g.scope, 0, 0, 0, "", confirm),
                           Tokens.ACCESS_TOKEN_TTL, c.mintedAt, c.random.value)
  {
  }

  class TokenEndpoint {
    const cfg: Config
    const tokenUri: Option<Dpop.Uri>
    const codes: CodeStores.CodeStore
    const dpop: Dpop.Verifier?

    constructor (cfg: Config, tokenUri: Option<Dpop.Uri>, codes: CodeStores.CodeStore, dpop: Dpop.Verifier?)
      ensures this.cfg == cfg && this.tokenUri == tokenUri && this.codes == codes && this.dpop == dpop
    {
      this.cfg, this.tokenUri, this.codes, this.dpop := cfg, tokenUri, codes, dpop;
    }

    /** What the proof check comes to against the cache; a missing proof is refused. */
    function ProofOutcome(c: ExchangeCall): Option<Dpop.Outcome>
      reads if dpop != null then {dpop.seen} else {}
    {
      if dpop == null then None
      else if c.proof.None? then Some(Dpop.Refused(Dpop.Malformed))
      else Some(Dpop.Judge(c.proofs, dpop.seen.items, dpop.seen.max, c.proof.value, Dpop.AtTokenEndpoint(tokenUri), c.provedAt, c.sweptAt))
    }

    /** The first half, up to a redeemed code whose verifier fits. */
    method Redeem(c: ExchangeCall, ghost s: State, ghost q: nat, ghost proof: Option<Dpop.Outcome>) returns (grant: Option<CodeStores.Grant>)
      requires codes.codes == s.codes && q !in s.exchanges
      modifies codes
      ensures var s3 := ExchangeAfter(cfg, s, q, c, proof, 3);
        && codes.codes == s3.codes && s3.h.tokens == s.h.tokens
        && Lookup(s3.exchanges, q) == Some(if grant.Some? then KeyChecked(c.req, grant.value) else Done)
      ensures WellFormed(c) ==> (grant.Some? <==> CodeFits(s.codes, c))
      ensures WellFormed(c) && grant.Some? ==> grant.value == s.codes[c.req.code].value
    {
      FitsWhenGranted(s.codes, c);
      hide CodeFits;
      hide WellFormed;
      hide ExchangeAfter;
      hide ExchangeEvent;
      hide Next;
      hide CodeStores.RedeemFrom;
      hide VerifyPkce;
      ExchangeNext(cfg, s, q, c, proof, 0);
      Opens(cfg, s, q, c, proof);
      if !Complete(c.req) {
        ExchangeIsDone(cfg, s, q, c, proof, 1, 3);
        return None;
      }
      ExchangeNext(cfg, s, q, c, proof, 1);
      Redeems(cfg, ExchangeAfter(cfg, s, q, c, proof, 1), q, c, proof);
      var redeemed := codes.Redeem(c.req.code, c.req.clientId, c.req.redirectUri, c.redeemedAt);
      if redeemed.Refused? {
        ExchangeIsDone(cfg, s, q, c, proof, 2, 3);
        return None;
      }
      ExchangeNext(cfg, s, q, c, proof, 2);
      ChecksPkce(cfg, ExchangeAfter(cfg, s, q, c, proof, 2), q, c, proof);
      grant := if VerifyPkce(c.req.verifier, redeemed.grant.codeChallenge).None? then Some(redeemed.grant) else None;
    }

    /** The proof of possession, if this server asks for one; a missing proof is refused. */
    method CheckPossession(c: ExchangeCall) returns (proof: Option<Dpop.Outcome>)
      modifies if dpop != null then {dpop.seen} else {}
      ensures proof == old(ProofOutcome(c)) && (proof.None? <==> dpop == null)
      ensures dpop != null ==>
        && (proof.value.Accepted? <==> ShowsKey(c, tokenUri, old(dpop.seen.items), old(dpop.seen.max)))
        && (proof.value.Accepted? ==>
              && c.proof.Some? && c.proof.value.header.Some? && c.proof.value.header.value.key.Some?
              && proof.value.thumbprint == Tokens.Sha256(c.proof.value.header.value.key.value))
        && dpop.seen.items == if c.proof.None? then old(dpop.seen.items)
             else Dpop.AfterJudge(c.proofs, old(dpop.seen.items), old(dpop.seen.max), c.proof.value, Dpop.AtTokenEndpoint(tokenUri), c.provedAt, c.sweptAt)
    {
      hide Dpop.Judge;
      hide Dpop.AfterJudge;
      hide Dpop.IsNew;
      if dpop == null {
        return None;
      }
      if c.proof.None? {
        return Some(Dpop.Refused(Dpop.Malformed));
      }
      var p := c.proof.value;
      var signatureOk := p.header.Some? && p.header.value.key.Some? && p.payload.Some?
        && Dpop.Signed(p.header.value.key.value, p.header.value, p.payload.value) in c.proofs;
      var outcome := dpop.Verify(c.proofs, signatureOk, p, Dpop.AtTokenEndpoint(tokenUri), c.provedAt, c.sweptAt);
      proof := Some(outcome);
    }

    /** The code store and the record of tokens are those of the protocol's five steps
        taken in a row, the answer is the token they mint, and the proof is spent only
        once the code is redeemed and its verifier fits. A token comes back exactly when
        the code fits, the proof is one for a POST to this endpoint, fresh, new and signed
        by its key, and a token can be made; it is bound to that key. */
    method ServeHTTP(c: ExchangeCall, ghost s: State, ghost q: nat) returns (token: Option<Tokens.Claims>)
      requires codes.codes == s.codes && q !in s.exchanges
      modifies codes, if dpop != null then {dpop.seen} else {}
      ensures !WellFormed(c) ==> token.None? && codes.codes == s.codes
      ensures WellFormed(c) ==>
        var s' := ExchangeAfter(cfg, s, q, c, old(ProofOutcome(c)), EXCHANGE_STEPS);
        && codes.codes == s'.codes
        && s'.h.tokens == s.h.tokens + if token.None? then [] else [Minted(c.req.code, c.req.verifier, token.value, c.mintedAt)]
      ensures dpop != null ==>
        dpop.seen.items == (if CodeFits(s.codes, c) && c.proof.Some?
                            then Dpop.AfterJudge(c.proofs, old(dpop.seen.items), old(dpop.seen.max), c.proof.value, Dpop.AtTokenEndpoint(tokenUri), c.provedAt, c.sweptAt)
                            else old(dpop.seen.items))
      ensures token.Some? <==>
        && CodeFits(s.codes, c) && c.random.Some? && c.signs
        && (dpop != null ==> ShowsKey(c, tokenUri, old(dpop.seen.items), old(dpop.seen.max)))
      ensures token.Some? ==>
        token.value == TokenOf(cfg, s.codes[c.req.code].value, c, if dpop == null then None else c.proof.value.header.value.key)
    {
      FitsWhenGranted(s.codes, c);
      hide ProofOutcome;
      hide ShowsKey;
      hide CodeFits;
      hide TokenOf;
      hide ClaimsFor;
      hide Tokens.Stamped;
      hide WellFormed;
      hide ExchangeAfter;
      hide ExchangeEvent;
      hide Next;
      hide VerifyPkce;
      hide Complete;
      hide CodeStores.RedeemFrom;
      hide Dpop.AfterJudge;
      if !WellFormed(c) {
        return None;
      }
      ghost var proof := ProofOutcome(c);
      var grant := Redeem(c, s, q, proof);
      if grant.None? {
        ExchangeIsDone(cfg, s, q, c, proof, 3, EXCHANGE_STEPS);
        return None;
      }
      ExchangeNext(cfg, s, q, c, proof, 3);
      ChecksProof(cfg, ExchangeAfter(cfg, s, q, c, proof, 3), q, c, proof);
      var outcome := CheckPossession(c);
      if outcome.Some? && outcome.value.Refused? {
        ExchangeIsDone(cfg, s, q, c, proof, 4, EXCHANGE_STEPS);
        return None;
      }
      var confirm := if outcome.None? then None else Some(outcome.value.thumbprint);
      ExchangeNext(cfg, s, q, c, proof, 4);
      Mints(cfg, ExchangeAfter(cfg, s, q, c, proof, 4), q, c, proof);
      if c.random.Some? {
        TokenIsStamped(cfg, grant.value, c, if dpop == null then None else c.proof.value.header.value.key);
      }
      token := Tokens.Issue(cfg.issuer,
        Tokens.Claims("", grant.value.subjectId, cfg.audience, grant.value.tenantId, grant.value.scope, 0, 0, 0, "", confirm),
        Tokens.ACCESS_TOKEN_TTL, c.mintedAt, c.random, c.signs);
    }
  }

  // What each step of the call does to the code store and to the call itself.

  lemma ExchangeNext(cfg: Config, s: State, q: nat, c: ExchangeCall, proof: Option<Dpop.Outcome>, k: nat)
    requires k < EXCHANGE_STEPS
    ensures ExchangeAfter(cfg, s, q, c, proof, 0) == s
    ensures ExchangeAfter(cfg, s, q, c, proof, k + 1) == Next(cfg, ExchangeAfter(cfg, s, q, c, proof, k), ExchangeEvent(q, c, proof, k))
  {
    hide Next;
  }

  lemma Opens(cfg: Config, s: State, q: nat, c: ExchangeCall, proof: Option<Dpop.Outcome>)
    requires q !in s.exchanges
    ensures var s' := Next(cfg, s, ExchangeEvent(q, c, proof, 0));
      && s'.codes == s.codes && s'.h.tokens == s.h.tokens
      && Lookup(s'.exchanges, q) == Some(if Complete(c.req) then Presented(c.req) else Done)
  {
  }

  lemma Redeems(cfg: Config, s: State, q: nat, c: ExchangeCall, proof: Option<Dpop.Outcome>)
    requires Lookup(s.exchanges, q) == Some(Presented(c.req))
    ensures var s' := Next(cfg, s, ExchangeEvent(q, c, proof, 1));
      && s'.codes == s.codes - {c.req.code} && s'.h.tokens == s.h.tokens
      && Lookup(s'.exchanges, q)
         == match CodeStores.RedeemFrom(s.codes, c.req.code, c.req.clientId, c.req.redirectUri, c.redeemedAt)
            case Granted(g) => Some(Redeemed(c.req, g))
            case Refused(_) => Some(Done)
  {
    assert Next(cfg, s, ExchangeEvent(q, c, proof, 1)) == AfterRedeemCode(s, q, c.redeemedAt) by { hide AfterRedeemCode; }
    hide Next;
    hide CodeStores.RedeemFrom;
  }

  lemma ChecksPkce(cfg: Config, s: State, q: nat, c: ExchangeCall, proof: Option<Dpop.Outcome>)
    requires q in s.exchanges && s.exchanges[q].Redeemed?
    ensures var s', x := Next(cfg, s, ExchangeEvent(q, c, proof, 2)), s.exchanges[q];
      && s'.codes == s.codes && s'.h.tokens == s.h.tokens
      && Lookup(s'.exchanges, q) == Some(if VerifyPkce(x.req.verifier, x.grant.codeChallenge).None? then KeyChecked(x.req, x.grant) else Done)
  {
    assert Next(cfg, s, ExchangeEvent(q, c, proof, 2)) == AfterCheckPkce(s, q) by { hide AfterCheckPkce; }
    hide Next;
    hide VerifyPkce;
  }

  lemma ChecksProof(cfg: Config, s: State, q: nat, c: ExchangeCall, proof: Option<Dpop.Outcome>)
    requires q in s.exchanges && s.exchanges[q].KeyChecked?
    ensures var s', x := Next(cfg, s, ExchangeEvent(q, c, proof, 3)), s.exchanges[q];
      && s'.codes == s.codes && s'.h.tokens == s.h.tokens
      && Lookup(s'.exchanges, q) == Some(if proof.None? then Proved(x.req, x.grant, None)
                                         else if proof.value.Accepted? then Proved(x.req, x.grant, Some(proof.value.thumbprint))
                                         else Done)
  {
    assert Next(cfg, s, ExchangeEvent(q, c, proof, 3)) == AfterCheckProof(s, q, proof) by { hide AfterCheckProof; }
    hide Next;
  }

  lemma Mints(cfg: Config, s: State, q: nat, c: ExchangeCall, proof: Option<Dpop.Outcome>)
    requires q in s.exchanges && s.exchanges[q].Proved?
    ensures var s', x := Next(cfg, s, ExchangeEvent(q, c, proof, 4)), s.exchanges[q];
      && s'.codes == s.codes
      && s'.h.tokens == s.h.tokens
           + if Jti(c).None? then []
             else [Minted(x.req.code, x.req.verifier, ClaimsFor(cfg, x.grant, x.confirm, c.mintedAt, Jti(c).value), c.mintedAt)]
  {
    assert Next(cfg, s, ExchangeEvent(q, c, proof, 4)) == AfterMintToken(cfg, s, q, Jti(c), c.mintedAt) by { hide AfterMintToken; }
    hide Next;
    hide ClaimsFor;
  }
}
